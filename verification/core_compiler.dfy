/**
  The generic part of a core compiler: routing a module to the handler for
  its `__std` annotation, the default handlers a target does not override,
  and the `check_io` validator targets use to check a module's ports.
 */
module CoreCompiler {

  // ---------------------------------------------------------------- check_io

  /** The rule `check_io` applies to one side of a module: with a limit of 0
      the side must have no port at all, otherwise it may have at most one
      port, no wider than the limit. `widths` lists the side's port widths. */
  predicate PortsFit(widths: seq<nat>, limit: nat) {
    if limit == 0 then |widths| == 0
    else |widths| <= 1 && forall j :: 0 <= j < |widths| ==> widths[j] <= limit
  }

  /** `check_io(md, is, os)`, with `is` and `os` written `inLimit` and
      `outLimit`, on a module whose inputs have widths `inputs` and whose
      outputs have widths `outputs`. */
  function CheckIo(inputs: seq<nat>, outputs: seq<nat>, inLimit: nat, outLimit: nat): (r: bool)
    ensures r <==> PortsFit(inputs, inLimit) && PortsFit(outputs, outLimit)
  {
    if inLimit == 0 && |inputs| != 0 then false
    else if inLimit != 0 && |inputs| == 1 && inputs[0] > inLimit then false
    else if inLimit != 0 && |inputs| > 1 then false
    else if outLimit == 0 && |outputs| != 0 then false
    else if outLimit != 0 && |outputs| == 1 && outputs[0] > outLimit then false
    else if outLimit != 0 && |outputs| > 1 then false
    else true
  }

  /** The individual rejections and acceptances of `check_io`. */
  lemma CheckIoCases(inputs: seq<nat>, outputs: seq<nat>, inLimit: nat, outLimit: nat)
    ensures inLimit == 0 && |inputs| > 0 ==> !CheckIo(inputs, outputs, inLimit, outLimit)
    ensures inLimit > 0 && |inputs| > 1 ==> !CheckIo(inputs, outputs, inLimit, outLimit)
    ensures inLimit > 0 && |inputs| == 1 && inputs[0] > inLimit ==> !CheckIo(inputs, outputs, inLimit, outLimit)
    ensures outLimit == 0 && |outputs| > 0 ==> !CheckIo(inputs, outputs, inLimit, outLimit)
    ensures outLimit > 0 && |outputs| > 1 ==> !CheckIo(inputs, outputs, inLimit, outLimit)
    ensures outLimit > 0 && |outputs| == 1 && outputs[0] > outLimit ==> !CheckIo(inputs, outputs, inLimit, outLimit)
    ensures inLimit > 0 && outLimit > 0 && |inputs| == 0 && |outputs| == 0 ==> CheckIo(inputs, outputs, inLimit, outLimit)
  {
  }

  // ---------------------------------------------------------------- dispatch

  /** The handlers `compile` can route a module to. */
  datatype Handler = ClockHandler | GpioHandler | LedHandler | LogicHandler | PadHandler | ResetHandler | CustomHandler

  /** The `__std` tag each dedicated handler serves. */
  function TagOf(h: Handler): string
    requires h != CustomHandler
  {
    match h
    case ClockHandler => "clock"
    case GpioHandler => "gpio"
    case LedHandler => "led"
    case LogicHandler => "logic"
    case PadHandler => "pad"
    case ResetHandler => "reset"
  }

  const KnownTags: set<string> := {"clock", "gpio", "led", "logic", "pad", "reset"}

  /** The `__std` tag chain of `compile`. */
  function Dispatch(tag: string): (h: Handler)
    ensures h == CustomHandler <==> tag !in KnownTags
    ensures h != CustomHandler ==> TagOf(h) == tag
  {
    if tag == "clock" then ClockHandler
    else if tag == "gpio" then GpioHandler
    else if tag == "led" then LedHandler
    else if tag == "logic" then LogicHandler
    else if tag == "pad" then PadHandler
    else if tag == "reset" then ResetHandler
    else CustomHandler
  }

  /** Every dedicated handler is reached by exactly its own tag. */
  lemma DispatchRoundTrip(h: Handler)
    requires h != CustomHandler
    ensures Dispatch(TagOf(h)) == h
    ensures TagOf(h) in KnownTags
  {
  }

  /** What a handler hands back: whether it returned a core (non-null), and
      whether it reported an error to the diagnostic sink. */
  datatype Reply = Reply(core: bool, reportedError: bool)

  /** The default handlers of the base class: none of them builds anything. */
  function BaseHandler(h: Handler): (r: Reply)
    ensures !r.core && r.reportedError
  {
    match h
    case ClockHandler => Reply(false, true)
    case GpioHandler => Reply(false, true)
    case LedHandler => Reply(false, true)
    case LogicHandler => Reply(false, true)
    case PadHandler => Reply(false, true)
    case ResetHandler => Reply(false, true)
    case CustomHandler => Reply(false, true)
  }

  /** `compile` on a compiler that overrides no handler: the module is
      routed by its tag and refused with an error, whatever the tag. */
  function BaseCompile(tag: string): (r: (Handler, Reply))
    ensures (r.0 == CustomHandler) == (tag !in KnownTags)
    ensures !r.1.core && r.1.reportedError
  {
    var h := Dispatch(tag);
    (h, BaseHandler(h))
  }
}
