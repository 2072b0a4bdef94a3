/**
  The top-level Avalon-MM dispatcher (`program_logic`) that `get_text` emits
  over every occupied slot, modelled as the structure of the emitted Verilog:
  the per-module declarations, the address split, one instance per occupied
  slot, the case arms of the output demultiplexer and the wait-request
  assignment. `Eval` gives that structure its combinational meaning.
 */
module BusAdapter {
  import opened Slots

  /** `M` and `V` are `size_t` template parameters; `M-1`, `V-1` and `V+M-1`
      are printed after `size_t` arithmetic, so they wrap modulo 2^64. */
  const SizeMod: nat := 0x1_0000_0000_0000_0000

  type SizeT = x: nat | x < 0x1_0000_0000_0000_0000

  function Wrap(x: int): (r: SizeT) {
    x % SizeMod
  }

  /** The device parameters: module-id width `M`, variable-id width `V`, and
      the binary digits of the address type `A` and data type `T`. */
  datatype Params = Params(m: SizeT, v: SizeT, addrDigits: nat, dataDigits: nat)

  /** A Verilog bit range `[hi:lo]`. */
  datatype Range = Range(hi: int, lo: int)

  /** The bus strobes `s0_read` and `s0_write`. */
  datatype Strobe = Read | Write

  /** The enable `(__mid == mid) & s0_<strobe>` wired to a sub-module port. */
  datatype Enable = Enable(mid: nat, strobe: Strobe)

  /** Instance `m<index>` of module `M<index>`. Its remaining connections are
      fixed: `.__clk(clk)`, `.__vid(__vid)`, `.__in(s0_writedata)`,
      `.__out(m<index>_out)` and `.__wait(m<index>_wait)`. */
  datatype Instance = Instance(index: nat, outWidth: Range, readEnable: Enable, writeEnable: Enable)

  datatype Label = MidIs(mid: nat) | Default

  datatype Signal = ModuleOut(index: nat) | ModuleWait(index: nat) | Const(value: nat)

  /** A case arm `key: begin rd = <rd>; wr = <wr>; end`. */
  datatype CaseArm = CaseArm(key: Label, rd: Signal, wr: Signal)

  /** The emitted text, part by part. `waitGuard` holds the strobes or-ed in
      `(s0_read | s0_write) ? wr : 1'b1` and `waitIdle` the value taken when
      none is set. */
  datatype Adapter = Adapter(
    modules: seq<string>,
    addressPort: Range,
    readDataPort: Range,
    writeDataPort: Range,
    mid: Range,
    midSlice: Range,
    vid: Range,
    vidSlice: Range,
    instances: seq<Instance>,
    rdWidth: Range,
    arms: seq<CaseArm>,
    waitGuard: set<Strobe>,
    waitIdle: nat)

  const DefaultArm := CaseArm(Default, Const(0), Const(0))

  /** The occupied (non-FREE) slot indices at or after `from`, ascending. */
  function OccupiedFrom(t: Table, from: nat): (r: seq<nat>)
    requires from <= |t|
    ensures forall j :: 0 <= j < |r| ==> from <= r[j] < |t| && t[r[j]].state != Free
    ensures forall j, k :: 0 <= j < k < |r| ==> r[j] < r[k]
    ensures forall i :: from <= i < |t| && t[i].state != Free ==> i in r
    decreases |t| - from
  {
    if from == |t| then []
    else if t[from].state != Free then [from] + OccupiedFrom(t, from + 1)
    else OccupiedFrom(t, from + 1)
  }

  function Occupied(t: Table): seq<nat> {
    OccupiedFrom(t, 0)
  }

  function InstanceFor(i: nat, p: Params): Instance {
    Instance(i, Range(p.dataDigits - 1, 0), Enable(i, Write), Enable(i, Read))
  }

  function ArmFor(i: nat): CaseArm {
    CaseArm(MidIs(i), ModuleOut(i), ModuleWait(i))
  }

  /** One arm per occupied slot in order, then the default arm. */
  function ArmsFor(occ: seq<nat>): (r: seq<CaseArm>)
    ensures |r| == |occ| + 1 && r[|occ|] == DefaultArm
    ensures forall j :: 0 <= j < |occ| ==> r[j] == ArmFor(occ[j])
  {
    if |occ| == 0 then [DefaultArm] else [ArmFor(occ[0])] + ArmsFor(occ[1..])
  }

  /** `get_text`: the dispatcher for the occupied slots of `t`. */
  function GetText(t: Table, p: Params): (a: Adapter)
    ensures |a.modules| == |a.instances| && |a.arms| == |a.instances| + 1
  {
    var occ := Occupied(t);
    Adapter(
      seq(|occ|, j requires 0 <= j < |occ| => t[occ[j]].text),
      Range(p.addrDigits - 1, 0),
      Range(p.dataDigits - 1, 0),
      Range(p.dataDigits - 1, 0),
      Range(Wrap(p.m - 1), 0),
      Range(Wrap(p.v + p.m - 1), p.v),
      Range(Wrap(p.v - 1), 0),
      Range(Wrap(p.v - 1), 0),
      seq(|occ|, j requires 0 <= j < |occ| => InstanceFor(occ[j], p)),
      Range(p.dataDigits - 1, 0),
      ArmsFor(occ),
      {Read, Write},
      1)
  }

  /** The dispatcher declares and instantiates exactly the non-FREE slots, in
      ascending slot order, each declaration being that slot's stored text. */
  lemma GetTextInstances(t: Table, p: Params)
    ensures var a := GetText(t, p);
      && (forall j, k :: 0 <= j < k < |a.instances| ==> a.instances[j].index < a.instances[k].index)
      && (forall j :: 0 <= j < |a.instances| ==>
            a.instances[j].index < |t| && t[a.instances[j].index].state != Free &&
            a.modules[j] == t[a.instances[j].index].text)
      && (forall i :: 0 <= i < |t| && t[i].state != Free ==>
            exists j :: 0 <= j < |a.instances| && a.instances[j].index == i)
  {
    var occ := Occupied(t);
    var a := GetText(t, p);
    assert a.instances == seq(|occ|, j requires 0 <= j < |occ| => InstanceFor(occ[j], p));
    assert a.modules == seq(|occ|, j requires 0 <= j < |occ| => t[occ[j]].text);
    InstancesCoverOccupied(t, p, occ, a.instances);
  }

  lemma InstancesCoverOccupied(t: Table, p: Params, occ: seq<nat>, insts: seq<Instance>)
    requires |insts| == |occ| && forall j :: 0 <= j < |occ| ==> insts[j] == InstanceFor(occ[j], p)
    requires forall i :: 0 <= i < |t| && t[i].state != Free ==> i in occ
    ensures forall i :: 0 <= i < |t| && t[i].state != Free ==>
      exists j :: 0 <= j < |insts| && insts[j].index == i
  {
    forall i | 0 <= i < |t| && t[i].state != Free
      ensures exists j :: 0 <= j < |insts| && insts[j].index == i
    {
      var j :| 0 <= j < |occ| && occ[j] == i;
      assert insts[j].index == i;
    }
  }

  /** One case arm per instance, in the same order, selecting that module's
      output and wait signal, then a default arm reading 0 and not waiting;
      the module id is address bits [V+M-1:V] and the variable id bits
      [V-1:0]; the wait request is `wr` while a strobe is set and 1 otherwise. */
  lemma GetTextLayout(t: Table, p: Params)
    ensures var a := GetText(t, p);
      && (forall j :: 0 <= j < |a.instances| ==> a.arms[j] == ArmFor(a.instances[j].index))
      && a.arms[|a.arms| - 1] == DefaultArm
      && a.midSlice == Range(Wrap(p.v + p.m - 1), p.v) && a.mid == Range(Wrap(p.m - 1), 0)
      && a.vidSlice == Range(Wrap(p.v - 1), 0) && a.vid == Range(Wrap(p.v - 1), 0)
      && a.waitGuard == {Read, Write} && a.waitIdle == 1
  {
  }

  /** The sub-module read port `__read` is enabled by the bus WRITE strobe and
      the write port `__write` by the bus READ strobe, exactly as emitted. */
  lemma EnablesAreCrossed(t: Table, p: Params, j: nat)
    requires j < |GetText(t, p).instances|
    ensures var inst := GetText(t, p).instances[j];
      inst.readEnable == Enable(inst.index, Write) && inst.writeEnable == Enable(inst.index, Read)
  {
  }

  lemma {:induction false} OccupiedFromUnique(t1: Table, t2: Table, from: nat)
    requires |t1| == |t2| && from <= |t1|
    requires forall i :: 0 <= i < |t1| ==> (t1[i].state == Free <==> t2[i].state == Free)
    ensures OccupiedFrom(t1, from) == OccupiedFrom(t2, from)
    decreases |t1| - from
  {
    if from < |t1| {
      OccupiedFromUnique(t1, t2, from + 1);
    }
  }

  /** The emitted dispatcher depends only on which slots are occupied and on
      their stored text: ids, and whether an occupied slot is compiling,
      waiting, stopped or current, do not matter; regenerating it over an
      unchanged occupied set gives the same result. */
  lemma {:induction false} GetTextDependsOnOccupied(t1: Table, t2: Table, p: Params)
    requires |t1| == |t2|
    requires forall i :: 0 <= i < |t1| ==> (t1[i].state == Free <==> t2[i].state == Free)
    requires forall i :: 0 <= i < |t1| && t1[i].state != Free ==> t1[i].text == t2[i].text
    ensures GetText(t1, p) == GetText(t2, p)
  {
    OccupiedFromUnique(t1, t2, 0);
  }

  // ---------------------------------------------------------------- meaning

  /** The value of the bits `[hi:lo]` of `x`. */
  function Field(x: nat, r: Range): nat
    requires 0 <= r.lo <= r.hi
  {
    (x / Pow2(r.lo)) % Pow2(r.hi - r.lo + 1)
  }

  /** The first arm of `arms` labelled `key`, if any. */
  function FirstWith(arms: seq<CaseArm>, key: Label): (r: Option<CaseArm>)
    ensures r.Some? ==> r.value in arms && r.value.key == key
    ensures r.None? <==> forall j :: 0 <= j < |arms| ==> arms[j].key != key
  {
    if |arms| == 0 then None
    else if arms[0].key == key then Some(arms[0])
    else FirstWith(arms[1..], key)
  }

  /** The arm a Verilog `case (__mid)` takes: the first arm labelled `__mid`,
      and the `default` arm only when no label matches, wherever it stands. */
  function Select(arms: seq<CaseArm>, mid: nat): Option<CaseArm> {
    var hit := FirstWith(arms, MidIs(mid));
    if hit.Some? then hit else FirstWith(arms, Default)
  }

  function SignalValue(s: Signal, outs: nat -> nat, waits: nat -> nat): nat {
    match s
    case ModuleOut(i) => outs(i)
    case ModuleWait(i) => waits(i)
    case Const(c) => c
  }

  predicate StrobeSet(s: Strobe, read: bool, write: bool) {
    if s == Read then read else write
  }

  /** Whether an instance's enable is asserted for bus module id `mid`. */
  predicate EnableOn(e: Enable, mid: nat, read: bool, write: bool) {
    e.mid == mid && StrobeSet(e.strobe, read, write)
  }

  datatype BusOutput = BusOutput(readData: nat, waitRequest: nat)

  /** What `s0_readdata` and `s0_waitrequest` carry for one bus cycle, given
      the address and strobes and each sub-module's `__out` and `__wait`. */
  function Eval(a: Adapter, address: nat, read: bool, write: bool, outs: nat -> nat, waits: nat -> nat): Option<BusOutput>
    requires 0 <= a.midSlice.lo <= a.midSlice.hi
  {
    var mid := Field(address, a.midSlice);
    match Select(a.arms, mid)
    case None => None
    case Some(arm) =>
      var rd := SignalValue(arm.rd, outs, waits);
      var wr := SignalValue(arm.wr, outs, waits);
      var busy := (Read in a.waitGuard && read) || (Write in a.waitGuard && write);
      Some(BusOutput(rd, if busy then wr else a.waitIdle))
  }

  /** In the arms of the slots `occ`, the arm labelled `mid` is that slot's
      own arm, present exactly when `mid` is occupied, and the default arm is
      always present. */
  lemma {:induction false} ArmsForLabels(occ: seq<nat>, mid: nat)
    ensures FirstWith(ArmsFor(occ), MidIs(mid)) == if mid in occ then Some(ArmFor(mid)) else None
    ensures FirstWith(ArmsFor(occ), Default) == Some(DefaultArm)
  {
    if |occ| > 0 {
      ArmsForLabels(occ[1..], mid);
      assert ArmsFor(occ)[1..] == ArmsFor(occ[1..]);
      assert mid in occ <==> mid == occ[0] || mid in occ[1..];
    }
  }

  lemma SelectArms(occ: seq<nat>, mid: nat)
    ensures mid in occ ==> Select(ArmsFor(occ), mid) == Some(ArmFor(mid))
    ensures mid !in occ ==> Select(ArmsFor(occ), mid) == Some(DefaultArm)
  {
    ArmsForLabels(occ, mid);
  }

  /** The behaviour of any dispatcher whose arms are those of the slots `occ`. */
  lemma EvalArms(a: Adapter, occ: seq<nat>, address: nat, read: bool, write: bool,
                 outs: nat -> nat, waits: nat -> nat)
    requires 0 <= a.midSlice.lo <= a.midSlice.hi
    requires a.arms == ArmsFor(occ) && a.waitGuard == {Read, Write} && a.waitIdle == 1
    ensures var mid := Field(address, a.midSlice);
      var b := Eval(a, address, read, write, outs, waits);
      && (mid in occ ==> b == Some(BusOutput(outs(mid), if read || write then waits(mid) else 1)))
      && (mid !in occ ==> b == Some(BusOutput(0, if read || write then 0 else 1)))
  {
    SelectArms(occ, Field(address, a.midSlice));
  }

  /** The module id of an address is bits [V+M-1:V]. */
  lemma MidField(t: Table, p: Params, address: nat)
    requires 1 <= p.m && 1 <= p.v && p.m + p.v <= SizeMod
    requires p.m + p.v <= p.addrDigits && address < Pow2(p.addrDigits)
    ensures var a := GetText(t, p);
      0 <= a.midSlice.lo <= a.midSlice.hi &&
      Field(address, a.midSlice) == (address / Pow2(p.v)) % Pow2(p.m)
  {
    var a := GetText(t, p);
    GetTextLayout(t, p);
    assert Wrap(p.v + p.m - 1) == p.v + p.m - 1;
    assert a.midSlice == Range(p.v + p.m - 1, p.v);
    assert Field(address, a.midSlice) == (address / Pow2(p.v)) % Pow2(p.v + p.m - 1 - p.v + 1);
  }

  /** The dispatcher's behaviour on the bus: the module id is bits
      `[V+M-1:V]` of the address; an occupied module id gets that module's
      output and wait signal, any other module id reads 0 and never waits;
      and with neither strobe set the bus is always told to wait. Only
      meaningful for M, V at least 1, without `size_t` wrap-around, and
      with the module-id slice inside the `s0_address` port. */
  lemma EvalSpec(t: Table, p: Params, address: nat, read: bool, write: bool, outs: nat -> nat, waits: nat -> nat)
    requires 1 <= p.m && 1 <= p.v && p.m + p.v <= SizeMod
    requires p.m + p.v <= p.addrDigits && address < Pow2(p.addrDigits)
    ensures var a := GetText(t, p);
      var mid := (address / Pow2(p.v)) % Pow2(p.m);
      var occupied := mid < |t| && t[mid].state != Free;
      && Eval(a, address, read, write, outs, waits).Some?
      && var b := Eval(a, address, read, write, outs, waits).value;
      && (occupied ==> b.readData == outs(mid))
      && (!occupied ==> b.readData == 0)
      && (!read && !write ==> b.waitRequest == 1)
      && ((read || write) && occupied ==> b.waitRequest == waits(mid))
      && ((read || write) && !occupied ==> b.waitRequest == 0)
  {
    var a := GetText(t, p);
    GetTextLayout(t, p);
    MidField(t, p, address);
    var occ := Occupied(t);
    assert a.arms == ArmsFor(occ);
    EvalArms(a, occ, address, read, write, outs, waits);
    var mid := (address / Pow2(p.v)) % Pow2(p.m);
    assert (mid < |t| && t[mid].state != Free) <==> mid in occ;
  }

  /** Exactly the instance of the addressed occupied slot has an asserted
      enable, and only while a strobe is set: its `__read` port follows
      `s0_write` and its `__write` port follows `s0_read`. */
  lemma EnableSpec(t: Table, p: Params, address: nat, read: bool, write: bool, j: nat)
    requires 1 <= p.m && 1 <= p.v && p.m + p.v <= SizeMod
    requires p.m + p.v <= p.addrDigits && address < Pow2(p.addrDigits)
    requires j < |GetText(t, p).instances|
    ensures var a := GetText(t, p);
      var mid := Field(address, a.midSlice);
      var inst := a.instances[j];
      && (EnableOn(inst.readEnable, mid, read, write) <==> inst.index == mid && write)
      && (EnableOn(inst.writeEnable, mid, read, write) <==> inst.index == mid && read)
  {
  }
}
