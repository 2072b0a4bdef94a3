/**
  The compiler as a whole: the slot table together with the threads that sit
  in `compile_logic`'s state loop and the live logic objects handed back to
  callers. Every locked region is one event; interleaving is the free choice
  of the next enabled event. The device programmer's `compile(text, lock)`
  releases the lock, so it is split into the event that enters it (`Loop` on a
  COMPILING slot) and the event that returns from it (`BuildDone`), and any
  other event may happen in between. Its boolean result is a parameter.
 */
module System {
  import opened Slots
  import opened Scheduler
  import opened BusAdapter

  /** Where a thread of the state loop is: re-reading its slot's state with the
      lock held, or inside the device programmer's `compile` with it released,
      having handed it the dispatcher `request` built when it entered. */
  datatype Phase = Looping | Building(request: Adapter)

  /** `threads` maps the slot of every submission still inside the state loop
      to its phase; `live` holds the slots of logic objects returned to callers
      and not yet torn down. */
  datatype Sys = Sys(table: Table, threads: map<nat, Phase>, live: set<nat>)

  datatype Event =
    | Submit(id: EngineId, features: Features, tableSize: nat, text: string)
    | Cancel(id: EngineId)
    | Loop(slot: nat)
    | BuildDone(slot: nat, ok: bool)
    | Teardown(slot: nat)

  /** The compiler right after construction with module-id width `m`. */
  function Init(m: nat): (s: Sys)
    ensures |s.table| == Pow2(m) && s.threads == map[] && s.live == {}
  {
    Sys(Initial(m), map[], {})
  }

  /** When an event can happen: a loop pass needs a thread holding the lock on
      a slot in the table, a build can only return to a thread that entered
      it, and only a live logic object can be torn down (the source asserts the
      slot is CURRENT there). */
  predicate Enabled(s: Sys, e: Event) {
    match e
    case Submit(_, _, _, _) => true
    case Cancel(_) => true
    case Loop(k) => k in s.threads && s.threads[k] == Looping && k < |s.table|
    case BuildDone(k, _) => k in s.threads && s.threads[k].Building?
    case Teardown(k) => k in s.live && k < |s.table| && s.table[k].state == Current
  }

  /** The effect of one event on a device with parameters `p`. */
  function Step(s: Sys, e: Event, p: Params): (r: Sys)
    requires Enabled(s, e)
    ensures |r.table| == |s.table|
    // A loop pass: the thread leaves exactly on STOPPED or CURRENT, and only
    // CURRENT hands a live object over.
    ensures e.Loop? ==> var st := s.table[e.slot].state;
      && (e.slot in r.threads <==> st != Stopped && st != Current)
      && (st == Current ==> r.live == s.live + {e.slot})
      && (st != Current ==> r.live == s.live)
    // Only STOPPED changes the table, freeing the thread's own slot.
    ensures e.Loop? ==> var st := s.table[e.slot].state;
      && (forall i :: 0 <= i < |s.table| && i != e.slot ==> r.table[i] == s.table[i])
      && (st == Stopped ==> r.table[e.slot] == s.table[e.slot].(state := Free))
      && (st != Stopped ==> r.table[e.slot] == s.table[e.slot])
    // COMPILING enters the build with the dispatcher for the current table;
    // WAITING blocks and FREE (the asserting arm) do nothing.
    ensures e.Loop? && s.table[e.slot].state == Compiling ==>
      r.threads[e.slot] == Building(GetText(s.table, p))
    ensures e.Loop? && (s.table[e.slot].state == Waiting || s.table[e.slot].state == Free) ==> r == s
  {
    match e
    case Submit(id, f, size, text) =>
      var sub := Scheduler.Submit(s.table, id, f, size, p.v, text);
      if sub.result.Success? then
        Sys(sub.table, s.threads[sub.result.value := Looping], s.live)
      else s
    case Cancel(id) =>
      s.(table := StopCompile(s.table, id).table)
    case Loop(k) =>
      (match s.table[k].state
       case Compiling => s.(threads := s.threads[k := Building(GetText(s.table, p))])
       case Waiting => s
       case Stopped => Sys(FreeStopped(s.table, k), s.threads - {k}, s.live)
       case Current => Sys(s.table, s.threads - {k}, s.live + {k})
       case Free => s)
    case BuildDone(k, ok) =>
      Sys(if ok then Update(s.table) else s.table, s.threads[k := Looping], s.live)
    case Teardown(k) =>
      Sys(Release(s.table, k), s.threads, s.live - {k})
  }

  /** The invariant of the whole compiler: one lead at most; every thread in
      the state loop holds an occupied slot; every live object holds a CURRENT
      slot no thread holds; and every occupied slot is held by one of them. */
  ghost predicate Inv(s: Sys) {
    && SingleLead(s.table)
    && (forall k :: k in s.threads ==> k < |s.table| && s.table[k].state != Free)
    && (forall k :: k in s.live ==> k < |s.table| && s.table[k].state == Current && k !in s.threads)
    && (forall k :: 0 <= k < |s.table| && s.table[k].state != Free ==> k in s.threads || k in s.live)
  }

  lemma InitInv(m: nat)
    ensures Inv(Init(m))
  {
  }

  /** The invariant rules out the two assertions of the source: a thread in
      the state loop never finds its slot FREE, and tearing down a live
      logic object always finds its slot CURRENT. */
  lemma InvGuardsAssertions(s: Sys, k: nat)
    requires Inv(s)
    ensures k in s.threads ==> s.table[k].state != Free
    ensures k in s.live ==> Enabled(s, Teardown(k))
  {
  }

  lemma {:induction false} SubmitInv(s: Sys, id: EngineId, f: Features, size: nat, text: string, p: Params)
    requires Inv(s)
    ensures Inv(Step(s, Submit(id, f, size, text), p))
  {
    var sub := Scheduler.Submit(s.table, id, f, size, p.v, text);
    if sub.result.Success? {
      var k := sub.result.value;
      var r := Step(s, Submit(id, f, size, text), p);
      assert k !in s.threads && k !in s.live;
      forall i | 0 <= i < |r.table| && r.table[i].state != Free
        ensures i in r.threads || i in r.live
      {
        if i != k {
          assert s.table[i].state != Free;
        }
      }
    }
  }

  lemma {:induction false} CancelInv(s: Sys, id: EngineId, p: Params)
    requires Inv(s)
    ensures Inv(Step(s, Cancel(id), p))
  {
    StopCompileSpec(s.table, id);
    StopCompileSingleLead(s.table, id);
    var r := Step(s, Cancel(id), p);
    forall i | 0 <= i < |r.table| ensures (r.table[i].state == Free <==> s.table[i].state == Free) {
    }
    forall i | 0 <= i < |r.table| && s.table[i].state == Current ensures r.table[i].state == Current {
    }
  }

  lemma {:induction false} LoopInv(s: Sys, k: nat, p: Params)
    requires Inv(s) && Enabled(s, Loop(k))
    ensures Inv(Step(s, Loop(k), p))
  {
    if s.table[k].state == Stopped {
      ReleasingKeepsSingleLead(s.table, k);
    }
  }

  lemma {:induction false} BuildDoneInv(s: Sys, k: nat, ok: bool, p: Params)
    requires Inv(s) && Enabled(s, BuildDone(k, ok))
    ensures Inv(Step(s, BuildDone(k, ok), p))
  {
    UpdateSettles(s.table);
  }

  lemma {:induction false} TeardownInv(s: Sys, k: nat, p: Params)
    requires Inv(s) && Enabled(s, Teardown(k))
    ensures Inv(Step(s, Teardown(k), p))
  {
    ReleasingKeepsSingleLead(s.table, k);
  }

  /** Every event preserves the invariant. */
  lemma {:induction false} StepInv(s: Sys, e: Event, p: Params)
    requires Inv(s) && Enabled(s, e)
    ensures Inv(Step(s, e, p))
  {
    match e
    case Submit(id, f, size, text) => SubmitInv(s, id, f, size, text, p);
    case Cancel(id) => CancelInv(s, id, p);
    case Loop(k) => LoopInv(s, k, p);
    case BuildDone(k, ok) => BuildDoneInv(s, k, ok, p);
    case Teardown(k) => TeardownInv(s, k, p);
  }

  /** A thread entering the device build hands it a dispatcher that
      instantiates every slot of the current batch (COMPILING or WAITING)
      with that slot's text: the build covers the batch as it stood when the
      build was entered. */
  lemma BuildCoversBatch(s: Sys, k: nat, p: Params)
    requires Enabled(s, Loop(k)) && s.table[k].state == Compiling
    ensures var r := Step(s, Loop(k), p);
      && k in r.threads && r.threads[k].Building?
      && var a := r.threads[k].request;
      forall i :: 0 <= i < |s.table| && Active(s.table[i]) ==>
        exists j :: 0 <= j < |a.instances| && a.instances[j].index == i && a.modules[j] == s.table[i].text
  {
    GetTextInstances(s.table, p);
  }

  /** Run a schedule of events from `s`; None when some event is not enabled
      at the point it is chosen. */
  function Run(s: Sys, es: seq<Event>, p: Params): (r: Option<Sys>)
    ensures r.Some? ==> |r.value.table| == |s.table|
    decreases |es|
  {
    if |es| == 0 then Some(s)
    else if !Enabled(s, es[0]) then None
    else Run(Step(s, es[0], p), es[1..], p)
  }

  /** Under every interleaving, the compiler never has more than one
      COMPILING slot, and neither source assertion can fail. */
  lemma {:induction false} RunInv(s: Sys, es: seq<Event>, p: Params)
    requires Inv(s)
    ensures Run(s, es, p).Some? ==> Inv(Run(s, es, p).value)
    decreases |es|
  {
    if |es| > 0 && Enabled(s, es[0]) {
      StepInv(s, es[0], p);
      RunInv(Step(s, es[0], p), es[1..], p);
    }
  }

  /** From construction with the device's module-id width, at any instant 0
      or 1 slots are COMPILING. */
  lemma ReachableSingleLead(es: seq<Event>, p: Params)
    ensures Run(Init(p.m), es, p).Some? ==> Count(Run(Init(p.m), es, p).value.table, Compiling) <= 1
  {
    InitInv(p.m);
    RunInv(Init(p.m), es, p);
    if Run(Init(p.m), es, p).Some? {
      SingleLeadIsCount(Run(Init(p.m), es, p).value.table);
    }
  }
}
