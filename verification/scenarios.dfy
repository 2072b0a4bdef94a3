/** Worked schedules on a two-slot table (M = 1, V = 4). */
module Scenarios {
  import opened Slots
  import opened Scheduler
  import opened System
  import opened BusAdapter

  const Ok := Features(false, false, false)

  /** M = 1, V = 4, 32-bit address and data. */
  const P := Params(1, 4, 32, 32)

  /** The table after engine 1 then engine 2 submit, and after the batch goes live. */
  const Batch := [Slot(1, Waiting, "A"), Slot(2, Compiling, "B")]
  const Live := [Slot(1, Current, "A"), Slot(2, Current, "B")]

  /** Engine 1 submits (slot 0 leads), then engine 2 submits: slot 0 waits and
      slot 1 leads. */
  lemma BatchSubmits()
    ensures Step(Step(Init(1), Submit(1, Ok, 3, "A"), P), Submit(2, Ok, 3, "B"), P)
      == Sys(Batch, map[0 := Looping, 1 := Looping], {})
  {
    var s1 := Step(Init(1), Submit(1, Ok, 3, "A"), P);
    assert s1.table == [Slot(1, Compiling, "A"), EmptySlot];
  }

  /** Slot 1's thread enters the build and it succeeds: both slots go live
      together. */
  lemma BatchBuilds()
    ensures var s3 := Step(Sys(Batch, map[0 := Looping, 1 := Looping], {}), Loop(1), P);
      && s3.table == Batch && 1 in s3.threads && s3.threads[1].Building?
      && Step(s3, BuildDone(1, true), P) == Sys(Live, map[0 := Looping, 1 := Looping], {})
  {
    var s3 := Step(Sys(Batch, map[0 := Looping, 1 := Looping], {}), Loop(1), P);
    var request := GetText(Batch, P);
    assert s3 == Sys(Batch, map[0 := Looping, 1 := Building(request)], {});
    assert Update(Batch) == Live;
    assert s3.threads[1 := Looping] == map[0 := Looping, 1 := Looping];
  }

  /** Both threads then leave the loop with live handles. */
  lemma BatchLeavesLoop()
    ensures var s5 := Step(Sys(Live, map[0 := Looping, 1 := Looping], {}), Loop(0), P);
      Step(s5, Loop(1), P) == Sys(Live, map[], {0, 1})
  {
    var s5 := Step(Sys(Live, map[0 := Looping, 1 := Looping], {}), Loop(0), P);
    assert s5 == Sys(Live, map[1 := Looping], {0});
  }

  /** The table while engine 1's submission is the only one, as lead. */
  const Alone := [Slot(1, Compiling, "A"), EmptySlot]

  /** Engine 1 submits and its thread enters the build with a dispatcher
      over the table as it stands. */
  lemma LoneBuildEntered()
    ensures Step(Step(Init(1), Submit(1, Ok, 3, "A"), P), Loop(0), P)
      == Sys(Alone, map[0 := Building(GetText(Alone, P))], {})
  {
    var s1 := Step(Init(1), Submit(1, Ok, 3, "A"), P);
    assert s1 == Sys(Alone, map[0 := Looping], {});
  }

  /** While engine 1's build runs without the lock, engine 2 submits and
      becomes the lead. When engine 1's build then returns success, `update`
      promotes every active slot, so engine 2's slot goes CURRENT although
      the dispatcher that build was given has no instance for it. */
  lemma BuildPromotesUnseen()
    ensures var request := GetText(Alone, P);
      var s3 := Step(Sys(Alone, map[0 := Building(request)], {}), Submit(2, Ok, 3, "B"), P);
      && s3 == Sys(Batch, map[0 := Building(request), 1 := Looping], {})
      && Step(s3, BuildDone(0, true), P).table == Live
      && (forall j :: 0 <= j < |request.instances| ==> request.instances[j].index != 1)
  {
    var request := GetText(Alone, P);
    GetTextInstances(Alone, P);
    assert Alone[0].state == Compiling && Alone[1].state == Free;
    assert FirstFrom(Alone, Free, 1) == 1;
    assert GetFree(Alone) == 1;
    assert Install(Alone, 1, 2, "B") == Batch;
    assert Update(Batch) == Live;
  }

  /** Continuing from there, engine 2's thread enters the build as well: the
      table still has a single COMPILING slot, yet two threads are inside the
      device build at once, engine 1's with its old dispatcher. */
  lemma TwoBuildsInFlight()
    ensures var request := GetText(Alone, P);
      var s4 := Step(Sys(Batch, map[0 := Building(request), 1 := Looping], {}), Loop(1), P);
      && s4.table == Batch
      && s4.threads == map[0 := Building(request), 1 := Building(GetText(Batch, P))]
      && Count(s4.table, Compiling) == 1
  {
    CountOne(Batch, Compiling, 1);
  }

  /** Engine 1 submits and is cancelled before its build returns: no slot
      was waiting, so there is no new lead, and the thread frees its slot. */
  lemma CancelOnlyLead()
    ensures var s1 := Step(Init(1), Submit(1, Ok, 3, "A"), P);
      var s2 := Step(s1, Loop(0), P);
      var s3 := Step(s2, Cancel(1), P);
      var s4 := Step(s3, BuildDone(0, false), P);
      var s5 := Step(s4, Loop(0), P);
      && s3.table == [Slot(1, Stopped, "A"), EmptySlot]
      && s5.table == [Slot(1, Free, "A"), EmptySlot] && s5.threads == map[] && s5.live == {}
  {
    var s1 := Step(Init(1), Submit(1, Ok, 3, "A"), P);
    assert s1.table == [Slot(1, Compiling, "A"), EmptySlot];
    var s2 := Step(s1, Loop(0), P);
    assert s2.table == s1.table && s2.threads.Keys == {0} && s2.threads[0].Building? && s2.live == {};
    var s3 := Step(s2, Cancel(1), P);
    assert StopCompile(s2.table, 1).table == [Slot(1, Stopped, "A"), EmptySlot];
    var s4 := Step(s3, BuildDone(0, false), P);
    assert s4.threads == map[0 := Looping] && s4.table == s3.table;
  }

  /** Engine 1 submits twice: the first submission is superseded (STOPPED)
      and the second takes slot 1 as the new lead. */
  lemma Supersede()
    ensures var s1 := Step(Init(1), Submit(1, Ok, 3, "A"), P);
      var s2 := Step(s1, Submit(1, Ok, 3, "A2"), P);
      s2.table == [Slot(1, Stopped, "A"), Slot(1, Compiling, "A2")]
  {
    var s1 := Step(Init(1), Submit(1, Ok, 3, "A"), P);
    assert s1.table == [Slot(1, Compiling, "A"), EmptySlot];
  }

  /** A module whose variable table has 2^V entries is refused and the table
      is left exactly as it was. */
  lemma OverflowLeavesTable()
    ensures Step(Init(1), Submit(1, Ok, 16, "A"), P) == Init(1)
  {
  }
}
