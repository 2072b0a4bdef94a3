/**
  The slot table of the Avalon-MM core compiler: a fixed-length sequence of
  slots, one per module id the bus can address. Each slot records the engine
  that owns it, where it is in the compilation life cycle, and the per-module
  Verilog text produced when it was last claimed.
 */
module Slots {

  /** The identifier of the engine (client) that submitted a module. */
  type EngineId = nat

  /** The life-cycle states of a slot. */
  datatype State = Free | Compiling | Waiting | Stopped | Current

  datatype Slot = Slot(id: EngineId, state: State, text: string)

  type Table = seq<Slot>

  datatype Option<T> = None | Some(value: T)

  /** The slot a freshly built table holds everywhere: id 0, FREE, no text. */
  const EmptySlot := Slot(0, Free, "")

  function Pow2(n: nat): (r: nat)
    ensures r >= 1
    ensures n > 0 ==> r >= 2 && r % 2 == 0
  {
    if n == 0 then 1 else 2 * Pow2(n - 1)
  }

  /** The table the constructor builds for a module-id width of `m` bits. */
  function Initial(m: nat): (t: Table)
    ensures |t| == Pow2(m)
    ensures forall i :: 0 <= i < |t| ==> t[i].state == Free
    ensures forall i :: 0 <= i < |t| ==> t[i] == EmptySlot
  {
    seq(Pow2(m), _ => EmptySlot)
  }

  /** The lowest index at or after `from` whose slot is in state `st`, or -1. */
  function FirstFrom(t: Table, st: State, from: nat): (r: int)
    requires from <= |t|
    ensures r == -1 || from <= r < |t|
    ensures r == -1 <==> forall i :: from <= i < |t| ==> t[i].state != st
    ensures r >= 0 ==> t[r].state == st
    ensures r >= 0 ==> forall i :: from <= i < r ==> t[i].state != st
    decreases |t| - from
  {
    if from == |t| then -1
    else if t[from].state == st then from
    else FirstFrom(t, st, from + 1)
  }

  /** The slot allocator: the lowest FREE index, or -1 when every slot is taken. */
  function GetFree(t: Table): (r: int)
    ensures -1 <= r < |t|
    ensures r == -1 <==> forall i :: 0 <= i < |t| ==> t[i].state != Free
    ensures r >= 0 ==> t[r].state == Free && forall i :: 0 <= i < r ==> t[i].state != Free
  {
    FirstFrom(t, Free, 0)
  }

  /** At most one slot is the compilation lead. */
  ghost predicate SingleLead(t: Table) {
    forall i, j :: 0 <= i < |t| && 0 <= j < |t| && t[i].state == Compiling && t[j].state == Compiling ==> i == j
  }

  /** The number of slots of `t` in state `st`. */
  function Count(t: Table, st: State): (n: nat)
    ensures n <= |t|
  {
    if |t| == 0 then 0
    else (if t[|t| - 1].state == st then 1 else 0) + Count(t[..|t| - 1], st)
  }

  lemma {:induction false} CountZero(t: Table, st: State)
    ensures Count(t, st) == 0 <==> forall i :: 0 <= i < |t| ==> t[i].state != st
  {
    if |t| > 0 {
      CountZero(t[..|t| - 1], st);
      assert forall i :: 0 <= i < |t| - 1 ==> t[..|t| - 1][i] == t[i];
    }
  }

  lemma {:induction false} CountOne(t: Table, st: State, k: nat)
    requires k < |t| && t[k].state == st
    requires forall i :: 0 <= i < |t| && i != k ==> t[i].state != st
    ensures Count(t, st) == 1
  {
    var p := t[..|t| - 1];
    assert forall i :: 0 <= i < |p| ==> p[i] == t[i];
    if k == |t| - 1 {
      CountZero(p, st);
    } else {
      CountOne(p, st, k);
    }
  }

  lemma {:induction false} CountTwo(t: Table, st: State, j: nat, k: nat)
    requires j < k < |t| && t[j].state == st && t[k].state == st
    ensures Count(t, st) >= 2
  {
    var p := t[..|t| - 1];
    assert forall i :: 0 <= i < |p| ==> p[i] == t[i];
    if k == |t| - 1 {
      CountAtLeastOne(p, st, j);
    } else {
      CountTwo(p, st, j, k);
    }
  }

  lemma {:induction false} CountAtLeastOne(t: Table, st: State, k: nat)
    requires k < |t| && t[k].state == st
    ensures Count(t, st) >= 1
  {
    var p := t[..|t| - 1];
    assert forall i :: 0 <= i < |p| ==> p[i] == t[i];
    if k < |t| - 1 {
      CountAtLeastOne(p, st, k);
    }
  }

  /** The pairwise statement of the single-lead invariant is the count statement:
      the number of COMPILING slots is 0 or 1. */
  lemma SingleLeadIsCount(t: Table)
    ensures SingleLead(t) <==> Count(t, Compiling) <= 1
  {
    if SingleLead(t) {
      var r := FirstFrom(t, Compiling, 0);
      if r == -1 {
        CountZero(t, Compiling);
      } else {
        CountOne(t, Compiling, r);
      }
    }
    if !SingleLead(t) {
      var i, j :| 0 <= i < |t| && 0 <= j < |t| && t[i].state == Compiling && t[j].state == Compiling && i != j;
      if i < j { CountTwo(t, Compiling, i, j); } else { CountTwo(t, Compiling, j, i); }
    }
  }

  /** A freshly built table has no lead. */
  lemma InitialSingleLead(m: nat)
    ensures Count(Initial(m), Compiling) == 0
    ensures SingleLead(Initial(m))
  {
    CountZero(Initial(m), Compiling);
  }
}
