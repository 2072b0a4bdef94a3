/**
  The transitions of the Avalon-MM compilation state machine. Every one of
  them runs under the compiler's single lock, so each is a pure function from
  the slot table before to the slot table after.
 */
module Scheduler {
  import opened Slots

  /** The facts the module analyzer reports that the feature gate looks at. */
  datatype Features = Features(mixedTriggers: bool, impliedLatches: bool, multipleClocks: bool)

  datatype SubmitError = MixedTriggers | ImpliedLatches | MultipleClocks | NoFreeSlot | TableOverflow

  datatype Result<T, E> = Success(value: T) | Failure(error: E)

  /** The table after the locked front half of a submission, and the slot it
      claimed or why it was refused. */
  datatype Submission = Submission(table: Table, result: Result<nat, SubmitError>)

  /** What `stop_compile(id)` leaves behind, and whether it asked the device
      programmer to stop the build in flight. */
  datatype StopOutcome = StopOutcome(table: Table, stopRequested: bool)

  predicate Active(s: Slot) {
    s.state == Compiling || s.state == Waiting
  }

  // ---------------------------------------------------------------- install

  /** One iteration of the downgrade loop: a lead becomes WAITING, and then a
      WAITING slot of the submitting engine becomes STOPPED. */
  function Downgrade(s: Slot, id: EngineId): (r: Slot)
    ensures r.id == s.id && r.text == s.text
    ensures Active(s) && s.id == id ==> r.state == Stopped
    ensures Active(s) && s.id != id ==> r.state == Waiting
    ensures !Active(s) ==> r == s
  {
    var s1 := if s.state == Compiling then s.(state := Waiting) else s;
    if s1.id == id && s1.state == Waiting then s1.(state := Stopped) else s1
  }

  /** Install a new lead in slot `slot` for engine `id` with per-module text `text`. */
  function Install(t: Table, slot: nat, id: EngineId, text: string): (r: Table)
    requires slot < |t|
    ensures |r| == |t|
    ensures r[slot] == Slot(id, Compiling, text)
    ensures forall i :: 0 <= i < |t| && i != slot && Active(t[i]) && t[i].id == id ==>
              r[i] == t[i].(state := Stopped)
    ensures forall i :: 0 <= i < |t| && i != slot && Active(t[i]) && t[i].id != id ==>
              r[i] == t[i].(state := Waiting)
    ensures forall i :: 0 <= i < |t| && i != slot && !Active(t[i]) ==> r[i] == t[i]
    ensures SingleLead(r)
  {
    seq(|t|, i requires 0 <= i < |t| => if i == slot then Slot(id, Compiling, text) else Downgrade(t[i], id))
  }

  /** The locked front half of `compile_logic`: feature gate, slot allocation,
      variable-table check and install. `tableSize` is the size of the variable
      table the logic builder produced and `v` the variable-id width. */
  function Submit(t: Table, id: EngineId, f: Features, tableSize: nat, v: nat, text: string): (r: Submission)
    ensures r.result.Failure? ==> r.table == t
    ensures r.result == Failure(MixedTriggers) <==> f.mixedTriggers
    ensures r.result == Failure(ImpliedLatches) <==> !f.mixedTriggers && f.impliedLatches
    ensures r.result == Failure(MultipleClocks) <==>
              !f.mixedTriggers && !f.impliedLatches && f.multipleClocks
    ensures r.result == Failure(NoFreeSlot) <==>
              !f.mixedTriggers && !f.impliedLatches && !f.multipleClocks &&
              forall i :: 0 <= i < |t| ==> t[i].state != Free
    ensures r.result == Failure(TableOverflow) <==>
              !f.mixedTriggers && !f.impliedLatches && !f.multipleClocks &&
              (exists i :: 0 <= i < |t| && t[i].state == Free) && tableSize >= Pow2(v)
    ensures r.result.Success? ==>
              var k := r.result.value;
              && k < |t| && t[k].state == Free
              && (forall i :: 0 <= i < k ==> t[i].state != Free)
              && r.table == Install(t, k, id, text)
  {
    if f.mixedTriggers then Submission(t, Failure(MixedTriggers))
    else if f.impliedLatches then Submission(t, Failure(ImpliedLatches))
    else if f.multipleClocks then Submission(t, Failure(MultipleClocks))
    else
      var slot := GetFree(t);
      if slot == -1 then Submission(t, Failure(NoFreeSlot))
      else if tableSize >= Pow2(v) then Submission(t, Failure(TableOverflow))
      else Submission(Install(t, slot, id, text), Success(slot))
  }

  // ---------------------------------------------------------------- stop_compile

  /** Engine `id` has a slot that is compiling or waiting. */
  predicate Owns(t: Table, id: EngineId) {
    exists i :: 0 <= i < |t| && t[i].id == id && Active(t[i])
  }

  /** Engine `id` holds the compilation lead. */
  predicate OwnsLead(t: Table, id: EngineId) {
    exists i :: 0 <= i < |t| && t[i].id == id && t[i].state == Compiling
  }

  function StopOwned(s: Slot, id: EngineId): Slot {
    if s.id == id && Active(s) then s.(state := Stopped) else s
  }

  /** Promote the lowest-index WAITING slot, if any, to the lead. */
  function PromoteFirstWaiting(t: Table): (r: Table)
    ensures |r| == |t|
    ensures forall i :: 0 <= i < |t| ==> r[i].id == t[i].id && r[i].text == t[i].text
    ensures forall i :: 0 <= i < |t| ==>
              (r[i].state != t[i].state <==>
                 t[i].state == Waiting && forall j :: 0 <= j < i ==> t[j].state != Waiting)
    ensures forall i :: 0 <= i < |t| && r[i].state != t[i].state ==> r[i].state == Compiling
  {
    var w := FirstFrom(t, Waiting, 0);
    if w == -1 then t else t[w := t[w].(state := Compiling)]
  }

  /** `stop_compile(id)`: cancel every compiling or waiting slot of `id`, and
      elect a new lead if the old one was among them. */
  function StopCompile(t: Table, id: EngineId): (r: StopOutcome)
    ensures |r.table| == |t|
    ensures !Owns(t, id) ==> r.table == t && !r.stopRequested
    ensures Owns(t, id) ==> r.stopRequested
  {
    if !Owns(t, id) then StopOutcome(t, false)
    else
      var stopped := seq(|t|, i requires 0 <= i < |t| => StopOwned(t[i], id));
      if OwnsLead(t, id) then StopOutcome(PromoteFirstWaiting(stopped), true)
      else StopOutcome(stopped, true)
  }

  /** Slot `w` is the lowest-index slot that is WAITING and not owned by `id`:
      the slot the re-election picks. */
  ghost predicate Successor(t: Table, id: EngineId, w: int) {
    && 0 <= w < |t| && t[w].state == Waiting && t[w].id != id
    && forall i :: 0 <= i < w ==> !(t[i].state == Waiting && t[i].id != id)
  }

  /** Every compiling or waiting slot of `id` is stopped; when `id` held the
      lead, the lowest-index WAITING slot of another engine becomes the lead;
      every other slot is left as it was. */
  lemma StopCompileSpec(t: Table, id: EngineId)
    ensures var r := StopCompile(t, id).table;
      && |r| == |t|
      && (forall i :: 0 <= i < |t| && t[i].id == id && Active(t[i]) ==> r[i] == t[i].(state := Stopped))
      && (OwnsLead(t, id) ==> forall i :: 0 <= i < |t| && Successor(t, id, i) ==>
            r[i] == t[i].(state := Compiling))
      && (forall i :: (0 <= i < |t| && !(t[i].id == id && Active(t[i])) &&
            !(OwnsLead(t, id) && Successor(t, id, i))) ==> r[i] == t[i])
  {
    if Owns(t, id) {
      var stopped := seq(|t|, i requires 0 <= i < |t| => StopOwned(t[i], id));
      if OwnsLead(t, id) {
        var w := FirstFrom(stopped, Waiting, 0);
        if w != -1 {
          forall i | 0 <= i < w ensures !(t[i].state == Waiting && t[i].id != id) {
            assert stopped[i].state != Waiting;
          }
          assert Successor(t, id, w);
          forall i | 0 <= i < |t| && Successor(t, id, i) ensures i == w {
            assert stopped[i].state == Waiting;
          }
        } else {
          forall i | 0 <= i < |t| ensures !Successor(t, id, i) {
            assert stopped[i].state != Waiting;
          }
        }
      }
    }
  }

  /** Cancelling the lead leaves either no lead at all (nothing was waiting) or
      exactly the first waiting slot of another engine as the new lead. */
  lemma StopLeadReelects(t: Table, id: EngineId)
    requires SingleLead(t) && OwnsLead(t, id)
    ensures var r := StopCompile(t, id).table;
      forall i :: 0 <= i < |r| ==> (r[i].state == Compiling <==> Successor(t, id, i))
  {
    StopCompileSpec(t, id);
    var r := StopCompile(t, id).table;
    var k :| 0 <= k < |t| && t[k].id == id && t[k].state == Compiling;
    forall i | 0 <= i < |r| ensures r[i].state == Compiling <==> Successor(t, id, i) {
      if t[i].state == Compiling {
        assert i == k;
      }
    }
  }

  /** `stop_compile` keeps at most one slot COMPILING. */
  lemma StopCompileSingleLead(t: Table, id: EngineId)
    requires SingleLead(t)
    ensures SingleLead(StopCompile(t, id).table)
  {
    StopCompileSpec(t, id);
    var r := StopCompile(t, id).table;
    if OwnsLead(t, id) {
      StopLeadReelects(t, id);
      forall i, j | 0 <= i < |r| && 0 <= j < |r| && r[i].state == Compiling && r[j].state == Compiling
        ensures i == j
      {
        assert Successor(t, id, i) && Successor(t, id, j);
      }
    } else {
      forall i | 0 <= i < |r| && r[i].state == Compiling ensures t[i].state == Compiling { }
    }
  }

  // ---------------------------------------------------------------- update, release

  /** Batch promotion after a successful build: the whole cohort goes live. */
  function Update(t: Table): (r: Table)
    ensures |r| == |t|
    ensures forall i :: 0 <= i < |t| && Active(t[i]) ==> r[i] == t[i].(state := Current)
    ensures forall i :: 0 <= i < |t| && !Active(t[i]) ==> r[i] == t[i]
  {
    seq(|t|, i requires 0 <= i < |t| => if Active(t[i]) then t[i].(state := Current) else t[i])
  }

  /** After promotion nothing is compiling or waiting, so promotion is idempotent. */
  lemma UpdateSettles(t: Table)
    ensures Count(Update(t), Compiling) == 0 && Count(Update(t), Waiting) == 0
    ensures SingleLead(Update(t))
    ensures Update(Update(t)) == Update(t)
  {
    CountZero(Update(t), Compiling);
    CountZero(Update(t), Waiting);
  }

  /** `release(slot)`: tear-down of a live logic object frees its slot. */
  function Release(t: Table, slot: nat): (r: Table)
    requires slot < |t| && t[slot].state == Current
    ensures |r| == |t| && r[slot].state == Free
    ensures r[slot].id == t[slot].id && r[slot].text == t[slot].text
    ensures forall i :: 0 <= i < |t| && i != slot ==> r[i] == t[i]
  {
    t[slot := t[slot].(state := Free)]
  }

  /** The STOPPED arm of the state loop: the aborted thread returns its slot. */
  function FreeStopped(t: Table, slot: nat): (r: Table)
    requires slot < |t| && t[slot].state == Stopped
    ensures |r| == |t| && r[slot].state == Free
    ensures r[slot].id == t[slot].id && r[slot].text == t[slot].text
    ensures forall i :: 0 <= i < |t| && i != slot ==> r[i] == t[i]
  {
    t[slot := t[slot].(state := Free)]
  }

  /** A transition that only frees slots never creates a lead. */
  lemma ReleasingKeepsSingleLead(t: Table, slot: nat)
    requires SingleLead(t) && slot < |t| && t[slot].state in {Current, Stopped}
    ensures SingleLead(t[slot := t[slot].(state := Free)])
  {
  }

  /** Every transition of the table keeps at most one slot COMPILING. */
  lemma TransitionsKeepSingleLead(t: Table, id: EngineId, f: Features, tableSize: nat, v: nat, text: string)
    requires SingleLead(t)
    ensures SingleLead(Submit(t, id, f, tableSize, v, text).table)
    ensures SingleLead(StopCompile(t, id).table)
    ensures SingleLead(Update(t))
    ensures forall k :: 0 <= k < |t| && t[k].state == Current ==> SingleLead(Release(t, k))
    ensures forall k :: 0 <= k < |t| && t[k].state == Stopped ==> SingleLead(FreeStopped(t, k))
  {
    StopCompileSingleLead(t, id);
    UpdateSettles(t);
  }
}
