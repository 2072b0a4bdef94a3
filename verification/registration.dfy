/**
  The order in which `compile_logic` registers a module's variables with the
  logic builder: each of the input, stateful and output collections is first
  keyed by variable id in a `std::map` (so duplicates collapse and iteration is
  in ascending id order), and the three maps are walked inputs first, then
  state, then outputs.
 */
module Registration {

  type VId = nat

  datatype Role = Input | State | Output

  /** One call `set_input`, `set_state` or `set_output` with its variable id. */
  datatype Entry = Entry(role: Role, vid: VId)

  predicate Ascending(s: seq<VId>) {
    forall j, k :: 0 <= j < k < |s| ==> s[j] < s[k]
  }

  /** Insertion of key `x` into the keys of a `std::map`, kept ascending. */
  function Insert(s: seq<VId>, x: VId): (r: seq<VId>)
    requires Ascending(s)
    ensures Ascending(r)
    ensures forall y :: y in r <==> y in s || y == x
  {
    if |s| == 0 then [x]
    else if x < s[0] then [x] + s
    else if x == s[0] then s
    else
      assert forall j :: 0 <= j < |s| - 1 ==> s[1..][j] == s[j + 1];
      var rest := Insert(s[1..], x);
      assert forall y :: y in rest ==> s[0] < y;
      var r := [s[0]] + rest;
      assert forall k :: 0 < k < |r| ==> r[k] == rest[k - 1] && r[k] in rest;
      r
  }

  /** The keys of a `std::map` filled from `xs`, in its iteration order. */
  function MapKeys(xs: seq<VId>): (r: seq<VId>)
    ensures Ascending(r)
    ensures forall y :: y in r <==> y in xs
  {
    if |xs| == 0 then []
    else Insert(MapKeys(xs[..|xs| - 1]), xs[|xs| - 1])
  }

  /** Two ascending sequences with the same elements are the same sequence. */
  lemma {:induction false} AscendingUnique(a: seq<VId>, b: seq<VId>)
    requires Ascending(a) && Ascending(b)
    requires forall y :: y in a <==> y in b
    ensures a == b
  {
    if |a| > 0 || |b| > 0 {
      assert |a| > 0 ==> a[0] in b;
      assert |b| > 0 ==> b[0] in a;
      assert a[0] == b[0];
      forall y ensures y in a[1..] <==> y in b[1..] {
        if y in a[1..] { assert y in a && y != a[0]; }
        if y in b[1..] { assert y in b && y != b[0]; }
      }
      AscendingUnique(a[1..], b[1..]);
    }
  }

  function Tagged(role: Role, vids: seq<VId>): (r: seq<Entry>)
    ensures |r| == |vids|
    ensures forall j :: 0 <= j < |r| ==> r[j] == Entry(role, vids[j])
  {
    seq(|vids|, j requires 0 <= j < |vids| => Entry(role, vids[j]))
  }

  /** The registration calls for a module with the given (unordered, possibly
      repeating) input, stateful and output variable ids. */
  function Registrations(inputs: seq<VId>, stateful: seq<VId>, outputs: seq<VId>): (r: seq<Entry>)
    ensures forall j, k :: 0 <= j < k < |r| ==> r[j] != r[k]
    ensures forall j :: 0 <= j < |r| && r[j].role == Input ==> r[j].vid in inputs
    ensures forall j :: 0 <= j < |r| && r[j].role == State ==> r[j].vid in stateful
    ensures forall j :: 0 <= j < |r| && r[j].role == Output ==> r[j].vid in outputs
  {
    var a, b, c := MapKeys(inputs), MapKeys(stateful), MapKeys(outputs);
    TaggedLayout(a, b, c);
    Tagged(Input, a) + Tagged(State, b) + Tagged(Output, c)
  }

  /** Where each role's entries sit in the concatenated registrations. */
  lemma TaggedLayout(a: seq<VId>, b: seq<VId>, c: seq<VId>)
    ensures var r := Tagged(Input, a) + Tagged(State, b) + Tagged(Output, c);
      && |r| == |a| + |b| + |c|
      && (forall j :: 0 <= j < |a| ==> r[j] == Entry(Input, a[j]))
      && (forall j :: |a| <= j < |a| + |b| ==> r[j] == Entry(State, b[j - |a|]))
      && (forall j :: |a| + |b| <= j < |r| ==> r[j] == Entry(Output, c[j - |a| - |b|]))
  {
  }

  lemma TaggedMembers(role: Role, vids: seq<VId>)
    ensures forall e :: e in Tagged(role, vids) <==> e.role == role && e.vid in vids
  {
    var r := Tagged(role, vids);
    forall e: Entry | e.role == role && e.vid in vids ensures e in r {
      var j :| 0 <= j < |vids| && vids[j] == e.vid;
      assert r[j] == e;
    }
  }

  /** Inputs come first, then state, then outputs, and within each role the
      ids are strictly ascending. */
  lemma RegistrationsOrder(inputs: seq<VId>, stateful: seq<VId>, outputs: seq<VId>)
    ensures var r := Registrations(inputs, stateful, outputs);
      && (forall j, k :: 0 <= j < k < |r| && r[j].role == r[k].role ==> r[j].vid < r[k].vid)
      && (forall j, k :: 0 <= j < k < |r| && r[k].role == Input ==> r[j].role == Input)
      && (forall j, k :: 0 <= j < k < |r| && r[j].role == Output ==> r[k].role == Output)
  {
    TaggedLayout(MapKeys(inputs), MapKeys(stateful), MapKeys(outputs));
  }

  /** Each role registers exactly the distinct ids of its collection. */
  lemma RegistrationsMembers(inputs: seq<VId>, stateful: seq<VId>, outputs: seq<VId>)
    ensures var r := Registrations(inputs, stateful, outputs);
      && (forall x :: Entry(Input, x) in r <==> x in inputs)
      && (forall x :: Entry(State, x) in r <==> x in stateful)
      && (forall x :: Entry(Output, x) in r <==> x in outputs)
  {
    TaggedMembers(Input, MapKeys(inputs));
    TaggedMembers(State, MapKeys(stateful));
    TaggedMembers(Output, MapKeys(outputs));
  }

  /** The registration order depends only on which ids occur in each role, not
      on the order or multiplicity in which the analyzer lists them. */
  lemma RegistrationsDeterministic(i1: seq<VId>, s1: seq<VId>, o1: seq<VId>,
                                   i2: seq<VId>, s2: seq<VId>, o2: seq<VId>)
    requires forall x :: x in i1 <==> x in i2
    requires forall x :: x in s1 <==> x in s2
    requires forall x :: x in o1 <==> x in o2
    ensures Registrations(i1, s1, o1) == Registrations(i2, s2, o2)
  {
    AscendingUnique(MapKeys(i1), MapKeys(i2));
    AscendingUnique(MapKeys(s1), MapKeys(s2));
    AscendingUnique(MapKeys(o1), MapKeys(o2));
  }
}
