/** The grouped read of `ContractPointerValueRepository`, and the identity-keyed maps it fills. */
module PointerReads {
  import opened Common
  import opened ContractPointers

  /** A requested pointer is a JavaScript array: maps compare it by identity, not by content.  Arrays decoded
      from database documents are always new objects. */
  datatype Ref = Requested(id: nat, pointer: nat) | Fetched(pointer: nat)

  datatype Entry = Entry(ref: Ref, value: Option<nat>)

  // ----- maps keyed by identity -----

  function PointersOf(refs: seq<Ref>): set<nat> {
    set r | r in refs :: r.pointer
  }

  ghost predicate HasRef(m: seq<Entry>, r: Ref) {
    exists i :: 0 <= i < |m| && m[i].ref == r
  }

  ghost predicate DistinctRefs(m: seq<Entry>) {
    forall i, j :: 0 <= i < j < |m| ==> m[i].ref != m[j].ref
  }

  /** JavaScript `Map.set`: an existing key keeps its place, a new key goes last. */
  function MapSet(m: seq<Entry>, r: Ref, v: Option<nat>): (m': seq<Entry>)
    ensures HasRef(m, r) ==> |m'| == |m| && forall i :: 0 <= i < |m| && m[i].ref != r ==> m'[i] == m[i]
    ensures HasRef(m, r) ==> forall i :: 0 <= i < |m| ==> m'[i].ref == m[i].ref
    ensures !HasRef(m, r) ==> m' == m + [Entry(r, v)]
    ensures Entry(r, v) in m'
  {
    if m == [] then [Entry(r, v)]
    else if m[0].ref == r then [Entry(r, v)] + m[1..]
    else
      assert HasRef(m, r) <==> HasRef(m[1..], r) by {
        if HasRef(m, r) {
          var i :| 0 <= i < |m| && m[i].ref == r;
          assert m[1..][i - 1].ref == r;
        }
      }
      [m[0]] + MapSet(m[1..], r, v)
  }

  lemma KeepsRefs(m: seq<Entry>, r: Ref, v: Option<nat>)
    ensures forall x :: HasRef(m, x) || x == r ==> HasRef(MapSet(m, r, v), x)
    ensures forall e :: e in MapSet(m, r, v) ==> e in m || e == Entry(r, v)
    ensures DistinctRefs(m) ==> DistinctRefs(MapSet(m, r, v))
  {
    forall x | HasRef(m, x) || x == r ensures HasRef(MapSet(m, r, v), x) {
      KeepsRef(m, r, v, x);
    }
    OnlyNew(m, r, v);
  }

  lemma KeepsRef(m: seq<Entry>, r: Ref, v: Option<nat>, x: Ref)
    requires HasRef(m, x) || x == r
    ensures HasRef(MapSet(m, r, v), x)
  {
    var m' := MapSet(m, r, v);
    if HasRef(m, x) {
      var i :| 0 <= i < |m| && m[i].ref == x;
      assert m'[i].ref == x;
    } else {
      assert m'[|m|].ref == x;
    }
  }

  lemma {:induction false} OnlyNew(m: seq<Entry>, r: Ref, v: Option<nat>)
    ensures forall e :: e in MapSet(m, r, v) ==> e in m || e == Entry(r, v)
  {
    if m != [] && m[0].ref != r {
      OnlyNew(m[1..], r, v);
    }
  }

  /** The value a reader ends up with when it copies the entries in order into a map keyed by content. */
  function LastValue(m: seq<Entry>, p: nat): (v: Option<Option<nat>>) {
    if m == [] then None
    else if m[|m| - 1].ref.pointer == p then Some(m[|m| - 1].value)
    else LastValue(m[..|m| - 1], p)
  }

  lemma {:induction false} LastOf(m: seq<Entry>, p: nat, v: Option<nat>)
    requires forall e :: e in m && e.ref.pointer == p ==> e.value == v
    requires exists e :: e in m && e.ref.pointer == p
    ensures LastValue(m, p) == Some(v)
  {
    if m[|m| - 1].ref.pointer != p {
      var e :| e in m && e.ref.pointer == p;
      assert e in m[..|m| - 1];
      LastOf(m[..|m| - 1], p, v);
    }
  }

  lemma {:induction false} LastNone(m: seq<Entry>, p: nat)
    requires forall e :: e in m ==> e.ref.pointer != p
    ensures LastValue(m, p) == None
  {
    if m != [] {
      LastNone(m[..|m| - 1], p);
    }
  }

  lemma {:induction false} LastAppend(a: seq<Entry>, b: seq<Entry>, p: nat)
    ensures LastValue(a + b, p) == if LastValue(b, p).Some? then LastValue(b, p) else LastValue(a, p)
  {
    if b == [] {
      assert a + b == a;
    } else {
      LastAppend(a, b[..|b| - 1], p);
      assert (a + b)[..|a + b| - 1] == a + b[..|b| - 1];
    }
  }

  // ----- grouped database read -----

  ghost predicate AllRequested(requests: map<Address, seq<Ref>>) {
    forall a :: a in requests ==> forall r :: r in requests[a] ==> r.Requested?
  }

  method AllNull(requests: map<Address, seq<Ref>>) returns (result: map<Address, seq<Entry>>)
    requires AllRequested(requests)
    ensures result.Keys == requests.Keys && forall a :: a in requests ==> IsNull(requests[a], result[a])
  {
    result := map[];
    var rest := requests.Keys;
    ghost var done: set<Address> := {};
    while rest != {}
      invariant done <= requests.Keys && rest == requests.Keys - done
      invariant AreNull(requests, result, done)
      decreases |rest|
    {
      var a :| a in rest;
      var entries := NullEntries(requests[a]);
      Visit(requests.Keys, rest, done, a);
      OneMoreNull(requests, result, done, a, entries);
      result := result[a := entries];
      rest, done := rest - {a}, done + {a};
    }
    AllVisited(requests.Keys, done);
  }

  ghost predicate AreNull(requests: map<Address, seq<Ref>>, result: map<Address, seq<Entry>>, done: set<Address>) {
    && result.Keys == done
    && forall a :: a in requests && a in done ==> IsNull(requests[a], result[a])
  }

  lemma OneMoreNull(requests: map<Address, seq<Ref>>, result: map<Address, seq<Entry>>, done: set<Address>, a: Address, entries: seq<Entry>)
    requires AreNull(requests, result, done) && a in requests && IsNull(requests[a], entries)
    ensures AreNull(requests, result[a := entries], done + {a})
  {
  }

  ghost predicate IsNull(refs: seq<Ref>, entries: seq<Entry>) {
    && DistinctRefs(entries)
    && (forall e :: e in entries ==> e.ref in refs && e.ref.Requested? && e.value == None)
    && (forall p :: p in PointersOf(refs) ==> LastValue(entries, p) == Some(None))
  }

  function SlotsOf(requests: map<Address, seq<Ref>>): set<Slot> {
    set a, p | a in requests && p in PointersOf(requests[a]) :: Slot(a, p)
  }

  function RestOf(rest: set<Slot>, a: Address): set<nat> {
    set s | s in rest && s.address == a :: s.pointer
  }

  /** The read found exactly what the table holds, and says it last. */
  ghost predicate FetchedRight(t: Table, a: Address, refs: seq<Ref>, height: nat, entries: seq<Entry>) {
    && DistinctRefs(entries)
    && (forall e :: e in entries ==> e.ref.pointer in PointersOf(refs) && (e.ref.Fetched? || e.ref in refs))
    && (forall e :: e in entries && e.value.Some? ==> e.value == NewestValue(t, Slot(a, e.ref.pointer), height))
    && (forall p :: p in PointersOf(refs) ==> LastValue(entries, p) == Some(NewestValue(t, Slot(a, p), height)))
  }

  ghost predicate AllFetched(t: Table, requests: map<Address, seq<Ref>>, height: nat, result: map<Address, seq<Entry>>) {
    && result.Keys == requests.Keys
    && forall a :: a in requests ==> FetchedRight(t, a, requests[a], height, result[a])
  }

  ghost predicate AllFetching(t: Table, requests: map<Address, seq<Ref>>, height: nat, result: map<Address, seq<Entry>>, rest: set<Slot>) {
    && result.Keys == requests.Keys
    && forall a :: a in requests ==> Fetching(result[a], requests[a], RestOf(rest, a), t, a, height)
  }

  lemma FetchStep(t: Table, requests: map<Address, seq<Ref>>, height: nat, result: map<Address, seq<Entry>>, rest: set<Slot>, s: Slot)
    requires AllFetching(t, requests, height, result, rest) && s in rest && rest <= SlotsOf(requests)
    ensures s.address in result
    ensures var v := NewestValue(t, s, height);
      AllFetching(t, requests, height,
                  if v.Some? then result[s.address := MapSet(result[s.address], Fetched(s.pointer), v)] else result, rest - {s})
  {
    var a, v := s.address, NewestValue(t, s, height);
    var result' := if v.Some? then result[a := MapSet(result[a], Fetched(s.pointer), v)] else result;
    forall b | b in requests ensures Fetching(result'[b], requests[b], RestOf(rest - {s}, b), t, b, height) {
      RestLess(rest, s, b);
      if b == a {
        FetchKeeps(result[a], requests[a], RestOf(rest, a), t, a, height, s.pointer);
      }
    }
  }

  lemma RestLess(rest: set<Slot>, s: Slot, b: Address)
    requires s in rest
    ensures RestOf(rest - {s}, b) == if b == s.address then RestOf(rest, b) - {s.pointer} else RestOf(rest, b)
    ensures s.pointer in RestOf(rest, s.address)
  {
    assert forall x: Slot :: x.address == s.address && x.pointer == s.pointer ==> x == s;
  }

  /** Some groups have been added; those of the pointers in `rest` have not. */
  ghost predicate Fetching(entries: seq<Entry>, refs: seq<Ref>, rest: set<nat>, t: Table, address: Address, height: nat) {
    && DistinctRefs(entries)
    && (forall e :: e in entries ==> e.ref.pointer in PointersOf(refs) && (e.ref.Fetched? || e.ref in refs))
    && (forall e :: e in entries && e.ref.Fetched? ==> e.ref.pointer !in rest)
    && (forall e :: e in entries && e.value.Some? ==> e.value == NewestValue(t, Slot(address, e.ref.pointer), height))
    && (forall p :: p in rest ==> LastValue(entries, p) == Some(None))
    && (forall p :: p in PointersOf(refs) && p !in rest ==>
          LastValue(entries, p) == Some(NewestValue(t, Slot(address, p), height)))
  }

  lemma FetchKeeps(entries: seq<Entry>, refs: seq<Ref>, rest: set<nat>, t: Table, address: Address, height: nat, p: nat)
    requires Fetching(entries, refs, rest, t, address, height) && p in rest && p in PointersOf(refs)
    ensures var v := NewestValue(t, Slot(address, p), height);
      Fetching(if v.Some? then MapSet(entries, Fetched(p), v) else entries, refs, rest - {p}, t, address, height)
  {
    var v := NewestValue(t, Slot(address, p), height);
    if v.Some? {
      assert !HasRef(entries, Fetched(p));
      assert MapSet(entries, Fetched(p), v) == entries + [Entry(Fetched(p), v)];
      FetchAppends(entries, refs, rest, t, address, height, p, v);
    }
  }

  lemma FetchAppends(entries: seq<Entry>, refs: seq<Ref>, rest: set<nat>, t: Table, address: Address, height: nat, p: nat, v: Option<nat>)
    requires Fetching(entries, refs, rest, t, address, height) && p in rest && p in PointersOf(refs)
    requires v == NewestValue(t, Slot(address, p), height) && !HasRef(entries, Fetched(p))
    ensures Fetching(entries + [Entry(Fetched(p), v)], refs, rest - {p}, t, address, height)
  {
    var e := Entry(Fetched(p), v);
    assert (entries + [e])[..|entries|] == entries;
  }

  function NewestValue(t: Table, s: Slot, h: nat): Option<nat> {
    var v := Newest(t, s, h); if v.Some? then Some(v.value.value) else None
  }

  method NullEntries(refs: seq<Ref>) returns (entries: seq<Entry>)
    requires forall r :: r in refs ==> r.Requested?
    ensures IsNull(refs, entries)
  {
    entries := [];
    for i := 0 to |refs|
      invariant DistinctRefs(entries)
      invariant forall e :: e in entries ==> e.ref in refs && e.value == None
      invariant forall k :: 0 <= k < i ==> HasRef(entries, refs[k])
    {
      KeepsRefs(entries, refs[i], None);
      entries := MapSet(entries, refs[i], None);
    }
    forall p | p in PointersOf(refs) ensures LastValue(entries, p) == Some(None) {
      var r :| r in refs && r.pointer == p;
      var k :| 0 <= k < |refs| && refs[k] == r;
      assert HasRef(entries, refs[k]);
      var j :| 0 <= j < |entries| && entries[j].ref == r;
      assert entries[j] in entries;
      LastOf(entries, p, None);
    }
  }

  /** `getByContractsAndPointers`: every requested array starts out null; the aggregation yields one group per requested
      slot, in whatever order, and each group's newest document adds an entry of its own. */
  method GetByContractsAndPointers(t: Table, requests: map<Address, seq<Ref>>, height: nat) returns (result: map<Address, seq<Entry>>)
    requires AllRequested(requests)
    ensures AllFetched(t, requests, height, result)
  {
    result := AllNull(requests);
    var rest := SlotsOf(requests);
    assert AllFetching(t, requests, height, result, rest);
    while rest != {}
      invariant rest <= SlotsOf(requests) && AllFetching(t, requests, height, result, rest)
      decreases |rest|
    {
      var s :| s in rest;
      var newest := NewestValue(t, s, height);
      FetchStep(t, requests, height, result, rest, s);
      if newest.Some? {
        result := result[s.address := MapSet(result[s.address], Fetched(s.pointer), newest)];
      }
      rest := rest - {s};
    }
    forall a | a in requests ensures FetchedRight(t, a, requests[a], height, result[a]) {
      assert RestOf({}, a) == {};
    }
  }
}
