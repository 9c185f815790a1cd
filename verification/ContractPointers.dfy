/** `ContractPointerValueRepository`: a multi-version table of contract storage.  A block writes its
    slots under its own height; a read at height `h` takes the greatest version strictly below `h`. */
module ContractPointers {
  import opened Common
  import opened BulkWrite

  type Address = string

  /** The fake address that pads the state tree; its values are never written. */
  const DUMMY_ADDRESS: Address := "dead"

  datatype Slot = Slot(address: Address, pointer: nat)

  datatype VersionKey = VersionKey(slot: Slot, lastSeenAt: nat)

  datatype Version = Version(value: nat, lastSeenAt: nat)

  type Table = map<VersionKey, nat>

  /** Match on slot and `lastSeenAt < h`, sort by `lastSeenAt` descending, take the first. */
  function Newest(t: Table, s: Slot, h: nat): (r: Option<Version>) {
    if h == 0 then None
    else if VersionKey(s, h - 1) in t then Some(Version(t[VersionKey(s, h - 1)], h - 1))
    else Newest(t, s, h - 1)
  }

  ghost predicate IsNewest(t: Table, s: Slot, h: nat, r: Option<Version>) {
    match r
    case None => forall k :: k in t && k.slot == s ==> k.lastSeenAt >= h
    case Some(v) =>
      && v.lastSeenAt < h
      && VersionKey(s, v.lastSeenAt) in t && t[VersionKey(s, v.lastSeenAt)] == v.value
      && forall k :: k in t && k.slot == s && k.lastSeenAt < h ==> k.lastSeenAt <= v.lastSeenAt
  }

  /** The read returns the one version that the query's match and sort describe. */
  lemma {:induction false} NewestIsGreatest(t: Table, s: Slot, h: nat, r: Option<Version>)
    ensures IsNewest(t, s, h, r) <==> r == Newest(t, s, h)
  {
    if h > 0 && VersionKey(s, h - 1) !in t {
      NewestIsGreatest(t, s, h - 1, r);
      assert forall k :: k in t && k.slot == s && k.lastSeenAt == h - 1 ==> k == VersionKey(s, h - 1);
    }
  }

  /** What one block wrote. */
  ghost function WriteSet(t: Table, h: nat): map<Slot, Version> {
    map s | s in SlotsAt(t, h) :: Version(t[VersionKey(s, h)], h)
  }

  ghost function SlotsAt(t: Table, h: nat): (slots: set<Slot>)
    ensures forall s :: s in slots <==> VersionKey(s, h) in t
  {
    var slots := set k | k in t && k.lastSeenAt == h :: k.slot;
    assert forall s :: VersionKey(s, h) in t ==> VersionKey(s, h).slot in slots;
    slots
  }

  /** Contract storage as a plain map: every write-set below `h`, later blocks overriding earlier ones. */
  ghost function LedgerBelow(t: Table, h: nat): map<Slot, Version> {
    if h == 0 then map[] else LedgerBelow(t, h - 1) + WriteSet(t, h - 1)
  }

  ghost function Lookup(m: map<Slot, Version>, s: Slot): Option<Version> {
    if s in m then Some(m[s]) else None
  }

  /** A versioned read at `h` sees the fold of all block write-sets below `h`. */
  lemma {:induction false} ReadIsLedger(t: Table, s: Slot, h: nat)
    ensures Newest(t, s, h) == Lookup(LedgerBelow(t, h), s)
  {
    if h > 0 {
      ReadIsLedger(t, s, h - 1);
      assert s in WriteSet(t, h - 1) <==> VersionKey(s, h - 1) in t;
    }
  }

  /** The upserts of one block, keyed by slot and height. */
  function Commit(t: Table, writes: map<Slot, nat>, h: nat): Table {
    t + map k | k in KeysAt(writes, h) :: writes[k.slot]
  }

  function KeysAt(writes: map<Slot, nat>, h: nat): set<VersionKey> {
    set s | s in writes && s.address != DUMMY_ADDRESS :: VersionKey(s, h)
  }

  lemma CommitIgnoresDummies(t: Table, padding: map<Slot, nat>, writes: map<Slot, nat>, h: nat)
    requires forall s :: s in padding ==> s.address == DUMMY_ADDRESS
    ensures Commit(t, padding + writes, h) == Commit(t, writes, h)
  {
    assert KeysAt(padding + writes, h) == KeysAt(writes, h);
  }

  function DeleteFrom(t: Table, h: nat): Table {
    map k | k in t && k.lastSeenAt < h :: t[k]
  }

  function DeleteRange(t: Table, from: nat, to: nat): Table {
    map k | k in t && !(from <= k.lastSeenAt < to) :: t[k]
  }

  /** Two tables with the same versions below `h` cannot be told apart by reads at or below `h`. */
  ghost predicate AgreeBelow(t: Table, t': Table, h: nat) {
    forall k: VersionKey :: k.lastSeenAt < h ==> (k in t <==> k in t') && (k in t ==> t[k] == t'[k])
  }

  lemma {:induction false} AgreeingReads(t: Table, t': Table, s: Slot, h: nat)
    requires AgreeBelow(t, t', h)
    ensures Newest(t, s, h) == Newest(t', s, h)
  {
    if h > 0 && VersionKey(s, h - 1) !in t {
      AgreeingReads(t, t', s, h - 1);
    }
  }

  /** A block that crashed after any part of its writes, at any heights from `h` on, re-executes on the same
      pre-state, and purging from `h` removes every trace of it. */
  lemma CrashedBlockIsInvisible(t: Table, partial: Table, h: nat)
    requires forall k :: k in partial ==> k.lastSeenAt >= h
    ensures forall s :: Newest(t + partial, s, h) == Newest(t, s, h)
    ensures DeleteFrom(t + partial, h) == DeleteFrom(t, h)
  {
    forall s ensures Newest(t + partial, s, h) == Newest(t, s, h) {
      AgreeingReads(t, t + partial, s, h);
    }
  }

  /** After a rollback to `h`, a read at any height answers as the old table did at the lower of the two. */
  lemma {:induction false} RollbackReads(t: Table, s: Slot, h: nat, at: nat)
    ensures Newest(DeleteFrom(t, h), s, at) == Newest(t, s, Min(at, h))
  {
    if at <= h {
      AgreeingReads(t, DeleteFrom(t, h), s, at);
    } else {
      RollbackReads(t, s, h, at - 1);
    }
  }

  /** The next blocks see exactly the previous storage overridden by this block's writes, as long as nothing
      was left at or above this height. */
  lemma NextBlockSees(t: Table, writes: map<Slot, nat>, h: nat, next: nat)
    requires forall k :: k in t ==> k.lastSeenAt < h
    requires h < next
    ensures LedgerBelow(Commit(t, writes, h), next) == LedgerBelow(t, h) + Versions(writes, h)
  {
    var after, expected := LedgerBelow(Commit(t, writes, h), next), LedgerBelow(t, h) + Versions(writes, h);
    forall s: Slot ensures Lookup(after, s) == Lookup(expected, s) {
      NextRead(t, writes, h, next, s);
      ReadIsLedger(Commit(t, writes, h), s, next);
      ReadIsLedger(t, s, h);
    }
    SameMap(after, expected);
  }

  ghost function Versions(writes: map<Slot, nat>, h: nat): map<Slot, Version> {
    map s | s in writes && s.address != DUMMY_ADDRESS :: Version(writes[s], h)
  }

  lemma SameMap(a: map<Slot, Version>, b: map<Slot, Version>)
    requires forall s: Slot :: Lookup(a, s) == Lookup(b, s)
    ensures a == b
  {
    forall s: Slot ensures s in a <==> s in b
                   ensures s in a ==> a[s] == b[s]
    {
      assert Lookup(a, s) == Lookup(b, s);
    }
  }

  lemma {:induction false} NextRead(t: Table, writes: map<Slot, nat>, h: nat, next: nat, s: Slot)
    requires forall k :: k in t ==> k.lastSeenAt < h
    requires h < next
    ensures Newest(Commit(t, writes, h), s, next)
         == if s in writes && s.address != DUMMY_ADDRESS then Some(Version(writes[s], h)) else Newest(t, s, h)
  {
    var t', k := Commit(t, writes, h), VersionKey(s, next - 1);
    assert k !in t && (k in KeysAt(writes, h) <==> s in writes && s.address != DUMMY_ADDRESS && next - 1 == h);
    if next > h + 1 {
      NextRead(t, writes, h, next - 1, s);
    } else if k !in t' {
      AgreeingReads(t, t', s, h);
    }
  }

  const MAX_OPERATIONS_PER_BATCH := 1000

  /** Collects one upsert per slot, skips the dummy address, flushes every 1000 operations, and runs the
      batches concurrently.  The maps are visited in any order. */
  method SetStoragePointers(t: Table, storage: map<Slot, nat>, lastSeenAt: nat) returns (t': Table)
    ensures t' == Commit(t, storage, lastSeenAt)
  {
    var batches: seq<seq<Op<VersionKey, nat>>> := [];
    var operations: seq<Op<VersionKey, nat>> := [];
    var rest := storage.Keys;
    ghost var done: set<Slot> := {};
    while rest != {}
      invariant done + rest == storage.Keys && done !! rest
      invariant Pending(batches + [operations]) == SlotOps(storage, done, lastSeenAt)
      decreases rest
    {
      var s :| s in rest;
      rest, done := rest - {s}, done + {s};
      if s.address != DUMMY_ADDRESS {
        var op := Op(VersionKey(s, lastSeenAt), storage[s]);
        PendingPush(batches, operations, op);
        operations := operations + [op];
        if |operations| >= MAX_OPERATIONS_PER_BATCH {
          PendingFlush(batches + [operations]);
          batches := batches + [operations];
          operations := [];
        }
      }
    }
    assert done == storage.Keys;
    if |operations| > 0 {
      batches := batches + [operations];
    } else {
      PendingFlush(batches);
    }
    t' := BulkWriteAll(t, batches);
    SlotOpsWritten(storage, lastSeenAt);
  }

  ghost function SlotOps(storage: map<Slot, nat>, slots: set<Slot>, h: nat): set<Op<VersionKey, nat>>
    requires slots <= storage.Keys
  {
    set s | s in slots && s.address != DUMMY_ADDRESS :: Op(VersionKey(s, h), storage[s])
  }

  lemma SlotOpsWritten(storage: map<Slot, nat>, h: nat)
    ensures Functional(SlotOps(storage, storage.Keys, h))
    ensures Written(SlotOps(storage, storage.Keys, h)) == map k | k in KeysAt(storage, h) :: storage[k.slot]
  {
    var ops := SlotOps(storage, storage.Keys, h);
    forall k ensures k in Written(ops) <==> k in KeysAt(storage, h)
             ensures k in KeysAt(storage, h) ==> Written(ops)[k] == storage[k.slot]
    {
      WrittenFrom(ops, k);
      if k in KeysAt(storage, h) {
        assert Op(VersionKey(k.slot, h), storage[k.slot]) in ops;
      }
    }
  }

  lemma PendingPush<T>(batches: seq<seq<T>>, operations: seq<T>, op: T)
    ensures Pending(batches + [operations + [op]]) == Pending(batches + [operations]) + {op}
  {
    var a, b, n := batches + [operations], batches + [operations + [op]], |batches|;
    assert b[n][|operations|] == op;
    forall x | x in Pending(a) ensures x in Pending(b) {
      var i, j :| 0 <= i < |a| && 0 <= j < |a[i]| && a[i][j] == x;
      assert b[i][j] == x;
    }
    forall x | x in Pending(b) ensures x in Pending(a) + {op} {
      var i, j :| 0 <= i < |b| && 0 <= j < |b[i]| && b[i][j] == x;
      assert x == op || a[i][j] == x;
    }
  }

  lemma PendingFlush<T>(batches: seq<seq<T>>)
    ensures Pending(batches + [[]]) == Pending(batches)
  {
    var b := batches + [[]];
    forall x | x in Pending(batches) ensures x in Pending(b) {
      var i, j :| 0 <= i < |batches| && 0 <= j < |batches[i]| && batches[i][j] == x;
      assert b[i][j] == x;
    }
  }
}
