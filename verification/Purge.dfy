/** `VMMongoStorage.revertDataUntilBlock`: one unbounded delete above the known tip, then range deletes walking
    down in batches, over the stores that versions, spends and exposures make interesting. */
module Purge {
  import opened Common
  import Utxo
  import ContractPointers
  import KeyLinks

  datatype Stores = Stores(utxos: Utxo.Collection, pointers: ContractPointers.Table, keys: KeyLinks.KeyTable)

  /** Block heights from `from` up to but not including `to`; `None` is no upper end. */
  datatype Range = Range(from: nat, to: Option<nat>)

  function DeletePointers(t: ContractPointers.Table, r: Range): ContractPointers.Table {
    if r.to.Some? then ContractPointers.DeleteRange(t, r.from, r.to.value) else ContractPointers.DeleteFrom(t, r.from)
  }

  /** The deletes that one pass sends to the three repositories. */
  function Delete(s: Stores, r: Range, purgeUtxos: bool): Stores {
    Stores(if purgeUtxos then Utxo.Rollback(s.utxos, r.from, r.to) else s.utxos,
           DeletePointers(s.pointers, r),
           KeyLinks.Rollback(s.keys, r.from, r.to))
  }

  function DeleteAll(s: Stores, ranges: seq<Range>, purgeUtxos: bool): Stores {
    if ranges == [] then s
    else Delete(DeleteAll(s, ranges[..|ranges| - 1], purgeUtxos), ranges[|ranges| - 1], purgeUtxos)
  }

  ghost predicate Covers(r: Range, h: nat) {
    r.from <= h && (r.to.Some? ==> h < r.to.value)
  }

  ghost function Covered(ranges: seq<Range>): iset<nat> {
    iset i, h: nat | 0 <= i < |ranges| && Covers(ranges[i], h) :: h
  }

  // ----- deleting by a set of heights -----

  ghost function UndoUtxos(c: Utxo.Collection, s: iset<nat>): Utxo.Collection {
    var gone := iset p | p in c.coins && c.coins[p].blockHeight in s;
    Utxo.Collection(
      map p | p in c.coins && p !in gone :: c.coins[p],
      map p | p in c.marks && p !in gone ::
        if c.marks[p].At? && c.marks[p].height in s then Utxo.Null else c.marks[p])
  }

  ghost function UndoPointers(t: ContractPointers.Table, s: iset<nat>): ContractPointers.Table {
    map k | k in t && k.lastSeenAt !in s :: t[k]
  }

  ghost function UndoKeys(t: KeyLinks.KeyTable, s: iset<nat>): KeyLinks.KeyTable {
    map h | h in t && t[h].inserted !in s ::
      if t[h].exposed.Some? && t[h].exposed.value in s then t[h].(publicKey := None, exposed := None) else t[h]
  }

  ghost function Undo(s: Stores, heights: iset<nat>, purgeUtxos: bool): Stores {
    Stores(if purgeUtxos then UndoUtxos(s.utxos, heights) else s.utxos,
           UndoPointers(s.pointers, heights), UndoKeys(s.keys, heights))
  }

  lemma UndoUtxosTwice(c: Utxo.Collection, a: iset<nat>, b: iset<nat>)
    ensures UndoUtxos(UndoUtxos(c, a), b) == UndoUtxos(c, a + b)
  {
  }

  lemma UndoTwice(s: Stores, a: iset<nat>, b: iset<nat>, purgeUtxos: bool)
    ensures Undo(Undo(s, a, purgeUtxos), b, purgeUtxos) == Undo(s, a + b, purgeUtxos)
  {
    UndoUtxosTwice(s.utxos, a, b);
    assert UndoPointers(UndoPointers(s.pointers, a), b) == UndoPointers(s.pointers, a + b);
    assert UndoKeys(UndoKeys(s.keys, a), b) == UndoKeys(s.keys, a + b);
  }

  lemma DeleteIsUndo(s: Stores, r: Range, purgeUtxos: bool)
    ensures Delete(s, r, purgeUtxos) == Undo(s, Covered([r]), purgeUtxos)
  {
    UtxoDeleteIsUndo(s.utxos, r);
    assert forall h: nat :: h in Covered([r]) <==> Covers([r][0], h);
    assert DeletePointers(s.pointers, r) == UndoPointers(s.pointers, Covered([r]));
    assert KeyLinks.Rollback(s.keys, r.from, r.to) == UndoKeys(s.keys, Covered([r]));
  }

  lemma UtxoDeleteIsUndo(c: Utxo.Collection, r: Range)
    ensures Utxo.Rollback(c, r.from, r.to) == UndoUtxos(c, Covered([r]))
  {
    assert forall h: nat :: h in Covered([r]) <==> Covers([r][0], h);
  }

  /** What is left depends only on which heights the deletes cover together: their number, size, order and
      overlap do not matter. */
  lemma {:induction false} DeleteAllIsUndo(s: Stores, ranges: seq<Range>, purgeUtxos: bool)
    ensures DeleteAll(s, ranges, purgeUtxos) == Undo(s, Covered(ranges), purgeUtxos)
  {
    if ranges == [] {
      assert Covered(ranges) == iset{};
      assert UndoUtxos(s.utxos, iset{}) == s.utxos;
      assert UndoPointers(s.pointers, iset{}) == s.pointers;
      assert UndoKeys(s.keys, iset{}) == s.keys;
    } else {
      var init, last := ranges[..|ranges| - 1], ranges[|ranges| - 1];
      DeleteAllIsUndo(s, init, purgeUtxos);
      DeleteIsUndo(DeleteAll(s, init, purgeUtxos), last, purgeUtxos);
      UndoTwice(s, Covered(init), Covered([last]), purgeUtxos);
      CoveredSnoc(init, last);
      assert ranges == init + [last];
    }
  }

  lemma CoveredSnoc(init: seq<Range>, last: Range)
    ensures Covered(init + [last]) == Covered(init) + Covered([last])
  {
    var all := init + [last];
    forall h: nat ensures h in Covered(all) <==> h in Covered(init) || h in Covered([last]) {
      if h in Covered(init) {
        var i :| 0 <= i < |init| && Covers(init[i], h);
        assert Covers(all[i], h);
      }
      if h in Covered([last]) {
        assert Covers(all[|init|], h);
      }
      if h in Covered(all) {
        var i :| 0 <= i < |all| && Covers(all[i], h);
        assert i < |init| ==> Covers(init[i], h);
        assert i == |init| ==> Covers([last][0], h);
      }
    }
  }

  /** Deleting over any partition of the heights from `h` on, in any order, equals the single delete from `h`. */
  lemma AnyPartition(s: Stores, ranges: seq<Range>, h: nat, purgeUtxos: bool)
    requires forall x: nat :: x in Covered(ranges) <==> x >= h
    ensures DeleteAll(s, ranges, purgeUtxos) == Delete(s, Range(h, None), purgeUtxos)
  {
    DeleteAllIsUndo(s, ranges, purgeUtxos);
    DeleteIsUndo(s, Range(h, None), purgeUtxos);
    assert forall x: nat :: x in Covered([Range(h, None)]) <==> Covers([Range(h, None)][0], x);
    assert Covered(ranges) == Covered([Range(h, None)]);
  }

  // ----- one delete, in fields -----

  /** Outputs, versions and links of the covered heights are gone; of the other outputs and links only the spends and exposures
      of covered heights are undone; without the flag the outputs are untouched. */
  lemma DeleteMeans(s: Stores, r: Range, purgeUtxos: bool)
    ensures var s' := Delete(s, r, purgeUtxos);
      && (!purgeUtxos ==> s'.utxos == s.utxos)
      && (purgeUtxos ==> forall p ::
            (p in s'.utxos.coins <==> p in s.utxos.coins && !Covers(r, s.utxos.coins[p].blockHeight))
            && (p in s'.utxos.coins ==> s'.utxos.coins[p] == s.utxos.coins[p]))
      && (purgeUtxos ==> forall p, at: nat ::
            (p in s'.utxos.marks && s'.utxos.marks[p] == Utxo.At(at))
            <==> p in s.utxos.marks && s.utxos.marks[p] == Utxo.At(at) && !Covers(r, at)
                 && (p in s.utxos.coins ==> !Covers(r, s.utxos.coins[p].blockHeight)))
      && (forall k :: (k in s'.pointers <==> k in s.pointers && !Covers(r, k.lastSeenAt))
                      && (k in s'.pointers ==> s'.pointers[k] == s.pointers[k]))
      && (forall k :: k in s'.keys <==> k in s.keys && !Covers(r, s.keys[k].inserted))
      && (forall k :: k in s'.keys ==>
            s'.keys[k] == if s.keys[k].exposed.Some? && Covers(r, s.keys[k].exposed.value)
                          then s.keys[k].(publicKey := None, exposed := None) else s.keys[k])
  {
  }

  // ----- the walk -----

  function Max(a: nat, b: nat): nat {
    if a >= b then a else b
  }

  /** Whatever the tables say the tip is, and whatever the batch size, the result is the single delete. */
  method RevertDataUntilBlock(s: Stores, blockId: nat, latestBlock: Option<nat>, inProgressBlock: nat,
                              reindexBatchSize: nat, purgeUtxos: bool) returns (s': Stores)
    ensures s' == Delete(s, Range(blockId, None), purgeUtxos)
  {
    var batchSize := if reindexBatchSize == 0 then 1000 else reindexBatchSize;
    var blockHeaderHeight := if latestBlock.Some? then latestBlock.value else blockId;
    var derivedUpper := Max(blockHeaderHeight, inProgressBlock);
    var upperBound := Max(derivedUpper, blockId);

    s' := WalkDown(s, upperBound, blockId, batchSize, purgeUtxos);
    if blockId == 0 && purgeUtxos {
      s' := s'.(utxos := DropCreated(s'.utxos));
    }
  }

  method WalkDown(s: Stores, upperBound: nat, blockId: nat, batchSize: nat, purgeUtxos: bool) returns (s': Stores)
    requires batchSize > 0 && blockId <= upperBound
    ensures s' == Delete(s, Range(blockId, None), purgeUtxos)
  {
    s' := Delete(s, Range(upperBound, None), purgeUtxos);
    var to: int := upperBound;
    ghost var reached: nat := upperBound;
    while to > blockId
      invariant reached == if to > blockId then to else blockId
      invariant s' == Delete(s, Range(reached, None), purgeUtxos)
    {
      var from := if to - batchSize < blockId then blockId else to - batchSize;
      NextBatch(s, from, to, purgeUtxos);
      s' := Delete(s', Range(from, Some(to)), purgeUtxos);
      to := to - batchSize;
      reached := from;
    }
  }

  lemma NextBatch(s: Stores, from: nat, to: nat, purgeUtxos: bool)
    requires from <= to
    ensures Delete(Delete(s, Range(to, None), purgeUtxos), Range(from, Some(to)), purgeUtxos)
         == Delete(s, Range(from, None), purgeUtxos)
  {
    var ranges := [Range(to, None), Range(from, Some(to))];
    assert ranges[..1] == [Range(to, None)] && ranges[..1][..0] == [];
    assert DeleteAll(s, ranges[..1], purgeUtxos) == Delete(DeleteAll(s, [], purgeUtxos), Range(to, None), purgeUtxos);
    assert DeleteAll(s, ranges, purgeUtxos)
        == Delete(Delete(s, Range(to, None), purgeUtxos), Range(from, Some(to)), purgeUtxos);
    forall x: nat ensures x in Covered(ranges) <==> x >= from {
      assert Covers(ranges[0], x) <==> x >= to;
      assert Covers(ranges[1], x) <==> from <= x < to;
    }
    AnyPartition(s, ranges, from, purgeUtxos);
  }

  /** `deleteGreaterThanBlockHeight(0)`: after a rollback to 0 there is nothing left for it to delete. */
  function DropCreated(c: Utxo.Collection): (c': Utxo.Collection)
    ensures c.coins == map[] ==> c' == c
  {
    Utxo.Collection(map[], map p | p in c.marks && p !in c.coins :: c.marks[p])
  }
}
