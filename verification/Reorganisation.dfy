/** A live reorganisation of the whole node: whatever the abandoned branch did to the three stores, one
    `revertDataUntilBlock` takes it back. */
module Reorganisation {
  import opened Common
  import opened BulkWrite
  import Utxo
  import UtxoReorg
  import ContractPointers
  import KeyLinks
  import KeyHistory
  import ParallelIngest
  import Purge

  /** The storage writes of one block, or of as much of it as was written before a crash. */
  datatype StorageCommit = StorageCommit(height: nat, writes: map<ContractPointers.Slot, nat>)

  /** The batches of sync threads, through the repository object. */
  method IngestBatches(batches: seq<Utxo.Batch>, ghost chain: set<Utxo.Block>) returns (c: Utxo.Collection)
    requires Utxo.ValidChain(chain) && Utxo.BlocksOf(batches) <= chain
    ensures c == Utxo.IngestAll(Utxo.EMPTY, batches)
  {
    var repository := new Utxo.UnspentTransactionRepository();
    for i := 0 to |batches|
      invariant fresh(repository) && repository.Contents() == Utxo.IngestAll(Utxo.EMPTY, batches[..i])
    {
      OneOutcome(batches[i], chain);
      repository.InsertTransactions(batches[i]);
      assert batches[..i + 1][..i] == batches[..i];
    }
    assert batches[..|batches|] == batches;
    c := Utxo.Collection(repository.coins, repository.marks);
  }

  /** The operations of a batch of valid blocks agree on every key. */
  lemma OneOutcome(batch: Utxo.Batch, chain: set<Utxo.Block>)
    requires Utxo.ValidChain(chain) && forall b :: b in batch ==> b in chain
    ensures Functional(OpSet(Utxo.Survivors(batch))) && Functional(OpSet(Utxo.BatchSpends(batch)))
  {
    forall k | k in Utxo.Survivors(batch) ensures Utxo.Creates(chain, k) {
      Utxo.CoinsMember(batch, Utxo.Points(Utxo.BatchSpends(batch)), k);
    }
    forall m | m in Utxo.BatchSpends(batch) ensures Utxo.Spends(chain, m) {
      Utxo.SpendsMember(batch, m);
    }
  }

  method CommitStorage(t: ContractPointers.Table, commits: seq<StorageCommit>, ghost h: nat) returns (t': ContractPointers.Table)
    requires forall c :: c in commits ==> c.height >= h
    ensures t' == CommitAll(t, commits, |commits|)
    ensures ContractPointers.DeleteFrom(t', h) == ContractPointers.DeleteFrom(t, h)
  {
    t' := t;
    for i := 0 to |commits|
      invariant t' == CommitAll(t, commits, i)
      invariant ContractPointers.DeleteFrom(t', h) == ContractPointers.DeleteFrom(t, h)
    {
      ghost var before := t';
      t' := ContractPointers.SetStoragePointers(t', commits[i].writes, commits[i].height);
      CommitAbove(before, commits[i].writes, commits[i].height, h);
    }
  }

  function CommitAll(t: ContractPointers.Table, commits: seq<StorageCommit>, n: nat): ContractPointers.Table
    requires n <= |commits|
  {
    if n == 0 then t
    else ContractPointers.Commit(CommitAll(t, commits, n - 1), commits[n - 1].writes, commits[n - 1].height)
  }

  lemma CommitAbove(t: ContractPointers.Table, writes: map<ContractPointers.Slot, nat>, height: nat, h: nat)
    requires height >= h
    ensures ContractPointers.DeleteFrom(ContractPointers.Commit(t, writes, height), h) == ContractPointers.DeleteFrom(t, h)
  {
  }

  lemma PartOfValidChain(chain: set<Utxo.Block>, part: set<Utxo.Block>)
    requires Utxo.ValidChain(chain) && part <= chain
    ensures Utxo.ValidChain(part)
  {
    assert forall k :: Utxo.Creates(part, k) ==> Utxo.Creates(chain, k);
    assert forall m :: Utxo.Spends(part, m) ==> Utxo.Spends(chain, m);
  }

  /** Contract storage and key links hold what is below `h`; any blocks from `h` on, whole or half-written, go through
      them, and any batches of a chain through the unspent outputs, all threads at once.  Reverting to `h` gives back
      exactly the old storage and (dated) links, and the unspent outputs of the blocks below `h` if and only if no
      batch lost a coin or a spend. */
  method LiveReorg(batches: seq<Utxo.Batch>, ghost chain: set<Utxo.Block>, h: nat,
                   pointers: ContractPointers.Table, commits: seq<StorageCommit>,
                   tweak: KeyLinks.Legacy -> KeyLinks.Tweaked, keys: KeyLinks.KeyTable, blocks: seq<KeyHistory.BlockRequests>,
                   latestBlock: Option<nat>, inProgressBlock: nat, reindexBatchSize: nat) returns (s: Purge.Stores)
    requires Utxo.ValidChain(chain) && Utxo.BlocksOf(batches) == chain
    requires forall k :: k in pointers ==> k.lastSeenAt < h
    requires forall c :: c in commits ==> c.height >= h
    requires KeyLinks.WellFormed(keys, tweak) && KeyLinks.Before(keys, h)
    requires KeyHistory.AllFrom(tweak, blocks) && KeyHistory.CommitsFrom(blocks, h)
    ensures s.pointers == pointers && (KeyLinks.Dated(keys) ==> s.keys == keys)
    ensures UtxoReorg.Correct(s.utxos, Utxo.Below(chain, h))
       <==> && (forall k :: !UtxoReorg.LostCoin(batches, [], Utxo.Below(chain, h), k))
            && (forall p :: !UtxoReorg.LostSpend(batches, h, [], Utxo.Below(chain, h), p))
  {
    var utxos := ParallelIngest.InsertConcurrently(batches, chain);
    var written := CommitStorage(pointers, commits, h);
    var linked := KeyHistory.RunBlocks(tweak, keys, blocks, h);

    s := Purge.RevertDataUntilBlock(Purge.Stores(utxos, written, linked), h, latestBlock, inProgressBlock, reindexBatchSize, true);

    NothingToDelete(pointers, h);
    RolledBack(batches, chain, h);
  }

  lemma NothingToDelete(t: ContractPointers.Table, h: nat)
    requires forall k :: k in t ==> k.lastSeenAt < h
    ensures ContractPointers.DeleteFrom(t, h) == t
  {
  }

  /** A reorganisation to the empty branch. */
  lemma RolledBack(batches: seq<Utxo.Batch>, chain: set<Utxo.Block>, h: nat)
    requires Utxo.ValidChain(chain) && Utxo.BlocksOf(batches) == chain
    ensures UtxoReorg.Correct(Utxo.Rollback(Utxo.IngestAll(Utxo.EMPTY, batches), h, None), Utxo.Below(chain, h))
       <==> && (forall k :: !UtxoReorg.LostCoin(batches, [], Utxo.Below(chain, h), k))
            && (forall p :: !UtxoReorg.LostSpend(batches, h, [], Utxo.Below(chain, h), p))
  {
    var kept := Utxo.Below(chain, h);
    assert Utxo.Below(kept, h) == kept && Utxo.BlocksOf([]) == {};
    PartOfValidChain(chain, kept);
    UtxoReorg.ReorgTheorem(batches, chain, h, [], kept);
  }
}
