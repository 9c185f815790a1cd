/** Any number of reorganisations: each round rolls the store back to a height and ingests the batches of a new branch.
    A creation or spend survives from the round that wrote it if it lies below every later rollback. */
module UtxoHistory {
  import opened Common
  import opened BulkWrite
  import opened Utxo
  import opened UtxoReorg

  datatype Round = Round(height: nat, batches: seq<Batch>)

  /** The store after the first `n` rounds. */
  ghost function StoreAfter(rounds: seq<Round>, n: nat): Collection
    requires n <= |rounds|
  {
    if n == 0 then EMPTY
    else IngestAll(Rollback(StoreAfter(rounds, n - 1), rounds[n - 1].height, None), rounds[n - 1].batches)
  }

  /** A creation that some round wrote and no later rollback took back. */
  ghost predicate Keeps(rounds: seq<Round>, n: nat, k: Creation)
    requires n <= |rounds|
  {
    n > 0 && (k in Stored(rounds[n - 1].batches) || (Keeps(rounds, n - 1, k) && k.value.blockHeight < rounds[n - 1].height))
  }

  /** A spend that some round wrote and no later rollback took back. */
  ghost predicate KeepsSpend(rounds: seq<Round>, n: nat, m: Spend)
    requires n <= |rounds|
  {
    n > 0 && (m in Marked(rounds[n - 1].batches) || (KeepsSpend(rounds, n - 1, m) && SpentAt(m) < rounds[n - 1].height))
  }

  lemma {:induction false} KeepsMeans(rounds: seq<Round>, n: nat, k: Creation)
    requires n <= |rounds|
    ensures Keeps(rounds, n, k) <==> exists i :: 0 <= i < n && k in Stored(rounds[i].batches) && BelowLater(rounds, i, n, k.value.blockHeight)
  {
    if n > 0 {
      KeepsMeans(rounds, n - 1, k);
      if Keeps(rounds, n - 1, k) && k.value.blockHeight < rounds[n - 1].height {
        var i :| 0 <= i < n - 1 && k in Stored(rounds[i].batches) && BelowLater(rounds, i, n - 1, k.value.blockHeight);
        assert BelowLater(rounds, i, n, k.value.blockHeight);
      }
      if k in Stored(rounds[n - 1].batches) {
        assert BelowLater(rounds, n - 1, n, k.value.blockHeight);
      }
      if i :| 0 <= i < n && k in Stored(rounds[i].batches) && BelowLater(rounds, i, n, k.value.blockHeight) {
        assert i < n - 1 ==> BelowLater(rounds, i, n - 1, k.value.blockHeight);
      }
    }
  }

  lemma {:induction false} KeepsSpendMeans(rounds: seq<Round>, n: nat, m: Spend)
    requires n <= |rounds|
    ensures KeepsSpend(rounds, n, m) <==> exists i :: 0 <= i < n && m in Marked(rounds[i].batches) && BelowLater(rounds, i, n, SpentAt(m))
  {
    if n > 0 {
      KeepsSpendMeans(rounds, n - 1, m);
      if KeepsSpend(rounds, n - 1, m) && SpentAt(m) < rounds[n - 1].height {
        var i :| 0 <= i < n - 1 && m in Marked(rounds[i].batches) && BelowLater(rounds, i, n - 1, SpentAt(m));
        assert BelowLater(rounds, i, n, SpentAt(m));
      }
      if m in Marked(rounds[n - 1].batches) {
        assert BelowLater(rounds, n - 1, n, SpentAt(m));
      }
      if i :| 0 <= i < n && m in Marked(rounds[i].batches) && BelowLater(rounds, i, n, SpentAt(m)) {
        assert i < n - 1 ==> BelowLater(rounds, i, n - 1, SpentAt(m));
      }
    }
  }

  ghost predicate BelowLater(rounds: seq<Round>, i: nat, n: nat, height: nat)
    requires n <= |rounds|
  {
    forall j :: i < j < n ==> height < rounds[j].height
  }

  /** `chains[i]` is the chain after round `i`: it agrees with the one before it below the rollback height, and the batches
      bring all its other blocks. */
  ghost predicate History(rounds: seq<Round>, chains: seq<set<Block>>) {
    && |chains| == |rounds|
    && forall i :: 0 <= i < |rounds| ==> Follows(if i == 0 then {} else chains[i - 1], rounds[i], chains[i])
  }

  ghost predicate Follows(before: set<Block>, r: Round, chain: set<Block>) {
    && ValidChain(chain)
    && Below(before, r.height) == Below(chain, r.height)
    && chain - Below(chain, r.height) <= BlocksOf(r.batches) <= chain
  }

  function ChainAfter(chains: seq<set<Block>>, n: nat): set<Block>
    requires n <= |chains|
  {
    if n == 0 then {} else chains[n - 1]
  }

  // ----- what one round does -----

  predicate Holds(c: Collection, k: Creation) {
    k.key in c.coins && c.coins[k.key] == k.value
  }

  predicate HoldsSpend(c: Collection, m: Spend) {
    m.value.At? && m.key in c.marks && c.marks[m.key] == m.value
  }

  /** Everything in the store comes from the chain. */
  ghost predicate From(c: Collection, chain: set<Block>) {
    && (forall k :: Holds(c, k) ==> Creates(chain, k))
    && (forall m :: HoldsSpend(c, m) ==> Spends(chain, m))
  }

  lemma RollbackHolds(c: Collection, chain: set<Block>, h: nat, k: Creation, m: Spend)
    requires ValidChain(chain) && From(c, chain)
    ensures Holds(Rollback(c, h, None), k) <==> Holds(c, k) && k.value.blockHeight < h
    ensures HoldsSpend(Rollback(c, h, None), m) <==> HoldsSpend(c, m) && SpentAt(m) < h
  {
    if HoldsSpend(c, m) && m.key in c.coins {
      var created := Op(m.key, c.coins[m.key]);
      assert Holds(c, created) && created.value.blockHeight <= SpentAt(m);
    }
  }

  lemma WriteHolds<V>(store: map<OutPoint, V>, ops: set<Op<OutPoint, V>>, o: Op<OutPoint, V>)
    requires Functional(ops) && (o.key in store && store[o.key] == o.value ==> Functional(ops + {o}))
    ensures var after := store + Written(ops);
      o.key in after && after[o.key] == o.value <==> o in ops || (o.key in store && store[o.key] == o.value)
  {
    WrittenFrom(ops, o.key);
    if o in ops {
      WrittenHas(ops, o);
    }
    assert Op(o.key, o.value) == o;
  }

  lemma SameBranch(before: set<Block>, r: Round, chain: set<Block>, c: Collection, k: Creation, m: Spend)
    requires ValidChain(before) && Follows(before, r, chain) && From(c, before)
    ensures Holds(Rollback(c, r.height, None), k) ==> Creates(chain, k)
    ensures HoldsSpend(Rollback(c, r.height, None), m) ==> Spends(chain, m)
  {
    RollbackHolds(c, before, r.height, k, m);
    if Holds(Rollback(c, r.height, None), k) {
      SameBelow(before, chain, r.height, k);
    }
    if HoldsSpend(Rollback(c, r.height, None), m) {
      SameSpendBelow(before, chain, r.height, m);
    }
  }

  lemma NoSecondCreation(batches: seq<Batch>, chain: set<Block>, k: Creation)
    requires ValidChain(chain) && BlocksOf(batches) <= chain && Creates(chain, k)
    ensures Functional(Stored(batches) + {k})
  {
    FactsOfChain(batches, chain);
  }

  lemma NoSecondSpend(batches: seq<Batch>, chain: set<Block>, m: Spend)
    requires ValidChain(chain) && BlocksOf(batches) <= chain && Spends(chain, m)
    ensures Functional(Marked(batches) + {m})
  {
    FactsOfChain(batches, chain);
  }

  lemma IngestHolds(kept: Collection, batches: seq<Batch>, chain: set<Block>, k: Creation, m: Spend)
    requires ValidChain(chain) && BlocksOf(batches) <= chain
    requires (Holds(kept, k) ==> Creates(chain, k)) && (HoldsSpend(kept, m) ==> Spends(chain, m))
    ensures Holds(IngestAll(kept, batches), k) <==> k in Stored(batches) || Holds(kept, k)
    ensures HoldsSpend(IngestAll(kept, batches), m) <==> m in Marked(batches) || HoldsSpend(kept, m)
  {
    FactsOfChain(batches, chain);
    IngestAllFacts(kept, batches);
    if Holds(kept, k) {
      NoSecondCreation(batches, chain, k);
    }
    WriteHolds(kept.coins, Stored(batches), k);
    if HoldsSpend(kept, m) {
      NoSecondSpend(batches, chain, m);
    }
    if m.value.At? {
      WriteHolds(kept.marks, Marked(batches), m);
    }
  }

  lemma RoundHolds(c: Collection, before: set<Block>, r: Round, chain: set<Block>, k: Creation, m: Spend)
    requires ValidChain(before) && Follows(before, r, chain) && From(c, before)
    ensures var c' := IngestAll(Rollback(c, r.height, None), r.batches);
      && (Holds(c', k) <==> k in Stored(r.batches) || (Holds(c, k) && k.value.blockHeight < r.height))
      && (HoldsSpend(c', m) <==> m in Marked(r.batches) || (HoldsSpend(c, m) && SpentAt(m) < r.height))
  {
    RollbackHolds(c, before, r.height, k, m);
    SameBranch(before, r, chain, c, k, m);
    IngestHolds(Rollback(c, r.height, None), r.batches, chain, k, m);
  }

  lemma RoundIsFrom(c: Collection, before: set<Block>, r: Round, chain: set<Block>)
    requires ValidChain(before) && Follows(before, r, chain) && From(c, before)
    ensures From(IngestAll(Rollback(c, r.height, None), r.batches), chain)
  {
    var c' := IngestAll(Rollback(c, r.height, None), r.batches);
    FactsOfChain(r.batches, chain);
    forall k | Holds(c', k) ensures Creates(chain, k) {
      RoundHolds(c, before, r, chain, k, Op(k.key, Null));
      RollbackHolds(c, before, r.height, k, Op(k.key, Null));
      SameBranch(before, r, chain, c, k, Op(k.key, Null));
    }
    forall m | HoldsSpend(c', m) ensures Spends(chain, m) {
      var k := Op(m.key, Coin(0, 0, Script("", None, None)));
      RoundHolds(c, before, r, chain, k, m);
      RollbackHolds(c, before, r.height, k, m);
      SameBranch(before, r, chain, c, k, m);
    }
  }

  // ----- every history -----

  lemma {:induction false} StoreIsFrom(rounds: seq<Round>, chains: seq<set<Block>>, n: nat)
    requires n <= |rounds| && History(rounds, chains)
    ensures ValidChain(ChainAfter(chains, n)) && From(StoreAfter(rounds, n), ChainAfter(chains, n))
  {
    if n > 0 {
      StoreIsFrom(rounds, chains, n - 1);
      RoundIsFrom(StoreAfter(rounds, n - 1), ChainAfter(chains, n - 1), rounds[n - 1], chains[n - 1]);
    }
  }

  /** The store holds exactly the creations and spends that survive. */
  lemma {:induction false} StoreHolds(rounds: seq<Round>, chains: seq<set<Block>>, n: nat, k: Creation, m: Spend)
    requires n <= |rounds| && History(rounds, chains)
    ensures Holds(StoreAfter(rounds, n), k) <==> Keeps(rounds, n, k)
    ensures HoldsSpend(StoreAfter(rounds, n), m) <==> KeepsSpend(rounds, n, m)
  {
    if n > 0 {
      StoreHolds(rounds, chains, n - 1, k, m);
      StoreIsFrom(rounds, chains, n - 1);
      RoundHolds(StoreAfter(rounds, n - 1), ChainAfter(chains, n - 1), rounds[n - 1], chains[n - 1], k, m);
    }
  }

  /** An unspent output of the chain is not kept. */
  ghost predicate CoinLost(rounds: seq<Round>, chain: set<Block>, k: Creation) {
    Creates(chain, k) && !IsSpent(chain, k.key) && !Keeps(rounds, |rounds|, k)
  }

  /** An output is kept, while its spend in the chain is not. */
  ghost predicate SpendLost(rounds: seq<Round>, chain: set<Block>, k: Creation) {
    Keeps(rounds, |rounds|, k) && IsSpent(chain, k.key) && !SpendKept(rounds, k.key)
  }

  ghost predicate SpendKept(rounds: seq<Round>, p: OutPoint) {
    exists m :: KeepsSpend(rounds, |rounds|, m) && m.key == p
  }

  /** After any number of reorganisations the store shows exactly the unspent outputs of the last chain, if and only if no
      round's batches lost a coin or a spend that no other round kept. */
  lemma HistoryTheorem(rounds: seq<Round>, chains: seq<set<Block>>)
    requires History(rounds, chains)
    ensures var chain := ChainAfter(chains, |rounds|);
      Correct(StoreAfter(rounds, |rounds|), chain)
      <==> (forall k :: !CoinLost(rounds, chain, k)) && (forall k :: !SpendLost(rounds, chain, k))
  {
    var c, chain := StoreAfter(rounds, |rounds|), ChainAfter(chains, |rounds|);
    RightIsCorrect(c, chain);
    if (forall k :: !CoinLost(rounds, chain, k)) && (forall k :: !SpendLost(rounds, chain, k)) {
      forall p, v ensures p in Visible(c) && Visible(c)[p] == v <==> Creates(chain, Op(p, v)) && !IsSpent(chain, p) {
        assert !CoinLost(rounds, chain, Op(p, v)) && !SpendLost(rounds, chain, Op(p, v));
        ShownExactly(rounds, chains, Op(p, v));
      }
    } else {
      if k :| CoinLost(rounds, chain, k) || SpendLost(rounds, chain, k) {
        ShownExactly(rounds, chains, k);
        assert Op(k.key, k.value) == k;
        assert !Right(c, chain);
      }
    }
  }

  /** An output is shown if and only if it is kept and its spend is not. */
  lemma ShownExactly(rounds: seq<Round>, chains: seq<set<Block>>, k: Creation)
    requires History(rounds, chains)
    ensures var c := StoreAfter(rounds, |rounds|); var chain := ChainAfter(chains, |rounds|);
      && (k.key in Visible(c) && Visible(c)[k.key] == k.value <==> Keeps(rounds, |rounds|, k) && !SpendKept(rounds, k.key))
      && (Keeps(rounds, |rounds|, k) ==> Creates(chain, k))
      && (SpendKept(rounds, k.key) ==> IsSpent(chain, k.key))
  {
    var c := StoreAfter(rounds, |rounds|);
    StoreIsFrom(rounds, chains, |rounds|);
    StoreHolds(rounds, chains, |rounds|, k, Op(k.key, Null));
    DeletedExactly(rounds, chains, k.key);
    if SpendKept(rounds, k.key) {
      var m :| KeepsSpend(rounds, |rounds|, m) && m.key == k.key;
      StoreHolds(rounds, chains, |rounds|, k, m);
    }
  }

  lemma DeletedExactly(rounds: seq<Round>, chains: seq<set<Block>>, p: OutPoint)
    requires History(rounds, chains)
    ensures Deleted(StoreAfter(rounds, |rounds|), p) <==> SpendKept(rounds, p)
  {
    var c, k := StoreAfter(rounds, |rounds|), Op(p, Coin(0, 0, Script("", None, None)));
    if Deleted(c, p) {
      StoreHolds(rounds, chains, |rounds|, k, Op(p, c.marks[p]));
    }
    if m :| KeepsSpend(rounds, |rounds|, m) && m.key == p {
      StoreHolds(rounds, chains, |rounds|, k, m);
    }
  }
}
