/** What the unspent-output store shows after any ingestion and any rollback: a chain's unspent
    outputs, whichever way its blocks were batched, ordered or repeated, except in exactly two
    situations that the batches alone decide. */
module UtxoReorg {
  import opened Common
  import opened BulkWrite
  import opened Utxo

  /** Creation writes that some batch performs. */
  ghost function Stored(batches: seq<Batch>): set<Creation> {
    set i, k | 0 <= i < |batches| && k in Survivors(batches[i]) :: k
  }

  /** Spend writes that some batch performs: a dry batch performs none. */
  ghost function Marked(batches: seq<Batch>): set<Spend> {
    set i, m | 0 <= i < |batches| && !IsDry(batches[i]) && m in BatchSpends(batches[i]) :: m
  }

  /** The store shows exactly the addressed non-zero outputs of the chain that the chain does not spend. */
  ghost predicate Correct(c: Collection, chain: set<Block>) {
    forall p, v :: Shows(c, p, v) <==> Pays(chain, p, v) && !Redeems(chain, p)
  }

  /** A document with these creation fields, and no `deletedAtBlock` or a null one. */
  predicate Shows(c: Collection, p: OutPoint, v: Coin) {
    p in c.coins && c.coins[p] == v && (p in c.marks ==> c.marks[p] == Null)
  }

  ghost predicate Pays(chain: set<Block>, p: OutPoint, v: Coin) {
    exists b, t, o :: b in chain && t in b.transactions && o in t.outputs && IsDocument(t, o, p, v)
  }

  /** The document of a non-zero output with an address, or with a list of addresses, which is kept only without one. */
  predicate IsDocument(t: Transaction, o: Output, p: OutPoint, v: Coin) {
    && p.txid == t.id && p.index == o.index
    && o.value != 0 && v.value == o.value && v.blockHeight == t.blockHeight
    && v.script.hex == o.script.hex && v.script.address == o.script.address
    && if o.script.address.Some? && o.script.address.value != "" then v.script.addresses == Some([])
       else o.script.addresses.Some? && v.script.addresses == o.script.addresses
  }

  ghost predicate Redeems(chain: set<Block>, p: OutPoint) {
    exists b, t, i :: b in chain && t in b.transactions && i in t.inputs
      && i.originalTxId == Some(p.txid) && i.outputIndex == Some(p.index)
  }

  /** The same in terms of creations and spends. */
  ghost predicate Right(c: Collection, chain: set<Block>) {
    forall p, v :: p in Visible(c) && Visible(c)[p] == v <==> Creates(chain, Op(p, v)) && !IsSpent(chain, p)
  }

  lemma PaysMeans(chain: set<Block>, p: OutPoint, v: Coin)
    ensures Pays(chain, p, v) <==> Creates(chain, Op(p, v))
  {
    forall b, t, o | b in chain && t in b.transactions && o in t.outputs && IsDocument(t, o, p, v)
      ensures Creates(chain, Op(p, v))
    {
      assert Eligible(o) && Op(p, v) == CreationOf(t, o);
      assert CreatesIn(b, Op(p, v));
    }
    if Creates(chain, Op(p, v)) {
      var b :| b in chain && CreatesIn(b, Op(p, v));
      var t, o :| t in b.transactions && o in t.outputs && Eligible(o) && Op(p, v) == CreationOf(t, o);
      assert IsDocument(t, o, p, v);
    }
  }

  lemma RedeemsMeans(chain: set<Block>, p: OutPoint)
    ensures Redeems(chain, p) <==> IsSpent(chain, p)
  {
    forall b, t, i
      | b in chain && t in b.transactions && i in t.inputs && i.originalTxId == Some(p.txid) && i.outputIndex == Some(p.index)
      ensures IsSpent(chain, p)
    {
      assert IsSpend(i) && SpendsIn(b, SpendOf(b.height, i)) && Spends(chain, SpendOf(b.height, i));
    }
  }

  lemma RightIsCorrect(c: Collection, chain: set<Block>)
    ensures Right(c, chain) <==> Correct(c, chain)
  {
    forall p, v
      ensures Shows(c, p, v) <==> p in Visible(c) && Visible(c)[p] == v
      ensures Pays(chain, p, v) && !Redeems(chain, p) <==> Creates(chain, Op(p, v)) && !IsSpent(chain, p)
    {
      PaysMeans(chain, p, v);
      RedeemsMeans(chain, p);
    }
    if Correct(c, chain) {
      forall p, v ensures p in Visible(c) && Visible(c)[p] == v <==> Creates(chain, Op(p, v)) && !IsSpent(chain, p) {
        assert Shows(c, p, v) <==> Pays(chain, p, v) && !Redeems(chain, p);
      }
    }
    if Right(c, chain) {
      forall p, v ensures Shows(c, p, v) <==> Pays(chain, p, v) && !Redeems(chain, p) {
        PaysMeans(chain, p, v);
        RedeemsMeans(chain, p);
      }
    }
  }

  /** The collection after the old branch, a rollback to `h` and the new branch. */
  ghost function Reorganised(old': seq<Batch>, h: nat, new': seq<Batch>): Collection {
    IngestAll(Rollback(IngestAll(EMPTY, old'), h, None), new')
  }

  /** `old'` ingested `oldChain`; `new'` brings every block of `newChain` from `h` on; below `h` the chains agree. */
  ghost predicate Reorg(old': seq<Batch>, oldChain: set<Block>, h: nat, new': seq<Batch>, newChain: set<Block>) {
    && ValidChain(oldChain) && ValidChain(newChain)
    && BlocksOf(old') == oldChain
    && Below(oldChain, h) == Below(newChain, h)
    && newChain - Below(newChain, h) <= BlocksOf(new') <= newChain
  }

  /** An unspent output of the chain that every batch which creates it also spends (on a branch since abandoned). */
  ghost predicate LostCoin(old': seq<Batch>, new': seq<Batch>, chain: set<Block>, k: Creation) {
    Creates(chain, k) && !IsSpent(chain, k.key) && k.key !in Keys(Stored(old')) && k.key !in Keys(Stored(new'))
  }

  /** A spent output that was stored, while only dry batches carry its spend. */
  ghost predicate LostSpend(old': seq<Batch>, h: nat, new': seq<Batch>, chain: set<Block>, p: OutPoint) {
    && IsSpent(chain, p)
    && IsStored(old', h, new', p)
    && !IsMarked(old', h, new', p)
  }

  ghost predicate IsStored(old': seq<Batch>, h: nat, new': seq<Batch>, p: OutPoint) {
    p in Keys(Stored(new')) || exists k :: k in Stored(old') && k.key == p && k.value.blockHeight < h
  }

  ghost predicate IsMarked(old': seq<Batch>, h: nat, new': seq<Batch>, p: OutPoint) {
    p in Keys(Marked(new')) || exists m :: m in Marked(old') && m.key == p && SpentAt(m) < h
  }

  // ----- every batch sequence writes one union of facts -----

  lemma {:induction false} IngestAllFacts(c: Collection, batches: seq<Batch>)
    requires Functional(Stored(batches)) && Functional(Marked(batches))
    ensures IngestAll(c, batches)
         == Collection(c.coins + Written(Stored(batches)), c.marks + Written(Marked(batches)))
  {
    if batches == [] {
      assert Stored(batches) == {} && Marked(batches) == {};
    } else {
      var init, last := batches[..|batches| - 1], batches[|batches| - 1];
      FactsSnoc(init, last);
      assert batches == init + [last];
      IngestAllFacts(c, init);
      IngestFacts(IngestAll(c, init), last);
      WriteTwice(c.coins, Stored(init), OpSet(Survivors(last)));
      WriteTwice(c.marks, Marked(init), SpendWrites(last));
    }
  }

  lemma IngestFacts(c: Collection, batch: Batch)
    ensures Ingest(c, batch)
         == Collection(c.coins + Written(OpSet(Survivors(batch))), c.marks + Written(SpendWrites(batch)))
  {
    if IsDry(batch) {
      assert OpSet(Survivors(batch)) == {};
    }
  }

  ghost function SpendWrites(batch: Batch): set<Spend> {
    if IsDry(batch) then {} else OpSet(BatchSpends(batch))
  }

  lemma FactsSnoc(init: seq<Batch>, last: Batch)
    ensures Stored(init + [last]) == Stored(init) + OpSet(Survivors(last))
    ensures Marked(init + [last]) == Marked(init) + SpendWrites(last)
  {
    var all := init + [last];
    forall k | k in OpSet(Survivors(last)) ensures k in Stored(all) {
      assert k in Survivors(all[|init|]);
    }
    forall k | k in Stored(init) ensures k in Stored(all) {
      var i :| 0 <= i < |init| && k in Survivors(init[i]);
      assert k in Survivors(all[i]);
    }
    forall m | m in SpendWrites(last) ensures m in Marked(all) {
      assert m in BatchSpends(all[|init|]);
    }
    forall m | m in Marked(init) ensures m in Marked(all) {
      var i :| 0 <= i < |init| && !IsDry(init[i]) && m in BatchSpends(init[i]);
      assert m in BatchSpends(all[i]);
    }
  }

  lemma FactsOfChain(batches: seq<Batch>, chain: set<Block>)
    requires ValidChain(chain) && BlocksOf(batches) <= chain
    ensures forall k :: k in Stored(batches) ==> Creates(chain, k)
    ensures forall m :: m in Marked(batches) ==> Spends(chain, m) && m.value.At?
    ensures Functional(Stored(batches)) && Functional(Marked(batches))
  {
    forall k | k in Stored(batches) ensures Creates(chain, k) {
      var i :| 0 <= i < |batches| && k in Survivors(batches[i]);
      CoinsMember(batches[i], Points(BatchSpends(batches[i])), k);
    }
    forall m | m in Marked(batches) ensures Spends(chain, m) && m.value.At? {
      var i :| 0 <= i < |batches| && m in BatchSpends(batches[i]);
      SpendsMember(batches[i], m);
    }
  }

  /** An output that the chain never spends survives in every batch that carries its block. */
  lemma UnspentSurvives(batches: seq<Batch>, chain: set<Block>, b: Block, k: Creation)
    requires BlocksOf(batches) <= chain && b in BlocksOf(batches)
    requires CreatesIn(b, k) && !IsSpent(chain, k.key)
    ensures k in Stored(batches)
  {
    var i :| 0 <= i < |batches| && b in batches[i];
    if k.key in Points(BatchSpends(batches[i])) {
      var m :| m in BatchSpends(batches[i]) && m.key == k.key;
      SpendsMember(batches[i], m);
      assert false;
    }
    CoinsMember(batches[i], Points(BatchSpends(batches[i])), k);
    assert k in Survivors(batches[i]);
  }

  // ----- what the collection holds after a reorganisation -----

  lemma ReorganisedFacts(old': seq<Batch>, h: nat, new': seq<Batch>)
    requires Functional(Stored(old')) && Functional(Marked(old'))
    requires Functional(Stored(new')) && Functional(Marked(new'))
    ensures Reorganised(old', h, new') == Merged(Stored(old'), Marked(old'), h, Stored(new'), Marked(new'))
  {
    IngestAllFacts(EMPTY, old');
    assert map[] + Written(Stored(old')) == Written(Stored(old'));
    assert map[] + Written(Marked(old')) == Written(Marked(old'));
    IngestAllFacts(Rollback(IngestAll(EMPTY, old'), h, None), new');
  }

  ghost function Merged(ks: set<Creation>, ms: set<Spend>, h: nat, ks': set<Creation>, ms': set<Spend>): Collection {
    var kept := Rollback(Collection(Written(ks), Written(ms)), h, None);
    Collection(kept.coins + Written(ks'), kept.marks + Written(ms'))
  }

  lemma MergedCoins(ks: set<Creation>, ms: set<Spend>, h: nat, ks': set<Creation>, ms': set<Spend>, p: OutPoint)
    requires Functional(ks)
    ensures var c := Merged(ks, ms, h, ks', ms');
      && (p in c.coins <==> p in Keys(ks') || exists k :: k in ks && k.key == p && k.value.blockHeight < h)
      && (p in c.coins ==> Op(p, c.coins[p]) in ks' || (Op(p, c.coins[p]) in ks && c.coins[p].blockHeight < h))
  {
    WrittenFrom(ks, p);
    WrittenFrom(ks', p);
  }

  lemma MergedMarks(ks: set<Creation>, ms: set<Spend>, h: nat, ks': set<Creation>, ms': set<Spend>, p: OutPoint)
    requires Functional(ms)
    requires forall m :: m in ms + ms' ==> m.value.At?
    requires forall k, m :: k in ks && m in ms && k.key == m.key ==> k.value.blockHeight <= SpentAt(m)
    ensures Deleted(Merged(ks, ms, h, ks', ms'), p)
       <==> p in Keys(ms') || exists m :: m in ms && m.key == p && SpentAt(m) < h
  {
    WrittenFrom(ms, p);
    WrittenFrom(ms', p);
    WrittenFrom(ks, p);
  }

  lemma CoinsAfter(old': seq<Batch>, oldChain: set<Block>, h: nat, new': seq<Batch>, newChain: set<Block>, p: OutPoint)
    requires Reorg(old', oldChain, h, new', newChain)
    ensures p in Reorganised(old', h, new').coins <==> IsStored(old', h, new', p)
    ensures IsStored(old', h, new', p) ==> Creates(newChain, Op(p, Reorganised(old', h, new').coins[p]))
  {
    FactsOfChain(old', oldChain);
    FactsOfChain(new', newChain);
    ReorganisedFacts(old', h, new');
    MergedCoins(Stored(old'), Marked(old'), h, Stored(new'), Marked(new'), p);
    if IsStored(old', h, new', p) {
      var k := Op(p, Reorganised(old', h, new').coins[p]);
      if k !in Stored(new') {
        SameBelow(oldChain, newChain, h, k);
      }
    }
  }

  /** A block below the fork belongs to both chains. */
  lemma SameBelow(a: set<Block>, b: set<Block>, h: nat, k: Creation)
    requires ValidChain(a) && Below(a, h) == Below(b, h)
    requires Creates(a, k) && k.value.blockHeight < h
    ensures Creates(b, k)
  {
    var block :| block in a && CreatesIn(block, k);
    assert block in Below(a, h);
  }

  lemma SameSpendBelow(a: set<Block>, b: set<Block>, h: nat, m: Spend)
    requires Below(a, h) == Below(b, h)
    requires Spends(a, m) && SpentAt(m) < h
    ensures Spends(b, m)
  {
    var block :| block in a && SpendsIn(block, m);
    assert block in Below(a, h);
  }

  lemma MarksAfter(old': seq<Batch>, oldChain: set<Block>, h: nat, new': seq<Batch>, newChain: set<Block>, p: OutPoint)
    requires Reorg(old', oldChain, h, new', newChain)
    ensures Deleted(Reorganised(old', h, new'), p) <==> IsMarked(old', h, new', p)
    ensures IsMarked(old', h, new', p) ==> IsSpent(newChain, p)
  {
    FactsOfChain(old', oldChain);
    FactsOfChain(new', newChain);
    ReorganisedFacts(old', h, new');
    MergedMarks(Stored(old'), Marked(old'), h, Stored(new'), Marked(new'), p);
    if m :| m in Marked(old') && m.key == p && SpentAt(m) < h {
      SameSpendBelow(oldChain, newChain, h, m);
    }
  }

  // ----- main theorem -----

  /** After any old branch, rollback and new branch, the store is right if and only if no batch lost a coin
      by spending it together with its creation, and no dry batch lost a spend. */
  lemma ReorgTheorem(old': seq<Batch>, oldChain: set<Block>, h: nat, new': seq<Batch>, newChain: set<Block>)
    requires Reorg(old', oldChain, h, new', newChain)
    ensures Correct(Reorganised(old', h, new'), newChain)
       <==> (forall k :: !LostCoin(old', new', newChain, k)) && (forall p :: !LostSpend(old', h, new', newChain, p))
  {
    var c := Reorganised(old', h, new');
    RightIsCorrect(c, newChain);
    if (forall k :: !LostCoin(old', new', newChain, k)) && (forall p :: !LostSpend(old', h, new', newChain, p)) {
      forall p, v
        ensures p in Visible(c) && Visible(c)[p] == v <==> Creates(newChain, Op(p, v)) && !IsSpent(newChain, p)
      {
        CoinsAfter(old', oldChain, h, new', newChain, p);
        MarksAfter(old', oldChain, h, new', newChain, p);
        assert !LostSpend(old', h, new', newChain, p);
        if Creates(newChain, Op(p, v)) && !IsSpent(newChain, p) {
          KeptCoin(old', oldChain, h, new', newChain, Op(p, v));
        }
      }
    }
    forall k | LostCoin(old', new', newChain, k) ensures !Right(c, newChain) {
      CoinsAfter(old', oldChain, h, new', newChain, k.key);
      assert Op(k.key, k.value) == k;
    }
    forall p | LostSpend(old', h, new', newChain, p) ensures !Right(c, newChain) {
      CoinsAfter(old', oldChain, h, new', newChain, p);
      MarksAfter(old', oldChain, h, new', newChain, p);
      assert p in Visible(c);
    }
  }

  lemma KeptCoin(old': seq<Batch>, oldChain: set<Block>, h: nat, new': seq<Batch>, newChain: set<Block>, k: Creation)
    requires Reorg(old', oldChain, h, new', newChain)
    requires Creates(newChain, k) && !IsSpent(newChain, k.key) && !LostCoin(old', new', newChain, k)
    ensures IsStored(old', h, new', k.key)
  {
    var b :| b in newChain && CreatesIn(b, k);
    if k.value.blockHeight >= h {
      assert b !in Below(newChain, h);
      UnspentSurvives(new', newChain, b, k);
    } else if k.key !in Keys(Stored(new')) {
      var k' :| k' in Stored(old') && k'.key == k.key;
      FactsOfChain(old', oldChain);
      SameBelow(newChain, oldChain, h, k);
      assert k' == k;
    }
  }

  // ----- consequences -----

  ghost predicate NoDry(batches: seq<Batch>) {
    forall i :: 0 <= i < |batches| ==> !IsDry(batches[i])
  }

  /** No batch creates an output below `h` and spends it at or above `h`. */
  ghost predicate IsBoundary(batches: seq<Batch>, h: nat) {
    forall i, k, m ::
      (0 <= i < |batches| && k in BatchCoins(batches[i], {}) && m in BatchSpends(batches[i]) && k.key == m.key)
      ==> k.value.blockHeight < h ==> SpentAt(m) < h
  }

  /** If every batch has a surviving output and `h` is a batch boundary, a reorganisation leaves no trace:
      the store shows what syncing the new chain from scratch shows. */
  lemma CleanReorg(old': seq<Batch>, oldChain: set<Block>, h: nat, new': seq<Batch>, newChain: set<Block>)
    requires Reorg(old', oldChain, h, new', newChain)
    requires NoDry(old') && NoDry(new') && IsBoundary(old', h)
    ensures Correct(Reorganised(old', h, new'), newChain)
  {
    forall k ensures !LostCoin(old', new', newChain, k) {
      if LostCoin(old', new', newChain, k) {
        NoCoinLost(old', oldChain, h, new', newChain, k);
      }
    }
    forall p ensures !LostSpend(old', h, new', newChain, p) {
      if IsSpent(newChain, p) {
        NoSpendLost(old', oldChain, h, new', newChain, p);
      }
    }
    ReorgTheorem(old', oldChain, h, new', newChain);
  }

  lemma NoCoinLost(old': seq<Batch>, oldChain: set<Block>, h: nat, new': seq<Batch>, newChain: set<Block>, k: Creation)
    requires Reorg(old', oldChain, h, new', newChain) && IsBoundary(old', h)
    requires Creates(newChain, k) && !IsSpent(newChain, k.key)
    ensures k.key in Keys(Stored(old')) || k.key in Keys(Stored(new'))
  {
    var b :| b in newChain && CreatesIn(b, k);
    if k.value.blockHeight >= h {
      assert b !in Below(newChain, h);
      UnspentSurvives(new', newChain, b, k);
    } else {
      assert b in Below(newChain, h);
      var i :| 0 <= i < |old'| && b in old'[i];
      var spends := BatchSpends(old'[i]);
      CoinsMember(old'[i], {}, k);
      if k.key in Points(spends) {
        var m :| m in spends && m.key == k.key;
        SpendsMember(old'[i], m);
        var b' :| b' in old'[i] && SpendsIn(b', m);
        assert b' in BlocksOf(old');
        SameSpendBelow(oldChain, newChain, h, m);
        assert false;
      }
      CoinsMember(old'[i], Points(spends), k);
      assert k in Survivors(old'[i]);
    }
  }

  lemma NoSpendLost(old': seq<Batch>, oldChain: set<Block>, h: nat, new': seq<Batch>, newChain: set<Block>, p: OutPoint)
    requires Reorg(old', oldChain, h, new', newChain) && NoDry(old') && NoDry(new')
    requires IsSpent(newChain, p)
    ensures IsMarked(old', h, new', p)
  {
    var m :| Spends(newChain, m) && m.key == p;
    var b :| b in newChain && SpendsIn(b, m);
    if b.height >= h {
      assert b in newChain - Below(newChain, h);
      var i :| 0 <= i < |new'| && b in new'[i];
      SpendsMember(new'[i], m);
      assert m in Marked(new');
    } else {
      assert b in Below(newChain, h);
      var i :| 0 <= i < |old'| && b in old'[i];
      SpendsMember(old'[i], m);
      assert m in Marked(old');
    }
  }

  /** Two ways of cutting, ordering and repeating one chain's blocks show the same unspent outputs. */
  lemma BatchingIndependence(a: seq<Batch>, b: seq<Batch>, chain: set<Block>)
    requires ValidChain(chain) && BlocksOf(a) == chain == BlocksOf(b)
    requires NoDry(a) && NoDry(b)
    ensures Visible(IngestAll(EMPTY, a)) == Visible(IngestAll(EMPTY, b))
  {
    FromScratch(a, chain);
    FromScratch(b, chain);
    OneVisibleSet(IngestAll(EMPTY, a), IngestAll(EMPTY, b), chain);
  }

  /** A chain determines what a correct store shows. */
  lemma OneVisibleSet(c: Collection, d: Collection, chain: set<Block>)
    requires Correct(c, chain) && Correct(d, chain)
    ensures Visible(c) == Visible(d)
  {
    RightIsCorrect(c, chain);
    RightIsCorrect(d, chain);
    forall p ensures p in Visible(c) <==> p in Visible(d)
             ensures p in Visible(c) ==> Visible(c)[p] == Visible(d)[p]
    {
      if p in Visible(c) {
        ShownIn(c, d, chain, p);
      }
      if p in Visible(d) {
        ShownIn(d, c, chain, p);
      }
    }
  }

  lemma ShownIn(c: Collection, d: Collection, chain: set<Block>, p: OutPoint)
    requires Right(c, chain) && Right(d, chain) && p in Visible(c)
    ensures p in Visible(d) && Visible(d)[p] == Visible(c)[p]
  {
    assert Creates(chain, Op(p, Visible(c)[p])) && !IsSpent(chain, p);
  }

  lemma FromScratch(batches: seq<Batch>, chain: set<Block>)
    requires ValidChain(chain) && BlocksOf(batches) == chain && NoDry(batches)
    ensures Correct(IngestAll(EMPTY, batches), chain)
  {
    var none: seq<Batch> := [];
    assert Below({}, 0) == Below(chain, 0) == {};
    assert BlocksOf(none) == {};
    assert Rollback(IngestAll(EMPTY, none), 0, None) == EMPTY;
    CleanReorg(none, {}, 0, batches, chain);
  }

  /** Field by field: which documents are shown after syncing a chain. */
  lemma ShownInFields(batches: seq<Batch>, chain: set<Block>, p: OutPoint, v: Coin)
    requires ValidChain(chain) && BlocksOf(batches) == chain && NoDry(batches)
    ensures var c := IngestAll(EMPTY, batches);
      (p in c.coins && c.coins[p] == v && (p in c.marks ==> c.marks[p] == Null))
      <==> && (exists b, t, o :: b in chain && t in b.transactions && o in t.outputs
                 && p.txid == t.id && p.index == o.index
                 && o.value != 0 && v.value == o.value && v.blockHeight == t.blockHeight
                 && v.script.hex == o.script.hex && v.script.address == o.script.address
                 && if o.script.address.Some? && o.script.address.value != "" then v.script.addresses == Some([])
                    else o.script.addresses.Some? && v.script.addresses == o.script.addresses)
           && !(exists b, t, i :: b in chain && t in b.transactions && i in t.inputs
                  && i.originalTxId == Some(p.txid) && i.outputIndex == Some(p.index))
  {
    FromScratch(batches, chain);
    assert Shows(IngestAll(EMPTY, batches), p, v) <==> Pays(chain, p, v) && !Redeems(chain, p);
  }

  /** Every spend is recorded with the height of its block. */
  lemma SpentInFields(batches: seq<Batch>, chain: set<Block>, p: OutPoint, height: nat)
    requires ValidChain(chain) && BlocksOf(batches) == chain && NoDry(batches)
    ensures var c := IngestAll(EMPTY, batches);
      p in c.marks && c.marks[p] == At(height)
      <==> exists b, t, i :: b in chain && b.height == height && t in b.transactions && i in t.inputs
             && i.originalTxId == Some(p.txid) && i.outputIndex == Some(p.index)
  {
    RecordedSpends(batches, chain, Op(p, At(height)));
    SpendsMeans(chain, p, height);
  }

  lemma SpendsMeans(chain: set<Block>, p: OutPoint, height: nat)
    ensures Spends(chain, Op(p, At(height)))
      <==> exists b, t, i :: b in chain && b.height == height && t in b.transactions && i in t.inputs
             && i.originalTxId == Some(p.txid) && i.outputIndex == Some(p.index)
  {
    forall b, t, i
      | && b in chain && b.height == height && t in b.transactions && i in t.inputs
        && i.originalTxId == Some(p.txid) && i.outputIndex == Some(p.index)
      ensures Spends(chain, Op(p, At(height)))
    {
      assert IsSpend(i) && SpendOf(height, i) == Op(p, At(height)) && SpendsIn(b, Op(p, At(height)));
    }
  }

  lemma RecordedSpends(batches: seq<Batch>, chain: set<Block>, m: Spend)
    requires ValidChain(chain) && BlocksOf(batches) == chain && NoDry(batches)
    ensures var c := IngestAll(EMPTY, batches); m.key in c.marks && c.marks[m.key] == m.value <==> Spends(chain, m)
  {
    FactsOfChain(batches, chain);
    IngestAllFacts(EMPTY, batches);
    WrittenFrom(Marked(batches), m.key);
    if Spends(chain, m) {
      var b :| b in chain && SpendsIn(b, m);
      SpendIsMarked(batches, b, m);
      WrittenHas(Marked(batches), m);
    }
  }

  lemma SpendIsMarked(batches: seq<Batch>, b: Block, m: Spend)
    requires NoDry(batches) && b in BlocksOf(batches) && SpendsIn(b, m)
    ensures m in Marked(batches)
  {
    var n :| 0 <= n < |batches| && b in batches[n];
    SpendsMember(batches[n], m);
  }

  /** The same batches give the identical store in every order, dry or not. */
  lemma OrderIndependence(a: seq<Batch>, b: seq<Batch>, chain: set<Block>)
    requires ValidChain(chain) && BlocksOf(a) <= chain
    requires forall x :: x in a <==> x in b
    ensures IngestAll(EMPTY, a) == IngestAll(EMPTY, b)
  {
    SameFacts(a, b);
    SameFacts(b, a);
    FactsOfChain(a, chain);
    SameStore(a, b);
  }

  lemma SameStore(a: seq<Batch>, b: seq<Batch>)
    requires Functional(Stored(a)) && Functional(Marked(a))
    requires Stored(a) == Stored(b) && Marked(a) == Marked(b)
    ensures IngestAll(EMPTY, a) == IngestAll(EMPTY, b)
  {
    IngestAllFacts(EMPTY, a);
    IngestAllFacts(EMPTY, b);
  }

  lemma SameFacts(a: seq<Batch>, b: seq<Batch>)
    requires forall x :: x in a ==> x in b
    ensures Stored(a) <= Stored(b) && Marked(a) <= Marked(b)
  {
    forall k | k in Stored(a) ensures k in Stored(b) {
      var i :| 0 <= i < |a| && k in Survivors(a[i]);
      assert a[i] in a;
    }
    forall m | m in Marked(a) ensures m in Marked(b) {
      var i :| 0 <= i < |a| && !IsDry(a[i]) && m in BatchSpends(a[i]);
      assert a[i] in a;
    }
  }

  // ----- the two exceptions happen -----

  const PAY := Script("51", Some("bc1q"), None)
  const COIN := Transaction("a", 1, [], [Output(0, 5, PAY)])
  const FIRST := Block(1, [COIN])
  const SPENDER := Transaction("b", 2, [Input(Some("a"), Some(0))], [Output(0, 0, PAY)])
  const SECOND := Block(2, [SPENDER])
  const POINT := OutPoint("a", 0)

  lemma ExampleChain()
    ensures ValidChain({FIRST, SECOND})
  {
    ExampleBlocks();
  }

  lemma ExampleBlocks()
    ensures forall k :: CreatesIn(FIRST, k) <==> k == CreationOf(COIN, COIN.outputs[0])
    ensures forall k :: !CreatesIn(SECOND, k)
    ensures forall m :: !SpendsIn(FIRST, m)
    ensures forall m :: SpendsIn(SECOND, m) <==> m == Op(POINT, At(2))
  {
    forall k ensures CreatesIn(FIRST, k) <==> k == CreationOf(COIN, COIN.outputs[0]) {
      assert COIN in FIRST.transactions && COIN.outputs[0] in COIN.outputs;
    }
    forall m ensures SpendsIn(SECOND, m) <==> m == Op(POINT, At(2)) {
      var i := SPENDER.inputs[0];
      assert SPENDER in SECOND.transactions && i in SPENDER.inputs && SpendOf(2, i) == Op(POINT, At(2));
    }
  }

  /** A block whose only output is worthless is a dry batch on its own: its spend is dropped and the spent
      coin stays visible. */
  lemma DryBatchKeepsSpentCoin()
    ensures ValidChain({FIRST, SECOND}) && BlocksOf([[FIRST], [SECOND]]) == {FIRST, SECOND}
    ensures IsSpent({FIRST, SECOND}, POINT) && POINT in Visible(IngestAll(EMPTY, [[FIRST], [SECOND]]))
  {
    ExampleChain();
    ExampleBlocks();
    var batches := [[FIRST], [SECOND]];
    assert Spends({FIRST, SECOND}, Op(POINT, At(2)));
    assert BlocksOf(batches) == {FIRST, SECOND} by {
      assert FIRST in batches[0] && SECOND in batches[1];
    }
    assert IsDry([SECOND]) by {
      if !IsDry([SECOND]) {
        var k := Survivors([SECOND])[0];
        CoinsMember([SECOND], Points(BatchSpends([SECOND])), k);
        assert false;
      }
    }
    assert batches[..1] == [[FIRST]] && [[FIRST]][..0] == [];
    assert IngestAll(EMPTY, batches) == IngestAll(EMPTY, [[FIRST]]) == Ingest(EMPTY, [FIRST]);
    FirstAlone();
  }

  lemma FirstAlone()
    ensures POINT in Visible(Ingest(EMPTY, [FIRST]))
  {
    ExampleChain();
    ExampleBlocks();
    var k := CreationOf(COIN, COIN.outputs[0]);
    Lists([FIRST], k, Op(POINT, At(1)));
    assert FIRST in [FIRST] && k in Survivors([FIRST]);
    WrittenFrom(OpSet(Survivors([FIRST])), POINT);
    WrittenFrom(OpSet(BatchSpends([FIRST])), POINT);
    assert k in OpSet(Survivors([FIRST]));
    forall m | m in BatchSpends([FIRST]) ensures false {
      SpendsMember([FIRST], m);
    }
  }

  lemma Lists(blocks: Batch, k: Creation, m: Spend)
    ensures m in BatchSpends(blocks) <==> exists b :: b in blocks && SpendsIn(b, m)
    ensures k in Survivors(blocks)
       <==> k.key !in Points(BatchSpends(blocks)) && exists b :: b in blocks && CreatesIn(b, k)
    ensures k.key in Points(BatchSpends(blocks)) <==> exists b, m :: b in blocks && SpendsIn(b, m) && m.key == k.key
  {
    SpendsMember(blocks, m);
    CoinsMember(blocks, Points(BatchSpends(blocks)), k);
    forall b, m | b in blocks && SpendsIn(b, m) && m.key == k.key ensures k.key in Points(BatchSpends(blocks)) {
      SpendsMember(blocks, m);
    }
    if k.key in Points(BatchSpends(blocks)) {
      var o :| o in BatchSpends(blocks) && o.key == k.key;
      SpendsMember(blocks, o);
    }
  }

  const LATE := Block(2, [SPENDER.(outputs := [Output(0, 7, PAY)])])

  /** A batch that straddles the rollback height never wrote the coin it both creates and spends, so undoing
      the spend does not bring the coin back. */
  lemma StraddlingBatchLosesCoin()
    ensures var k := CreationOf(COIN, COIN.outputs[0]);
      Creates({FIRST}, k) && !IsSpent({FIRST}, POINT)
      && POINT !in Visible(Rollback(IngestAll(EMPTY, [[FIRST, LATE]]), 2, None))
  {
    var k, batches := CreationOf(COIN, COIN.outputs[0]), [[FIRST, LATE]];
    ExampleBlocks();
    assert IngestAll(EMPTY, batches[..0]) == EMPTY;
    NeverWritten(batches[0], POINT);
  }

  /** A batch never writes an output that it spends. */
  lemma NeverWritten(batch: Batch, p: OutPoint)
    requires p in Points(BatchSpends(batch))
    ensures p !in Ingest(EMPTY, batch).coins
  {
    WrittenFrom(OpSet(Survivors(batch)), p);
    forall c | c in Survivors(batch) ensures c.key != p {
      CoinsMember(batch, Points(BatchSpends(batch)), c);
    }
  }
}
