/** Sync threads insert at once: the writes of all their batches may interleave in any way that keeps the order
    within each bulk write.  Creations and spends touch different fields, so nothing can be told apart. */
module ParallelIngest {
  import opened BulkWrite
  import opened Utxo
  import opened UtxoReorg

  /** One operation on the collection. */
  datatype Write = Create(creation: Creation) | Mark(spend: Spend)

  ghost function Creations(writes: set<Write>): set<Creation> {
    set w | w in writes && w.Create? :: w.creation
  }

  ghost function Marks(writes: set<Write>): set<Spend> {
    set w | w in writes && w.Mark? :: w.spend
  }

  lemma Split(a: set<Write>, b: set<Write>)
    ensures Creations(a + b) == Creations(a) + Creations(b)
    ensures Marks(a + b) == Marks(a) + Marks(b)
  {
  }

  function Apply(c: Collection, w: Write): Collection {
    match w
    case Create(k) => c.(coins := c.coins[k.key := k.value])
    case Mark(m) => c.(marks := c.marks[m.key := m.value])
  }

  ghost predicate Wrote2(c: Collection, writes: set<Write>, c': Collection) {
    Wrote(c.coins, Creations(writes), c'.coins) && Wrote(c.marks, Marks(writes), c'.marks)
  }

  lemma ApplyOne(c: Collection, done: set<Write>, c': Collection, w: Write)
    requires Wrote2(c, done, c')
    ensures Wrote2(c, done + {w}, Apply(c', w))
  {
    Split(done, {w});
    match w
    case Create(k) =>
      WroteOne(c.coins, Creations(done), c'.coins, k);
      assert Creations({w}) == {k} && Marks({w}) == {};
      assert Marks(done + {w}) == Marks(done);
    case Mark(m) =>
      WroteOne(c.marks, Marks(done), c'.marks, m);
      assert Marks({w}) == {m} && Creations({w}) == {};
      assert Creations(done + {w}) == Creations(done);
  }

  /** The database runs the next operation of any unfinished bulk write of any thread. */
  method RunAll(c: Collection, chunks: seq<seq<Write>>) returns (c': Collection)
    ensures Wrote2(c, Pending(chunks), c')
  {
    c' := c;
    var rest := chunks;
    ghost var done: set<Write> := {};
    WroteNothing(c.coins);
    WroteNothing(c.marks);
    while exists i :: 0 <= i < |rest| && rest[i] != []
      invariant Pending(chunks) == done + Pending(rest) && Wrote2(c, done, c')
      decreases Remaining(rest)
    {
      var i :| 0 <= i < |rest| && rest[i] != [];
      var w := rest[i][0];
      PopHead(rest, i);
      ApplyOne(c, done, c', w);
      c' := Apply(c', w);
      rest := rest[i := rest[i][1..]];
      done := done + {w};
    }
    NothingPending(rest);
    assert done + {} == done;
  }

  // ----- the bulk writes of one batch -----

  method BulkWrites(batch: Batch) returns (chunks: seq<seq<Write>>)
    ensures Creations(Pending(chunks)) == OpSet(Survivors(batch))
    ensures Marks(Pending(chunks)) == SpendWrites(batch)
  {
    var spends := UnspentTransactionRepository.ConvertSpentTransactions(batch);
    var creations := UnspentTransactionRepository.ConvertToUnspentTransactions(batch, spends);
    chunks := [];
    if |creations| > 0 {
      var creating := ChunkArray(seq(|creations|, i requires 0 <= i < |creations| => Create(creations[i])), 500);
      var marking := ChunkArray(seq(|spends|, i requires 0 <= i < |spends| => Mark(spends[i])), 500);
      ConcatElements(creating);
      ConcatElements(marking);
      PendingJoin(creating, marking);
      Tagged(creations, spends, Pending(creating), Pending(marking));
      chunks := creating + marking;
    } else {
      assert OpSet(Survivors(batch)) == {};
    }
  }

  lemma Tagged(creations: seq<Creation>, spends: seq<Spend>, cs: set<Write>, ms: set<Write>)
    requires forall w :: w in cs <==> w in seq(|creations|, i requires 0 <= i < |creations| => Create(creations[i]))
    requires forall w :: w in ms <==> w in seq(|spends|, i requires 0 <= i < |spends| => Mark(spends[i]))
    ensures Creations(cs + ms) == OpSet(creations) && Marks(cs + ms) == OpSet(spends)
  {
    var tagged := seq(|creations|, i requires 0 <= i < |creations| => Create(creations[i]));
    var marked := seq(|spends|, i requires 0 <= i < |spends| => Mark(spends[i]));
    forall k | k in creations ensures k in Creations(cs + ms) {
      var i :| 0 <= i < |creations| && creations[i] == k;
      assert tagged[i] in tagged;
    }
    forall m | m in spends ensures m in Marks(cs + ms) {
      var i :| 0 <= i < |spends| && spends[i] == m;
      assert marked[i] in marked;
    }
  }

  lemma PendingJoin<T>(a: seq<seq<T>>, b: seq<seq<T>>)
    ensures Pending(a + b) == Pending(a) + Pending(b)
  {
    var c := a + b;
    forall x | x in Pending(a) ensures x in Pending(c) {
      var i, j :| 0 <= i < |a| && 0 <= j < |a[i]| && a[i][j] == x;
      assert c[i][j] == x;
    }
    forall x | x in Pending(b) ensures x in Pending(c) {
      var i, j :| 0 <= i < |b| && 0 <= j < |b[i]| && b[i][j] == x;
      assert c[|a| + i][j] == x;
    }
    forall x | x in Pending(c) ensures x in Pending(a) + Pending(b) {
      var i, j :| 0 <= i < |c| && 0 <= j < |c[i]| && c[i][j] == x;
      assert if i < |a| then a[i][j] == x else b[i - |a|][j] == x;
    }
  }

  /** Whatever way the threads' writes interleave, the store is the one that the batches leave when they run one after
      the other. */
  method InsertConcurrently(batches: seq<Batch>, ghost chain: set<Block>) returns (c: Collection)
    requires ValidChain(chain) && BlocksOf(batches) <= chain
    ensures c == IngestAll(EMPTY, batches)
  {
    var chunks: seq<seq<Write>> := [];
    for i := 0 to |batches|
      invariant Creations(Pending(chunks)) == Stored(batches[..i])
      invariant Marks(Pending(chunks)) == Marked(batches[..i])
    {
      var more := BulkWrites(batches[i]);
      PendingJoin(chunks, more);
      Split(Pending(chunks), Pending(more));
      FactsSnoc(batches[..i], batches[i]);
      assert batches[..i + 1] == batches[..i] + [batches[i]];
      chunks := chunks + more;
    }
    assert batches[..|batches|] == batches;
    c := RunAll(EMPTY, chunks);
    FactsOfChain(batches, chain);
    WroteAgreeing(EMPTY.coins, Stored(batches), c.coins);
    WroteAgreeing(EMPTY.marks, Marked(batches), c.marks);
    IngestAllFacts(EMPTY, batches);
  }
}
