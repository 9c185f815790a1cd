/** The store primitives of `ExtendedBaseRepository`: cutting an operation list into chunks and
    sending every chunk at once.  The chunks of one `Promise.safeAll` run concurrently, so the
    database may interleave their operations in any way that keeps each chunk's own order. */
module BulkWrite {

  /** One `updateOne` with `upsert: true`: the named key ends up holding the value. */
  datatype Op<K, V> = Op(key: K, value: V)

  /** No two operations disagree about a key. */
  ghost predicate Functional<K, V>(ops: set<Op<K, V>>) {
    forall a, b :: a in ops && b in ops && a.key == b.key ==> a.value == b.value
  }

  ghost function Keys<K, V>(ops: set<Op<K, V>>): set<K> {
    set o | o in ops :: o.key
  }

  /** What a set of operations writes.  When they agree on every key there is only one such map. */
  ghost function Written<K, V>(ops: set<Op<K, V>>): map<K, V> {
    map k | k in Keys(ops) :: ValueAt(ops, k)
  }

  ghost function ValueAt<K, V>(ops: set<Op<K, V>>, k: K): V
    requires k in Keys(ops)
  {
    var o :| o in ops && o.key == k;
    o.value
  }

  /** Every written value comes from an operation. */
  lemma WrittenFrom<K, V>(ops: set<Op<K, V>>, k: K)
    ensures k in Written(ops) <==> k in Keys(ops)
    ensures k in Written(ops) ==> Op(k, Written(ops)[k]) in ops
  {
    if k in Keys(ops) {
      var o :| o in ops && o.key == k && o.value == ValueAt(ops, k);
      assert o == Op(k, Written(ops)[k]);
    }
  }

  lemma WrittenHas<K, V>(ops: set<Op<K, V>>, o: Op<K, V>)
    requires Functional(ops) && o in ops
    ensures o.key in Written(ops) && Written(ops)[o.key] == o.value
  {
  }

  lemma WrittenUnion<K, V>(a: set<Op<K, V>>, b: set<Op<K, V>>)
    requires Functional(a + b)
    ensures Written(a) + Written(b) == Written(a + b)
  {
    forall k | k in Keys(a + b)
      ensures k in Written(a) + Written(b) && (Written(a) + Written(b))[k] == Written(a + b)[k]
    {
      var o :| o in a + b && o.key == k;
      WrittenHas(a + b, o);
      if k in Keys(b) {
        var o' :| o' in b && o'.key == k;
        WrittenHas(b, o');
      } else {
        WrittenHas(a, o);
      }
    }
  }

  lemma WriteTwice<K, V>(m: map<K, V>, a: set<Op<K, V>>, b: set<Op<K, V>>)
    requires Functional(a + b)
    ensures m + Written(a) + Written(b) == m + Written(a + b)
  {
    WrittenUnion(a, b);
    assert m + Written(a) + Written(b) == m + (Written(a) + Written(b));
  }

  ghost function OpSet<K, V>(ops: seq<Op<K, V>>): set<Op<K, V>> {
    set o | o in ops
  }

  function Concat<T>(chunks: seq<seq<T>>): (all: seq<T>) {
    if chunks == [] then [] else Concat(chunks[..|chunks| - 1]) + chunks[|chunks| - 1]
  }

  ghost function Pending<T>(chunks: seq<seq<T>>): set<T> {
    set i, j | 0 <= i < |chunks| && 0 <= j < |chunks[i]| :: chunks[i][j]
  }

  lemma {:induction false} ConcatElements<T>(chunks: seq<seq<T>>)
    ensures forall x :: x in Concat(chunks) <==> x in Pending(chunks)
  {
    if chunks != [] {
      var init, last := chunks[..|chunks| - 1], chunks[|chunks| - 1];
      ConcatElements(init);
      assert chunks == init + [last];
    }
  }

  /** `chunkArray`: slices of the requested size, in order, that lose and repeat nothing. */
  method ChunkArray<T>(items: seq<T>, size: nat) returns (chunks: seq<seq<T>>)
    requires size > 0
    ensures Concat(chunks) == items
    ensures forall c :: c in chunks ==> 0 < |c| <= size
    ensures forall i :: 0 <= i < |chunks| - 1 ==> |chunks[i]| == size
  {
    chunks := [];
    for i := 0 to |items|
      invariant i <= |chunks| * size < i + size
      invariant Concat(chunks) == items[..Min(|chunks| * size, |items|)]
      invariant forall c :: c in chunks ==> 0 < |c| <= size
      invariant forall k :: 0 <= k < |chunks| - 1 ==> |chunks[k]| == size
      invariant |chunks| * size <= |items| ==> forall k :: 0 <= k < |chunks| ==> |chunks[k]| == size
    {
      MultipleInWindow(i, |chunks|, size);
      if i % size == 0 {
        var chunk := items[i..Min(i + size, |items|)];
        assert (chunks + [chunk])[..|chunks|] == chunks;
        assert (|chunks| + 1) * size == i + size;
        chunks := chunks + [chunk];
      }
    }
  }

  function Min(a: nat, b: nat): nat {
    if a <= b then a else b
  }

  /** `q * size` is the first multiple of `size` at or above `i`, so it is `i` exactly when `i` is one. */
  lemma MultipleInWindow(i: nat, q: nat, size: nat)
    requires size > 0 && i <= q * size < i + size
    ensures i % size == 0 <==> q * size == i
  {
    var r, d := i / size, q - i / size;
    assert i == r * size + i % size;
    assert d * size == q * size - r * size;
    if d >= 1 {
      assert d * size >= size;
    }
  }

  /** What a set of upserts may leave: every named key holds a value that some operation wrote to it, and nothing else
      changed. */
  ghost predicate Wrote<K, V>(store: map<K, V>, ops: set<Op<K, V>>, result: map<K, V>) {
    && result.Keys == store.Keys + Keys(ops)
    && (forall k :: k in Keys(ops) ==> k in result && Op(k, result[k]) in ops)
    && (forall k :: k in store && k !in Keys(ops) ==> k in result && result[k] == store[k])
  }

  lemma WroteNothing<K, V>(store: map<K, V>)
    ensures Wrote(store, {}, store)
  {
  }

  lemma WroteOne<K, V>(store: map<K, V>, done: set<Op<K, V>>, result: map<K, V>, op: Op<K, V>)
    requires Wrote(store, done, result)
    ensures Wrote(store, done + {op}, result[op.key := op.value])
  {
    assert Keys(done + {op}) == Keys(done) + {op.key} by {
      assert op in done + {op};
    }
    assert Op(op.key, op.value) == op;
  }

  /** When the operations agree on every key there is only one outcome. */
  lemma WroteAgreeing<K, V>(store: map<K, V>, ops: set<Op<K, V>>, result: map<K, V>)
    requires Wrote(store, ops, result) && Functional(ops)
    ensures result == store + Written(ops)
  {
    forall k | k in Keys(ops) ensures result[k] == Written(ops)[k] {
      WrittenHas(ops, Op(k, result[k]));
    }
  }

  /** `Promise.safeAll` over `bulkWrite` of every chunk: at each moment the database runs the next operation of any
      unfinished chunk. */
  method BulkWriteAll<K(==), V>(store: map<K, V>, chunks: seq<seq<Op<K, V>>>) returns (result: map<K, V>)
    ensures Wrote(store, Pending(chunks), result)
    ensures Functional(Pending(chunks)) ==> result == store + Written(Pending(chunks))
  {
    result := store;
    var rest := chunks;
    ghost var done: set<Op<K, V>> := {};
    WroteNothing(store);
    while exists i :: 0 <= i < |rest| && rest[i] != []
      invariant Pending(chunks) == done + Pending(rest) && Wrote(store, done, result)
      decreases Remaining(rest)
    {
      var i :| 0 <= i < |rest| && rest[i] != [];
      var op := rest[i][0];
      PopHead(rest, i);
      WroteOne(store, done, result, op);
      result := result[op.key := op.value];
      rest := rest[i := rest[i][1..]];
      done := done + {op};
    }
    NothingPending(rest);
    assert done + {} == done;
    if Functional(done) {
      WroteAgreeing(store, done, result);
    }
  }

  lemma NothingPending<T>(chunks: seq<seq<T>>)
    requires forall i :: 0 <= i < |chunks| ==> chunks[i] == []
    ensures Pending(chunks) == {}
  {
  }

  ghost function Remaining<T>(chunks: seq<seq<T>>): nat {
    if chunks == [] then 0 else Remaining(chunks[..|chunks| - 1]) + |chunks[|chunks| - 1]|
  }

  lemma {:induction false} PopHead<T>(chunks: seq<seq<T>>, i: nat)
    requires i < |chunks| && chunks[i] != []
    ensures Remaining(chunks[i := chunks[i][1..]]) == Remaining(chunks) - 1
    ensures Pending(chunks) == {chunks[i][0]} + Pending(chunks[i := chunks[i][1..]])
  {
    var after := chunks[i := chunks[i][1..]];
    var n := |chunks| - 1;
    if i < n {
      PopHead(chunks[..n], i);
      assert after[..n] == chunks[..n][i := chunks[i][1..]];
    } else {
      assert after[..n] == chunks[..n];
    }
    forall x | x in Pending(chunks) ensures x == chunks[i][0] || x in Pending(after) {
      var k, j :| 0 <= k < |chunks| && 0 <= j < |chunks[k]| && chunks[k][j] == x;
      if k == i && j > 0 {
        assert after[k][j - 1] == x;
      } else if k != i {
        assert after[k][j] == x;
      }
    }
    forall x | x in Pending(after) ensures x in Pending(chunks) {
      var k, j :| 0 <= k < |after| && 0 <= j < |after[k]| && after[k][j] == x;
      assert x == if k == i then chunks[k][j + 1] else chunks[k][j];
    }
  }
}
