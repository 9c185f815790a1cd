/** Pending outputs of an address: `MempoolRepository` has one aggregation for MongoDB 8 and one for earlier
    versions, and `UnspentTransactionRepository` does the same indexing in memory for confirmed outputs. */
module Mempool {
  import opened Common

  datatype Output = Output(outputIndex: nat, data: string, address: string, value: nat)

  /** `id` has a unique index. */
  datatype Transaction = Transaction(id: string, data: string, outputs: seq<Output>)

  /** One document after `$unwind`. */
  datatype Row = Row(id: string, raw: string, output: Output)

  datatype Pending = Pending(transactionId: string, output: Output, raw: nat)

  datatype Page = Page(utxos: seq<Pending>, raw: seq<string>)

  // ----- the common front: $match, $limit, $filter, $unwind -----

  function Paying(outputs: seq<Output>, address: string): seq<Output> {
    if outputs == [] then [] else
      (if outputs[0].address == address then [outputs[0]] else []) + Paying(outputs[1..], address)
  }

  function Unwind(t: Transaction, outputs: seq<Output>): seq<Row> {
    if outputs == [] then [] else [Row(t.id, t.data, outputs[0])] + Unwind(t, outputs[1..])
  }

  function Rows(txs: seq<Transaction>, address: string, limit: nat): seq<Row> {
    if txs == [] || limit == 0 then []
    else
      var paying := Paying(txs[0].outputs, address);
      if paying == [] then Rows(txs[1..], address, limit)
      else Unwind(txs[0], paying) + Rows(txs[1..], address, limit - 1)
  }

  /** Rows of one transaction carry the same bytes. */
  ghost predicate Coherent(rows: seq<Row>) {
    forall i, j :: 0 <= i < |rows| && 0 <= j < |rows| && rows[i].id == rows[j].id ==> rows[i].raw == rows[j].raw
  }

  lemma {:induction false} UnwindRows(t: Transaction, outputs: seq<Output>)
    ensures forall r :: r in Unwind(t, outputs) ==> r.id == t.id && r.raw == t.data
  {
    if outputs != [] {
      UnwindRows(t, outputs[1..]);
    }
  }

  lemma {:induction false} RowSource(txs: seq<Transaction>, address: string, limit: nat, r: Row)
    requires r in Rows(txs, address, limit)
    ensures exists t :: t in txs && t.id == r.id && t.data == r.raw
  {
    var paying := Paying(txs[0].outputs, address);
    UnwindRows(txs[0], paying);
    if paying == [] {
      RowSource(txs[1..], address, limit, r);
    } else if r !in Unwind(txs[0], paying) {
      RowSource(txs[1..], address, limit - 1, r);
    }
  }

  /** The unique index on `id` makes the rows coherent. */
  lemma RowsAreCoherent(txs: seq<Transaction>, address: string, limit: nat)
    requires forall a, b :: a in txs && b in txs && a.id == b.id ==> a == b
    ensures Coherent(Rows(txs, address, limit))
  {
    var rows := Rows(txs, address, limit);
    forall i, j | 0 <= i < |rows| && 0 <= j < |rows| && rows[i].id == rows[j].id ensures rows[i].raw == rows[j].raw {
      RowSource(txs, address, limit, rows[i]);
      RowSource(txs, address, limit, rows[j]);
    }
  }

  // ----- what the rows are -----

  /** The filter keeps exactly the outputs to the address. */
  lemma {:induction false} PayingMeans(outputs: seq<Output>, address: string)
    ensures forall o :: o in Paying(outputs, address) <==> o in outputs && o.address == address
  {
    if outputs != [] {
      PayingMeans(outputs[1..], address);
    }
  }

  /** It keeps their order and repetitions: it works output by output. */
  lemma {:induction false} PayingJoins(a: seq<Output>, b: seq<Output>, address: string)
    ensures Paying(a + b, address) == Paying(a, address) + Paying(b, address)
  {
    if a == [] {
      assert a + b == b;
    } else {
      var head := if a[0].address == address then [a[0]] else [];
      assert (a + b)[0] == a[0] && (a + b)[1..] == a[1..] + b;
      PayingJoins(a[1..], b, address);
      assert Paying(a + b, address) == head + Paying(a[1..] + b, address);
      assert head + (Paying(a[1..], address) + Paying(b, address)) == (head + Paying(a[1..], address)) + Paying(b, address);
    }
  }

  lemma PayingOne(o: Output, address: string)
    ensures Paying([o], address) == if o.address == address then [o] else []
  {
    assert [o][1..] == [];
  }

  /** The output's row in its transaction. */
  predicate RowOf(t: Transaction, address: string, r: Row) {
    r.id == t.id && r.raw == t.data && r.output in t.outputs && r.output.address == address
  }

  ghost predicate Pays(t: Transaction, address: string) {
    exists o :: o in t.outputs && o.address == address
  }

  /** How many of the first `k` transactions pay the address. */
  ghost function Payers(txs: seq<Transaction>, k: nat, address: string): nat
    requires k <= |txs|
  {
    if k == 0 then 0 else Payers(txs[1..], k - 1, address) + if Pays(txs[0], address) then 1 else 0
  }

  /** One row per output, in their order. */
  lemma {:induction false} UnwindAt(t: Transaction, outputs: seq<Output>)
    ensures |Unwind(t, outputs)| == |outputs|
    ensures forall i :: 0 <= i < |outputs| ==> Unwind(t, outputs)[i] == Row(t.id, t.data, outputs[i])
  {
    if outputs != [] {
      UnwindAt(t, outputs[1..]);
    }
  }

  lemma UnwindMeans(t: Transaction, outputs: seq<Output>, r: Row)
    ensures r in Unwind(t, outputs) <==> r.id == t.id && r.raw == t.data && r.output in outputs
  {
    UnwindAt(t, outputs);
    if r.id == t.id && r.raw == t.data && r.output in outputs {
      var i :| 0 <= i < |outputs| && outputs[i] == r.output;
      assert Unwind(t, outputs)[i] == r;
    }
  }

  lemma GroupMeans(t: Transaction, address: string, r: Row)
    ensures r in Unwind(t, Paying(t.outputs, address)) <==> RowOf(t, address, r)
    ensures Paying(t.outputs, address) != [] <==> Pays(t, address)
  {
    PayingMeans(t.outputs, address);
    UnwindMeans(t, Paying(t.outputs, address), r);
    if Paying(t.outputs, address) != [] {
      assert Paying(t.outputs, address)[0] in t.outputs;
    }
  }

  /** A transaction with the row, with fewer than `limit` paying transactions before it. */
  ghost predicate HasRow(txs: seq<Transaction>, address: string, limit: nat, r: Row) {
    exists k :: 0 <= k < |txs| && RowOf(txs[k], address, r) && Payers(txs, k, address) < limit
  }

  /** A row is an output to the address, with the id and the bytes of its transaction, which is one of the first `limit` that
      pay the address; and every such output has its row. */
  lemma {:induction false} RowsMean(txs: seq<Transaction>, address: string, limit: nat, r: Row)
    ensures r in Rows(txs, address, limit)
      <==> exists k :: 0 <= k < |txs| && Payers(txs, k, address) < limit
             && r.id == txs[k].id && r.raw == txs[k].data && r.output in txs[k].outputs && r.output.address == address
  {
    RowsHave(txs, address, limit, r);
    if k :| 0 <= k < |txs| && RowOf(txs[k], address, r) && Payers(txs, k, address) < limit {
      assert r.id == txs[k].id;
    }
    forall k | 0 <= k < |txs| && Payers(txs, k, address) < limit
        && r.id == txs[k].id && r.raw == txs[k].data && r.output in txs[k].outputs && r.output.address == address
      ensures HasRow(txs, address, limit, r)
    {
      assert RowOf(txs[k], address, r);
    }
  }

  lemma {:induction false} RowsHave(txs: seq<Transaction>, address: string, limit: nat, r: Row)
    ensures r in Rows(txs, address, limit) <==> HasRow(txs, address, limit, r)
  {
    if txs != [] && limit > 0 {
      var left := if Paying(txs[0].outputs, address) == [] then limit else limit - 1;
      GroupMeans(txs[0], address, r);
      RowsHave(txs[1..], address, left, r);
      HasRowStep(txs, address, limit, left, r);
    }
  }

  lemma HasRowStep(txs: seq<Transaction>, address: string, limit: nat, left: nat, r: Row)
    requires txs != [] && limit > 0 && left == if Pays(txs[0], address) then limit - 1 else limit
    ensures HasRow(txs, address, limit, r) <==> RowOf(txs[0], address, r) || HasRow(txs[1..], address, left, r)
  {
    var rest := txs[1..];
    assert Payers(txs, 0, address) == 0;
    if k :| 0 <= k < |rest| && RowOf(rest[k], address, r) && Payers(rest, k, address) < left {
      assert txs[k + 1] == rest[k] && Payers(txs, k + 1, address) < limit;
    }
    if k :| 0 <= k < |txs| && RowOf(txs[k], address, r) && Payers(txs, k, address) < limit {
      assert k > 0 ==> txs[k] == rest[k - 1] && Payers(rest, k - 1, address) < left;
    }
  }

  // ----- MongoDB 7: a list of ids -----

  datatype Deduped = Deduped(ids: seq<string>, arr: seq<string>)

  function Reduce7(rows: seq<Row>): Deduped {
    if rows == [] then Deduped([], []) else
      var d, r := Reduce7(rows[..|rows| - 1]), rows[|rows| - 1];
      if r.id in d.ids then d else Deduped(d.ids + [r.id], d.arr + [r.raw])
  }

  /** `$indexOfArray`; the id is always present here. */
  function IndexOf(ids: seq<string>, id: string): (i: nat)
    requires id in ids
    ensures i < |ids| && ids[i] == id && id !in ids[..i]
  {
    if ids[0] == id then 0 else 1 + IndexOf(ids[1..], id)
  }

  /** Every transaction once, in order of appearance, each with its own bytes. */
  ghost predicate Deduplicates(rows: seq<Row>, d: Deduped) {
    && |d.ids| == |d.arr|
    && (forall r :: r in rows ==> r.id in d.ids)
    && (forall i, j :: 0 <= i < j < |d.ids| ==> d.ids[i] != d.ids[j])
    && (forall k :: 0 <= k < |d.ids| ==> Row7(rows, d.ids[k], d.arr[k]))
    && (rows != [] ==> d.ids != [] && d.ids[0] == rows[0].id && d.arr[0] == rows[0].raw)
  }

  ghost predicate Row7(rows: seq<Row>, id: string, raw: string) {
    exists i :: 0 <= i < |rows| && rows[i].id == id && rows[i].raw == raw
  }

  lemma {:induction false} Ids7(rows: seq<Row>)
    ensures Deduplicates(rows, Reduce7(rows))
  {
    if rows != [] {
      var n := |rows| - 1;
      Ids7(rows[..n]);
      assert rows == rows[..n] + [rows[n]];
      Ids7Step(rows[..n], rows[n], Reduce7(rows[..n]));
    }
  }

  lemma Ids7Step(init: seq<Row>, r: Row, d: Deduped)
    requires Deduplicates(init, d)
    ensures Deduplicates(init + [r], if r.id in d.ids then d else Deduped(d.ids + [r.id], d.arr + [r.raw]))
  {
    var rows := init + [r];
    forall id, raw | Row7(init, id, raw) ensures Row7(rows, id, raw) {
      var i :| 0 <= i < |init| && init[i].id == id && init[i].raw == raw;
      assert rows[i] == init[i];
    }
    assert Row7(rows, r.id, r.raw) by {
      assert rows[|init|] == r;
    }
    assert init != [] ==> rows[0] == init[0];
  }

  function Utxos7(rows: seq<Row>): Page {
    Ids7(rows);
    var d := Reduce7(rows);
    Page(seq(|rows|, i requires 0 <= i < |rows| => Pending(rows[i].id, rows[i].output, IndexOf(d.ids, rows[i].id))), d.arr)
  }

  // ----- MongoDB 8: an object of positions -----

  datatype Seen = Seen(seen: map<string, nat>, arr: seq<string>)

  /** `$not: [$getField]`: a missing field is falsy, and so is the position 0. */
  predicate Unseen(s: Seen, id: string) {
    id !in s.seen || s.seen[id] == 0
  }

  function Reduce8(rows: seq<Row>): (s: Seen)
    ensures forall r :: r in rows ==> r.id in s.seen
  {
    if rows == [] then Seen(map[], []) else
      var s, r := Reduce8(rows[..|rows| - 1]), rows[|rows| - 1];
      if Unseen(s, r.id) then Seen(s.seen[r.id := |s.arr|], s.arr + [r.raw]) else s
  }

  function Utxos8(rows: seq<Row>): Page {
    var s := Reduce8(rows);
    Page(seq(|rows|, i requires 0 <= i < |rows| => Pending(rows[i].id, rows[i].output, s.seen[rows[i].id])), s.arr)
  }

  // ----- how far the two differ -----

  /** How many ids were known when the first transaction came up again. */
  function RepeatPoint(rows: seq<Row>): Option<nat> {
    if |rows| <= 1 then None else
      var init := rows[..|rows| - 1];
      var r := RepeatPoint(init);
      if r.Some? then r
      else if rows[|rows| - 1].id == rows[0].id then Some(|Reduce7(init).ids|)
      else None
  }

  function Shift(k: nat, point: Option<nat>): nat {
    if point.None? then k
    else if k == 0 then point.value
    else if k < point.value then k
    else k + 1
  }

  /** The version 8 list is the version 7 list, with the first transaction's bytes once more at the repeat point. */
  ghost predicate Shape(d: Deduped, s: Seen, point: Option<nat>) {
    && |d.ids| == |d.arr|
    && (forall k :: 0 <= k < |d.ids| ==> d.ids[k] in s.seen && s.seen[d.ids[k]] == Shift(k, point))
    && (forall id :: id in s.seen ==> id in d.ids)
    && match point
       case None => s.arr == d.arr
       case Some(p) => 1 <= p <= |d.arr| && s.arr == d.arr[..p] + [d.arr[0]] + d.arr[p..]
  }

  lemma {:induction false} ShapeHolds(rows: seq<Row>)
    requires Coherent(rows)
    ensures Shape(Reduce7(rows), Reduce8(rows), RepeatPoint(rows))
  {
    if rows != [] {
      var n := |rows| - 1;
      var init, r := rows[..n], rows[n];
      assert rows == init + [r];
      CoherentPrefix(init, r);
      ShapeHolds(init);
      ShapeStep(init, r, rows);
    }
  }

  lemma CoherentPrefix(init: seq<Row>, r: Row)
    requires Coherent(init + [r])
    ensures Coherent(init)
  {
    assert forall i :: 0 <= i < |init| ==> init[i] == (init + [r])[i];
  }

  ghost predicate NoRepeats(ids: seq<string>) {
    forall i, j :: 0 <= i < j < |ids| ==> ids[i] != ids[j]
  }

  lemma ShapeNew(d: Deduped, s: Seen, point: Option<nat>, id: string, raw: string)
    requires Shape(d, s, point) && id !in d.ids
    ensures Shape(Deduped(d.ids + [id], d.arr + [raw]), Seen(s.seen[id := |s.arr|], s.arr + [raw]), point)
  {
    if point.Some? {
      var p := point.value;
      assert (d.arr + [raw])[..p] == d.arr[..p] && (d.arr + [raw])[p..] == d.arr[p..] + [raw];
    }
  }

  lemma ShapeRepeat(d: Deduped, s: Seen)
    requires Shape(d, s, None) && d.ids != [] && NoRepeats(d.ids)
    ensures Shape(d, Seen(s.seen[d.ids[0] := |s.arr|], s.arr + [d.arr[0]]), Some(|d.ids|))
  {
    assert d.arr[..|d.arr|] == d.arr && d.arr[|d.arr|..] == [];
  }

  lemma ShapeStep(init: seq<Row>, r: Row, rows: seq<Row>)
    requires rows == init + [r] && Coherent(rows)
    requires Shape(Reduce7(init), Reduce8(init), RepeatPoint(init))
    ensures Shape(Reduce7(rows), Reduce8(rows), RepeatPoint(rows))
  {
    var d, s, point := Reduce7(init), Reduce8(init), RepeatPoint(init);
    assert rows[..|rows| - 1] == init;
    Ids7(init);
    if r.id !in d.ids {
      ShapeNew(d, s, point, r.id, r.raw);
      assert init != [] ==> rows[0] == init[0];
    } else {
      var k := IndexOf(d.ids, r.id);
      assert init != [] && rows[0] == init[0];
      if k == 0 && point.None? {
        assert r == rows[|init|] && r.raw == d.arr[0];
        ShapeRepeat(d, s);
      } else {
        assert s.seen[d.ids[k]] == Shift(k, point) > 0;
        assert point.None? ==> r.id != rows[0].id;
      }
    }
  }

  /** Without their positions, the pending outputs are the same list in both versions. */
  lemma SameUtxos(rows: seq<Row>)
    ensures |Utxos7(rows).utxos| == |Utxos8(rows).utxos| == |rows|
    ensures forall i :: 0 <= i < |rows| ==>
      Utxos7(rows).utxos[i].(raw := 0) == Utxos8(rows).utxos[i].(raw := 0) == Pending(rows[i].id, rows[i].output, 0)
  {
  }

  /** In both versions every output's position leads to its own transaction's bytes. */
  lemma PositionsPointHome(rows: seq<Row>, i: nat)
    requires Coherent(rows) && i < |rows|
    ensures var p := Utxos7(rows); p.utxos[i].raw < |p.raw| && p.raw[p.utxos[i].raw] == rows[i].raw
    ensures var p := Utxos8(rows); p.utxos[i].raw < |p.raw| && p.raw[p.utxos[i].raw] == rows[i].raw
  {
    var k := OwnBytes(rows, i);
    ShapeHolds(rows);
    ShiftedBytes(Reduce7(rows), Reduce8(rows), RepeatPoint(rows), k);
  }

  lemma OwnBytes(rows: seq<Row>, i: nat) returns (k: nat)
    requires Coherent(rows) && i < |rows|
    ensures var d := Reduce7(rows);
      && rows[i].id in d.ids && k == IndexOf(d.ids, rows[i].id) && k < |d.ids| == |d.arr|
      && d.arr[k] == rows[i].raw
  {
    Ids7(rows);
    var d := Reduce7(rows);
    assert rows[i] in rows;
    k := IndexOf(d.ids, rows[i].id);
    assert Row7(rows, d.ids[k], d.arr[k]);
    var j :| 0 <= j < |rows| && rows[j].id == d.ids[k] && rows[j].raw == d.arr[k];
  }

  lemma ShiftedBytes(d: Deduped, s: Seen, point: Option<nat>, k: nat)
    requires Shape(d, s, point) && k < |d.ids|
    ensures d.ids[k] in s.seen && s.seen[d.ids[k]] < |s.arr| && s.arr[s.seen[d.ids[k]]] == d.arr[k]
  {
  }

  /** The first transaction has more than one output in the page. */
  ghost predicate FirstRepeats(rows: seq<Row>) {
    exists i :: 1 <= i < |rows| && rows[i].id == rows[0].id
  }

  lemma {:induction false} RepeatPointExactly(rows: seq<Row>)
    ensures RepeatPoint(rows).Some? <==> FirstRepeats(rows)
  {
    if |rows| > 1 {
      var n := |rows| - 1;
      RepeatPointExactly(rows[..n]);
      if FirstRepeats(rows) {
        var i :| 1 <= i < |rows| && rows[i].id == rows[0].id;
        if i < n {
          assert rows[..n][i].id == rows[..n][0].id;
        }
      }
      if FirstRepeats(rows[..n]) {
        var i :| 1 <= i < n && rows[..n][i].id == rows[..n][0].id;
        assert rows[i].id == rows[0].id;
      }
    }
  }

  /** Version 7 sends each transaction once.  Version 8 sends the first one twice if and only if it has several
      outputs in the page, and is otherwise identical. */
  lemma RawLists(rows: seq<Row>)
    requires Coherent(rows)
    ensures |Utxos8(rows).raw| == |Utxos7(rows).raw| + if FirstRepeats(rows) then 1 else 0
    ensures !FirstRepeats(rows) ==> Utxos8(rows) == Utxos7(rows)
  {
    Ids7(rows);
    ShapeHolds(rows);
    RepeatPointExactly(rows);
    if !FirstRepeats(rows) {
      var d, s := Reduce7(rows), Reduce8(rows);
      forall i | 0 <= i < |rows| ensures s.seen[rows[i].id] == IndexOf(d.ids, rows[i].id) {
        var k := IndexOf(d.ids, rows[i].id);
        assert s.seen[d.ids[k]] == Shift(k, None);
      }
      assert Utxos8(rows).utxos == Utxos7(rows).utxos;
    }
  }

  // ----- when the first transaction is sent twice -----

  function FirstPaying(txs: seq<Transaction>, address: string): Option<Transaction> {
    if txs == [] then None
    else if Paying(txs[0].outputs, address) != [] then Some(txs[0])
    else FirstPaying(txs[1..], address)
  }

  ghost predicate UniqueIds(txs: seq<Transaction>) {
    forall i, j :: 0 <= i < j < |txs| ==> txs[i].id != txs[j].id
  }

  /** In terms of the mempool: the extra entry is sent exactly when the first transaction that pays the address pays it
      more than once. */
  lemma {:induction false} SentTwiceExactlyWhen(txs: seq<Transaction>, address: string, limit: nat)
    requires UniqueIds(txs) && limit > 0
    ensures var first := FirstPaying(txs, address);
      FirstRepeats(Rows(txs, address, limit)) <==> first.Some? && |Paying(first.value.outputs, address)| > 1
  {
    if txs != [] {
      var paying := Paying(txs[0].outputs, address);
      if paying == [] {
        SentTwiceExactlyWhen(txs[1..], address, limit);
      } else {
        var rest := Rows(txs[1..], address, limit - 1);
        UnwindRows(txs[0], paying);
        UnwindAt(txs[0], paying);
        forall r | r in rest ensures r.id != txs[0].id {
          RowSource(txs[1..], address, limit - 1, r);
        }
        FirstGroupRepeats(Unwind(txs[0], paying), rest, txs[0].id);
      }
    }
  }

  lemma FirstGroupRepeats(group: seq<Row>, rest: seq<Row>, id: string)
    requires group != [] && (forall r :: r in group ==> r.id == id) && (forall r :: r in rest ==> r.id != id)
    ensures FirstRepeats(group + rest) <==> |group| > 1
  {
    var rows := group + rest;
    assert rows[0] == group[0] && group[0] in group;
    if |group| > 1 {
      assert rows[1] == group[1] && group[1] in group;
    }
    forall i | |group| <= i < |rows| ensures rows[i].id != id {
      assert rows[i] == rest[i - |group|] && rest[i - |group|] in rest;
    }
  }

  /** Two outputs of one transaction to the address: version 7 sends its bytes once, version 8 twice. */
  lemma TwoOutputsSentTwice(t: Transaction, address: string, limit: nat)
    requires |t.outputs| == 2 && t.outputs[0].address == t.outputs[1].address == address && limit > 0
    ensures Utxos7(Rows([t], address, limit)).raw == [t.data]
    ensures Utxos8(Rows([t], address, limit)).raw == [t.data, t.data]
  {
    var a, b := t.outputs[0], t.outputs[1];
    TwoRows(t, address, limit);
    var rows := [Row(t.id, t.data, a), Row(t.id, t.data, b)];
    assert rows[..1] == [rows[0]] && rows[..1][..0] == [];
    assert Reduce7(rows[..1]) == Deduped([t.id], [t.data]);
    assert Reduce8(rows[..1]) == Seen(map[t.id := 0], [t.data]);
  }

  lemma TwoRows(t: Transaction, address: string, limit: nat)
    requires |t.outputs| == 2 && t.outputs[0].address == t.outputs[1].address == address && limit > 0
    ensures Rows([t], address, limit) == [Row(t.id, t.data, t.outputs[0]), Row(t.id, t.data, t.outputs[1])]
  {
    PayingTwo(t.outputs, address);
    UnwindTwo(t, t.outputs[0], t.outputs[1]);
    assert [t][1..] == [];
  }

  lemma PayingTwo(outputs: seq<Output>, address: string)
    requires |outputs| == 2 && outputs[0].address == outputs[1].address == address
    ensures Paying(outputs, address) == [outputs[0], outputs[1]]
  {
    var tail := outputs[1..];
    assert tail == [outputs[1]] && tail[1..] == [];
    assert Paying(tail[1..], address) == [];
    assert Paying(tail, address) == [outputs[1]];
  }

  lemma UnwindTwo(t: Transaction, a: Output, b: Output)
    ensures Unwind(t, [a, b]) == [Row(t.id, t.data, a), Row(t.id, t.data, b)]
  {
    assert [a, b][1..] == [b] && [b][1..] == [];
    assert Unwind(t, [b]) == [Row(t.id, t.data, b)];
  }

  // ----- the same indexing in memory -----

  /** The loop of `getWalletUnspentUTXOS`: positions into a list of transaction ids without repetitions, which
      is the list version 7 computes. */
  method IndexTransactions(rows: seq<Row>) returns (raw: seq<nat>, uniqueTxIds: seq<string>)
    ensures uniqueTxIds == Reduce7(rows).ids
    ensures |raw| == |rows| && forall i :: 0 <= i < |rows| ==> raw[i] < |uniqueTxIds| && uniqueTxIds[raw[i]] == rows[i].id
  {
    raw, uniqueTxIds := [], [];
    var txIdToIndex: map<string, nat> := map[];
    for i := 0 to |rows|
      invariant uniqueTxIds == Reduce7(rows[..i]).ids
      invariant forall id :: id in txIdToIndex <==> id in uniqueTxIds
      invariant forall id :: id in txIdToIndex ==> txIdToIndex[id] < |uniqueTxIds| && uniqueTxIds[txIdToIndex[id]] == id
      invariant |raw| == i && forall k :: 0 <= k < i ==> raw[k] < |uniqueTxIds| && uniqueTxIds[raw[k]] == rows[k].id
    {
      assert rows[..i + 1][..i] == rows[..i];
      var id := rows[i].id;
      if id !in txIdToIndex {
        txIdToIndex := txIdToIndex[id := |uniqueTxIds|];
        uniqueTxIds := uniqueTxIds + [id];
      }
      raw := raw + [txIdToIndex[id]];
    }
    assert rows[..|rows|] == rows;
  }
}
