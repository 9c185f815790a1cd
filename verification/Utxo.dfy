/** `UnspentTransactionRepository`: the unspent-output store.  Creating an output and spending it are
    upserts on disjoint fields of one document, so a document is held here as its two field groups:
    the creation fields (`coins`) and `deletedAtBlock` (`marks`). */
module Utxo {
  import opened Common
  import opened BulkWrite

  type TxId = string

  datatype OutPoint = OutPoint(txid: TxId, index: nat)

  datatype Script = Script(hex: string, address: Option<string>, addresses: Option<seq<string>>)

  datatype Output = Output(index: nat, value: nat, script: Script)

  /** A coinbase input has no output index. */
  datatype Input = Input(originalTxId: Option<TxId>, outputIndex: Option<nat>)

  datatype Transaction = Transaction(id: TxId, blockHeight: nat, inputs: seq<Input>, outputs: seq<Output>)

  datatype Block = Block(height: nat, transactions: seq<Transaction>)

  /** What one sync thread hands over in one call: any blocks, in any order. */
  type Batch = seq<Block>

  datatype Coin = Coin(value: nat, blockHeight: nat, script: Script)

  /** `deletedAtBlock`, once written.  `$set` of `undefined` stores null. */
  datatype Mark = At(height: nat) | Null

  type Creation = Op<OutPoint, Coin>
  type Spend = Op<OutPoint, Mark>

  datatype Collection = Collection(coins: map<OutPoint, Coin>, marks: map<OutPoint, Mark>)

  const EMPTY := Collection(map[], map[])

  // ----- what a block says -----

  predicate HasText(address: Option<string>) {
    address.Some? && address.value != ""
  }

  predicate Eligible(o: Output) {
    o.value != 0 && (HasText(o.script.address) || o.script.addresses.Some?)
  }

  function StoredScript(s: Script): Script {
    Script(s.hex, s.address, if HasText(s.address) then Some([]) else s.addresses)
  }

  function CreationOf(t: Transaction, o: Output): Creation {
    Op(OutPoint(t.id, o.index), Coin(o.value, t.blockHeight, StoredScript(o.script)))
  }

  predicate IsSpend(i: Input) {
    i.originalTxId.Some? && i.outputIndex.Some?
  }

  function SpendOf(height: nat, i: Input): Spend
    requires IsSpend(i)
  {
    Op(OutPoint(i.originalTxId.value, i.outputIndex.value), At(height))
  }

  ghost predicate CreatesIn(b: Block, k: Creation) {
    exists t, o :: t in b.transactions && o in t.outputs && Eligible(o) && k == CreationOf(t, o)
  }

  ghost predicate SpendsIn(b: Block, m: Spend) {
    exists t, i :: t in b.transactions && i in t.inputs && IsSpend(i) && m == SpendOf(b.height, i)
  }

  ghost predicate Creates(chain: set<Block>, k: Creation) {
    exists b :: b in chain && CreatesIn(b, k)
  }

  ghost predicate Spends(chain: set<Block>, m: Spend) {
    exists b :: b in chain && SpendsIn(b, m)
  }

  ghost predicate IsSpent(chain: set<Block>, p: OutPoint) {
    exists m :: Spends(chain, m) && m.key == p
  }

  /** Transaction ids are unique and every output is spent at most once, never before it exists. */
  ghost predicate ValidChain(chain: set<Block>) {
    && (forall b, t :: b in chain && t in b.transactions ==> t.blockHeight == b.height)
    && (forall k, k' :: Creates(chain, k) && Creates(chain, k') && k.key == k'.key ==> k == k')
    && (forall m, m' :: Spends(chain, m) && Spends(chain, m') && m.key == m'.key ==> m == m')
    && (forall k, m :: Creates(chain, k) && Spends(chain, m) && k.key == m.key ==> k.value.blockHeight <= SpentAt(m))
  }

  function SpentAt(m: Spend): nat {
    if m.value.At? then m.value.height else 0
  }

  ghost function BlocksOf(batches: seq<Batch>): set<Block> {
    set i, b | 0 <= i < |batches| && b in batches[i] :: b
  }

  ghost function Below(chain: set<Block>, h: nat): set<Block> {
    set b | b in chain && b.height < h
  }

  // ----- the two conversions, as lists -----

  function InputSpends(height: nat, inputs: seq<Input>): (r: seq<Spend>) {
    if inputs == [] then [] else
      var n := |inputs| - 1;
      InputSpends(height, inputs[..n]) + if IsSpend(inputs[n]) then [SpendOf(height, inputs[n])] else []
  }

  function TransactionSpends(height: nat, txs: seq<Transaction>): (r: seq<Spend>) {
    if txs == [] then [] else
      TransactionSpends(height, txs[..|txs| - 1]) + InputSpends(height, txs[|txs| - 1].inputs)
  }

  function BatchSpends(blocks: Batch): (r: seq<Spend>) {
    if blocks == [] then [] else
      var b := blocks[|blocks| - 1];
      BatchSpends(blocks[..|blocks| - 1]) + TransactionSpends(b.height, b.transactions)
  }

  function OutputCoins(t: Transaction, outputs: seq<Output>, spent: set<OutPoint>): (r: seq<Creation>) {
    if outputs == [] then [] else
      var n := |outputs| - 1;
      var k := CreationOf(t, outputs[n]);
      OutputCoins(t, outputs[..n], spent) + if Eligible(outputs[n]) && k.key !in spent then [k] else []
  }

  function TransactionCoins(txs: seq<Transaction>, spent: set<OutPoint>): (r: seq<Creation>) {
    if txs == [] then [] else
      var t := txs[|txs| - 1];
      TransactionCoins(txs[..|txs| - 1], spent) + OutputCoins(t, t.outputs, spent)
  }

  function BatchCoins(blocks: Batch, spent: set<OutPoint>): (r: seq<Creation>) {
    if blocks == [] then [] else
      BatchCoins(blocks[..|blocks| - 1], spent) + TransactionCoins(blocks[|blocks| - 1].transactions, spent)
  }

  function Points<V(==)>(ops: seq<Op<OutPoint, V>>): set<OutPoint> {
    set o | o in ops :: o.key
  }

  /** The creation writes of a batch: its outputs that it does not spend itself. */
  function Survivors(batch: Batch): seq<Creation> {
    BatchCoins(batch, Points(BatchSpends(batch)))
  }

  // ----- effect on the collection -----

  /** A batch without a surviving output writes nothing at all, not even its spends. */
  predicate IsDry(batch: Batch) {
    Survivors(batch) == []
  }

  ghost function Ingest(c: Collection, batch: Batch): Collection {
    if IsDry(batch) then c else
      Collection(c.coins + Written(OpSet(Survivors(batch))), c.marks + Written(OpSet(BatchSpends(batch))))
  }

  ghost function IngestAll(c: Collection, batches: seq<Batch>): Collection {
    if batches == [] then c else Ingest(IngestAll(c, batches[..|batches| - 1]), batches[|batches| - 1])
  }

  predicate CreatedIn(c: Collection, p: OutPoint, from: nat, to: Option<nat>) {
    p in c.coins && InRange(c.coins[p].blockHeight, from, to)
  }

  predicate InRange(h: nat, from: nat, to: Option<nat>) {
    from <= h && (to.Some? ==> h < to.value)
  }

  /** Documents created in the range go; spends recorded in the range are undone.  `None` is no upper end. */
  function Rollback(c: Collection, from: nat, to: Option<nat>): Collection {
    Collection(
      map p | p in c.coins && !CreatedIn(c, p, from, to) :: c.coins[p],
      map p | p in c.marks && !CreatedIn(c, p, from, to) ::
        var m := c.marks[p]; if m.At? && InRange(m.height, from, to) then Null else m)
  }

  predicate Deleted(c: Collection, p: OutPoint) {
    p in c.marks && c.marks[p].At?
  }

  /** What the wallet queries can return: documents with creation fields and no `deletedAtBlock`. */
  function Visible(c: Collection): map<OutPoint, Coin> {
    map p | p in c.coins && !Deleted(c, p) :: c.coins[p]
  }

  // ----- reading the lists as facts about blocks -----

  lemma {:induction false} SpendsMember(blocks: Batch, m: Spend)
    ensures m in BatchSpends(blocks) <==> exists b :: b in blocks && SpendsIn(b, m)
  {
    if blocks != [] {
      var n := |blocks| - 1;
      var b := blocks[n];
      SpendsMember(blocks[..n], m);
      TransactionSpendsMember(b.height, b.transactions, m);
      assert SpendsIn(b, m) <==> m in TransactionSpends(b.height, b.transactions);
      assert blocks == blocks[..n] + [b];
    }
  }

  lemma {:induction false} TransactionSpendsMember(height: nat, txs: seq<Transaction>, m: Spend)
    ensures m in TransactionSpends(height, txs)
       <==> exists t, i :: t in txs && i in t.inputs && IsSpend(i) && m == SpendOf(height, i)
  {
    if txs != [] {
      var n := |txs| - 1;
      TransactionSpendsMember(height, txs[..n], m);
      InputSpendsMember(height, txs[n].inputs, m);
      assert txs == txs[..n] + [txs[n]];
    }
  }

  lemma {:induction false} InputSpendsMember(height: nat, inputs: seq<Input>, m: Spend)
    ensures m in InputSpends(height, inputs) <==> exists i :: i in inputs && IsSpend(i) && m == SpendOf(height, i)
  {
    if inputs != [] {
      var n := |inputs| - 1;
      InputSpendsMember(height, inputs[..n], m);
      assert inputs == inputs[..n] + [inputs[n]];
    }
  }

  lemma {:induction false} CoinsMember(blocks: Batch, spent: set<OutPoint>, k: Creation)
    ensures k in BatchCoins(blocks, spent) <==> k.key !in spent && exists b :: b in blocks && CreatesIn(b, k)
  {
    if blocks != [] {
      var n := |blocks| - 1;
      CoinsMember(blocks[..n], spent, k);
      TransactionCoinsMember(blocks[n].transactions, spent, k);
      assert CreatesIn(blocks[n], k) && k.key !in spent <==> k in TransactionCoins(blocks[n].transactions, spent);
      assert blocks == blocks[..n] + [blocks[n]];
    }
  }

  lemma {:induction false} TransactionCoinsMember(txs: seq<Transaction>, spent: set<OutPoint>, k: Creation)
    ensures k in TransactionCoins(txs, spent)
       <==> k.key !in spent && exists t, o :: t in txs && o in t.outputs && Eligible(o) && k == CreationOf(t, o)
  {
    if txs != [] {
      var n := |txs| - 1;
      TransactionCoinsMember(txs[..n], spent, k);
      OutputCoinsMember(txs[n], txs[n].outputs, spent, k);
      assert txs == txs[..n] + [txs[n]];
    }
  }

  lemma {:induction false} OutputCoinsMember(t: Transaction, outputs: seq<Output>, spent: set<OutPoint>, k: Creation)
    ensures k in OutputCoins(t, outputs, spent)
       <==> k.key !in spent && exists o :: o in outputs && Eligible(o) && k == CreationOf(t, o)
  {
    if outputs != [] {
      var n := |outputs| - 1;
      OutputCoinsMember(t, outputs[..n], spent, k);
      assert outputs == outputs[..n] + [outputs[n]];
    }
  }

  // ----- the repository -----

  class UnspentTransactionRepository {
    var coins: map<OutPoint, Coin>
    var marks: map<OutPoint, Mark>

    ghost function Contents(): Collection
      reads this
    {
      Collection(coins, marks)
    }

    constructor ()
      ensures Contents() == EMPTY
    {
      coins, marks := map[], map[];
    }

    static method ConvertSpentTransactions(blocks: Batch) returns (finalList: seq<Spend>)
      ensures finalList == BatchSpends(blocks)
    {
      finalList := [];
      for i := 0 to |blocks|
        invariant finalList == BatchSpends(blocks[..i])
      {
        var b := blocks[i];
        assert blocks[..i + 1][..i] == blocks[..i];
        for j := 0 to |b.transactions|
          invariant finalList == BatchSpends(blocks[..i]) + TransactionSpends(b.height, b.transactions[..j])
        {
          assert b.transactions[..j + 1][..j] == b.transactions[..j];
          var spends := SpentInputs(b.height, b.transactions[j].inputs);
          finalList := finalList + spends;
        }
        assert b.transactions[..|b.transactions|] == b.transactions;
      }
      assert blocks[..|blocks|] == blocks;
    }

    static method SpentInputs(height: nat, inputs: seq<Input>) returns (spends: seq<Spend>)
      ensures spends == InputSpends(height, inputs)
    {
      spends := [];
      for n := 0 to |inputs|
        invariant spends == InputSpends(height, inputs[..n])
      {
        assert inputs[..n + 1][..n] == inputs[..n];
        if IsSpend(inputs[n]) {
          spends := spends + [SpendOf(height, inputs[n])];
        }
      }
      assert inputs[..|inputs|] == inputs;
    }

    static method IndexSpends(spends: seq<Spend>) returns (spentSet: map<OutPoint, Spend>)
      ensures spentSet.Keys == Points(spends)
    {
      spentSet := map[];
      for i := 0 to |spends|
        invariant spentSet.Keys == Points(spends[..i])
      {
        spentSet := spentSet[spends[i].key := spends[i]];
        assert spends[..i + 1] == spends[..i] + [spends[i]];
      }
      assert spends[..|spends|] == spends;
    }

    /** The fields that the source also copies onto entries of `spentSet` are never written, so they are not kept. */
    static method ConvertToUnspentTransactions(blocks: Batch, spends: seq<Spend>) returns (finalList: seq<Creation>)
      ensures finalList == BatchCoins(blocks, Points(spends))
    {
      var spentSet := IndexSpends(spends);
      finalList := [];
      for i := 0 to |blocks|
        invariant finalList == BatchCoins(blocks[..i], spentSet.Keys)
      {
        var txs := blocks[i].transactions;
        assert blocks[..i + 1][..i] == blocks[..i];
        for j := 0 to |txs|
          invariant finalList == BatchCoins(blocks[..i], spentSet.Keys) + TransactionCoins(txs[..j], spentSet.Keys)
        {
          assert txs[..j + 1][..j] == txs[..j];
          var outputs := UnspentOutputs(txs[j], spentSet);
          finalList := finalList + outputs;
        }
        assert txs[..|txs|] == txs;
      }
      assert blocks[..|blocks|] == blocks;
    }

    static method UnspentOutputs(t: Transaction, spentSet: map<OutPoint, Spend>) returns (list: seq<Creation>)
      ensures list == OutputCoins(t, t.outputs, spentSet.Keys)
    {
      list := [];
      for n := 0 to |t.outputs|
        invariant list == OutputCoins(t, t.outputs[..n], spentSet.Keys)
      {
        assert t.outputs[..n + 1][..n] == t.outputs[..n];
        var k := CreationOf(t, t.outputs[n]);
        if Eligible(t.outputs[n]) && k.key !in spentSet {
          list := list + [k];
        }
      }
      assert t.outputs[..|t.outputs|] == t.outputs;
    }

    /** Whatever way the database interleaves the 500-operation chunks, the batch has one outcome. */
    method InsertTransactions(blocks: Batch)
      modifies this
      ensures Functional(OpSet(Survivors(blocks))) && Functional(OpSet(BatchSpends(blocks)))
          ==> Contents() == Ingest(old(Contents()), blocks)
      ensures IsDry(blocks) ==> Contents() == old(Contents())
      ensures !IsDry(blocks) ==> Wrote(old(coins), OpSet(Survivors(blocks)), coins) && Wrote(old(marks), OpSet(BatchSpends(blocks)), marks)
    {
      var spends := ConvertSpentTransactions(blocks);
      var creations := ConvertToUnspentTransactions(blocks, spends);
      if |creations| > 0 {
        var chunks := ChunkArray(creations, 500);
        ConcatElements(chunks);
        assert Pending(chunks) == OpSet(creations);
        coins := BulkWriteAll(coins, chunks);

        var deleteChunks := ChunkArray(spends, 500);
        ConcatElements(deleteChunks);
        assert Pending(deleteChunks) == OpSet(spends);
        marks := BulkWriteAll(marks, deleteChunks);
      }
    }

    method DeleteTransactionsFromBlockHeight(blockHeight: nat)
      modifies this
      ensures Contents() == Rollback(old(Contents()), blockHeight, None)
    {
      DeleteMatching(blockHeight, None);
    }

    method DeleteTransactionsInRange(from: nat, to: nat)
      modifies this
      ensures Contents() == Rollback(old(Contents()), from, Some(to))
    {
      DeleteMatching(from, Some(to));
    }

    /** First `deleteMany` on `blockHeight`, then `updateMany` on `deletedAtBlock` of what is left. */
    method DeleteMatching(from: nat, to: Option<nat>)
      modifies this
      ensures Contents() == Rollback(old(Contents()), from, to)
    {
      var doomed := set p | p in coins && InRange(coins[p].blockHeight, from, to);
      coins, marks := coins - doomed, marks - doomed;
      marks := map p | p in marks :: if marks[p].At? && InRange(marks[p].height, from, to) then Null else marks[p];
    }
  }
}
