/** Whole runs of key linking: what a block's requests mean, and what a rollback takes back. */
module KeyHistory {
  import opened Common
  import opened KeyLinks

  datatype Request = Add(data: KeyData) | Expose(data: KeyData)

  /** A block's requests, and whether the block reached its commit. */
  datatype BlockRequests = BlockRequests(height: nat, requests: seq<Request>, committed: bool)

  /** Callers derive the tweaked key from the legacy key and stamp exposures with the block height. */
  ghost predicate FromTransaction(tweak: Legacy -> Tweaked, height: nat, r: Request) {
    && r.data.tweaked == tweak(r.data.legacy)
    && (if r.Add? then r.data.publicKey.None? && r.data.exposed.None?
        else r.data.inserted == height && r.data.exposed == Some(height))
  }

  ghost predicate FromBlock(tweak: Legacy -> Tweaked, b: BlockRequests) {
    forall i :: 0 <= i < |b.requests| ==> FromTransaction(tweak, b.height, b.requests[i])
  }

  // ----- the service with one pending map and no indexes -----

  ghost function Pend(tweak: Legacy -> Tweaked, height: nat, t: KeyTable, store: map<Hash, Update>, r: Request): map<Hash, Update> {
    var d := r.data;
    if (if r.Add? then d.inserted != height else d.publicKey.None?) || Refuses(tweak, t, store, d) then store
    else if d.hashed in store || (d.hashed in t && (r.Expose? ==> t[d.hashed].exposed.Some?)) then store
    else store[d.hashed := Update(r.Expose?, d)]
  }

  ghost function PendAll(tweak: Legacy -> Tweaked, height: nat, t: KeyTable, requests: seq<Request>, n: nat): map<Hash, Update>
    requires n <= |requests|
  {
    if n == 0 then map[] else Pend(tweak, height, t, PendAll(tweak, height, t, requests, n - 1), requests[n - 1])
  }

  ghost function BlockResult(tweak: Legacy -> Tweaked, t: KeyTable, b: BlockRequests): KeyTable {
    if b.committed then ViewOf(t, PendAll(tweak, b.height, t, b.requests, |b.requests|)) else t
  }

  ghost function ChainResult(tweak: Legacy -> Tweaked, t: KeyTable, blocks: seq<BlockRequests>, n: nat): KeyTable
    requires n <= |blocks|
  {
    if n == 0 then t else BlockResult(tweak, ChainResult(tweak, t, blocks, n - 1), blocks[n - 1])
  }

  // ----- what one block keeps -----

  /** A pending update that fits the collection and carries the block's height. */
  ghost predicate Fits(tweak: Legacy -> Tweaked, t: KeyTable, height: nat, k: Hash, u: Update) {
    && Storable(tweak, t, u) && u.data.hashed == k && u.data.inserted == height
    && (if u.expose then u.data.exposed == Some(height) else u.data.publicKey.None? && u.data.exposed.None?)
  }

  ghost predicate AllFit(tweak: Legacy -> Tweaked, t: KeyTable, height: nat, store: map<Hash, Update>) {
    && OneToOne(ViewOf(t, store))
    && forall k :: k in store ==> Fits(tweak, t, height, k, store[k])
  }

  lemma PendKeepsFit(tweak: Legacy -> Tweaked, height: nat, t: KeyTable, store: map<Hash, Update>, r: Request)
    requires AllFit(tweak, t, height, store) && FromTransaction(tweak, height, r)
    ensures AllFit(tweak, t, height, Pend(tweak, height, t, store, r))
  {
    var d, u := r.data, Update(r.Expose?, r.data);
    if Pend(tweak, height, t, store, r) != store {
      assert d.hashed in t ==> ViewOf(t, store)[d.hashed] == t[d.hashed];
      assert Fits(tweak, t, height, d.hashed, u);
      ViewAdd(t, store, d.hashed, u);
    }
  }

  lemma {:induction false} PendAllFits(tweak: Legacy -> Tweaked, t: KeyTable, b: BlockRequests, n: nat)
    requires n <= |b.requests| && WellFormed(t, tweak) && FromBlock(tweak, b)
    ensures AllFit(tweak, t, b.height, PendAll(tweak, b.height, t, b.requests, n))
  {
    if n == 0 {
      assert ViewOf(t, map[]) == t;
    } else {
      PendAllFits(tweak, t, b, n - 1);
      PendKeepsFit(tweak, b.height, t, PendAll(tweak, b.height, t, b.requests, n - 1), b.requests[n - 1]);
    }
  }

  /** Links never change partner, tweaked key, insertion height or level. */
  ghost predicate KeepsLinks(t: KeyTable, t': KeyTable) {
    forall k :: k in t ==> k in t' && SameLink(t[k], t'[k])
  }

  predicate SameLink(a: Doc, b: Doc) {
    a.(publicKey := None, exposed := None) == b.(publicKey := None, exposed := None)
  }

  /** An exposed key is never replaced or removed. */
  ghost predicate KeepsKeys(t: KeyTable, t': KeyTable) {
    forall k :: k in t && t[k].publicKey.Some? ==> k in t' && t'[k] == t[k]
  }

  /** A document after a commit: the old one, the old one with an exposure of this height, or a new one of this height. */
  ghost predicate Grown(t: KeyTable, v: KeyTable, k: Hash, height: nat)
    requires k in v
  {
    if k !in t then v[k].inserted == height && (v[k].publicKey.Some? ==> v[k].exposed == Stamp(Some(height)))
    else v[k] == t[k] || (t[k].exposed.None? && v[k].exposed == Stamp(Some(height)) && SameLink(t[k], v[k]))
  }

  ghost predicate AllGrown(t: KeyTable, v: KeyTable, height: nat) {
    && t.Keys <= v.Keys
    && forall k :: k in v ==> Grown(t, v, k, height)
  }

  lemma CommitGrows(tweak: Legacy -> Tweaked, t: KeyTable, store: map<Hash, Update>, height: nat)
    requires AllFit(tweak, t, height, store)
    ensures AllGrown(t, ViewOf(t, store), height)
  {
    var v := ViewOf(t, store);
    forall k | k in v ensures Grown(t, v, k, height) {
      if k in store {
        assert Fits(tweak, t, height, k, store[k]) && v[k] == Applied(t, store[k]);
      }
    }
  }

  lemma GrowthKeeps(t: KeyTable, v: KeyTable, height: nat)
    requires AllGrown(t, v, height)
    ensures KeepsLinks(t, v)
    ensures Dated(t) ==> KeepsKeys(t, v)
    ensures Dated(t) && height > 0 ==> Dated(v)
  {
    forall k | k in t ensures k in v && SameLink(t[k], v[k]) && (t[k].exposed.Some? ==> v[k] == t[k]) {
      assert Grown(t, v, k, height);
    }
    forall k | k in v && v[k].publicKey.Some? && Dated(t) && height > 0 ensures v[k].exposed.Some? {
      assert Grown(t, v, k, height);
    }
  }

  lemma UndoGrowth(t: KeyTable, v: KeyTable, height: nat, h: nat)
    requires AllGrown(t, v, height) && height >= h && Dated(t)
    ensures Rollback(v, h, None) == Rollback(t, h, None)
  {
    var a, b := Rollback(v, h, None), Rollback(t, h, None);
    forall k ensures k in a <==> k in b
             ensures k in b ==> a[k] == b[k]
    {
      assert k in v ==> Grown(t, v, k, height);
    }
  }

  /** What one block does to the collection. */
  lemma BlockFacts(tweak: Legacy -> Tweaked, t: KeyTable, b: BlockRequests, h: nat)
    requires WellFormed(t, tweak) && FromBlock(tweak, b)
    ensures var t' := BlockResult(tweak, t, b);
      && WellFormed(t', tweak) && KeepsLinks(t, t')
      && (Dated(t) ==> KeepsKeys(t, t'))
      && (Dated(t) && (b.committed ==> b.height > 0) ==> Dated(t'))
      && (Dated(t) && (b.committed ==> b.height >= h) ==> Rollback(t', h, None) == Rollback(t, h, None))
  {
    if b.committed {
      var store := PendAll(tweak, b.height, t, b.requests, |b.requests|);
      PendAllFits(tweak, t, b, |b.requests|);
      assert forall k :: k in store ==> Fits(tweak, t, b.height, k, store[k]);
      CommitGrows(tweak, t, store, b.height);
      GrowthKeeps(t, ViewOf(t, store), b.height);
      if Dated(t) && b.height >= h {
        UndoGrowth(t, ViewOf(t, store), b.height, h);
      }
    }
  }

  // ----- every run -----

  ghost predicate AllFrom(tweak: Legacy -> Tweaked, blocks: seq<BlockRequests>) {
    forall i :: 0 <= i < |blocks| ==> FromBlock(tweak, blocks[i])
  }

  ghost predicate CommitsFrom(blocks: seq<BlockRequests>, h: nat) {
    forall i :: 0 <= i < |blocks| && blocks[i].committed ==> blocks[i].height >= h
  }

  lemma {:induction false} ChainKeeps(tweak: Legacy -> Tweaked, t: KeyTable, blocks: seq<BlockRequests>, n: nat)
    requires n <= |blocks| && WellFormed(t, tweak) && AllFrom(tweak, blocks)
    ensures WellFormed(ChainResult(tweak, t, blocks, n), tweak) && KeepsLinks(t, ChainResult(tweak, t, blocks, n))
    ensures Dated(t) && CommitsFrom(blocks, 1) ==>
      Dated(ChainResult(tweak, t, blocks, n)) && KeepsKeys(t, ChainResult(tweak, t, blocks, n))
  {
    if n > 0 {
      ChainKeeps(tweak, t, blocks, n - 1);
      BlockFacts(tweak, ChainResult(tweak, t, blocks, n - 1), blocks[n - 1], 0);
    }
  }

  /** A rollback to `h` takes back everything that was committed at or above `h`. */
  lemma {:induction false} RollbackUndoes(tweak: Legacy -> Tweaked, t: KeyTable, blocks: seq<BlockRequests>, n: nat, h: nat)
    requires n <= |blocks| && WellFormed(t, tweak) && Dated(t) && AllFrom(tweak, blocks) && CommitsFrom(blocks, h)
    ensures Rollback(ChainResult(tweak, t, blocks, n), h, None) == Rollback(t, h, None)
  {
    if h == 0 {
      assert Rollback(ChainResult(tweak, t, blocks, n), 0, None) == map[] == Rollback(t, 0, None);
    } else if n > 0 {
      RollbackUndoes(tweak, t, blocks, n - 1, h);
      ChainKeeps(tweak, t, blocks, n - 1);
      BlockFacts(tweak, ChainResult(tweak, t, blocks, n - 1), blocks[n - 1], h);
    }
  }

  /** Any run of committed and abandoned blocks leaves what the one-map service leaves and keeps the collection
      one-to-one; links never change.  From a dated collection a rollback to `h` undoes every commit at or above
      `h`, and exposed keys stay as long as no commit is at height 0. */
  method RunBlocks(tweak: Legacy -> Tweaked, t: KeyTable, blocks: seq<BlockRequests>, h: nat) returns (t': KeyTable)
    requires WellFormed(t, tweak) && AllFrom(tweak, blocks)
    ensures t' == ChainResult(tweak, t, blocks, |blocks|)
    ensures WellFormed(t', tweak) && KeepsLinks(t, t')
    ensures Dated(t) && CommitsFrom(blocks, 1) ==> Dated(t') && KeepsKeys(t, t')
    ensures Dated(t) && CommitsFrom(blocks, h) ==> Rollback(t', h, None) == Rollback(t, h, None)
    ensures Dated(t) && CommitsFrom(blocks, h) && Before(t, h) ==> Rollback(t', h, None) == t
  {
    t' := t;
    for i := 0 to |blocks|
      invariant t' == ChainResult(tweak, t, blocks, i) && WellFormed(t', tweak)
    {
      t' := RunBlock(tweak, t', blocks[i]);
    }
    ChainKeeps(tweak, t, blocks, |blocks|);
    if Dated(t) && CommitsFrom(blocks, h) {
      RollbackUndoes(tweak, t, blocks, |blocks|, h);
    }
  }

  method RunBlock(tweak: Legacy -> Tweaked, t: KeyTable, b: BlockRequests) returns (t': KeyTable)
    requires WellFormed(t, tweak) && FromBlock(tweak, b)
    ensures t' == BlockResult(tweak, t, b) && WellFormed(t', tweak)
  {
    var vm := new VMManager(tweak, t, b.height);
    for i := 0 to |b.requests|
      invariant fresh(vm) && vm.Valid() && vm.tweak == tweak && vm.table == t && vm.height == b.height
      invariant vm.mldsaToStore == PendAll(tweak, b.height, t, b.requests, i)
    {
      var _ := HandleRequest(vm, b.requests[i]);
    }
    BlockFacts(tweak, t, b, 0);
    if b.committed {
      var _ := vm.SaveBlock(0);
    } else {
      vm.Discard(0);
    }
    t' := vm.table;
  }

  method HandleRequest(vm: VMManager, r: Request) returns (result: Result<()>)
    requires vm.Valid() && r.data.tweaked == vm.tweak(r.data.legacy)
    modifies vm
    ensures vm.Valid() && vm.table == old(vm.table) && vm.height == old(vm.height)
    ensures vm.mldsaToStore == Pend(vm.tweak, vm.height, vm.table, old(vm.mldsaToStore), r)
  {
    vm.RejectedIsRefused(r.data);
    match r
    case Add(d) => result := vm.AddInfoToStore(d);
    case Expose(d) => result := vm.ExposePublicKey(d);
  }

  // ----- when a rollback is exact -----

  /** Stored keys have the lengths that `exists` demands. */
  ghost predicate RightLengths(t: KeyTable) {
    forall k :: k in t ==> |k| == 32 && |t[k].legacy| == 33
  }

  /** Rolling back to `h` restores a collection from below `h`, whatever was committed since, if and only if every exposed
      key in it carries its height. */
  lemma RollbackExactlyWhen(tweak: Legacy -> Tweaked, t: KeyTable, h: nat)
    requires WellFormed(t, tweak) && RightLengths(t) && Before(t, h)
    ensures (forall blocks :: AllFrom(tweak, blocks) && CommitsFrom(blocks, h) ==>
               Rollback(ChainResult(tweak, t, blocks, |blocks|), h, None) == t)
       <==> Dated(t)
  {
    if Dated(t) {
      forall blocks | AllFrom(tweak, blocks) && CommitsFrom(blocks, h)
        ensures Rollback(ChainResult(tweak, t, blocks, |blocks|), h, None) == t
      {
        RollbackUndoes(tweak, t, blocks, |blocks|, h);
      }
    } else {
      var k :| k in t && t[k].publicKey.Some? && t[k].exposed.None?;
      UndatedIsLost(tweak, t, k, h, [ExposeAgain(t, k, h)]);
    }
  }

  lemma UndatedIsLost(tweak: Legacy -> Tweaked, t: KeyTable, k: Hash, h: nat, blocks: seq<BlockRequests>)
    requires WellFormed(t, tweak) && RightLengths(t) && Before(t, h)
    requires k in t && t[k].publicKey.Some? && t[k].exposed.None? && blocks == [ExposeAgain(t, k, h)]
    ensures AllFrom(tweak, blocks) && CommitsFrom(blocks, h)
    ensures Rollback(ChainResult(tweak, t, blocks, |blocks|), h, None) != t
  {
    ExposedAgain(tweak, t, k, h);
    assert ChainResult(tweak, t, blocks, 1) == BlockResult(tweak, ChainResult(tweak, t, blocks, 0), blocks[0]);
  }

  /** A block that exposes a link's key once more. */
  function ExposeAgain(t: KeyTable, k: Hash, h: nat): BlockRequests
    requires k in t
  {
    BlockRequests(h, [Expose(KeyData(t[k].level, k, t[k].legacy, t[k].tweaked, t[k].publicKey, h, Some(h)))], true)
  }

  lemma ExposedAgain(tweak: Legacy -> Tweaked, t: KeyTable, k: Hash, h: nat)
    requires WellFormed(t, tweak) && RightLengths(t) && Before(t, h)
    requires k in t && t[k].publicKey.Some? && t[k].exposed.None?
    ensures FromBlock(tweak, ExposeAgain(t, k, h))
    ensures var t' := BlockResult(tweak, t, ExposeAgain(t, k, h));
      k in Rollback(t', h, None) && Rollback(t', h, None)[k].publicKey.None?
  {
    var b := ExposeAgain(t, k, h);
    var r := b.requests[0];
    assert ViewOf(t, map[]) == t;
    assert !Refuses(tweak, t, map[], r.data);
    assert PendAll(tweak, h, t, b.requests, 0) == map[];
    assert PendAll(tweak, h, t, b.requests, 1) == map[k := Update(true, r.data)];
    assert BlockResult(tweak, t, b)[k] == t[k].(exposed := Some(h));
  }

  /** It happens only through height 0: an exposure there is stored without its height. */
  lemma UndatedAtZero(tweak: Legacy -> Tweaked, d: KeyData)
    requires |d.hashed| == 32 && |d.legacy| == 33 && d.tweaked == tweak(d.legacy)
    requires d.publicKey.Some? && d.inserted == 0 && d.exposed == Some(0)
    ensures var t := BlockResult(tweak, map[], BlockRequests(0, [Expose(d)], true));
      d.hashed in t && t[d.hashed].publicKey == d.publicKey && !Dated(t)
  {
    var requests := [Expose(d)];
    assert ViewOf(map[], map[]) == map[];
    assert PendAll(tweak, 0, map[], requests, 0) == map[];
    assert PendAll(tweak, 0, map[], requests, 1) == map[d.hashed := Update(true, d)];
    assert BlockResult(tweak, map[], BlockRequests(0, requests, true))[d.hashed] == ToDocument(d);
  }
}
