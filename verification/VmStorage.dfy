/** The storage side of `VMManager` in indexer mode, with `VMBitcoinBlock` and the state tree as the map of
    last-written values: a block runs on an overlay (the block state) and a pointer cache above the versioned
    table.  `Ideal` is the same service without overlay lookups, caches or batching. */
module VmStorage {
  import opened Common
  import opened ContractPointers
  import opened PointerReads

  datatype Change = Change(slot: Slot, value: nat)

  datatype Evaluation = Evaluation(reverted: bool, result: Option<seq<nat>>, changedStorage: Option<seq<Change>>)

  /** A transaction of a contract, or one of the two leaves that the tree keeps under the dead address. */
  datatype ReceiptKey = ReceiptKey(contract: Address, transactionId: string) | ChecksumLeaf | VersionLeaf

  type Receipts = map<ReceiptKey, seq<nat>>

  // ----- the ideal service -----

  /** `warm` holds the slots whose value this block has already handed out. */
  datatype Phase =
    | Idle
    | Open(height: nat, writes: map<Slot, nat>, receipts: Receipts, warm: set<Slot>)
    | Sealed(height: nat)

  datatype Ideal = Ideal(table: Table, phase: Phase)

  datatype Event =
    | Prepare(height: nat)
    | Apply(evaluation: Option<Evaluation>, contract: Address, transactionId: string)
    | Read(slot: Slot)
    | Preload(requests: map<Address, seq<Ref>>)
    | Seal(previousChecksum: Result<seq<nat>>)
    | Terminate
    | Revert

  /** The frozen state and receipt trees, as maps. */
  datatype EvaluatedStates = EvaluatedStates(storage: map<Slot, nat>, receipts: Receipts)

  datatype Response = Done | Value(value: Option<nat>) | Loaded(storage: map<Address, map<nat, nat>>)
    | Evaluated(states: EvaluatedStates) | Thrown

  /** The last value written in this block, else the newest committed one strictly below its height. */
  ghost function Content(i: Ideal, s: Slot): Option<nat>
    requires i.phase.Open?
  {
    if s in i.phase.writes then Some(i.phase.writes[s]) else NewestValue(i.table, s, i.phase.height)
  }

  /** The single read takes a document from height 0 for database corruption; the grouped read does not. */
  ghost predicate Corrupt(i: Ideal, s: Slot)
    requires i.phase.Open?
  {
    var newest := Newest(i.table, s, i.phase.height);
    s !in i.phase.writes && newest.Some? && newest.value.lastSeenAt == 0
  }

  /** So a block reads one map: the fold of all write-sets below it, overridden by its own writes. */
  lemma ContentIsLedger(i: Ideal, s: Slot)
    requires i.phase.Open?
    ensures var ledger := LedgerBelow(i.table, i.phase.height);
      Content(i, s) == if s in i.phase.writes then Some(i.phase.writes[s]) else if s in ledger then Some(ledger[s].value) else None
  {
    ReadIsLedger(i.table, s, i.phase.height);
  }

  function Override(writes: map<Slot, nat>, changes: seq<Change>): map<Slot, nat> {
    if changes == [] then writes else
      var c := changes[|changes| - 1];
      Override(writes, changes[..|changes| - 1])[c.slot := c.value]
  }

  function OrZero(v: Option<nat>): nat {
    if v.Some? then v.value else 0
  }

  /** Every requested pointer, with zero for an empty slot. */
  ghost function Preloaded(i: Ideal, a: Address, refs: seq<Ref>): map<nat, nat>
    requires i.phase.Open?
  {
    map p: nat | p in PointersOf(refs) :: OrZero(Content(i, Slot(a, p)))
  }

  ghost function PreloadedAll(i: Ideal, requests: map<Address, seq<Ref>>): map<Address, map<nat, nat>>
    requires i.phase.Open?
  {
    PreloadedSome(i, requests, requests.Keys)
  }

  /** The requested slots that hold something. */
  ghost function Found(i: Ideal, a: Address, refs: seq<Ref>): set<Slot>
    requires i.phase.Open?
  {
    set p | p in PointersOf(refs) && Content(i, Slot(a, p)).Some? :: Slot(a, p)
  }

  ghost function FoundAll(i: Ideal, requests: map<Address, seq<Ref>>, addresses: set<Address>): set<Slot>
    requires i.phase.Open? && addresses <= requests.Keys
  {
    set a, s | a in addresses && s in Found(i, a, requests[a]) :: s
  }

  ghost function Warm(i: Ideal, slots: set<Slot>): Ideal
    requires i.phase.Open?
  {
    i.(phase := i.phase.(warm := i.phase.warm + slots))
  }

  /** A tree of fewer than two values is padded with dummy values. */
  function Frozen(writes: map<Slot, nat>): map<Slot, nat> {
    if |writes| < 2 then map[Slot(DUMMY_ADDRESS, 1) := 1, Slot(DUMMY_ADDRESS, 2) := 2] + writes else writes
  }

  /** The previous block's checksum was found and is 32 bytes long, or is the zero hash, which counts as empty. */
  predicate GoodChecksum(checksum: Result<seq<nat>>) {
    checksum.Success? && (checksum.value == [] || |checksum.value| == 32)
  }

  /** The receipt tree also commits to the previous checksum and to its own version. */
  function WithChecksum(receipts: Receipts, checksum: seq<nat>): Receipts {
    receipts[ChecksumLeaf := checksum][VersionLeaf := [1]]
  }

  predicate Succeeded(e: Option<Evaluation>) {
    e.Some? && !e.value.reverted && e.value.result.Some?
  }

  ghost function IdealStep(i: Ideal, e: Event): (Ideal, Response) {
    match e
    case Prepare(h) => if i.phase.Idle? then (i.(phase := Open(h, map[], map[], {})), Done) else (i, Thrown)
    case Apply(evaluation, contract, id) =>
      if !i.phase.Open? || id == "" then (i, Thrown)
      else if !Succeeded(evaluation) then
        (i.(phase := i.phase.(receipts := i.phase.receipts[ReceiptKey(contract, id) := [0]])), Done)
      else if evaluation.value.changedStorage.None? then (i, Thrown)
      else
        var writes := Override(i.phase.writes, evaluation.value.changedStorage.value);
        var receipts := i.phase.receipts[ReceiptKey(contract, id) := evaluation.value.result.value];
        (i.(phase := i.phase.(writes := writes, receipts := receipts)), Done)
    case Read(s) =>
      if !i.phase.Open? || (Corrupt(i, s) && s !in i.phase.warm) then (i, Thrown)
      else (Warm(i, if s !in i.phase.writes && Content(i, s).Some? then {s} else {}), Value(Content(i, s)))
    case Preload(requests) =>
      if !i.phase.Open? then (i, Thrown)
      else (Warm(i, FoundAll(i, requests, requests.Keys)), Loaded(PreloadedAll(i, requests)))
    case Seal(checksum) =>
      if !i.phase.Open? || !GoodChecksum(checksum) then (i, Thrown)
      else (Ideal(Commit(i.table, i.phase.writes, i.phase.height), Sealed(i.phase.height)),
            Evaluated(EvaluatedStates(Frozen(i.phase.writes), WithChecksum(i.phase.receipts, checksum.value))))
    case Terminate => (i.(phase := Idle), if i.phase.Idle? then Thrown else Done)
    case Revert => (i.(phase := Idle), if i.phase.Idle? then Thrown else Done)
  }

  /** The ideal service after the first `n` events. */
  ghost function IdealRun(i: Ideal, events: seq<Event>, n: nat): Ideal
    requires n <= |events|
  {
    if n == 0 then i else IdealStep(IdealRun(i, events, n - 1), events[n - 1]).0
  }

  lemma WarmAgain(i: Ideal, slots: set<Slot>)
    requires i.phase.Open? && slots <= i.phase.warm
    ensures Warm(i, slots) == i
  {
    assert i.phase.warm + slots == i.phase.warm;
  }

  // ----- what each event means, in fields -----

  lemma {:induction false} Unnamed(writes: map<Slot, nat>, changes: seq<Change>, s: Slot)
    requires forall k :: 0 <= k < |changes| ==> changes[k].slot != s
    ensures s in Override(writes, changes) <==> s in writes
    ensures s in writes ==> Override(writes, changes)[s] == writes[s]
  {
    if changes != [] {
      Unnamed(writes, changes[..|changes| - 1], s);
    }
  }

  lemma {:induction false} LastWriteWins(writes: map<Slot, nat>, changes: seq<Change>, j: nat)
    requires j < |changes| && forall k :: j < k < |changes| ==> changes[k].slot != changes[j].slot
    ensures changes[j].slot in Override(writes, changes) && Override(writes, changes)[changes[j].slot] == changes[j].value
  {
    if j < |changes| - 1 {
      LastWriteWins(writes, changes[..|changes| - 1], j);
    }
  }

  /** After a successful evaluation a slot holds the last value that it wrote there, and every other slot what it held. */
  lemma SuccessIsRead(i: Ideal, e: Evaluation, contract: Address, id: string)
    requires i.phase.Open? && id != "" && !e.reverted && e.result.Some? && e.changedStorage.Some?
    ensures var (i', response) := IdealStep(i, Apply(Some(e), contract, id));
      var changes := e.changedStorage.value;
      && response == Done && i'.phase.Open? && i'.table == i.table && i'.phase.height == i.phase.height
      && i'.phase.receipts == i.phase.receipts[ReceiptKey(contract, id) := e.result.value]
      && (forall j :: 0 <= j < |changes| && (forall k :: j < k < |changes| ==> changes[k].slot != changes[j].slot) ==>
            Content(i', changes[j].slot) == Some(changes[j].value))
      && (forall s :: (forall k :: 0 <= k < |changes| ==> changes[k].slot != s) ==> Content(i', s) == Content(i, s))
  {
    var i', changes := IdealStep(i, Apply(Some(e), contract, id)).0, e.changedStorage.value;
    forall j | 0 <= j < |changes| && (forall k :: j < k < |changes| ==> changes[k].slot != changes[j].slot)
      ensures Content(i', changes[j].slot) == Some(changes[j].value)
    {
      LastWriteWins(i.phase.writes, changes, j);
    }
    forall s | forall k :: 0 <= k < |changes| ==> changes[k].slot != s ensures Content(i', s) == Content(i, s) {
      Unnamed(i.phase.writes, changes, s);
    }
  }

  /** A missing, reverted or empty evaluation writes no storage and leaves a zero receipt; one without its storage throws. */
  lemma FailureIsNotRead(i: Ideal, evaluation: Option<Evaluation>, contract: Address, id: string)
    requires i.phase.Open?
    ensures var (i', response) := IdealStep(i, Apply(evaluation, contract, id));
      && i'.table == i.table && i'.phase.Open? && i'.phase.height == i.phase.height
      && (response == Thrown <==> id == "" || (evaluation.Some? && !evaluation.value.reverted && evaluation.value.result.Some?
                                               && evaluation.value.changedStorage.None?))
      && (response == Thrown ==> i' == i)
      && (id != "" && (evaluation.None? || evaluation.value.reverted || evaluation.value.result.None?) ==>
            response == Done && i'.phase.writes == i.phase.writes
            && i'.phase.receipts == i.phase.receipts[ReceiptKey(contract, id) := [0]])
  {
  }

  /** A slot that this block has written reads as its last value; any other as its greatest version below the block. */
  lemma ReadMeans(i: Ideal, s: Slot, v: nat, at: nat)
    requires i.phase.Open?
    ensures s in i.phase.writes ==> IdealStep(i, Read(s)).1 == Value(Some(i.phase.writes[s]))
    ensures s !in i.phase.writes && VersionKey(s, at) in i.table && i.table[VersionKey(s, at)] == v && 0 < at < i.phase.height
         && (forall k :: k in i.table && k.slot == s && k.lastSeenAt < i.phase.height ==> k.lastSeenAt <= at)
         ==> IdealStep(i, Read(s)).1 == Value(Some(v))
    ensures s !in i.phase.writes && (forall k :: k in i.table && k.slot == s ==> k.lastSeenAt >= i.phase.height)
         ==> IdealStep(i, Read(s)).1 == Value(None)
  {
    NewestIsGreatest(i.table, s, i.phase.height, None);
    NewestIsGreatest(i.table, s, i.phase.height, Some(Version(v, at)));
  }

  /** A preload answers for exactly the requested pointers, with zero where a slot holds nothing. */
  lemma PreloadMeans(i: Ideal, requests: map<Address, seq<Ref>>, a: Address, p: nat)
    requires i.phase.Open?
    ensures var response := IdealStep(i, Preload(requests)).1;
      && response.Loaded? && response.storage.Keys == requests.Keys
      && (a in requests ==> (p in response.storage[a] <==> exists r :: r in requests[a] && r.pointer == p))
      && (a in requests && p in response.storage[a] ==>
            response.storage[a][p] == match Content(i, Slot(a, p)) case Some(v) => v case None => 0)
  {
  }

  /** Without a checksum of 32 bytes, or of none, nothing happens; otherwise the receipts gain it and a version. */
  lemma SealMeans(i: Ideal, checksum: Result<seq<nat>>)
    requires i.phase.Open?
    ensures var (i', response) := IdealStep(i, Seal(checksum));
      && (response == Thrown <==> checksum.Failure? || (checksum.value != [] && |checksum.value| != 32))
      && (response == Thrown ==> i' == i)
      && (response != Thrown ==> response.Evaluated? && i'.phase == Sealed(i.phase.height))
      && (response != Thrown ==>
            response.states.receipts == i.phase.receipts[ChecksumLeaf := checksum.value][VersionLeaf := [1]])
  {
  }

  /** The state tree holds what the block wrote, and two dummy values when that is less than two. */
  lemma SealedState(i: Ideal, checksum: Result<seq<nat>>, s: Slot)
    requires i.phase.Open? && checksum.Success? && (checksum.value == [] || |checksum.value| == 32)
    ensures IdealStep(i, Seal(checksum)).1.Evaluated?
    ensures var storage := IdealStep(i, Seal(checksum)).1.states.storage;
      if s in i.phase.writes then s in storage && storage[s] == i.phase.writes[s]
      else s in storage <==> |i.phase.writes| < 2 && s.address == DUMMY_ADDRESS && 1 <= s.pointer <= 2
  {
    FrozenMeans(i.phase.writes, s);
  }

  lemma FrozenMeans(writes: map<Slot, nat>, s: Slot)
    ensures s in writes ==> s in Frozen(writes) && Frozen(writes)[s] == writes[s]
    ensures s !in writes ==> (s in Frozen(writes) <==> |writes| < 2 && s.address == DUMMY_ADDRESS && 1 <= s.pointer <= 2)
  {
    assert s.address == DUMMY_ADDRESS ==> s == Slot(DUMMY_ADDRESS, s.pointer);
  }

  /** The table gains one version per written slot at the block's height. */
  lemma SealedTable(i: Ideal, checksum: Result<seq<nat>>, k: VersionKey)
    requires i.phase.Open? && checksum.Success? && (checksum.value == [] || |checksum.value| == 32)
    ensures var t := IdealStep(i, Seal(checksum)).0.table;
      if k.lastSeenAt == i.phase.height && k.slot in i.phase.writes && k.slot.address != DUMMY_ADDRESS
      then k in t && t[k] == i.phase.writes[k.slot]
      else (k in t <==> k in i.table) && (k in t ==> t[k] == i.table[k])
  {
    var t, writes, h := i.table, i.phase.writes, i.phase.height;
    SealedTableIsCommit(i, checksum);
    assert k in KeysAt(writes, h) <==> k.lastSeenAt == h && k.slot in writes && k.slot.address != DUMMY_ADDRESS by {
      assert k == VersionKey(k.slot, k.lastSeenAt);
    }
  }

  /** A block starts with no writes, receipts or warm slots, and only when none is open; ending one keeps the table. */
  lemma BlockEndsMean(i: Ideal, height: nat)
    ensures IdealStep(i, Prepare(height))
      == if i.phase.Idle? then (Ideal(i.table, Open(height, map[], map[], {})), Done) else (i, Thrown)
    ensures IdealStep(i, Terminate) == IdealStep(i, Revert) == (Ideal(i.table, Idle), if i.phase.Idle? then Thrown else Done)
  {
  }

  /** What a sealed block's slots hold is what every later block reads. */
  lemma SealedIsRead(i: Ideal, checksum: Result<seq<nat>>, next: nat, s: Slot)
    requires i.phase.Open? && i.phase.height < next && s.address != DUMMY_ADDRESS
    requires forall k :: k in i.table ==> k.lastSeenAt < i.phase.height
    requires checksum.Success? && (checksum.value == [] || |checksum.value| == 32)
    ensures var i' := IdealStep(IdealStep(IdealStep(i, Seal(checksum)).0, Terminate).0, Prepare(next)).0;
      i'.phase == Open(next, map[], map[], {}) && Content(i', s) == Content(i, s)
  {
    var sealed' := IdealStep(i, Seal(checksum)).0;
    SealedTableIsCommit(i, checksum);
    BlockEndsMean(sealed', next);
    BlockEndsMean(Ideal(sealed'.table, Idle), next);
    NextRead(i.table, i.phase.writes, i.phase.height, next, s);
  }

  lemma SealedTableIsCommit(i: Ideal, checksum: Result<seq<nat>>)
    requires i.phase.Open? && checksum.Success? && (checksum.value == [] || |checksum.value| == 32)
    ensures IdealStep(i, Seal(checksum)).0 == Ideal(Commit(i.table, i.phase.writes, i.phase.height), Sealed(i.phase.height))
  {
  }

  // ----- the manager -----

  /** What is cached and not overwritten is the newest committed value. */
  ghost predicate CacheIsRight(t: Table, writes: map<Slot, nat>, cache: map<Slot, Option<nat>>, height: nat) {
    forall s :: s in cache && cache[s].Some? && s !in writes ==> NewestValue(t, s, height) == cache[s]
  }

  /** A cached null counts as unknown. */
  ghost function Cached(cache: map<Slot, Option<nat>>): set<Slot> {
    set s | s in cache && cache[s].Some?
  }

  class VMManager {
    var table: Table

    // VMBitcoinBlock
    var isPrepared: bool
    var blockId: nat

    var blockState: Option<map<Slot, nat>>
    var receiptState: Receipts
    var pointerCache: map<Slot, Option<nat>>

    ghost predicate Valid()
      reads this
    {
      && (blockState.Some? ==> isPrepared)
      && (!isPrepared ==> pointerCache == map[])
      && (blockState.Some? ==> CacheIsRight(table, blockState.value, pointerCache, blockId))
    }

    ghost function Abstract(): Ideal
      reads this
    {
      Ideal(table,
            if !isPrepared then Idle
            else if blockState.Some? then Open(blockId, blockState.value, receiptState, Cached(pointerCache))
            else Sealed(blockId))
    }

    constructor (t: Table)
      ensures Valid() && Abstract() == Ideal(t, Idle)
    {
      table := t;
      isPrepared, blockId := false, 0;
      blockState, receiptState, pointerCache := None, map[], map[];
    }

    method PrepareBlock(height: nat) returns (r: Result<()>)
      requires Valid()
      modifies this
      ensures Valid()
      ensures (Abstract(), if r.Success? then Done else Thrown) == IdealStep(old(Abstract()), Prepare(height))
    {
      if blockState.Some? {
        return Failure("already processing");
      }
      if isPrepared {
        return Failure("already prepared");
      }
      isPrepared, blockId := true, height;
      blockState, receiptState := Some(map[]), map[];
      assert Cached(pointerCache) == {};
      r := Success(());
    }

    /** `revertBlock` and `terminateBlock`: the block is reset, and everything is cleared even if that throws. */
    method FinishBlock() returns (r: Result<()>)
      requires Valid()
      modifies this
      ensures Valid()
      ensures (Abstract(), if r.Success? then Done else Thrown) == IdealStep(old(Abstract()), Terminate)
      ensures (Abstract(), if r.Success? then Done else Thrown) == IdealStep(old(Abstract()), Revert)
    {
      r := if isPrepared then Success(()) else Failure("not prepared");
      isPrepared, blockId := false, 0;
      blockState, receiptState, pointerCache := None, map[], map[];
    }

    method UpdateBlockValuesFromResult(evaluation: Option<Evaluation>, contract: Address, id: string) returns (r: Result<()>)
      requires Valid()
      modifies this
      ensures Valid()
      ensures (Abstract(), if r.Success? then Done else Thrown)
           == IdealStep(old(Abstract()), Apply(evaluation, contract, id))
    {
      if blockState.None? {
        return Failure("no block state");
      }
      if id == "" {
        return Failure("no transaction");
      }
      if Succeeded(evaluation) {
        if evaluation.value.changedStorage.None? {
          return Failure("no storage");
        }
        var state := UpdateValues(blockState.value, evaluation.value.changedStorage.value);
        blockState := Some(state);
        receiptState := receiptState[ReceiptKey(contract, id) := evaluation.value.result.value];
      } else {
        receiptState := receiptState[ReceiptKey(contract, id) := [0]];
      }
      r := Success(());
    }

    /** `StateMerkleTree.updateValues`: an unchanged non-zero value is skipped. */
    static method UpdateValues(state: map<Slot, nat>, changes: seq<Change>) returns (state': map<Slot, nat>)
      ensures state' == Override(state, changes)
      ensures state.Keys <= state'.Keys
    {
      state' := state;
      for i := 0 to |changes|
        invariant state' == Override(state, changes[..i])
        invariant state.Keys <= state'.Keys
      {
        var c := changes[i];
        assert changes[..i + 1][..i] == changes[..i];
        if !(c.slot in state' && state'[c.slot] != 0 && state'[c.slot] == c.value) {
          state' := state'[c.slot := c.value];
        }
      }
      assert changes[..|changes|] == changes;
    }

    /** Commits the block's writes and hands out the frozen trees.  Without the previous checksum nothing is written. */
    method UpdateEvaluatedStates(previousChecksum: Result<seq<nat>>) returns (r: Result<EvaluatedStates>)
      requires Valid()
      modifies this
      ensures Valid()
      ensures (Abstract(), if r.Success? then Evaluated(r.value) else Thrown) == IdealStep(old(Abstract()), Seal(previousChecksum))
    {
      if blockState.None? {
        return Failure("no block state");
      }
      if !GoodChecksum(previousChecksum) {
        return Failure("bad checksum");
      }
      assert isPrepared;
      var saved, states := SealBlock(table, blockState.value, receiptState, previousChecksum.value, blockId);
      table, blockState := saved, None;
      r := Success(states);
    }

    static method SealBlock(t: Table, writes: map<Slot, nat>, receipts: Receipts, checksum: seq<nat>, height: nat)
      returns (t': Table, states: EvaluatedStates)
      ensures t' == Commit(t, writes, height) && states == EvaluatedStates(Frozen(writes), WithChecksum(receipts, checksum))
    {
      var updated := UpdateReceiptState(receipts, checksum);
      var saved, frozen := SaveBlockStateChanges(t, writes, height);
      t', states := saved, EvaluatedStates(frozen, updated);
    }

    static method UpdateReceiptState(receipts: Receipts, checksum: seq<nat>) returns (updated: Receipts)
      ensures updated == WithChecksum(receipts, checksum)
    {
      updated := receipts[ChecksumLeaf := checksum];
      updated := updated[VersionLeaf := [1]];
    }

    /** Freezes the state tree and commits it; the commit filters the padding out again. */
    static method SaveBlockStateChanges(t: Table, writes: map<Slot, nat>, height: nat) returns (t': Table, frozen: map<Slot, nat>)
      ensures frozen == Frozen(writes) && t' == Commit(t, writes, height)
    {
      frozen := writes;
      if |writes| < 2 {
        var padding := map[Slot(DUMMY_ADDRESS, 1) := 1, Slot(DUMMY_ADDRESS, 2) := 2];
        CommitIgnoresDummies(t, padding, writes, height);
        frozen := padding + writes;
      }
      t' := SetStoragePointers(t, frozen, height);
    }

    /** Block state first, then the pointer cache; a cached null counts as unknown. */
    function GetFromInternalCache(s: Slot): Option<nat>
      reads this
    {
      if blockState.Some? && s in blockState.value then Some(blockState.value[s])
      else if s in pointerCache then pointerCache[s]
      else None
    }

    lemma CacheHit(s: Slot)
      requires Valid() && blockState.Some? && GetFromInternalCache(s).Some?
      ensures GetFromInternalCache(s) == Content(Abstract(), s)
    {
    }

    /** Throws exactly outside a block, and for a slot whose newest version is from height 0, unless this block has
        written the slot or already handed its value out. */
    method GetStorage(s: Slot) returns (r: Result<Option<nat>>)
      requires Valid()
      modifies this`pointerCache
      ensures Valid()
      ensures r.Failure? <==> blockState.None? || (old(Corrupt(Abstract(), s)) && old(GetFromInternalCache(s)).None?)
      ensures (Abstract(), if r.Success? then Value(r.value) else Thrown) == IdealStep(old(Abstract()), Read(s))
    {
      if blockState.None? {
        return Failure("no block state");
      }
      var known := GetFromInternalCache(s);
      if known.Some? {
        CacheHit(s);
        WarmAgain(Abstract(), if s in blockState.value then {} else {s});
        return Success(known);
      }
      var newest := Newest(table, s, blockId);
      if newest.Some? && newest.value.lastSeenAt == 0 {
        return Failure("corruption");
      }
      var value := NewestValue(table, s, blockId);
      CachedAdd(pointerCache, s, value);
      pointerCache := pointerCache[s := value];
      r := Success(value);
    }

    /** Hits carry what the block state or the cache says; what neither knows is missing. */
    ghost predicate SplitRight(address: Address, refs: seq<Ref>, entries: seq<Entry>, missing: seq<Ref>)
      reads this
    {
      && (forall e :: e in entries ==>
            e.ref in refs && e.value.Some? && e.value == GetFromInternalCache(Slot(address, e.ref.pointer)))
      && (forall r :: r in missing ==> r in refs && GetFromInternalCache(Slot(address, r.pointer)).None?)
      && (forall r :: r in refs ==>
            if GetFromInternalCache(Slot(address, r.pointer)).Some? then HasRef(entries, r) else r in missing)
    }

    /** The first pass of `getStorageMultiple`: block state and cache hits, and what is left for the database. */
    method SplitHits(address: Address, refs: seq<Ref>) returns (entries: seq<Entry>, missing: seq<Ref>)
      ensures SplitRight(address, refs, entries, missing)
    {
      entries, missing := [], [];
      for i := 0 to |refs|
        invariant SplitTo(address, refs, i, entries, missing)
      {
        var known := GetFromInternalCache(Slot(address, refs[i].pointer));
        if known.Some? {
          SplitHit(address, refs, i, entries, missing);
          entries := MapSet(entries, refs[i], known);
        } else {
          missing := missing + [refs[i]];
        }
      }
      SplitEnds(address, refs, entries, missing);
    }

    ghost predicate SplitTo(address: Address, refs: seq<Ref>, n: nat, entries: seq<Entry>, missing: seq<Ref>)
      requires n <= |refs|
      reads this
    {
      && (forall e :: e in entries ==>
            e.ref in refs && e.value.Some? && e.value == GetFromInternalCache(Slot(address, e.ref.pointer)))
      && (forall r :: r in missing ==> r in refs && GetFromInternalCache(Slot(address, r.pointer)).None?)
      && (forall k :: 0 <= k < n ==>
            if GetFromInternalCache(Slot(address, refs[k].pointer)).Some? then HasRef(entries, refs[k]) else refs[k] in missing)
    }

    lemma SplitHit(address: Address, refs: seq<Ref>, n: nat, entries: seq<Entry>, missing: seq<Ref>)
      requires n < |refs| && SplitTo(address, refs, n, entries, missing)
      requires GetFromInternalCache(Slot(address, refs[n].pointer)).Some?
      ensures var known := GetFromInternalCache(Slot(address, refs[n].pointer));
        SplitTo(address, refs, n + 1, MapSet(entries, refs[n], known), missing)
    {
      KeepsRefs(entries, refs[n], GetFromInternalCache(Slot(address, refs[n].pointer)));
    }

    lemma SplitEnds(address: Address, refs: seq<Ref>, entries: seq<Entry>, missing: seq<Ref>)
      requires SplitTo(address, refs, |refs|, entries, missing)
      ensures SplitRight(address, refs, entries, missing)
    {
      forall r | r in refs
        ensures if GetFromInternalCache(Slot(address, r.pointer)).Some? then HasRef(entries, r) else r in missing
      {
        var k :| 0 <= k < |refs| && refs[k] == r;
      }
    }

    /** Hits and database entries of one contract together: only requested pointers, only right values, the right one
        last. */
    method MergeOne(address: Address, refs: seq<Ref>, hits: seq<Entry>, missing: seq<Ref>, fetched: seq<Entry>) returns (entries: seq<Entry>)
      requires Valid() && blockState.Some? && (forall r :: r in refs ==> r.Requested?)
      requires SplitRight(address, refs, hits, missing) && FetchedRight(table, address, missing, blockId, fetched)
      ensures RightEntries(Abstract(), address, refs, entries)
    {
      forall a, b | a in hits && b in fetched ensures a.ref != b.ref {
        assert b.ref in missing ==> GetFromInternalCache(Slot(address, b.ref.pointer)).None?;
      }
      entries := Merge(hits, fetched);
      forall p | p in PointersOf(refs) ensures LastValue(entries, p) == Some(Content(Abstract(), Slot(address, p))) {
        LastAppend(hits, fetched, p);
        var ref :| ref in refs && ref.pointer == p;
        if GetFromInternalCache(Slot(address, p)).Some? {
          CacheHit(Slot(address, p));
          LastNone(fetched, p);
          var k :| 0 <= k < |hits| && hits[k].ref == ref;
          assert hits[k] in hits;
          LastOf(hits, p, GetFromInternalCache(Slot(address, p)));
        }
      }
      forall e | e in entries && e.value.Some? ensures e.value == Content(Abstract(), Slot(address, e.ref.pointer)) {
        if e in hits {
          CacheHit(Slot(address, e.ref.pointer));
        }
      }
    }

    /** `getStorageMultiple` over any number of contracts. */
    method GetStorageMultiple(requests: map<Address, seq<Ref>>) returns (r: Result<map<Address, seq<Entry>>>)
      requires Valid() && AllRequested(requests)
      modifies this`pointerCache
      ensures Valid() && (r.Success? <==> blockState.Some?)
      ensures Abstract() == IdealStep(old(Abstract()), Preload(requests)).0
      ensures r.Success? ==> AllRight(old(Abstract()), requests, r.value, requests.Keys)
    {
      if blockState.None? {
        return Failure("no block state");
      }
      var pointersResult := LoadAll(requests);
      FinalizeAll(Abstract(), requests, pointersResult);
      r := Success(pointersResult);
    }

    method LoadAll(requests: map<Address, seq<Ref>>) returns (result: map<Address, seq<Entry>>)
      requires Valid() && blockState.Some? && AllRequested(requests)
      ensures AllRight(Abstract(), requests, result, requests.Keys)
    {
      var hits, missing := SplitAll(requests);
      MissingAreRequested(requests, hits, missing);
      var fetched := GetByContractsAndPointers(table, missing, blockId);
      result := map[];
      var rest := requests.Keys;
      ghost var done: set<Address> := {};
      while rest != {}
        invariant done <= requests.Keys && rest == requests.Keys - done
        invariant AllRight(Abstract(), requests, result, done)
        decreases |rest|
      {
        var a :| a in rest;
        var entries := MergeOne(a, requests[a], hits[a], missing[a], fetched[a]);
        Visit(requests.Keys, rest, done, a);
        OneMoreRight(Abstract(), requests, result, done, a, entries);
        result := result[a := entries];
        rest, done := rest - {a}, done + {a};
      }
      AllVisited(requests.Keys, done);
    }

    ghost predicate AllSplit(requests: map<Address, seq<Ref>>, hits: map<Address, seq<Entry>>, missing: map<Address, seq<Ref>>, done: set<Address>)
      reads this
    {
      && hits.Keys == missing.Keys == done
      && forall a :: a in requests && a in done ==> SplitRight(a, requests[a], hits[a], missing[a])
    }

    method SplitAll(requests: map<Address, seq<Ref>>) returns (hits: map<Address, seq<Entry>>, missing: map<Address, seq<Ref>>)
      ensures AllSplit(requests, hits, missing, requests.Keys)
    {
      hits, missing := map[], map[];
      var rest := requests.Keys;
      ghost var done: set<Address> := {};
      while rest != {}
        invariant done <= requests.Keys && rest == requests.Keys - done
        invariant AllSplit(requests, hits, missing, done)
        decreases |rest|
      {
        var a :| a in rest;
        var entries, refs := SplitHits(a, requests[a]);
        Visit(requests.Keys, rest, done, a);
        OneMoreSplit(requests, hits, missing, done, a, entries, refs);
        hits, missing := hits[a := entries], missing[a := refs];
        rest, done := rest - {a}, done + {a};
      }
      AllVisited(requests.Keys, done);
    }

    lemma OneMoreSplit(requests: map<Address, seq<Ref>>, hits: map<Address, seq<Entry>>, missing: map<Address, seq<Ref>>,
                       done: set<Address>, a: Address, entries: seq<Entry>, refs: seq<Ref>)
      requires AllSplit(requests, hits, missing, done) && a in requests && SplitRight(a, requests[a], entries, refs)
      ensures AllSplit(requests, hits[a := entries], missing[a := refs], done + {a})
    {
    }

    lemma MissingAreRequested(requests: map<Address, seq<Ref>>, hits: map<Address, seq<Entry>>, missing: map<Address, seq<Ref>>)
      requires AllSplit(requests, hits, missing, requests.Keys) && AllRequested(requests)
      ensures AllRequested(missing)
    {
      forall a, r | a in missing && r in missing[a] ensures r.Requested? {
        assert SplitRight(a, requests[a], hits[a], missing[a]);
      }
    }

    /** The last pass: every found value goes to the cache. */
    method FinalizeAll(ghost i: Ideal, requests: map<Address, seq<Ref>>, result: map<Address, seq<Entry>>)
      requires Valid() && blockState.Some? && i == Abstract() && AllRight(i, requests, result, requests.Keys)
      modifies this`pointerCache
      ensures Valid() && Abstract() == Warm(i, FoundAll(i, requests, requests.Keys))
    {
      var rest := requests.Keys;
      ghost var done: set<Address> := {};
      assert FoundAll(i, requests, {}) == {};
      while rest != {}
        invariant Valid() && done <= requests.Keys && rest == requests.Keys - done
        invariant Cached(pointerCache) == i.phase.warm + FoundAll(i, requests, done)
        decreases |rest|
      {
        var a :| a in rest;
        FinalizeOne(i, requests, result, done, a);
        Visit(requests.Keys, rest, done, a);
        rest, done := rest - {a}, done + {a};
      }
      AllVisited(requests.Keys, done);
    }

    method FinalizeOne(ghost i: Ideal, requests: map<Address, seq<Ref>>, result: map<Address, seq<Entry>>, ghost done: set<Address>, a: Address)
      requires Valid() && blockState.Some? && AllRight(i, requests, result, requests.Keys) && a in requests && done <= requests.Keys
      requires i.table == table && i.phase.Open? && i.phase.height == blockId && i.phase.writes == blockState.value
      requires Cached(pointerCache) == i.phase.warm + FoundAll(i, requests, done)
      modifies this`pointerCache
      ensures Valid() && Cached(pointerCache) == i.phase.warm + FoundAll(i, requests, done + {a})
    {
      EntriesAreValues(i, a, requests[a], result[a], table, blockId);
      FoundInEntries(i, a, requests[a], result[a]);
      FoundAllAdd(i, requests, done, a);
      CacheAll(a, result[a]);
    }

    static method Merge(hits: seq<Entry>, fetched: seq<Entry>) returns (entries: seq<Entry>)
      requires DistinctRefs(fetched)
      requires forall a, b :: a in hits && b in fetched ==> a.ref != b.ref
      ensures entries == hits + fetched
    {
      entries := hits;
      for i := 0 to |fetched|
        invariant entries == hits + fetched[..i]
      {
        assert !HasRef(entries, fetched[i].ref);
        entries := MapSet(entries, fetched[i].ref, fetched[i].value);
      }
    }

    /** `finalizeProvenMemoryValue` for every entry: found values go to the cache, nulls do not. */
    method CacheAll(address: Address, entries: seq<Entry>)
      requires Valid() && blockState.Some?
      requires forall e :: e in entries && e.value.Some? ==>
          var s := Slot(address, e.ref.pointer);
          s in blockState.value || e.value == NewestValue(table, s, blockId)
      modifies this`pointerCache
      ensures Valid() && Cached(pointerCache) == old(Cached(pointerCache)) + ValueSlots(address, entries)
    {
      for i := 0 to |entries|
        invariant Valid() && Cached(pointerCache) == old(Cached(pointerCache)) + ValueSlots(address, entries[..i])
      {
        assert entries[..i + 1] == entries[..i] + [entries[i]];
        if entries[i].value.Some? {
          CachedAdd(pointerCache, Slot(address, entries[i].ref.pointer), entries[i].value);
          pointerCache := pointerCache[Slot(address, entries[i].ref.pointer) := entries[i].value];
        }
      }
      assert entries[..|entries|] == entries;
    }
  }

  lemma CachedAdd(cache: map<Slot, Option<nat>>, s: Slot, v: Option<nat>)
    requires v.Some? || s !in Cached(cache)
    ensures Cached(cache[s := v]) == Cached(cache) + if v.Some? then {s} else {}
  {
  }

  ghost function ValueSlots(address: Address, entries: seq<Entry>): set<Slot> {
    set e | e in entries && e.value.Some? :: Slot(address, e.ref.pointer)
  }

  /** Only requested pointers, only right values, and the last entry per pointer says what the slot holds. */
  ghost predicate RightEntries(i: Ideal, address: Address, refs: seq<Ref>, entries: seq<Entry>) {
    && i.phase.Open?
    && (forall e :: e in entries ==> e.ref.pointer in PointersOf(refs))
    && (forall e :: e in entries && e.value.Some? ==> e.value == Content(i, Slot(address, e.ref.pointer)))
    && (forall p :: p in PointersOf(refs) ==> LastValue(entries, p) == Some(Content(i, Slot(address, p))))
  }

  ghost predicate AllRight(i: Ideal, requests: map<Address, seq<Ref>>, result: map<Address, seq<Entry>>, done: set<Address>) {
    && result.Keys == done
    && forall a :: a in requests && a in done ==> RightEntries(i, a, requests[a], result[a])
  }

  lemma OneMoreRight(i: Ideal, requests: map<Address, seq<Ref>>, result: map<Address, seq<Entry>>, done: set<Address>, a: Address, entries: seq<Entry>)
    requires AllRight(i, requests, result, done) && a in requests && RightEntries(i, a, requests[a], entries)
    ensures AllRight(i, requests, result[a := entries], done + {a})
  {
  }

  lemma EntriesAreValues(i: Ideal, address: Address, refs: seq<Ref>, entries: seq<Entry>, table: Table, height: nat)
    requires RightEntries(i, address, refs, entries) && i.table == table && i.phase.height == height
    ensures forall e :: e in entries && e.value.Some? ==>
      var s := Slot(address, e.ref.pointer); s in i.phase.writes || e.value == NewestValue(table, s, height)
  {
    forall e | e in entries && e.value.Some?
      ensures Slot(address, e.ref.pointer) in i.phase.writes || e.value == NewestValue(table, Slot(address, e.ref.pointer), height)
    {
    }
  }

  lemma FoundInEntries(i: Ideal, address: Address, refs: seq<Ref>, entries: seq<Entry>)
    requires RightEntries(i, address, refs, entries)
    ensures ValueSlots(address, entries) == Found(i, address, refs)
  {
    forall p | p in PointersOf(refs) && Content(i, Slot(address, p)).Some? ensures Slot(address, p) in ValueSlots(address, entries) {
      LastIsEntry(entries, p);
    }
  }

  lemma {:induction false} LastIsEntry(m: seq<Entry>, p: nat)
    ensures LastValue(m, p).Some? ==> exists e :: e in m && e.ref.pointer == p && e.value == LastValue(m, p).value
  {
    if m != [] && m[|m| - 1].ref.pointer != p {
      LastIsEntry(m[..|m| - 1], p);
    } else if m != [] {
      assert m[|m| - 1] in m;
    }
  }

  lemma FoundAllAdd(i: Ideal, requests: map<Address, seq<Ref>>, done: set<Address>, a: Address)
    requires i.phase.Open? && done <= requests.Keys && a in requests
    ensures FoundAll(i, requests, done + {a}) == FoundAll(i, requests, done) + Found(i, a, requests[a])
  {
  }

  /** `ContractEvaluation.preloadedStorage`: copies the entries in order, by content, nulls as zero. */
  method PreloadedStorage(entries: seq<Entry>) returns (storage: map<nat, nat>)
    ensures forall p :: p in storage <==> LastValue(entries, p).Some?
    ensures forall p :: p in storage ==> storage[p] == OrZero(LastValue(entries, p).value)
  {
    storage := map[];
    for i := 0 to |entries|
      invariant forall p :: p in storage <==> LastValue(entries[..i], p).Some?
      invariant forall p :: p in storage ==> storage[p] == OrZero(LastValue(entries[..i], p).value)
    {
      assert entries[..i + 1][..i] == entries[..i];
      storage := storage[entries[i].ref.pointer := OrZero(entries[i].value)];
    }
    assert entries[..|entries|] == entries;
  }

  /** `preloadedStorage` for every contract. */
  method PreloadAll(ghost i: Ideal, requests: map<Address, seq<Ref>>, result: map<Address, seq<Entry>>) returns (storage: map<Address, map<nat, nat>>)
    requires i.phase.Open? && AllRight(i, requests, result, requests.Keys)
    ensures storage == PreloadedAll(i, requests)
  {
    storage := map[];
    var rest := requests.Keys;
    ghost var done: set<Address> := {};
    while rest != {}
      invariant done <= requests.Keys && rest == requests.Keys - done
      invariant storage == PreloadedSome(i, requests, done)
      decreases |rest|
    {
      var a :| a in rest;
      var one := PreloadedStorage(result[a]);
      PreloadedIsIdeal(i, a, requests[a], result[a], one);
      PreloadedAdd(i, requests, done, a);
      Visit(requests.Keys, rest, done, a);
      storage := storage[a := one];
      rest, done := rest - {a}, done + {a};
    }
    AllVisited(requests.Keys, done);
  }

  ghost function PreloadedSome(i: Ideal, requests: map<Address, seq<Ref>>, done: set<Address>): map<Address, map<nat, nat>>
    requires i.phase.Open? && done <= requests.Keys
  {
    map a | a in done :: Preloaded(i, a, requests[a])
  }

  lemma PreloadedAdd(i: Ideal, requests: map<Address, seq<Ref>>, done: set<Address>, a: Address)
    requires i.phase.Open? && done <= requests.Keys && a in requests
    ensures PreloadedSome(i, requests, done + {a}) == PreloadedSome(i, requests, done)[a := Preloaded(i, a, requests[a])]
  {
  }

  lemma PreloadedIsIdeal(i: Ideal, a: Address, refs: seq<Ref>, entries: seq<Entry>, storage: map<nat, nat>)
    requires RightEntries(i, a, refs, entries)
    requires forall p :: p in storage <==> LastValue(entries, p).Some?
    requires forall p :: p in storage ==> storage[p] == OrZero(LastValue(entries, p).value)
    ensures storage == Preloaded(i, a, refs)
  {
    var ideal := Preloaded(i, a, refs);
    forall p: nat ensures p in storage <==> p in ideal
             ensures p in storage ==> storage[p] == ideal[p]
    {
      if p !in PointersOf(refs) {
        LastNone(entries, p);
      }
    }
  }

  // ----- whole runs -----

  /** The ideal answers to the first `n` events. */
  ghost function IdealAnswers(i: Ideal, events: seq<Event>, n: nat): seq<Response>
    requires n <= |events|
  {
    if n == 0 then [] else IdealAnswers(i, events, n - 1) + [IdealStep(IdealRun(i, events, n - 1), events[n - 1]).1]
  }

  /** Every run, from any committed table: whatever the cache and the batching did, each answer is the one the
      ideal service gives at that point, and the final table is the ideal one. */
  method Simulate(t: Table, events: seq<Event>) returns (t': Table, responses: seq<Response>)
    requires forall e :: e in events && e.Preload? ==> AllRequested(e.requests)
    ensures t' == IdealRun(Ideal(t, Idle), events, |events|).table
    ensures responses == IdealAnswers(Ideal(t, Idle), events, |events|)
  {
    var vm := new VMManager(t);
    responses := [];
    for n := 0 to |events|
      invariant fresh(vm) && vm.Valid()
      invariant vm.Abstract() == IdealRun(Ideal(t, Idle), events, n)
      invariant responses == IdealAnswers(Ideal(t, Idle), events, n)
    {
      var response := Handle(vm, events[n]);
      responses := responses + [response];
    }
    t' := vm.table;
  }

  method Handle(vm: VMManager, e: Event) returns (response: Response)
    requires vm.Valid() && (e.Preload? ==> AllRequested(e.requests))
    modifies vm
    ensures vm.Valid()
    ensures (vm.Abstract(), response) == IdealStep(old(vm.Abstract()), e)
  {
    ghost var before := vm.Abstract();
    var r: Result<()>;
    match e {
    case Prepare(h) => r := vm.PrepareBlock(h);
    case Apply(evaluation, contract, id) => r := vm.UpdateBlockValuesFromResult(evaluation, contract, id);
    case Read(s) =>
      var v := vm.GetStorage(s);
      return if v.Success? then Value(v.value) else Thrown;
    case Preload(requests) =>
      var entries := vm.GetStorageMultiple(requests);
      if entries.Failure? {
        return Thrown;
      }
      var storage := PreloadAll(before, requests, entries.value);
      return Loaded(storage);
    case Seal(checksum) =>
      var states := vm.UpdateEvaluatedStates(checksum);
      return if states.Success? then Evaluated(states.value) else Thrown;
    case Terminate => r := vm.FinishBlock();
    case Revert => r := vm.FinishBlock();
    }
    response := if r.Success? then Done else Thrown;
  }

  // ----- the one difference between single and grouped reads -----

  /** A committed value of height 0: the single read throws, the grouped read returns it, and after the grouped read
      the single read returns it too. */
  method GenesisRead(a: Address, p: nat, value: nat, height: nat) returns (responses: seq<Response>)
    requires height > 0
    ensures responses == [Done, Thrown, Loaded(map[a := map[p := value]]), Value(Some(value))]
  {
    var s, requests := Slot(a, p), map[a := [Requested(0, p)]];
    var vm := new VMManager(map[VersionKey(s, 0) := value]);
    GenesisThrows(a, p, value, height);
    GenesisLoads(a, p, value, height);
    var prepared := Handle(vm, Prepare(height));
    var first := Handle(vm, Read(s));
    var grouped := Handle(vm, Preload(requests));
    var second := Handle(vm, Read(s));
    responses := [prepared, first, grouped, second];
  }

  /** A block of this height above a single committed version of height 0. */
  ghost function Genesis(s: Slot, value: nat, height: nat, warm: set<Slot>): Ideal {
    Ideal(map[VersionKey(s, 0) := value], Open(height, map[], map[], warm))
  }

  lemma GenesisContent(s: Slot, value: nat, height: nat, warm: set<Slot>)
    requires height > 0
    ensures var i := Genesis(s, value, height, warm); Content(i, s) == Some(value) && Corrupt(i, s)
  {
    var t: Table := map[VersionKey(s, 0) := value];
    NewestIsGreatest(t, s, height, Some(Version(value, 0)));
  }

  lemma GenesisThrows(a: Address, p: nat, value: nat, height: nat)
    requires height > 0
    ensures var s := Slot(a, p);
      && IdealStep(Genesis(s, value, height, {}), Read(s)) == (Genesis(s, value, height, {}), Thrown)
      && IdealStep(Genesis(s, value, height, {s}), Read(s)) == (Genesis(s, value, height, {s}), Value(Some(value)))
  {
    var s := Slot(a, p);
    GenesisContent(s, value, height, {});
    GenesisContent(s, value, height, {s});
    WarmAgain(Genesis(s, value, height, {s}), {s});
  }

  lemma GenesisLoads(a: Address, p: nat, value: nat, height: nat)
    requires height > 0
    ensures var s := Slot(a, p);
      IdealStep(Genesis(s, value, height, {}), Preload(map[a := [Requested(0, p)]]))
      == (Genesis(s, value, height, {s}), Loaded(map[a := map[p := value]]))
  {
    var s, refs := Slot(a, p), [Requested(0, p)];
    var i, requests := Genesis(s, value, height, {}), map[a := refs];
    GenesisFinds(i, a, p, value, height);
    OneContract(i, a, refs);
    assert requests.Keys == {a};
    assert PreloadedAll(i, requests) == map[a := map[p := value]];
    assert i.phase.warm + {s} == {s};
  }

  lemma GenesisFinds(i: Ideal, a: Address, p: nat, value: nat, height: nat)
    requires height > 0 && i == Genesis(Slot(a, p), value, height, {})
    ensures Preloaded(i, a, [Requested(0, p)]) == map[p := value] && Found(i, a, [Requested(0, p)]) == {Slot(a, p)}
  {
    GenesisContent(Slot(a, p), value, height, {});
    OnePointer(p);
  }

  lemma OnePointer(p: nat)
    ensures PointersOf([Requested(0, p)]) == {p}
  {
    var refs := [Requested(0, p)];
    assert refs[0] in refs;
  }

  lemma OneContract(i: Ideal, a: Address, refs: seq<Ref>)
    requires i.phase.Open?
    ensures FoundAll(i, map[a := refs], {a}) == Found(i, a, refs)
  {
    var requests := map[a := refs];
    FoundAllAdd(i, requests, {}, a);
    assert FoundAll(i, requests, {}) == {} && {} + {a} == {a};
  }
}
