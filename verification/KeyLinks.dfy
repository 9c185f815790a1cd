/** ML-DSA key linking: the pending maps of `VMManager` and `MLDSAPublicKeyRepository`.  Three in-memory
    indexes and a collection together keep a one-to-one link between ML-DSA key hashes and legacy keys. */
module KeyLinks {
  import opened Common

  type Hash = string
  type Legacy = string
  type Tweaked = string

  /** `IMLDSAPublicKey`. */
  datatype KeyData = KeyData(level: nat, hashed: Hash, legacy: Legacy, tweaked: Tweaked,
                             publicKey: Option<string>, inserted: nat, exposed: Option<nat>)

  datatype Update = Update(expose: bool, data: KeyData)

  /** A document; the unique index on `hashedPublicKey` makes the hash its key. */
  datatype Doc = Doc(level: nat, legacy: Legacy, tweaked: Tweaked, publicKey: Option<string>, inserted: nat, exposed: Option<nat>)

  type KeyTable = map<Hash, Doc>

  // ----- the collection -----

  predicate LegacyUsed(t: KeyTable, legacy: Legacy) {
    exists h :: h in t && t[h].legacy == legacy
  }

  /** The unique index on `legacyPublicKey`. */
  ghost predicate OneToOne(t: KeyTable) {
    forall a, b :: a in t && b in t && t[a].legacy == t[b].legacy ==> a == b
  }

  /** Links are one-to-one and stored under their own tweaked key. */
  ghost predicate WellFormed(t: KeyTable, tweak: Legacy -> Tweaked) {
    OneToOne(t) && forall h :: h in t ==> t[h].tweaked == tweak(t[h].legacy)
  }

  /** Every exposed key carries the height of its exposure. */
  ghost predicate Dated(t: KeyTable) {
    forall h :: h in t && t[h].publicKey.Some? ==> t[h].exposed.Some?
  }

  /** `toDocument` stores a height of 0 as null. */
  function Stamp(height: Option<nat>): Option<nat> {
    if height == Some(0) then None else height
  }

  function ToDocument(d: KeyData): Doc {
    Doc(d.level, d.legacy, d.tweaked, d.publicKey, d.inserted, Stamp(d.exposed))
  }

  /** The document an update leaves behind: an exposure of a known link only adds the key. */
  function Applied(t: KeyTable, u: Update): Doc {
    if u.expose && u.data.hashed in t
    then t[u.data.hashed].(publicKey := u.data.publicKey, exposed := Stamp(u.data.exposed))
    else ToDocument(u.data)
  }

  predicate InRange(h: nat, from: nat, to: Option<nat>) {
    from <= h && (to.Some? ==> h < to.value)
  }

  /** Exposures in the range are nulled first, then links inserted in the range go.  `None` is no upper end. */
  function Rollback(t: KeyTable, from: nat, to: Option<nat>): KeyTable {
    map h | h in t && !InRange(t[h].inserted, from, to) ::
      if t[h].exposed.Some? && InRange(t[h].exposed.value, from, to)
      then t[h].(publicKey := None, exposed := None) else t[h]
  }

  ghost predicate Before(t: KeyTable, h: nat) {
    forall k :: k in t ==> t[k].inserted < h && (t[k].exposed.Some? ==> t[k].exposed.value < h)
  }

  method InsertOne(t: KeyTable, d: KeyData) returns (r: Result<KeyTable>)
    ensures r.Success? <==> d.hashed !in t && !LegacyUsed(t, d.legacy)
    ensures r.Success? ==> r.value == t[d.hashed := ToDocument(d)]
  {
    if d.hashed in t || LegacyUsed(t, d.legacy) {
      return Failure("duplicate key");
    }
    r := Success(t[d.hashed := ToDocument(d)]);
  }

  /** `updateOne` with upsert on hash, legacy and tweaked key: updates that link, or inserts it unless a unique index
      forbids it. */
  method UpsertExposure(t: KeyTable, d: KeyData) returns (r: Result<KeyTable>)
    ensures r.Failure? <==> |d.legacy| != 33 || (!Matches(t, d) && (d.hashed in t || LegacyUsed(t, d.legacy)))
    ensures r.Success? ==> r.value == t[d.hashed := Applied(t, Update(true, d))]
    ensures r.Failure?
      <==> || |d.legacy| != 33
           || (d.hashed in t && (t[d.hashed].legacy != d.legacy || t[d.hashed].tweaked != d.tweaked))
           || (d.hashed !in t && exists h :: h in t && t[h].legacy == d.legacy)
    ensures r.Success? ==> d.hashed in r.value && r.value[d.hashed].publicKey == d.publicKey
  {
    if |d.legacy| != 33 {
      return Failure("bad length");
    }
    if Matches(t, d) {
      return Success(t[d.hashed := t[d.hashed].(publicKey := d.publicKey, exposed := Stamp(d.exposed))]);
    }
    r := InsertOne(t, d);
  }

  predicate Matches(t: KeyTable, d: KeyData) {
    d.hashed in t && t[d.hashed].legacy == d.legacy && t[d.hashed].tweaked == d.tweaked
  }

  // ----- lookups -----

  /** The query matches the key as hash, legacy key or tweaked key, among links no newer than the height. */
  predicate MatchesKey(t: KeyTable, height: nat, key: string, h: Hash) {
    h in t && t[h].inserted <= height && (h == key || t[h].legacy == key || t[h].tweaked == key)
  }

  function Parsed(h: Hash, d: Doc): KeyData {
    KeyData(d.level, h, d.legacy, d.tweaked, d.publicKey, d.inserted, d.exposed)
  }

  /** Any matching link, or nothing when there is none. */
  ghost predicate IsAnswer(t: KeyTable, height: nat, key: string, r: Option<KeyData>) {
    match r
    case None => forall h :: !MatchesKey(t, height, key, h)
    case Some(d) => MatchesKey(t, height, key, d.hashed) && d == Parsed(d.hashed, t[d.hashed])
  }

  ghost predicate CacheIsRight(t: KeyTable, height: nat, cache: map<string, Option<KeyData>>) {
    forall key :: key in cache ==> IsAnswer(t, height, key, cache[key])
  }

  /** `getByHashedOrLegacy`. */
  method QueryKey(t: KeyTable, height: nat, key: string) returns (r: Option<KeyData>)
    ensures IsAnswer(t, height, key, r)
  {
    var matches := set h | h in t && MatchesKey(t, height, key, h);
    if matches == {} {
      forall h ensures !MatchesKey(t, height, key, h) {
        assert h !in matches;
      }
      return None;
    }
    var h :| h in matches;
    r := Some(Parsed(h, t[h]));
  }

  /** For a tweaked key that is nobody's hash or legacy key, the answer is the link of a legacy key that tweaks to it, and
      the only one if no other legacy key does. */
  lemma AnswerBelongsToKey(tweak: Legacy -> Tweaked, t: KeyTable, height: nat, key: Tweaked, r: Option<KeyData>)
    requires WellFormed(t, tweak) && IsAnswer(t, height, key, r) && r.Some?
    requires forall h :: h in t ==> h != key && t[h].legacy != key
    ensures tweak(r.value.legacy) == key
    ensures (forall a, b: Legacy :: tweak(a) == tweak(b) ==> a == b) ==>
      forall r' :: IsAnswer(t, height, key, r') ==> r' == r
  {
    if forall a, b: Legacy :: tweak(a) == tweak(b) ==> a == b {
      assert MatchesKey(t, height, key, r.value.hashed);
      forall r' | IsAnswer(t, height, key, r') ensures r' == r {
        assert r'.Some? && tweak(r'.value.legacy) == tweak(r.value.legacy);
        assert t[r'.value.hashed].legacy == t[r.value.hashed].legacy;
      }
    }
  }

  // ----- the pending side -----

  /** What the block sees: the collection with every pending update applied. */
  ghost function ViewOf(t: KeyTable, store: map<Hash, Update>): KeyTable {
    t + map h | h in store :: Applied(t, store[h])
  }

  /** The three pending indexes describe one set of pairs. */
  ghost predicate IndexesAgree(tweak: Legacy -> Tweaked, store: map<Hash, Update>, byTweak: map<Tweaked, Hash>, byHash: map<Hash, Legacy>) {
    && store.Keys == byHash.Keys
    && (forall h :: h in store ==> Indexed(tweak, store[h].data, h, byTweak) && byHash[h] == store[h].data.legacy)
    && (forall t :: t in byTweak ==> byTweak[t] in store && tweak(store[byTweak[t]].data.legacy) == t)
  }

  ghost predicate Indexed(tweak: Legacy -> Tweaked, d: KeyData, h: Hash, byTweak: map<Tweaked, Hash>) {
    d.hashed == h && tweak(d.legacy) in byTweak && byTweak[tweak(d.legacy)] == h
  }

  ghost predicate Storable(tweak: Legacy -> Tweaked, t: KeyTable, u: Update) {
    var d := u.data;
    && |d.legacy| == 33 && d.tweaked == tweak(d.legacy)
    && (d.hashed in t ==> u.expose && t[d.hashed].legacy == d.legacy && t[d.hashed].exposed.None?)
  }

  /** Linking this pair would give the hash or the legacy key a second partner. */
  ghost predicate ConflictsWith(view: KeyTable, d: KeyData) {
    || (d.hashed in view && view[d.hashed].legacy != d.legacy)
    || (exists h :: h in view && h != d.hashed && view[h].legacy == d.legacy)
  }

  /** The invariant of the pending side: agreeing indexes, and one-to-one links across collection and indexes. */
  ghost predicate Consistent(tweak: Legacy -> Tweaked, t: KeyTable, store: map<Hash, Update>,
                             byTweak: map<Tweaked, Hash>, byHash: map<Hash, Legacy>)
  {
    && WellFormed(t, tweak)
    && IndexesAgree(tweak, store, byTweak, byHash)
    && OneToOne(ViewOf(t, store))
    && forall h :: h in store ==> Storable(tweak, t, store[h])
  }

  lemma ConsistentEmpty(tweak: Legacy -> Tweaked, t: KeyTable)
    requires WellFormed(t, tweak)
    ensures ViewOf(t, map[]) == t
    ensures Consistent(tweak, t, map[], map[], map[])
  {
    assert ViewOf(t, map[]) == t;
  }

  lemma ConsistentAdd(tweak: Legacy -> Tweaked, t: KeyTable, store: map<Hash, Update>,
                      byTweak: map<Tweaked, Hash>, byHash: map<Hash, Legacy>, u: Update)
    requires Consistent(tweak, t, store, byTweak, byHash)
    requires Storable(tweak, t, u)
    requires u.data.hashed !in store && tweak(u.data.legacy) !in byTweak
    requires !ConflictsWith(ViewOf(t, store), u.data)
    ensures Consistent(tweak, t, store[u.data.hashed := u], byTweak[tweak(u.data.legacy) := u.data.hashed],
                       byHash[u.data.hashed := u.data.legacy])
  {
    ViewAdd(t, store, u.data.hashed, u);
    OneToOneAdd(ViewOf(t, store), u.data, Applied(t, u));
    IndexesAdd(tweak, store, byTweak, byHash, u);
  }

  lemma ViewAdd(t: KeyTable, store: map<Hash, Update>, h: Hash, u: Update)
    ensures ViewOf(t, store[h := u]) == ViewOf(t, store)[h := Applied(t, u)]
  {
  }

  lemma OneToOneAdd(view: KeyTable, d: KeyData, doc: Doc)
    requires OneToOne(view) && !ConflictsWith(view, d) && doc.legacy == d.legacy
    ensures OneToOne(view[d.hashed := doc])
  {
  }

  lemma IndexesAdd(tweak: Legacy -> Tweaked, store: map<Hash, Update>, byTweak: map<Tweaked, Hash>, byHash: map<Hash, Legacy>, u: Update)
    requires IndexesAgree(tweak, store, byTweak, byHash)
    requires u.data.hashed !in store && tweak(u.data.legacy) !in byTweak
    ensures IndexesAgree(tweak, store[u.data.hashed := u], byTweak[tweak(u.data.legacy) := u.data.hashed],
                         byHash[u.data.hashed := u.data.legacy])
  {
  }

  ghost function WithSome(t: KeyTable, store: map<Hash, Update>, done: set<Hash>): KeyTable
    requires done <= store.Keys
  {
    t + map h | h in done :: Applied(t, store[h])
  }

  lemma SomeAdd(t: KeyTable, store: map<Hash, Update>, done: set<Hash>, h: Hash)
    requires done <= store.Keys && h in store
    ensures WithSome(t, store, done + {h}) == WithSome(t, store, done)[h := Applied(t, store[h])]
  {
  }

  lemma SomeEnds(t: KeyTable, store: map<Hash, Update>)
    ensures WithSome(t, store, {}) == t
    ensures WithSome(t, store, store.Keys) == ViewOf(t, store)
  {
  }

  /** What the bulk write needs of the pending updates. */
  ghost predicate Writable(t: KeyTable, store: map<Hash, Update>) {
    && OneToOne(ViewOf(t, store))
    && forall h :: h in store ==> WritableAt(t, h, store[h])
  }

  ghost predicate WritableAt(t: KeyTable, h: Hash, u: Update) {
    && u.data.hashed == h && |u.data.legacy| == 33
    && (h in t ==> u.expose && t[h].legacy == u.data.legacy && t[h].tweaked == u.data.tweaked)
  }

  lemma PendingIsWritable(tweak: Legacy -> Tweaked, t: KeyTable, store: map<Hash, Update>,
                          byTweak: map<Tweaked, Hash>, byHash: map<Hash, Legacy>)
    requires Consistent(tweak, t, store, byTweak, byHash)
    ensures Writable(t, store)
  {
  }

  /** `savePublicKeys`: no operation of the bulk write hits a unique index, in whatever order they run. */
  method SavePublicKeys(table: KeyTable, store: map<Hash, Update>) returns (r: Result<KeyTable>)
    requires Writable(table, store)
    ensures r == Success(ViewOf(table, store))
  {
    var t, rest := table, store.Keys;
    ghost var done: set<Hash> := {};
    SomeEnds(table, store);
    while rest != {}
      invariant done <= store.Keys && rest == store.Keys - done
      invariant t == WithSome(table, store, done)
      decreases |rest|
    {
      var h :| h in rest;
      var written := SavePublicKey(t, h, table, store, done);
      Visit(store.Keys, rest, done, h);
      t, rest, done := written.value, rest - {h}, done + {h};
    }
    AllVisited(store.Keys, done);
    r := Success(t);
  }

  method SavePublicKey(t: KeyTable, h: Hash, table: KeyTable, store: map<Hash, Update>, ghost done: set<Hash>) returns (r: Result<KeyTable>)
    requires Writable(table, store) && h in store && h !in done && done <= store.Keys
    requires t == WithSome(table, store, done)
    ensures r == Success(WithSome(table, store, done + {h}))
  {
    var u := store[h];
    Untouched(t, h, table, store, done);
    SomeAdd(table, store, done, h);
    if u.expose {
      r := UpsertExposure(t, u.data);
    } else {
      r := InsertOne(t, u.data);
    }
  }

  /** While the updates are written one by one, the next one still meets the collection it was checked against. */
  lemma Untouched(t: KeyTable, h: Hash, table: KeyTable, store: map<Hash, Update>, done: set<Hash>)
    requires Writable(table, store) && h in store && h !in done && done <= store.Keys
    requires t == WithSome(table, store, done)
    ensures h in t <==> h in table
    ensures h in table ==> t[h] == table[h]
    ensures h !in table ==> !LegacyUsed(t, store[h].data.legacy)
  {
    var v := ViewOf(table, store);
    forall k | k in t ensures k in v && t[k].legacy == v[k].legacy {
      SameLegacy(table, store, done, k);
    }
    assert WritableAt(table, h, store[h]);
    assert v[h].legacy == store[h].data.legacy;
  }

  lemma SameLegacy(table: KeyTable, store: map<Hash, Update>, done: set<Hash>, k: Hash)
    requires forall h :: h in store ==> WritableAt(table, h, store[h])
    requires done <= store.Keys && k in WithSome(table, store, done)
    ensures k in ViewOf(table, store) && WithSome(table, store, done)[k].legacy == ViewOf(table, store)[k].legacy
  {
    assert k in store ==> WritableAt(table, k, store[k]);
  }

  lemma AppliedIsWellFormed(tweak: Legacy -> Tweaked, t: KeyTable, store: map<Hash, Update>)
    requires WellFormed(t, tweak) && OneToOne(ViewOf(t, store))
    requires forall h :: h in store ==> Storable(tweak, t, store[h]) && store[h].data.hashed == h
    ensures WellFormed(ViewOf(t, store), tweak)
  {
  }

  /** What one pending map and the collection, without indexes, would refuse. */
  ghost predicate Refuses(tweak: Legacy -> Tweaked, t: KeyTable, store: map<Hash, Update>, d: KeyData) {
    || ConflictsWith(ViewOf(t, store), d)
    || (d.hashed !in store && (TwinIn(tweak, store, d) || (d.hashed in t && t[d.hashed].level != d.level)
                               || |d.hashed| != 32 || |d.legacy| != 33))
  }

  ghost predicate TwinIn(tweak: Legacy -> Tweaked, store: map<Hash, Update>, d: KeyData) {
    exists h :: h in store && tweak(store[h].data.legacy) == tweak(d.legacy)
  }

  function Get<K, V>(m: map<K, V>, k: K): Option<V> {
    if k in m then Some(m[k]) else None
  }

  class VMManager {
    const tweak: Legacy -> Tweaked
    var height: nat
    var table: KeyTable

    var mldsaToStore: map<Hash, Update>
    var mldsaToStoreLegacy: map<Tweaked, Hash>
    var mldsaToStoreByHash: map<Hash, Legacy>

    /** Answers of the collection in this block. */
    var mldsaCacheFromLegacy: map<Tweaked, Option<KeyData>>

    ghost function View(): KeyTable
      reads this
    {
      ViewOf(table, mldsaToStore)
    }

    ghost predicate Valid()
      reads this
    {
      && Consistent(tweak, table, mldsaToStore, mldsaToStoreLegacy, mldsaToStoreByHash)
      && CacheIsRight(table, height, mldsaCacheFromLegacy)
    }

    constructor (tweak: Legacy -> Tweaked, t: KeyTable, height: nat)
      requires WellFormed(t, tweak)
      ensures Valid() && this.tweak == tweak && this.height == height && table == t && View() == t
      ensures mldsaToStore == map[]
    {
      this.tweak, this.height, table := tweak, height, t;
      mldsaToStore, mldsaToStoreLegacy, mldsaToStoreByHash := map[], map[], map[];
      mldsaCacheFromLegacy := map[];
    }

    /** A tweaked key found in the legacy index always leads to its pending data. */
    method PendingFromTweakedKey(t: Tweaked) returns (r: Option<KeyData>)
      requires Valid()
      ensures r.Some? <==> t in mldsaToStoreLegacy
      ensures r.Some? ==> tweak(r.value.legacy) == t && r.value.hashed in View() && View()[r.value.hashed].legacy == r.value.legacy
      ensures r.Some? ==> r.value.hashed in mldsaToStore
    {
      if t !in mldsaToStoreLegacy {
        return None;
      }
      var address := mldsaToStoreLegacy[t];
      r := if address in mldsaToStore then Some(mldsaToStore[address].data) else None;
    }

    /** `getMLDSAPublicKeyFromLegacyKey`: the pending link, else what the collection says, asked once per block. */
    method GetFromLegacyKey(t: Tweaked) returns (r: Option<KeyData>)
      requires Valid()
      modifies this`mldsaCacheFromLegacy
      ensures Valid()
      ensures t in mldsaToStoreLegacy ==> r.Some? && tweak(r.value.legacy) == t && r.value.hashed in mldsaToStore
      ensures t !in mldsaToStoreLegacy ==> IsAnswer(table, height, t, r)
    {
      r := PendingFromTweakedKey(t);
      if r.Some? {
        return;
      }
      if t in mldsaCacheFromLegacy {
        return mldsaCacheFromLegacy[t];
      }
      r := QueryKey(table, height, t);
      mldsaCacheFromLegacy := mldsaCacheFromLegacy[t := r];
    }

    ghost predicate Conflicts(d: KeyData)
      reads this
    {
      ConflictsWith(View(), d)
    }

    /** Not yet pending itself, but sharing a tweaked key with a pending link. */
    ghost predicate TwinPending(d: KeyData)
      reads this
    {
      d.hashed !in mldsaToStore && tweak(d.legacy) in mldsaToStoreLegacy
    }

    /** Already stored with another level, and not pending. */
    ghost predicate LevelMismatch(d: KeyData)
      reads this
    {
      d.hashed !in mldsaToStore && d.hashed in table && table[d.hashed].level != d.level
    }

    ghost predicate BadLengths(d: KeyData)
      reads this
    {
      d.hashed !in mldsaToStore && (|d.hashed| != 32 || |d.legacy| != 33)
    }

    ghost predicate Rejected(d: KeyData)
      reads this
    {
      Conflicts(d) || TwinPending(d) || LevelMismatch(d) || BadLengths(d)
    }

    lemma RejectedIsRefused(d: KeyData)
      requires Valid()
      ensures Rejected(d) <==> Refuses(tweak, table, mldsaToStore, d)
    {
      assert tweak(d.legacy) in mldsaToStoreLegacy <==> TwinIn(tweak, mldsaToStore, d) by {
        if h :| h in mldsaToStore && tweak(mldsaToStore[h].data.legacy) == tweak(d.legacy) {
          assert Indexed(tweak, mldsaToStore[h].data, h, mldsaToStoreLegacy);
        }
      }
    }

    /** `validateMLDSALinkRequest`: `Success(false)` is a duplicate request from the same user. */
    method ValidateLinkRequest(d: KeyData) returns (r: Result<bool>)
      requires Valid()
      ensures r.Failure? <==> TwinPending(d) || (d.hashed in mldsaToStore && mldsaToStore[d.hashed].data.legacy != d.legacy)
      ensures r.Failure? ==> Rejected(d)
      ensures r == Success(false) <==> d.hashed in mldsaToStore && mldsaToStore[d.hashed].data.legacy == d.legacy
      ensures r == Success(true) ==> d.hashed !in mldsaToStore && tweak(d.legacy) !in mldsaToStoreLegacy
    {
      if d.hashed in mldsaToStore {
        if mldsaToStore[d.hashed].data.legacy == d.legacy {
          return Success(false);
        }
        assert View()[d.hashed].legacy != d.legacy;
        return Failure("hash pending");
      }
      if tweak(d.legacy) in mldsaToStoreLegacy {
        return Failure("legacy key pending");
      }
      var existingLegacyKey := Get(mldsaToStoreByHash, d.hashed);
      if existingLegacyKey != None && existingLegacyKey != Some(d.legacy) {
        return Failure("hash pending");
      }
      r := Success(true);
    }

    /** `shouldInsertMLDSAKey` over `exists`: `Success(true)` means there is nothing to store. */
    method ShouldInsertKey(d: KeyData, isExpose: bool) returns (r: Result<bool>)
      requires Valid() && d.hashed !in mldsaToStore && tweak(d.legacy) !in mldsaToStoreLegacy
      ensures r.Failure? <==> Rejected(d)
      ensures r.Success? ==> (r.value <==> d.hashed in table && (isExpose ==> table[d.hashed].exposed.Some?))
      ensures r.Success? && d.hashed in table ==> table[d.hashed].legacy == d.legacy
      ensures r.Success? && d.hashed !in table ==> !LegacyUsed(table, d.legacy)
    {
      if |d.hashed| != 32 || |d.legacy| != 33 {
        return Failure("bad lengths");
      }
      var hashedExists, legacyExists := d.hashed in table, LegacyUsed(table, d.legacy);
      var sameId := hashedExists && table[d.hashed].legacy == d.legacy;
      NotPendingConflicts(d);
      if hashedExists != legacyExists {
        return Failure("reassignment");
      }
      if hashedExists && legacyExists && !sameId {
        return Failure("conflict");
      }
      var exist := hashedExists || legacyExists;
      if exist && table[d.hashed].level != d.level {
        return Failure("level mismatch");
      }
      if isExpose && !(exist && table[d.hashed].exposed.Some?) {
        return Success(false);
      }
      r := Success(exist);
    }

    lemma NotPendingConflicts(d: KeyData)
      requires Valid() && d.hashed !in mldsaToStore && tweak(d.legacy) !in mldsaToStoreLegacy
      ensures Conflicts(d) <==> ConflictsWith(table, d)
    {
      forall h | h in mldsaToStore ensures View()[h].legacy == mldsaToStore[h].data.legacy != d.legacy {
      }
      forall h | h in table ensures h in View() && View()[h].legacy == table[h].legacy {
      }
    }

    method SetPending(u: Update)
      requires Valid() && Storable(tweak, table, u)
      requires u.data.hashed !in mldsaToStore && tweak(u.data.legacy) !in mldsaToStoreLegacy
      requires !Conflicts(u.data)
      modifies this
      ensures Valid() && table == old(table) && height == old(height)
      ensures mldsaToStore == old(mldsaToStore)[u.data.hashed := u]
      ensures View() == old(View())[u.data.hashed := Applied(table, u)]
    {
      ConsistentAdd(tweak, table, mldsaToStore, mldsaToStoreLegacy, mldsaToStoreByHash, u);
      ViewAdd(table, mldsaToStore, u.data.hashed, u);
      mldsaToStore := mldsaToStore[u.data.hashed := u];
      mldsaToStoreLegacy := mldsaToStoreLegacy[tweak(u.data.legacy) := u.data.hashed];
      mldsaToStoreByHash := mldsaToStoreByHash[u.data.hashed := u.data.legacy];
    }

    /** A link request succeeds exactly when it conflicts with nothing; then the pair is linked in this block's
        view, and nothing else changed. */
    method AddInfoToStore(d: KeyData) returns (r: Result<()>)
      requires Valid() && d.tweaked == tweak(d.legacy)
      modifies this
      ensures Valid() && table == old(table) && height == old(height)
      ensures r.Failure? <==> d.inserted != height || old(Rejected(d))
      ensures r.Failure? || old(Stale(Update(false, d))) ==> mldsaToStore == old(mldsaToStore)
      ensures r.Success? && !old(Stale(Update(false, d))) ==> mldsaToStore == old(mldsaToStore)[d.hashed := Update(false, d)]
      ensures r.Failure? ==> View() == old(View())
      ensures r.Success? ==> View() == if d.hashed in old(View()) then old(View()) else old(View())[d.hashed := ToDocument(d)]
      ensures r.Success? ==> d.hashed in View() && View()[d.hashed].legacy == d.legacy
    {
      if d.inserted != height {
        return Failure("height mismatch");
      }
      r := Link(Update(false, d));
    }

    /** Exposing never replaces an exposure: it adds the key to a link that has none, or makes the link. */
    method ExposePublicKey(d: KeyData) returns (r: Result<()>)
      requires Valid() && d.tweaked == tweak(d.legacy)
      modifies this
      ensures Valid() && table == old(table) && height == old(height)
      ensures r.Failure? <==> d.publicKey.None? || old(Rejected(d))
      ensures r.Failure? || old(Stale(Update(true, d))) ==> mldsaToStore == old(mldsaToStore)
      ensures r.Success? && !old(Stale(Update(true, d))) ==> mldsaToStore == old(mldsaToStore)[d.hashed := Update(true, d)]
      ensures r.Failure? ==> View() == old(View())
      ensures r.Success? && (d.hashed in old(mldsaToStore) || (d.hashed in table && table[d.hashed].exposed.Some?))
          ==> View() == old(View())
      ensures r.Success? && d.hashed !in old(mldsaToStore) && !(d.hashed in table && table[d.hashed].exposed.Some?)
          ==> View() == old(View())[d.hashed := Applied(table, Update(true, d))]
      ensures r.Success? && d.hashed !in old(mldsaToStore) && (d.hashed in table ==> table[d.hashed].exposed.None?)
          ==> d.hashed in View() && View()[d.hashed].publicKey == d.publicKey
              && View()[d.hashed].exposed == if d.exposed == Some(0) then None else d.exposed
      ensures r.Success? ==> d.hashed in View() && View()[d.hashed].legacy == d.legacy
    {
      if d.publicKey.None? {
        return Failure("no public key");
      }
      r := Link(Update(true, d));
    }

    method Link(u: Update) returns (r: Result<()>)
      requires Valid() && u.data.tweaked == tweak(u.data.legacy)
      modifies this
      ensures Valid() && table == old(table) && height == old(height)
      ensures r.Failure? <==> old(Rejected(u.data))
      ensures r.Failure? || old(Stale(u)) ==> mldsaToStore == old(mldsaToStore)
      ensures r.Success? && !old(Stale(u)) ==> mldsaToStore == old(mldsaToStore)[u.data.hashed := u]
      ensures r.Failure? || old(Stale(u)) ==> View() == old(View())
      ensures r.Success? && !old(Stale(u)) ==> View() == old(View())[u.data.hashed := Applied(table, u)]
      ensures r.Success? ==> u.data.hashed in View() && View()[u.data.hashed].legacy == u.data.legacy
    {
      var d := u.data;
      var valid := ValidateLinkRequest(d);
      if valid.Failure? {
        return Failure(valid.error);
      }
      if !valid.value {
        assert View()[d.hashed].legacy == d.legacy;
        return Success(());
      }
      var exists' := ShouldInsertKey(d, u.expose);
      if exists'.Failure? {
        return Failure(exists'.error);
      }
      if !exists'.value {
        SetPending(u);
      }
      r := Success(());
    }

    /** There is nothing left to store for this request. */
    ghost predicate Stale(u: Update)
      reads this
    {
      || u.data.hashed in mldsaToStore
      || (u.data.hashed in table && (u.expose ==> table[u.data.hashed].exposed.Some?))
    }

    /** `savePublicKeys`: no write hits a unique index, and the collection becomes what the block saw. */
    method SaveBlock(nextHeight: nat) returns (r: Result<()>)
      requires Valid()
      modifies this
      ensures r.Success?
      ensures Valid() && table == old(View()) && View() == table && height == nextHeight && mldsaToStore == map[]
    {
      PendingIsWritable(tweak, table, mldsaToStore, mldsaToStoreLegacy, mldsaToStoreByHash);
      var written := SavePublicKeys(table, mldsaToStore);
      if written.Failure? {
        return Failure("bulk write");
      }
      AppliedIsWellFormed(tweak, table, mldsaToStore);
      ConsistentEmpty(tweak, View());
      table, height := written.value, nextHeight;
      mldsaToStore, mldsaToStoreLegacy, mldsaToStoreByHash, mldsaCacheFromLegacy := map[], map[], map[], map[];
      r := Success(());
    }

    /** `clear`, when the block ends without a commit. */
    method Discard(nextHeight: nat)
      requires Valid()
      modifies this
      ensures Valid() && table == old(table) && View() == table && height == nextHeight && mldsaToStore == map[]
    {
      ConsistentEmpty(tweak, table);
      height := nextHeight;
      mldsaToStore, mldsaToStoreLegacy, mldsaToStoreByHash, mldsaCacheFromLegacy := map[], map[], map[], map[];
    }
  }

  // ----- queries, refusals and rollbacks, in fields -----

  /** An answer is a link of the collection, no newer than the height, with the key in one of three places. */
  lemma AnswerMeans(t: KeyTable, height: nat, key: string, r: Option<KeyData>)
    ensures IsAnswer(t, height, key, r) <==>
      match r
      case None => forall h :: h in t && t[h].inserted <= height ==> h != key && t[h].legacy != key && t[h].tweaked != key
      case Some(d) =>
        && d.hashed in t && d.inserted <= height && (d.hashed == key || d.legacy == key || d.tweaked == key)
        && t[d.hashed] == Doc(d.level, d.legacy, d.tweaked, d.publicKey, d.inserted, d.exposed)
  {
    match r
    case None =>
      if IsAnswer(t, height, key, r) {
        forall h | h in t && t[h].inserted <= height ensures h != key && t[h].legacy != key && t[h].tweaked != key {
          assert !MatchesKey(t, height, key, h);
        }
      }
    case Some(d) =>
  }

  /** The legacy key a hash is linked with, pending or stored. */
  function Partner(t: KeyTable, store: map<Hash, Update>, h: Hash): Option<Legacy> {
    if h in store then Some(store[h].data.legacy) else if h in t then Some(t[h].legacy) else None
  }

  /** A request is refused exactly when its hash has another partner, its legacy key belongs to another hash, or, for a
      hash that is not pending, a pending legacy key has the same tweaked key, the stored level differs or a length is wrong. */
  lemma RefusesMeans(tweak: Legacy -> Tweaked, t: KeyTable, store: map<Hash, Update>,
                     byTweak: map<Tweaked, Hash>, byHash: map<Hash, Legacy>, d: KeyData)
    requires Consistent(tweak, t, store, byTweak, byHash)
    ensures Refuses(tweak, t, store, d) <==>
      || (Partner(t, store, d.hashed).Some? && Partner(t, store, d.hashed) != Some(d.legacy))
      || (exists h :: h != d.hashed && Partner(t, store, h) == Some(d.legacy))
      || (d.hashed !in store
          && ((exists h :: h in store && tweak(store[h].data.legacy) == tweak(d.legacy))
              || (d.hashed in t && t[d.hashed].level != d.level) || |d.hashed| != 32 || |d.legacy| != 33))
  {
    ConflictsMeans(tweak, t, store, byTweak, byHash, d);
  }

  lemma ConflictsMeans(tweak: Legacy -> Tweaked, t: KeyTable, store: map<Hash, Update>,
                       byTweak: map<Tweaked, Hash>, byHash: map<Hash, Legacy>, d: KeyData)
    requires Consistent(tweak, t, store, byTweak, byHash)
    ensures ConflictsWith(ViewOf(t, store), d) <==>
      || (Partner(t, store, d.hashed).Some? && Partner(t, store, d.hashed) != Some(d.legacy))
      || (exists h :: h != d.hashed && Partner(t, store, h) == Some(d.legacy))
  {
    var view := ViewOf(t, store);
    forall h ensures Partner(t, store, h) == if h in view then Some(view[h].legacy) else None {
    }
    if h :| h in view && h != d.hashed && view[h].legacy == d.legacy {
      assert Partner(t, store, h) == Some(d.legacy);
    }
  }

  // ----- one request and its commit, in fields -----

  /** The document that an update leaves behind, field by field. */
  lemma AppliedMeans(t: KeyTable, u: Update)
    ensures var d, doc := u.data, Applied(t, u);
      && doc.publicKey == d.publicKey
      && (d.exposed == Some(0) || d.exposed == None ==> doc.exposed == None)
      && (d.exposed.Some? && d.exposed.value > 0 ==> doc.exposed == d.exposed)
      && (if u.expose && d.hashed in t
          then var old' := t[d.hashed];
            && doc.level == old'.level && doc.legacy == old'.legacy && doc.tweaked == old'.tweaked && doc.inserted == old'.inserted
          else doc.level == d.level && doc.legacy == d.legacy && doc.tweaked == d.tweaked && doc.inserted == d.inserted)
  {
  }

  /** Linking two unused keys adds exactly their link, as requested. */
  method LinkOnce(tweak: Legacy -> Tweaked, t: KeyTable, d: KeyData) returns (t': KeyTable)
    requires WellFormed(t, tweak) && d.tweaked == tweak(d.legacy)
    requires |d.hashed| == 32 && |d.legacy| == 33 && d.hashed !in t && forall h :: h in t ==> t[h].legacy != d.legacy
    ensures t'.Keys == t.Keys + {d.hashed} && forall h :: h in t ==> t'[h] == t[h]
    ensures var doc := t'[d.hashed];
      && doc.level == d.level && doc.legacy == d.legacy && doc.tweaked == d.tweaked && doc.inserted == d.inserted
      && doc.publicKey == d.publicKey && doc.exposed == if d.exposed == Some(0) then None else d.exposed
  {
    var vm := new VMManager(tweak, t, d.inserted);
    assert !vm.Rejected(d);
    var linked := vm.AddInfoToStore(d);
    AppliedMeans(t, Update(false, d));
    var saved := vm.SaveBlock(d.inserted + 1);
    t' := vm.table;
  }

  /** Exposing a linked key without one stores the key and the height, and leaves the rest of the link and all other
      links alone. */
  method ExposeOnce(tweak: Legacy -> Tweaked, t: KeyTable, d: KeyData, height: nat) returns (t': KeyTable)
    requires WellFormed(t, tweak) && d.tweaked == tweak(d.legacy) && |d.hashed| == 32 && |d.legacy| == 33
    requires d.hashed in t && t[d.hashed].legacy == d.legacy && t[d.hashed].level == d.level && t[d.hashed].exposed.None?
    requires d.publicKey.Some? && height > 0 && d.exposed == Some(height)
    ensures t'.Keys == t.Keys && forall h :: h in t && h != d.hashed ==> t'[h] == t[h]
    ensures var doc := t'[d.hashed];
      && doc.publicKey == d.publicKey && doc.exposed == Some(height)
      && doc.level == t[d.hashed].level && doc.legacy == t[d.hashed].legacy && doc.tweaked == t[d.hashed].tweaked
      && doc.inserted == t[d.hashed].inserted
  {
    var vm := new VMManager(tweak, t, height);
    assert !vm.Rejected(d);
    var exposed := vm.ExposePublicKey(d);
    AppliedMeans(t, Update(true, d));
    var saved := vm.SaveBlock(height + 1);
    t' := vm.table;
  }
}
