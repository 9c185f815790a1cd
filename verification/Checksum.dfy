/** `BlockHeaderValidator`: every header carries a Merkle root over six values, one of which is the previous
    header's root, so the newest root commits to the whole chain of headers. */
module Checksum {
  import opened Common

  type Bytes = seq<nat>

  datatype Proof = Proof(index: nat, hashes: seq<string>)

  /** `Partial<BlockHeaderDocument>`: the empty string stands for a missing field. */
  datatype Header = Header(height: nat, hash: string, previousBlockHash: string, previousBlockChecksum: string,
                           merkleRoot: string, storageRoot: string, receiptRoot: string,
                           checksumRoot: string, proofs: Option<seq<Proof>>)

  /** Hex decoding and Merkle proof verification, which this model does not look into. */
  datatype Crypto = Crypto(decode: string -> Bytes, verify: (Bytes, nat, Bytes, seq<string>) -> bool)

  /** No root has valid proofs for two values at one index. */
  ghost predicate Binding(c: Crypto) {
    forall root, i, v, v', p, p' :: c.verify(root, i, v, p) && c.verify(root, i, v', p') ==> v == v'
  }

  function ZeroHash(): string {
    "0x" + seq(64, _ => '0')
  }

  function ZeroBytes(): Bytes {
    seq(32, _ => 0)
  }

  // ----- validation as a function of the stored headers -----

  function PreviousChecksum(headers: map<nat, Header>, light: bool, height: nat): Result<string> {
    if height == 0 then Success(ZeroHash())
    else if height - 1 in headers && headers[height - 1].checksumRoot != "" then Success(headers[height - 1].checksumRoot)
    else if light then Success(ZeroHash())
    else Failure("bad previous")
  }

  function ProofFor(proofs: seq<Proof>, index: nat): Result<seq<string>> {
    if proofs == [] then Failure("no proof")
    else if proofs[0].index == index then Success(proofs[0].hashes)
    else ProofFor(proofs[1..], index)
  }

  function PreviousHashBytes(c: Crypto, h: Header): Bytes {
    if h.previousBlockHash != "" then c.decode(h.previousBlockHash) else ZeroBytes()
  }

  /** The six committed values, by index. */
  function Leaf(c: Crypto, h: Header, index: nat): Bytes
    requires index < 6
  {
    if index == 0 then PreviousHashBytes(c, h)
    else if index == 1 then c.decode(h.previousBlockChecksum)
    else if index == 2 then c.decode(h.hash)
    else if index == 3 then c.decode(h.merkleRoot)
    else if index == 4 then c.decode(h.storageRoot)
    else c.decode(h.receiptRoot)
  }

  predicate Complete(h: Header) {
    h.receiptRoot != "" && h.storageRoot != "" && h.hash != "" && h.merkleRoot != "" && h.proofs.Some?
  }

  ghost predicate Proves(c: Crypto, h: Header, index: nat)
    requires index < 6 && h.proofs.Some?
  {
    var p := ProofFor(h.proofs.value, index);
    p.Success? && c.verify(c.decode(h.checksumRoot), index, Leaf(c, h, index), p.value)
  }

  /** What a positive verdict means. */
  ghost predicate Accepted(c: Crypto, headers: map<nat, Header>, light: bool, h: Header) {
    && h.checksumRoot != "" && Complete(h)
    && PreviousChecksum(headers, light, h.height) == Success(h.previousBlockChecksum)
    && AllProved(c, h)
  }

  ghost predicate AllProved(c: Crypto, h: Header)
    requires h.proofs.Some?
  {
    forall i :: 0 <= i < 6 ==> Proves(c, h, i)
  }

  ghost predicate ProofMissing(proofs: seq<Proof>) {
    exists i :: 0 <= i < 6 && ProofFor(proofs, i).Failure?
  }

  /** What makes validation throw rather than answer. */
  ghost predicate Throws(headers: map<nat, Header>, light: bool, h: Header) {
    || h.checksumRoot == "" || !Complete(h)
    || PreviousChecksum(headers, light, h.height).Failure?
    || (PreviousChecksum(headers, light, h.height).value == h.previousBlockChecksum
        && ProofMissing(h.proofs.value))
  }

  // ----- the verdict in fields -----

  /** The first proof with this index verifies the value. */
  ghost predicate ProvedAt(c: Crypto, h: Header, index: nat, value: Bytes) {
    && h.proofs.Some?
    && exists k :: 0 <= k < |h.proofs.value| && h.proofs.value[k].index == index
                   && NoProof(h.proofs.value[..k], index)
                   && c.verify(c.decode(h.checksumRoot), index, value, h.proofs.value[k].hashes)
  }

  ghost predicate NoProof(proofs: seq<Proof>, index: nat) {
    forall k :: 0 <= k < |proofs| ==> proofs[k].index != index
  }

  lemma {:induction false} ProofForMeans(proofs: seq<Proof>, index: nat, k: nat)
    requires k < |proofs| && proofs[k].index == index && NoProof(proofs[..k], index)
    ensures ProofFor(proofs, index) == Success(proofs[k].hashes)
  {
    if k > 0 {
      assert proofs[..k][0] == proofs[0] && proofs[..k][1..] == proofs[1..][..k - 1];
      ProofForMeans(proofs[1..], index, k - 1);
    }
  }

  lemma {:induction false} FirstProof(proofs: seq<Proof>, index: nat) returns (k: nat)
    ensures k <= |proofs| && (k == |proofs| <==> ProofFor(proofs, index).Failure?)
    ensures NoProof(proofs[..k], index)
    ensures k < |proofs| ==> proofs[k].index == index && ProofFor(proofs, index) == Success(proofs[k].hashes)
  {
    k := 0;
    if proofs != [] && proofs[0].index != index {
      k := FirstProof(proofs[1..], index);
      k := k + 1;
    }
  }

  lemma ProvesMeans(c: Crypto, h: Header, index: nat)
    requires index < 6 && h.proofs.Some?
    ensures Proves(c, h, index) <==> ProvedAt(c, h, index, Leaf(c, h, index))
  {
    var k := FirstProof(h.proofs.value, index);
    if ProvedAt(c, h, index, Leaf(c, h, index)) {
      var j :| 0 <= j < |h.proofs.value| && h.proofs.value[j].index == index
        && NoProof(h.proofs.value[..j], index)
        && c.verify(c.decode(h.checksumRoot), index, Leaf(c, h, index), h.proofs.value[j].hashes);
      ProofForMeans(h.proofs.value, index, j);
    }
  }

  /** A header is accepted exactly when nothing is missing, it names the root below it, and its root has a valid proof for
      each of the six values at its own index. */
  lemma AcceptedMeans(c: Crypto, headers: map<nat, Header>, light: bool, h: Header)
    ensures Accepted(c, headers, light, h) <==>
      && h.checksumRoot != "" && h.receiptRoot != "" && h.storageRoot != "" && h.hash != "" && h.merkleRoot != ""
      && PreviousChecksum(headers, light, h.height) == Success(h.previousBlockChecksum)
      && ProvedAt(c, h, 0, if h.previousBlockHash != "" then c.decode(h.previousBlockHash) else seq(32, _ => 0))
      && ProvedAt(c, h, 1, c.decode(h.previousBlockChecksum))
      && ProvedAt(c, h, 2, c.decode(h.hash))
      && ProvedAt(c, h, 3, c.decode(h.merkleRoot))
      && ProvedAt(c, h, 4, c.decode(h.storageRoot))
      && ProvedAt(c, h, 5, c.decode(h.receiptRoot))
  {
    if h.proofs.Some? {
      forall i | 0 <= i < 6 ensures Proves(c, h, i) <==> ProvedAt(c, h, i, Leaf(c, h, i)) {
        ProvesMeans(c, h, i);
      }
      SixProofs(c, h);
    }
  }

  lemma SixProofs(c: Crypto, h: Header)
    requires h.proofs.Some?
    ensures AllProved(c, h) <==> Proves(c, h, 0) && Proves(c, h, 1) && Proves(c, h, 2) && Proves(c, h, 3) && Proves(c, h, 4) && Proves(c, h, 5)
  {
  }

  /** Validation throws exactly when a field is missing, the block below has no root on a full node, or, once the link is
      right, one of the six indices has no proof. */
  lemma ThrowsMeans(headers: map<nat, Header>, light: bool, h: Header)
    ensures Throws(headers, light, h) <==>
      || h.checksumRoot == "" || h.receiptRoot == "" || h.storageRoot == "" || h.hash == "" || h.merkleRoot == "" || h.proofs.None?
      || (!light && h.height > 0 && (h.height - 1 !in headers || headers[h.height - 1].checksumRoot == ""))
      || (PreviousChecksum(headers, light, h.height) == Success(h.previousBlockChecksum)
          && exists i :: 0 <= i < 6 && NoProof(h.proofs.value, i))
  {
    if h.proofs.Some? {
      forall i: nat ensures ProofFor(h.proofs.value, i).Failure? <==> NoProof(h.proofs.value, i) {
        var k := FirstProof(h.proofs.value, i);
        assert h.proofs.value[..|h.proofs.value|] == h.proofs.value;
      }
    }
  }

  /** The root a header must name: 32 zero bytes in hex at genesis, the stored root of the block below, and on a light node
      zero when there is none. */
  lemma PreviousMeans(headers: map<nat, Header>, light: bool, height: nat)
    ensures var r := PreviousChecksum(headers, light, height);
      && (height > 0 && height - 1 in headers && headers[height - 1].checksumRoot != "" ==> r == Success(headers[height - 1].checksumRoot))
      && (height > 0 && (height - 1 in headers ==> headers[height - 1].checksumRoot == "") ==> (r.Success? <==> light))
      && (height == 0 || (light && (height - 1 in headers ==> headers[height - 1].checksumRoot == "")) ==>
            r.Success? && |r.value| == 66 && r.value[..2] == "0x" && forall i :: 2 <= i < 66 ==> r.value[i] == '0')
  {
  }

  // ----- the validator -----

  /** What happens to headers and cache: a block end clears the cache, a processed block's header is stored and, when the
      task completes, cached; a revert deletes headers. */
  datatype Event = ReadHeader(height: nat) | Stores(header: Header) | SetLast(header: Header) | Reverts(from: nat) | ClearCache

  predicate Below(height: nat, floor: Option<nat>) {
    floor.Some? ==> height < floor.value
  }

  /** The header that a block of this height builds on lies below the floor. */
  predicate Trusted(height: nat, floor: Option<nat>) {
    height > 0 ==> Below(height - 1, floor)
  }

  function Lower(floor: Option<nat>, height: nat): Option<nat> {
    if Below(height, floor) then Some(height) else floor
  }

  function Stored(storage: map<nat, Header>, height: nat): Option<Header> {
    if height in storage then Some(storage[height]) else None
  }

  ghost predicate CacheAgrees(storage: map<nat, Header>, cache: map<nat, Header>, floor: Option<nat>) {
    forall k :: k in cache && Below(k, floor) ==> k in storage && storage[k] == cache[k]
  }

  function StorageAfter(storage: map<nat, Header>, e: Event): map<nat, Header> {
    match e
    case Stores(h) => storage[h.height := h]
    case Reverts(from) => map k | k in storage && k < from :: storage[k]
    case _ => storage
  }

  /** Every write lowers the floor to its height, and so does caching a header that is not stored. */
  function FloorAfter(storage: map<nat, Header>, floor: Option<nat>, e: Event): Option<nat> {
    match e
    case ReadHeader(_) => floor
    case Stores(h) => Lower(floor, h.height)
    case SetLast(h) => if Stored(storage, h.height) == Some(h) then floor else Lower(floor, h.height)
    case Reverts(from) => Lower(floor, from)
    case ClearCache => None
  }

  class BlockHeaderValidator {
    const crypto: Crypto
    const light: bool
    const enableCaching: bool
    /** The header collection, which other components write and revert. */
    var storage: map<nat, Header>

    var cachedBlockHeader: map<nat, Header>

    /** Below this height nothing has been written since the cache was last cleared. */
    ghost var floor: Option<nat>

    /** Below the floor the cache holds stored headers only; it is reset once it holds more than 100. */
    ghost predicate Valid()
      reads this
    {
      && (forall k :: k in storage ==> storage[k].height == k)
      && (forall k :: k in cachedBlockHeader ==> cachedBlockHeader[k].height == k)
      && CacheAgrees(storage, cachedBlockHeader, floor)
      && |cachedBlockHeader| <= 101
    }

    constructor (crypto: Crypto, light: bool, enableCaching: bool, storage: map<nat, Header>)
      requires forall k :: k in storage ==> storage[k].height == k
      ensures Valid() && floor == None
      ensures this.crypto == crypto && this.light == light && this.storage == storage
    {
      this.crypto, this.light, this.enableCaching, this.storage := crypto, light, enableCaching, storage;
      cachedBlockHeader, floor := map[], None;
    }

    method SetToCache(h: Header)
      requires Valid() && (Below(h.height, floor) ==> h.height in storage && storage[h.height] == h)
      modifies this`cachedBlockHeader
      ensures Valid()
      ensures cachedBlockHeader == if !enableCaching then old(cachedBlockHeader)
        else if |old(cachedBlockHeader)| > 100 then map[h.height := h] else old(cachedBlockHeader)[h.height := h]
    {
      if enableCaching {
        if |cachedBlockHeader| > 100 {
          cachedBlockHeader := map[];
        }
        cachedBlockHeader := cachedBlockHeader[h.height := h];
      }
    }

    /** A task that a revert has cut off may still hand in the header of a block that is gone. */
    method SetLastBlockHeader(h: Header)
      requires Valid()
      modifies this`cachedBlockHeader, this`floor
      ensures Valid() && floor == FloorAfter(storage, old(floor), SetLast(h))
    {
      floor := FloorAfter(storage, floor, SetLast(h));
      SetToCache(h);
    }

    method Clear()
      requires Valid()
      modifies this`cachedBlockHeader, this`floor
      ensures Valid() && floor == None && cachedBlockHeader == map[]
    {
      cachedBlockHeader, floor := map[], None;
    }

    /** The block being processed stores its header. */
    method Save(h: Header)
      requires Valid()
      modifies this`storage, this`floor
      ensures Valid() && storage == StorageAfter(old(storage), Stores(h)) && floor == FloorAfter(old(storage), old(floor), Stores(h))
    {
      storage, floor := storage[h.height := h], Lower(floor, h.height);
    }

    /** A revert deletes headers behind the cache's back. */
    method RevertFrom(from: nat)
      requires Valid()
      modifies this`storage, this`floor
      ensures Valid() && storage == StorageAfter(old(storage), Reverts(from)) && floor == FloorAfter(old(storage), old(floor), Reverts(from))
    {
      storage, floor := map k | k in storage && k < from :: storage[k], Lower(floor, from);
    }

    /** Below the floor the answer is the stored header, whatever is cached. */
    method GetBlockHeader(height: nat) returns (h: Option<Header>)
      requires Valid()
      modifies this`cachedBlockHeader
      ensures Valid()
      ensures Below(height, floor) ==> h == Stored(storage, height)
    {
      if height in cachedBlockHeader {
        return Some(cachedBlockHeader[height]);
      }
      if height in storage {
        SetToCache(storage[height]);
        return Some(storage[height]);
      }
      h := None;
    }

    method GetPreviousBlockChecksumOfHeight(height: nat) returns (r: Result<string>)
      requires Valid()
      modifies this`cachedBlockHeader
      ensures Valid()
      ensures Trusted(height, floor) ==> r == PreviousChecksum(storage, light, height)
    {
      if height == 0 {
        return Success(ZeroHash());
      }
      var previous := GetBlockHeader(height - 1);
      if previous.None? || previous.value.checksumRoot == "" {
        if light {
          return Success(ZeroHash());
        }
        return Failure("bad previous");
      }
      r := Success(previous.value.checksumRoot);
    }

    /** Answers yes exactly for an accepted header, and throws exactly when data or a proof is missing. */
    method ValidateBlockChecksum(h: Header) returns (r: Result<bool>)
      requires Valid()
      modifies this`cachedBlockHeader
      ensures Valid()
      ensures Trusted(h.height, floor) ==> (r == Success(true) <==> Accepted(crypto, storage, light, h))
      ensures Trusted(h.height, floor) ==> (r.Failure? <==> Throws(storage, light, h))
    {
      if h.checksumRoot == "" {
        return Failure("no checksum");
      }
      if !Complete(h) {
        return Failure("no block data");
      }
      var previous := GetPreviousBlockChecksumOfHeight(h.height);
      if previous.Failure? {
        return Failure(previous.error);
      }
      if h.previousBlockChecksum != previous.value {
        return Success(false);
      }
      r := VerifyProofs(h);
    }

    /** All six proofs are looked up, even after one has failed to verify. */
    method VerifyProofs(h: Header) returns (r: Result<bool>)
      requires h.proofs.Some?
      ensures r == Success(true) <==> AllProved(crypto, h)
      ensures r.Failure? <==> ProofMissing(h.proofs.value)
    {
      var valid := true;
      for i := 0 to 6
        invariant valid <==> forall k :: 0 <= k < i ==> Proves(crypto, h, k)
        invariant forall k :: 0 <= k < i ==> ProofFor(h.proofs.value, k).Success?
      {
        var proof := ProofFor(h.proofs.value, i);
        if proof.Failure? {
          assert !Proves(crypto, h, i) && ProofFor(h.proofs.value, i).Failure?;
          return Failure(proof.error);
        }
        assert Proves(crypto, h, i)
          <==> crypto.verify(crypto.decode(h.checksumRoot), i, Leaf(crypto, h, i), proof.value);
        valid := valid && crypto.verify(crypto.decode(h.checksumRoot), i, Leaf(crypto, h, i), proof.value);
      }
      r := Success(valid);
    }
  }

  // ----- the cache over whole runs -----

  datatype Headers = Headers(storage: map<nat, Header>, floor: Option<nat>)

  /** Headers and floor after the first `n` events. */
  function HeadersAfter(storage: map<nat, Header>, events: seq<Event>, n: nat): Headers
    requires n <= |events|
  {
    if n == 0 then Headers(storage, None) else
      var s, e := HeadersAfter(storage, events, n - 1), events[n - 1];
      Headers(StorageAfter(s.storage, e), FloorAfter(s.storage, s.floor, e))
  }

  ghost predicate Answers(storage: map<nat, Header>, events: seq<Event>, answers: seq<Option<Header>>) {
    && |answers| <= |events|
    && forall k :: 0 <= k < |answers| ==> RightAnswer(HeadersAfter(storage, events, k), events[k], answers[k])
  }

  predicate RightAnswer(s: Headers, e: Event, answer: Option<Header>) {
    e.ReadHeader? && Below(e.height, s.floor) ==> answer == Stored(s.storage, e.height)
  }

  /** In every run of stores, reverts, late hand-ins, block ends and reads, a read answers with the header stored at that
      moment whenever nothing at or below its height was written since the last clear. */
  method Simulate(crypto: Crypto, light: bool, caching: bool, storage: map<nat, Header>, events: seq<Event>)
    returns (answers: seq<Option<Header>>)
    requires forall k :: k in storage ==> storage[k].height == k
    ensures |answers| == |events| && Answers(storage, events, answers)
  {
    var v := new BlockHeaderValidator(crypto, light, caching, storage);
    answers := [];
    for n := 0 to |events|
      invariant fresh(v) && v.Valid()
      invariant Headers(v.storage, v.floor) == HeadersAfter(storage, events, n)
      invariant |answers| == n && Answers(storage, events, answers)
    {
      var answer: Option<Header> := None;
      match events[n] {
        case ReadHeader(height) => answer := v.GetBlockHeader(height);
        case Stores(h) => v.Save(h);
        case SetLast(h) => v.SetLastBlockHeader(h);
        case Reverts(from) => v.RevertFrom(from);
        case ClearCache => v.Clear();
      }
      OneMoreAnswer(storage, events, answers, answer);
      answers := answers + [answer];
    }
  }

  lemma OneMoreAnswer(storage: map<nat, Header>, events: seq<Event>, answers: seq<Option<Header>>, a: Option<Header>)
    requires Answers(storage, events, answers) && |answers| < |events|
    requires RightAnswer(HeadersAfter(storage, events, |answers|), events[|answers|], a)
    ensures Answers(storage, events, answers + [a])
  {
  }

  /** After a revert from `from`, and whatever header a cut-off task hands in late, the blocks from `from` on down read right:
      the header below `from` is trusted until the cache is cleared. */
  lemma RevertedHeadersAreNotRead(s: Headers, from: nat, late: Header)
    requires s.floor == None && from > 0 && late.height >= from
    ensures var storage := StorageAfter(s.storage, Reverts(from));
      var floor := FloorAfter(storage, FloorAfter(s.storage, s.floor, Reverts(from)), SetLast(late));
      Trusted(from, floor) && forall k :: k >= from ==> Stored(storage, k) == None && !Below(k, floor)
  {
  }

  // ----- whole runs in fields -----

  /** A store, a revert or the hand-in of a header that is not stored, at or below this height. */
  predicate Touches(storage: map<nat, Header>, e: Event, height: nat) {
    || (e.Stores? && e.header.height <= height)
    || (e.Reverts? && e.from <= height)
    || (e.SetLast? && e.header.height <= height && !(e.header.height in storage && storage[e.header.height] == e.header))
  }

  ghost predicate TouchedAt(storage: map<nat, Header>, events: seq<Event>, j: nat, height: nat)
    requires j < |events|
  {
    Touches(HeadersAfter(storage, events, j).storage, events[j], height)
  }

  /** Event `m` comes right after a clear, or first, and from it on nothing at or below the height is touched. */
  ghost predicate QuietSince(storage: map<nat, Header>, events: seq<Event>, m: nat, n: nat, height: nat)
    requires m <= n <= |events|
  {
    && (m == 0 || events[m - 1].ClearCache?)
    && forall j :: m <= j < n ==> !TouchedAt(storage, events, j, height)
  }

  ghost predicate Quiet(storage: map<nat, Header>, events: seq<Event>, n: nat, height: nat)
    requires n <= |events|
  {
    exists m :: 0 <= m <= n && QuietSince(storage, events, m, n, height)
  }

  /** The reads that `Simulate` answers for are those at heights below everything touched since the last clear. */
  lemma {:induction false} BelowMeans(storage: map<nat, Header>, events: seq<Event>, n: nat, height: nat)
    requires n <= |events|
    ensures Below(height, HeadersAfter(storage, events, n).floor) <==> Quiet(storage, events, n, height)
  {
    if n == 0 {
      assert QuietSince(storage, events, 0, 0, height);
    } else {
      BelowMeans(storage, events, n - 1, height);
      FloorStep(HeadersAfter(storage, events, n - 1), events[n - 1], height);
      QuietStep(storage, events, n, height);
    }
  }

  lemma QuietStep(storage: map<nat, Header>, events: seq<Event>, n: nat, height: nat)
    requires 0 < n <= |events|
    ensures Quiet(storage, events, n, height)
      <==> || events[n - 1].ClearCache?
           || (Quiet(storage, events, n - 1, height) && !TouchedAt(storage, events, n - 1, height))
  {
    var last, e := n - 1, events[n - 1];
    if Quiet(storage, events, n, height) {
      var m :| 0 <= m <= n && QuietSince(storage, events, m, n, height);
      assert m < n ==> QuietSince(storage, events, m, last, height);
    }
    if e.ClearCache? {
      assert QuietSince(storage, events, n, n, height);
    } else if Quiet(storage, events, last, height) && !TouchedAt(storage, events, last, height) {
      var m :| 0 <= m <= last && QuietSince(storage, events, m, last, height);
      assert QuietSince(storage, events, m, n, height);
    }
  }

  lemma FloorStep(s: Headers, e: Event, height: nat)
    ensures Below(height, FloorAfter(s.storage, s.floor, e))
      <==> e.ClearCache? || (Below(height, s.floor) && !Touches(s.storage, e, height))
  {
  }

  predicate Replaces(e: Event, height: nat) {
    (e.Stores? && e.header.height == height) || (e.Reverts? && e.from <= height)
  }

  ghost predicate KeptSince(events: seq<Event>, m: nat, n: nat, height: nat)
    requires n <= |events|
  {
    forall j :: m <= j < n ==> !Replaces(events[j], height)
  }

  /** The header stored at a height is the last one stored there, or the initial one, unless a revert has deleted it. */
  lemma {:induction false} StoredMeans(storage: map<nat, Header>, events: seq<Event>, n: nat, h: Header)
    requires n <= |events|
    ensures Stored(HeadersAfter(storage, events, n).storage, h.height) == Some(h)
      <==> || (h.height in storage && storage[h.height] == h && KeptSince(events, 0, n, h.height))
           || (exists j :: 0 <= j < n && events[j] == Stores(h) && KeptSince(events, j + 1, n, h.height))
  {
    if n > 0 {
      StoredMeans(storage, events, n - 1, h);
      if j :| 0 <= j < n - 1 && events[j] == Stores(h) && KeptSince(events, j + 1, n - 1, h.height) {
        assert !Replaces(events[n - 1], h.height) ==> KeptSince(events, j + 1, n, h.height);
      }
      if j :| 0 <= j < n && events[j] == Stores(h) && KeptSince(events, j + 1, n, h.height) {
        assert j < n - 1 ==> KeptSince(events, j + 1, n - 1, h.height);
      }
      if events[n - 1] == Stores(h) {
        assert KeptSince(events, n, n, h.height);
      }
    }
  }

  // ----- the newest root commits to every header -----

  /** A full node's headers 0 to `n`, every one of which passes validation. */
  ghost predicate Chain(c: Crypto, headers: map<nat, Header>, n: nat) {
    forall k :: 0 <= k <= n ==> k in headers && headers[k].height == k && Accepted(c, headers, false, headers[k])
  }

  ghost predicate SameContent(c: Crypto, a: Header, b: Header) {
    c.decode(a.checksumRoot) == c.decode(b.checksumRoot) && forall i :: 0 <= i < 6 ==> Leaf(c, a, i) == Leaf(c, b, i)
  }

  lemma SameRootSameLeaves(c: Crypto, a: map<nat, Header>, b: map<nat, Header>, x: Header, y: Header)
    requires Binding(c) && Accepted(c, a, false, x) && Accepted(c, b, false, y)
    requires c.decode(x.checksumRoot) == c.decode(y.checksumRoot)
    ensures SameContent(c, x, y)
  {
    forall i | 0 <= i < 6 ensures Leaf(c, x, i) == Leaf(c, y, i) {
      assert Proves(c, x, i) && Proves(c, y, i);
    }
  }

  lemma SamePreviousRoot(c: Crypto, x: Header, y: Header)
    requires SameContent(c, x, y)
    ensures c.decode(x.previousBlockChecksum) == c.decode(y.previousBlockChecksum)
  {
    assert Leaf(c, x, 1) == Leaf(c, y, 1);
  }

  ghost predicate Linked(headers: map<nat, Header>, n: nat) {
    && (forall k :: 0 <= k <= n ==> k in headers)
    && forall k :: 0 < k <= n ==> headers[k].previousBlockChecksum == headers[k - 1].checksumRoot
  }

  lemma LinksBack(c: Crypto, headers: map<nat, Header>, n: nat)
    requires Chain(c, headers, n)
    ensures Linked(headers, n)
  {
    forall k | 0 < k <= n ensures headers[k].previousBlockChecksum == headers[k - 1].checksumRoot {
      LinkAt(c, headers, headers[k]);
    }
  }

  lemma LinkAt(c: Crypto, headers: map<nat, Header>, h: Header)
    requires Accepted(c, headers, false, h) && h.height > 0
    ensures h.height - 1 in headers && h.previousBlockChecksum == headers[h.height - 1].checksumRoot
  {
  }

  /** Two full nodes whose validated header chains share the checksum root at height `n` agree on every block
      hash, previous hash, previous checksum, Merkle root, storage root and receipt root up to `n`. */
  lemma ChecksumCommits(c: Crypto, a: map<nat, Header>, b: map<nat, Header>, n: nat, k: nat)
    requires Binding(c) && Chain(c, a, n) && Chain(c, b, n)
    requires c.decode(a[n].checksumRoot) == c.decode(b[n].checksumRoot)
    requires k <= n
    ensures SameContent(c, a[k], b[k])
    ensures c.decode(a[k].hash) == c.decode(b[k].hash)
    ensures c.decode(a[k].previousBlockChecksum) == c.decode(b[k].previousBlockChecksum)
    ensures c.decode(a[k].merkleRoot) == c.decode(b[k].merkleRoot)
    ensures c.decode(a[k].storageRoot) == c.decode(b[k].storageRoot)
    ensures c.decode(a[k].receiptRoot) == c.decode(b[k].receiptRoot)
    ensures a[k].previousBlockHash != "" && b[k].previousBlockHash != "" ==>
      c.decode(a[k].previousBlockHash) == c.decode(b[k].previousBlockHash)
  {
    forall m | 0 <= m <= n && c.decode(a[m].checksumRoot) == c.decode(b[m].checksumRoot)
      ensures SameContent(c, a[m], b[m])
    {
      SameRootSameLeaves(c, a, b, a[m], b[m]);
    }
    LinksBack(c, a, n);
    LinksBack(c, b, n);
    Descend(c, a, b, n, k);
    SameFields(c, a[k], b[k]);
  }

  lemma SameFields(c: Crypto, x: Header, y: Header)
    requires SameContent(c, x, y)
    ensures c.decode(x.hash) == c.decode(y.hash) && c.decode(x.previousBlockChecksum) == c.decode(y.previousBlockChecksum)
    ensures c.decode(x.merkleRoot) == c.decode(y.merkleRoot) && c.decode(x.storageRoot) == c.decode(y.storageRoot)
    ensures c.decode(x.receiptRoot) == c.decode(y.receiptRoot)
    ensures x.previousBlockHash != "" && y.previousBlockHash != "" ==> c.decode(x.previousBlockHash) == c.decode(y.previousBlockHash)
  {
    assert Leaf(c, x, 0) == Leaf(c, y, 0) && Leaf(c, x, 1) == Leaf(c, y, 1) && Leaf(c, x, 2) == Leaf(c, y, 2);
    assert Leaf(c, x, 3) == Leaf(c, y, 3) && Leaf(c, x, 4) == Leaf(c, y, 4) && Leaf(c, x, 5) == Leaf(c, y, 5);
  }

  lemma {:induction false} Descend(c: Crypto, a: map<nat, Header>, b: map<nat, Header>, n: nat, k: nat)
    requires Linked(a, n) && Linked(b, n) && k <= n
    requires forall m :: 0 <= m <= n && c.decode(a[m].checksumRoot) == c.decode(b[m].checksumRoot)
               ==> SameContent(c, a[m], b[m])
    requires c.decode(a[n].checksumRoot) == c.decode(b[n].checksumRoot)
    ensures SameContent(c, a[k], b[k])
  {
    if k < n {
      SamePreviousRoot(c, a[n], b[n]);
      Descend(c, a, b, n - 1, k);
    }
  }

  /** A header that was altered at any height gives a different root at every validated height above it. */
  lemma AlterationChangesRoot(c: Crypto, a: map<nat, Header>, b: map<nat, Header>, n: nat, k: nat)
    requires Binding(c) && Chain(c, a, n) && Chain(c, b, n) && k <= n
    requires || !SameContent(c, a[k], b[k])
             || c.decode(a[k].hash) != c.decode(b[k].hash)
             || c.decode(a[k].previousBlockChecksum) != c.decode(b[k].previousBlockChecksum)
             || c.decode(a[k].merkleRoot) != c.decode(b[k].merkleRoot)
             || c.decode(a[k].storageRoot) != c.decode(b[k].storageRoot)
             || c.decode(a[k].receiptRoot) != c.decode(b[k].receiptRoot)
             || c.decode(a[k].checksumRoot) != c.decode(b[k].checksumRoot)
    ensures forall m :: k <= m <= n ==> c.decode(a[m].checksumRoot) != c.decode(b[m].checksumRoot)
  {
    forall m | k <= m <= n ensures c.decode(a[m].checksumRoot) != c.decode(b[m].checksumRoot) {
      if c.decode(a[m].checksumRoot) == c.decode(b[m].checksumRoot) {
        ChecksumCommits(c, a, b, m, k);
      }
    }
  }
}
