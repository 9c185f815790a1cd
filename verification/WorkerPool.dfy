/** `WorkerPoolManager`: wrapping task ids, per-worker callback tables and who gets which reply. */
module WorkerPool {
  import opened Common

  /** Ids are unsigned 32-bit: `(seq + 1) >>> 0` wraps to zero. */
  const IDS := 0x1_0000_0000

  type Id = x: nat | x < IDS

  /** A callback table is a JavaScript `Map` in insertion order; `call` numbers the `parse` call that owns the
      callbacks, and in a worker's mailbox the call whose task it is. */
  datatype Entry = Entry(id: Id, call: nat)

  type Table = seq<Entry>

  function Next(id: Id): Id {
    if id + 1 == IDS then 0 else id + 1
  }

  /** Steps from `a` forward to `b`, around the circle of ids. */
  function Distance(a: Id, b: Id): nat {
    if a <= b then b - a else b - a + IDS
  }

  /** Ids count up modulo 2^32, and the distance is the number of steps. */
  lemma NextMeans(a: Id, b: Id)
    ensures Next(a) == (a + 1) % 0x1_0000_0000
    ensures Distance(a, b) < 0x1_0000_0000 && (a + Distance(a, b)) % 0x1_0000_0000 == b
  {
  }

  predicate Has(list: Table, id: Id) {
    exists i :: 0 <= i < |list| && list[i].id == id
  }

  // ----- a free id exists -----

  function Ids(list: Table): (r: set<Id>)
    ensures |r| <= |list|
    ensures forall id :: id in r <==> Has(list, id)
  {
    if list == [] then {} else
      var init, e := list[..|list| - 1], list[|list| - 1];
      assert forall i :: 0 <= i < |init| ==> init[i] == list[i];
      assert forall id :: Has(list, id) <==> Has(init, id) || id == e.id;
      Ids(init) + {e.id}
  }

  lemma {:induction false} Pigeonhole(used: set<Id>, bound: nat) returns (free: Id)
    requires |used| < bound <= IDS
    ensures free < bound && free !in used
  {
    if bound - 1 !in used {
      free := bound - 1;
    } else {
      free := Pigeonhole(used - {bound - 1}, bound - 1);
    }
  }

  // ----- whose reply it is -----

  ghost predicate OneOwnerPerId(list: Table) {
    forall i, j :: 0 <= i < j < |list| ==> list[i].id != list[j].id
  }

  /** Every task a worker still works on is registered under its id for the call that posted it. */
  ghost predicate Owned(list: Table, mail: Table) {
    && OneOwnerPerId(list) && OneOwnerPerId(mail)
    && forall k :: 0 <= k < |mail| ==> mail[k] in list
  }

  function Without<T>(s: seq<T>, k: nat): seq<T>
    requires k < |s|
  {
    s[..k] + s[k + 1..]
  }

  /** The entry found under a reply's id is the owner's, and taking both out keeps all other owners. */
  lemma ReplyFindsOwner(list: Table, mail: Table, j: nat, k: nat)
    requires Owned(list, mail) && j < |list| && k < |mail| && list[j].id == mail[k].id
    ensures list[j] == mail[k]
    ensures Owned(Without(list, j), Without(mail, k))
  {
    var i :| 0 <= i < |list| && list[i] == mail[k];
    assert i == j;
    var rest, left := Without(list, j), Without(mail, k);
    forall m | 0 <= m < |left| ensures left[m] in rest {
      var was := if m < k then m else m + 1;
      assert left[m] == mail[was] && mail[was].id != mail[k].id;
      var at :| 0 <= at < |list| && list[at] == mail[was];
      assert rest[if at < j then at else at - 1] == list[at];
    }
  }

  // ----- counting callbacks -----

  /** How often a call's callbacks are registered in a table, in all tables, and how often they were fired. */
  function InTable(list: Table, call: nat): nat {
    if list == [] then 0 else
      InTable(list[..|list| - 1], call) + if list[|list| - 1].call == call then 1 else 0
  }

  function InTables(lists: seq<Table>, call: nat): nat {
    if lists == [] then 0 else InTables(lists[..|lists| - 1], call) + InTable(lists[|lists| - 1], call)
  }

  lemma {:induction false} InTableWithout(list: Table, k: nat, call: nat)
    requires k < |list|
    ensures InTable(list, call) == InTable(Without(list, k), call) + if list[k].call == call then 1 else 0
  {
    var n := |list| - 1;
    if k < n {
      InTableWithout(list[..n], k, call);
      assert Without(list, k) == Without(list[..n], k) + [list[n]];
    } else {
      assert Without(list, k) == list[..n];
    }
  }

  lemma {:induction false} InTablesUpdate(lists: seq<Table>, w: nat, list: Table, call: nat)
    requires w < |lists|
    ensures InTables(lists[w := list], call) + InTable(lists[w], call) == InTables(lists, call) + InTable(list, call)
  {
    var n, updated := |lists| - 1, lists[w := list];
    if w < n {
      InTablesUpdate(lists[..n], w, list, call);
      assert updated[..n] == lists[..n][w := list];
    } else {
      assert updated[..n] == lists[..n];
    }
  }

  ghost predicate AllOwned(lists: seq<Table>, mails: seq<Table>) {
    && |lists| == |mails|
    && forall w :: 0 <= w < |lists| ==> Owned(lists[w], mails[w])
  }

  lemma Registration(lists: seq<Table>, mails: seq<Table>, w: nat, e: Entry)
    requires AllOwned(lists, mails) && w < |lists| && !Has(lists[w], e.id)
    ensures AllOwned(lists[w := lists[w] + [e]], mails)
    ensures AllOwned(lists[w := lists[w] + [e]], mails[w := mails[w] + [e]])
    ensures forall c :: InTables(lists[w := lists[w] + [e]], c) == InTables(lists, c) + if e.call == c then 1 else 0
  {
    forall c ensures InTables(lists[w := lists[w] + [e]], c) == InTables(lists, c) + if e.call == c then 1 else 0 {
      InTablesUpdate(lists, w, lists[w] + [e], c);
    }
  }

  lemma Delivery(lists: seq<Table>, mails: seq<Table>, w: nat, j: nat, k: nat)
    requires AllOwned(lists, mails) && w < |lists| && j < |lists[w]| && k < |mails[w]|
    requires lists[w][j].id == mails[w][k].id
    ensures lists[w][j] == mails[w][k]
    ensures AllOwned(lists[w := Without(lists[w], j)], mails[w := Without(mails[w], k)])
    ensures forall c ::
      InTables(lists, c) == InTables(lists[w := Without(lists[w], j)], c) + if lists[w][j].call == c then 1 else 0
  {
    ReplyFindsOwner(lists[w], mails[w], j, k);
    forall c ensures
        InTables(lists, c) == InTables(lists[w := Without(lists[w], j)], c) + if lists[w][j].call == c then 1 else 0
    {
      InTableWithout(lists[w], j, c);
      InTablesUpdate(lists, w, Without(lists[w], j), c);
    }
  }

  lemma Clearing(lists: seq<Table>, mails: seq<Table>, w: nat)
    requires AllOwned(lists, mails) && w < |lists|
    ensures AllOwned(lists[w := []], mails[w := []])
    ensures forall c :: InTables(lists, c) == InTables(lists[w := []], c) + InTable(lists[w], c)
  {
    forall c ensures InTables(lists, c) == InTables(lists[w := []], c) + InTable(lists[w], c) {
      InTablesUpdate(lists, w, [], c);
    }
  }

  /** A callback was fired: with the worker's answer to some call's task, or with an error of the pool's own. */
  datatype Firing = Answer(call: nat, task: nat, ok: bool) | Rejected(call: nat)

  function Fired(log: seq<Firing>, call: nat): nat {
    if log == [] then 0 else Fired(log[..|log| - 1], call) + if log[|log| - 1].call == call then 1 else 0
  }

  /** Positions of a call's entries in a table, and of its firings in the log. */
  ghost function EntriesOf(list: Table, call: nat): set<nat> {
    set i: nat | i < |list| && list[i].call == call
  }

  ghost function FiringsOf(log: seq<Firing>, call: nat): set<nat> {
    set i: nat | i < |log| && log[i].call == call
  }

  lemma {:induction false} InTableMeans(list: Table, call: nat)
    ensures InTable(list, call) == |EntriesOf(list, call)|
  {
    if list != [] {
      var last, init := |list| - 1, list[..|list| - 1];
      InTableMeans(init, call);
      assert forall i :: 0 <= i < last ==> init[i] == list[i];
      OneMorePosition(EntriesOf(init, call), last, list[last].call == call, EntriesOf(list, call));
    }
  }

  lemma {:induction false} FiredMeans(log: seq<Firing>, call: nat)
    ensures Fired(log, call) == |FiringsOf(log, call)|
  {
    if log != [] {
      var last, init := |log| - 1, log[..|log| - 1];
      FiredMeans(init, call);
      assert forall i :: 0 <= i < last ==> init[i] == log[i];
      OneMorePosition(FiringsOf(init, call), last, log[last].call == call, FiringsOf(log, call));
    }
  }

  /** Firings past and still possible. */
  function Balance(log: seq<Firing>, lists: seq<Table>, call: nat): nat {
    Fired(log, call) + InTables(lists, call)
  }

  /** How often a call's callbacks fire in the end: twice when `postMessage` throws, since the table keeps them. */
  function Firings(poolSize: nat, posts: bool): nat {
    if poolSize > 0 && !posts then 2 else 1
  }

  ghost predicate RightAnswers(log: seq<Firing>) {
    forall i :: 0 <= i < |log| && log[i].Answer? ==> log[i].task == log[i].call
  }

  class WorkerPoolManager {
    var inflight: seq<Table>
    var seqNo: Id
    var cursor: nat
    var log: seq<Firing>

    /** Tasks the workers hold, and which workers still run. */
    var mail: seq<Table>
    var alive: seq<bool>

    ghost predicate Valid()
      reads this
    {
      && |alive| == |inflight| && (inflight != [] ==> cursor < |inflight|)
      && AllOwned(inflight, mail)
      && RightAnswers(log)
    }

    constructor (poolSize: nat)
      ensures Valid() && |inflight| == poolSize && cursor == 0 && seqNo == 0 && log == []
      ensures forall w :: 0 <= w < poolSize ==> inflight[w] == [] && alive[w]
      ensures forall c :: Balance(log, inflight, c) == 0
    {
      inflight, mail, alive := seq(poolSize, _ => []), seq(poolSize, _ => []), seq(poolSize, _ => true);
      seqNo, cursor, log := 0, 0, [];
      new;
      NoCalls(inflight);
    }

    method NextWorker() returns (w: nat)
      requires 0 <= cursor < |inflight|
      modifies this`cursor
      ensures w == old(cursor) && cursor == NextSlot(old(cursor), |inflight|)
    {
      w := cursor;
      cursor := (cursor + 1) % |inflight|;
    }

    /** The search ends because some id is free; it returns the first free one after `seq`, around the wrap. */
    method NextId(list: Table) returns (id: Id)
      requires |list| < IDS
      modifies this`seqNo
      ensures id == seqNo && !Has(list, id)
      ensures forall x: Id :: 0 < Distance(old(seqNo), x) <= Distance(Next(old(seqNo)), id) ==> Has(list, x)
    {
      ghost var free := Pigeonhole(Ids(list), IDS);
      seqNo := Next(seqNo);
      while Has(list, seqNo)
        invariant forall x: Id :: 0 < Distance(old(seqNo), x) <= Distance(Next(old(seqNo)), seqNo) ==> Has(list, x)
        decreases Distance(seqNo, free)
      {
        seqNo := Next(seqNo);
      }
      id := seqNo;
    }

    /** `posts` says whether `postMessage` returns; when it throws, the caller is rejected but stays registered. */
    method Parse(call: nat, posts: bool) returns (w: nat)
      requires Valid() && (inflight != [] ==> |inflight[cursor]| < IDS)
      modifies this
      ensures Valid() && |inflight| == |old(inflight)|
      ensures w == old(cursor) && (inflight != [] ==> cursor == NextSlot(old(cursor), |inflight|))
      ensures forall c ::
        Balance(log, inflight, c) == Balance(old(log), old(inflight), c) + if c == call then Firings(|inflight|, posts) else 0
      ensures inflight != [] ==> !Has(old(inflight)[w], seqNo)
      ensures inflight != [] ==> inflight == old(inflight)[w := old(inflight)[w] + [Entry(seqNo, call)]]
      ensures mail == if inflight != [] && posts && alive[w] then old(mail)[w := old(mail)[w] + [Entry(seqNo, call)]] else old(mail)
      ensures log == if inflight != [] && posts then old(log) else old(log) + [Rejected(call)]
      ensures alive == old(alive)
    {
      w := cursor;
      if inflight == [] {
        log := log + [Rejected(call)];
        return;
      }
      w := NextWorker();
      var id := NextId(inflight[w]);
      var e := Entry(id, call);
      Registration(inflight, mail, w, e);
      inflight := inflight[w := inflight[w] + [e]];
      if !posts {
        log := log + [Rejected(call)];
      } else if alive[w] {
        mail := mail[w := mail[w] + [e]];
      }
    }

    /** `list.get(id)`, as a position, or the length when the id is unknown. */
    method Find(list: Table, id: Id) returns (j: nat)
      ensures j <= |list| && (j < |list| ==> list[j].id == id)
      ensures j == |list| <==> !Has(list, id)
    {
      for n := 0 to |list|
        invariant forall i :: 0 <= i < n ==> list[i].id != id
      {
        if list[n].id == id {
          return n;
        }
      }
      j := |list|;
    }

    /** The answer to the `k`-th task a worker holds reaches the call that posted that task. */
    method OnMessage(w: nat, k: nat, ok: bool)
      requires Valid() && w < |inflight| && k < |mail[w]|
      modifies this
      ensures Valid() && |inflight| == |old(inflight)| && cursor == old(cursor)
      ensures forall c :: Balance(log, inflight, c) == Balance(old(log), old(inflight), c)
      ensures var call := old(mail[w][k].call); log == old(log) + [Answer(call, call, ok)]
      ensures mail == old(mail)[w := Without(old(mail[w]), k)]
    {
      var list, reply := inflight[w], mail[w][k];
      var j := Find(list, reply.id);
      assert reply in list;
      Delivery(inflight, mail, w, j, k);
      inflight := inflight[w := Without(list, j)];
      mail := mail[w := Without(mail[w], k)];
      log := log + [Answer(list[j].call, reply.call, ok)];
    }

    /** The `error` event, and the `exit` event with a non-zero code: the worker is gone, its callers are rejected. */
    method OnFailure(w: nat)
      requires Valid() && w < |inflight|
      modifies this
      ensures Valid() && |inflight| == |old(inflight)| && cursor == old(cursor)
      ensures old(log) <= log && forall c :: Balance(log, inflight, c) == Balance(old(log), old(inflight), c)
      ensures inflight == old(inflight)[w := []] && alive == old(alive)[w := false]
    {
      var list := inflight[w];
      for n := 0 to |list|
        invariant |log| == |old(log)| + n && old(log) <= log && RightAnswers(log)
        invariant forall c :: Fired(log, c) == Fired(old(log), c) + InTable(list[..n], c)
        invariant inflight == old(inflight) && mail == old(mail) && alive == old(alive) && cursor == old(cursor)
      {
        assert list[..n + 1][..n] == list[..n];
        log := log + [Rejected(list[n].call)];
      }
      assert list[..|list|] == list;
      Clearing(inflight, mail, w);
      inflight, mail, alive := inflight[w := []], mail[w := []], alive[w := false];
    }

    method Close()
      requires Valid()
      modifies this
      ensures Valid() && |inflight| == |old(inflight)| && cursor == old(cursor)
      ensures forall c :: Balance(log, inflight, c) == Balance(old(log), old(inflight), c)
      ensures forall w :: 0 <= w < |inflight| ==> inflight[w] == []
      ensures forall c :: InTables(inflight, c) == 0
    {
      for w := 0 to |inflight|
        invariant Valid() && |inflight| == |old(inflight)| && cursor == old(cursor)
        invariant forall c :: Balance(log, inflight, c) == Balance(old(log), old(inflight), c)
        invariant forall v :: 0 <= v < w ==> inflight[v] == []
      {
        OnFailure(w);
      }
      NoCalls(inflight);
    }
  }

  lemma {:induction false} NoCalls(lists: seq<Table>)
    requires forall w :: 0 <= w < |lists| ==> lists[w] == []
    ensures forall c :: InTables(lists, c) == 0
  {
    if lists != [] {
      NoCalls(lists[..|lists| - 1]);
    }
  }
  // ----- whole runs -----

  datatype Event = ParseCall(posts: bool) | WorkerReply(w: nat, k: nat, ok: bool) | WorkerFails(w: nat) | ClosePool

  /** How many of the first `n` events are calls of `parse`. */
  function Parses(events: seq<Event>, n: nat): nat
    requires n <= |events|
  {
    if n == 0 then 0 else Parses(events, n - 1) + if events[n - 1].ParseCall? then 1 else 0
  }

  /** How often the callbacks of a call are due after `n` events. */
  function Due(poolSize: nat, events: seq<Event>, n: nat, call: nat): nat
    requires n <= |events|
  {
    if n == 0 then 0 else
      var e := events[n - 1];
      Due(poolSize, events, n - 1, call)
      + if e.ParseCall? && Parses(events, n - 1) == call then Firings(poolSize, e.posts) else 0
  }

  ghost predicate NeverThrows(events: seq<Event>) {
    forall i :: 0 <= i < |events| && events[i].ParseCall? ==> events[i].posts
  }

  /** The post of this call threw. */
  ghost predicate PostThrew(events: seq<Event>, n: nat, call: nat)
    requires n <= |events|
  {
    exists i :: 0 <= i < n && events[i].ParseCall? && !events[i].posts && Parses(events, i) == call
  }

  /** A call's callbacks are due twice if and only if its own post threw, otherwise once. */
  lemma {:induction false} DueTwiceExactlyWhen(poolSize: nat, events: seq<Event>, n: nat, call: nat)
    requires n <= |events|
    ensures call >= Parses(events, n) ==> Due(poolSize, events, n, call) == 0 && !PostThrew(events, n, call)
    ensures call < Parses(events, n) ==> Due(poolSize, events, n, call) == if poolSize > 0 && PostThrew(events, n, call) then 2 else 1
  {
    if n > 0 {
      DueTwiceExactlyWhen(poolSize, events, n - 1, call);
    }
  }

  lemma AllDueOnce(poolSize: nat, events: seq<Event>, n: nat)
    requires n <= |events| && NeverThrows(events)
    ensures forall c: nat :: Due(poolSize, events, n, c) == if c < Parses(events, n) then 1 else 0
  {
    forall c: nat ensures Due(poolSize, events, n, c) == if c < Parses(events, n) then 1 else 0 {
      DueTwiceExactlyWhen(poolSize, events, n, c);
      assert !PostThrew(events, n, c);
    }
  }

  /** The slot after `c`, around the pool. */
  function NextSlot(c: nat, size: nat): nat {
    if c + 1 == size then 0 else c + 1
  }

  /** Whose turn the `n`-th call is. */
  function Turn(n: nat, size: nat): nat {
    if n == 0 then 0 else NextSlot(Turn(n - 1, size), size)
  }

  lemma {:induction false} TurnIsRemainder(n: nat, size: nat)
    requires size > 0
    ensures Turn(n, size) == n % size
  {
    if n > 0 {
      TurnIsRemainder(n - 1, size);
      NextRemainder(n - 1, size);
    }
  }

  lemma NextRemainder(n: nat, size: nat)
    requires size > 0
    ensures (n + 1) % size == NextSlot(n % size, size)
  {
    var q, r := n / size, n % size;
    if r + 1 == size {
      Distribute(size, q);
      Remainder(n + 1, size, q + 1, 0);
    } else {
      Remainder(n + 1, size, q, r + 1);
    }
  }

  lemma Distribute(size: nat, q: nat)
    ensures size * (q + 1) == size * q + size
  {
  }

  lemma Remainder(n: nat, size: nat, q: nat, r: nat)
    requires r < size && n == size * q + r
    ensures n % size == r
  {
    var d := n / size - q;
    Multiples(size, d);
    assert n == size * (n / size) + n % size;
  }

  lemma Multiples(size: nat, d: int)
    ensures d >= 1 ==> size * d >= size
    ensures d <= -1 ==> size * d + size <= 0
  {
  }

  /** Every run, up to the point where the worker whose turn it is has all ids in flight and the search would not
      end: each answer fires the callbacks of the call that posted its task, each call's callbacks are fired or
      registered exactly as often as they are due, and closing the pool leaves none behind. */
  method Simulate(poolSize: nat, events: seq<Event>)
    returns (n: nat, log: seq<Firing>, inflight: seq<Table>, turns: seq<nat>)
    ensures n <= |events| && |inflight| == poolSize
    ensures n < |events| ==> events[n].ParseCall? && poolSize > 0 && IsFull(inflight, Turn(Parses(events, n), poolSize))
    ensures RightAnswers(log)
    ensures forall c :: Balance(log, inflight, c) == Due(poolSize, events, n, c)
    ensures NeverThrows(events) ==> forall c: nat :: Balance(log, inflight, c) == if c < Parses(events, n) then 1 else 0
    ensures n > 0 && events[n - 1].ClosePool? ==> forall c :: Fired(log, c) == Due(poolSize, events, n, c)
    ensures |turns| == Parses(events, n) && (poolSize > 0 ==> InTurn(turns, poolSize))
  {
    var pool := new WorkerPoolManager(poolSize);
    n, turns := 0, [];
    while n < |events|
      invariant n <= |events| && fresh(pool) && pool.Valid() && |pool.inflight| == poolSize
      invariant |turns| == Parses(events, n)
      invariant poolSize > 0 ==> pool.cursor == Turn(|turns|, poolSize) && InTurn(turns, poolSize)
      invariant forall c :: Balance(pool.log, pool.inflight, c) == Due(poolSize, events, n, c)
      invariant n > 0 && events[n - 1].ClosePool? ==> forall c :: InTables(pool.inflight, c) == 0
    {
      if events[n].ParseCall? && poolSize > 0 && |pool.inflight[pool.cursor]| >= IDS {
        break;
      }
      var w := Handle(pool, events[n], |turns|);
      turns := if events[n].ParseCall? then turns + [w] else turns;
      n := n + 1;
    }
    log, inflight := pool.log, pool.inflight;
    if NeverThrows(events) {
      AllDueOnce(poolSize, events, n);
    }
  }

  /** Workers take turns. */
  ghost predicate InTurn(turns: seq<nat>, poolSize: nat) {
    forall i :: 0 <= i < |turns| ==> turns[i] == Turn(i, poolSize)
  }

  /** Every id is taken. */
  ghost predicate IsFull(inflight: seq<Table>, w: nat) {
    w < |inflight| && |inflight[w]| >= IDS
  }

  /** One event; `call` is the number of the next `parse` call. */
  method Handle(pool: WorkerPoolManager, e: Event, call: nat) returns (w: nat)
    requires pool.Valid() && (e.ParseCall? && pool.inflight != [] ==> |pool.inflight[pool.cursor]| < IDS)
    modifies pool
    ensures pool.Valid() && |pool.inflight| == |old(pool.inflight)| && w == old(pool.cursor)
    ensures pool.inflight != [] ==> pool.cursor == if e.ParseCall? then NextSlot(w, |pool.inflight|) else w
    ensures forall c ::
      Balance(pool.log, pool.inflight, c)
      == Balance(old(pool.log), old(pool.inflight), c) + if e.ParseCall? && c == call then Firings(|pool.inflight|, e.posts) else 0
    ensures e.ClosePool? ==> forall c :: InTables(pool.inflight, c) == 0
  {
    w := pool.cursor;
    match e {
      case ParseCall(posts) => w := pool.Parse(call, posts);
      case WorkerReply(v, k, ok) =>
        if v < |pool.inflight| && k < |pool.mail[v]| {
          pool.OnMessage(v, k, ok);
        }
      case WorkerFails(v) =>
        if v < |pool.inflight| {
          pool.OnFailure(v);
        }
      case ClosePool => pool.Close();
    }
  }

  /** One call whose post throws on a pool of one worker: its caller is rejected at once, and again by the closing
      pool. */
  method ThrowingPostFiresTwice() returns (log: seq<Firing>)
    ensures Fired(log, 0) == 2
  {
    var pool := new WorkerPoolManager(1);
    var w := pool.Parse(0, false);
    assert Balance(pool.log, pool.inflight, 0) == 2;
    pool.Close();
    log := pool.log;
  }
}
