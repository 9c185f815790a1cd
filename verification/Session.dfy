/** `ProtocolHandler` driving one `WebSocketClient`: connection states, the handshake gate and in-flight accounting. */
module Session {
  import opened RequestIds
  import opened RateLimit

  const PING: Byte := 0x00
  const HANDSHAKE: Byte := 0x01
  const PROTOCOL_VERSION := 1

  datatype ConnectionState = Connected | Ready | Closing | Closed

  function Rank(s: ConnectionState): nat {
    match s
    case Connected => 0
    case Ready => 1
    case Closing => 2
    case Closed => 3
  }

  /** Forward means never back to fresh, never out of closing but to closed, and never out of closed. */
  lemma RankMeans(a: ConnectionState, b: ConnectionState)
    ensures Rank(a) <= Rank(b) <==> a == b || a == Connected || (a == Ready && b != Connected) || (a == Closing && b == Closed)
  {
  }

  predicate Active(s: ConnectionState) {
    s == Connected || s == Ready
  }

  /** `core` says of each registered opcode whether it requires the handshake. */
  datatype Config = Config(maxPendingRequests: nat, maxRequestsPerSecond: nat, plugins: bool, core: map<Byte, bool>)

  /** `OpcodeRegistry` exempts ping and handshake only. */
  predicate Standard(cfg: Config) {
    && PING in cfg.core && HANDSHAKE in cfg.core
    && forall op :: op in cfg.core ==> (cfg.core[op] <==> op != PING && op != HANDSHAKE)
  }

  /** What the client says of itself, and whether the server manages to build its reply. */
  datatype Hello = Hello(protocolVersion: int, clientNameLength: nat, replyBuilds: bool)

  datatype Outcome = Replies | Fails(fatal: bool)

  /** What can happen to a connection.  `unpacks` and `hello` are what the protobuf decoder makes of a message,
      `hasHandler` whether a handler is installed for its opcode, `now` the clock. */
  datatype Event =
    | Receive(raw: seq<Byte>, unpacks: bool, hello: Hello, hasHandler: bool, now: int)
    | HandlerDone(k: nat, outcome: Outcome)
    | ServerCloses
    | SocketClosed

  predicate IsPluginOpcode(cfg: Config, opcode: Byte) {
    cfg.plugins && 0xA0 <= opcode < 0xE0
  }

  /** A message that carries a request id and names a request somebody can serve. */
  predicate IsRequest(cfg: Config, e: Event) {
    && e.Receive? && |e.raw| >= 5
    && if IsPluginOpcode(cfg, e.raw[0]) then e.hasHandler
       else e.raw[0] in cfg.core && e.raw[0] != PING && e.raw[0] != HANDSHAKE
  }

  function RequestId(cfg: Config, e: Event): Int32
    requires IsRequest(cfg, e)
  {
    Decode(e.raw[1..])
  }

  /** A handshake the server accepts. */
  predicate GoodHandshake(e: Event) {
    && e.Receive? && |e.raw| >= 5 && e.raw[0] == HANDSHAKE && e.unpacks
    && e.hello.protocolVersion == PROTOCOL_VERSION && 0 < e.hello.clientNameLength <= 64 && e.hello.replyBuilds
  }

  /** A connection's state, the ids of its suspended handlers, and the ids it has answered. */
  datatype Ledger = Ledger(state: ConnectionState, inFlight: seq<Int32>, answered: seq<Int32>)

  /** A request is served, or answered at once with an error. */
  function WithRequest(b: Ledger, id: Int32, served: bool): Ledger {
    if served then b.(inFlight := b.inFlight + [id]) else b.(answered := b.answered + [id])
  }

  function StateAfter(cfg: Config, s: ConnectionState, e: Event): ConnectionState
    requires e.Receive?
  {
    if !Active(s) then s
    else if |e.raw| == 0 then Closed
    else if IsPluginOpcode(cfg, e.raw[0]) then if s == Ready && e.hasHandler then Ready else Closed
    else if e.raw[0] !in cfg.core then Closed
    else if s == Ready || e.raw[0] == PING then s
    else if GoodHandshake(e) then Ready
    else Closed
  }

  /** What a message means: a request of a ready session gets an owner, anything else only moves the state. */
  function AfterMessage(cfg: Config, b: Ledger, e: Event, room: bool): Ledger
    requires e.Receive?
  {
    if b.state == Ready && IsRequest(cfg, e) then WithRequest(b, RequestId(cfg, e), e.unpacks && e.hasHandler && room)
    else b.(state := StateAfter(cfg, b.state, e))
  }

  /** A handler comes back: its id is answered if anybody is still there, and a fatal error closes the connection. */
  function AfterHandler(b: Ledger, k: nat, outcome: Outcome): Ledger
    requires k < |b.inFlight|
  {
    Ledger(if Active(b.state) && outcome == Fails(true) then Closed else b.state,
           b.inFlight[..k] + b.inFlight[k + 1..],
           if Active(b.state) then b.answered + [b.inFlight[k]] else b.answered)
  }

  /** The ids a client has asked with in the first `n` events. */
  function Asked(cfg: Config, events: seq<Event>, n: nat): seq<Int32>
    requires n <= |events|
  {
    if n == 0 then []
    else Asked(cfg, events, n - 1) + if IsRequest(cfg, events[n - 1]) then [RequestId(cfg, events[n - 1])] else []
  }

  // ----- what a message means, in bytes -----

  /** A message asks with the id in its bytes 1 to 4, under a plugin opcode with a handler or any registered opcode but
      those of ping and handshake. */
  lemma RequestMeans(cfg: Config, e: Event)
    requires e.Receive?
    ensures IsRequest(cfg, e)
      <==> && |e.raw| >= 5
           && var opcode: Byte := e.raw[0];
             if cfg.plugins && 0xA0 <= opcode < 0xE0 then e.hasHandler else opcode in cfg.core && opcode != 0 && opcode != 1
    ensures IsRequest(cfg, e) ==> Encode(RequestId(cfg, e)) == e.raw[1..5]
  {
    if IsRequest(cfg, e) {
      BytesRoundTrip(e.raw[1..]);
      assert e.raw[1..][..4] == e.raw[1..5];
    }
  }

  /** Before the handshake a good one makes the session ready, a ping changes nothing and anything else closes. */
  lemma FirstMessageMeans(cfg: Config, b: Ledger, e: Event, room: bool)
    requires Standard(cfg) && e.Receive? && b.state == Connected
    ensures var b' := AfterMessage(cfg, b, e, room); var opcode := if e.raw == [] then 0xFF else e.raw[0];
      && b'.inFlight == b.inFlight && b'.answered == b.answered
      && (b'.state == Ready <==> opcode == 1 && |e.raw| >= 5 && e.unpacks && e.hello.protocolVersion == 1
                                 && 1 <= e.hello.clientNameLength <= 64 && e.hello.replyBuilds)
      && (b'.state == Connected <==> opcode == 0)
      && (b'.state != Ready && b'.state != Connected ==> b'.state == Closed)
  {
  }

  /** In a ready session a request gets an owner, an empty message, an unknown opcode or a plugin opcode without a handler
      closes, and anything else changes nothing. */
  lemma LaterMessageMeans(cfg: Config, b: Ledger, e: Event, room: bool)
    requires Standard(cfg) && e.Receive? && b.state == Ready
    ensures var b' := AfterMessage(cfg, b, e, room);
      if IsRequest(cfg, e) then
        b' == if e.unpacks && e.hasHandler && room then Ledger(Ready, b.inFlight + [RequestId(cfg, e)], b.answered)
              else Ledger(Ready, b.inFlight, b.answered + [RequestId(cfg, e)])
      else
        b' == if e.raw == [] || (var opcode: Byte := e.raw[0];
                                 if cfg.plugins && 0xA0 <= opcode < 0xE0 then !e.hasHandler else opcode !in cfg.core)
              then Ledger(Closed, b.inFlight, b.answered) else b
  {
  }

  /** The positions of the requests among the first `n` events, in order, and that what was asked is their ids. */
  lemma {:induction false} AskedMeans(cfg: Config, events: seq<Event>, n: nat) returns (at: seq<nat>)
    requires n <= |events|
    ensures forall i, j :: 0 <= i < j < |at| ==> at[i] < at[j]
    ensures forall i: nat :: i in at <==> i < n && IsRequest(cfg, events[i])
    ensures |Asked(cfg, events, n)| == |at|
    ensures forall k :: 0 <= k < |at| ==> at[k] in at && Asked(cfg, events, n)[k] == RequestId(cfg, events[at[k]])
  {
    at := [];
    if n > 0 {
      at := AskedMeans(cfg, events, n - 1);
      if IsRequest(cfg, events[n - 1]) {
        assert forall k :: 0 <= k < |at| ==> at[k] in at;
        at := at + [n - 1];
      }
    }
  }

  class Client {
    const cfg: Config
    const limiter: Limiter
    var state: ConnectionState
    var pendingRequests: nat

    /** Ids of the requests whose handlers are suspended, and of the replies handed to the socket. */
    var inFlight: seq<Int32>
    var answered: seq<Int32>

    ghost predicate Valid()
      reads this, limiter
    {
      && limiter.Valid() && limiter.maxRequestsPerSecond == cfg.maxRequestsPerSecond
      && Standard(cfg)
      && pendingRequests == |inFlight| <= cfg.maxPendingRequests
      && (state == Connected ==> inFlight == [] && answered == [])
    }

    ghost function Books(): Ledger
      reads this
    {
      Ledger(state, inFlight, answered)
    }

    ghost predicate HasRoom(now: int)
      reads this, limiter
    {
      && Active(state) && pendingRequests < cfg.maxPendingRequests
      && |Recent(limiter.requestTimestamps, now - WINDOW)| < limiter.maxRequestsPerSecond
    }

    constructor (cfg: Config)
      requires Standard(cfg)
      ensures Valid() && fresh(limiter) && limiter.asked == [] && this.cfg == cfg
      ensures state == Connected && inFlight == [] && answered == []
    {
      this.cfg := cfg;
      limiter := new Limiter(cfg.maxRequestsPerSecond);
      state, pendingRequests, inFlight, answered := Connected, 0, [], [];
    }

    /** Throws unless the connection is fresh. */
    method CompleteHandshake() returns (threw: bool)
      modifies this`state
      ensures threw <==> old(state) != Connected
      ensures state == if threw then old(state) else Ready
    {
      if state != Connected {
        return true;
      }
      state := Ready;
      threw := false;
    }

    method StartRequest(now: int) returns (allowed: bool)
      requires pendingRequests <= cfg.maxPendingRequests && limiter.Valid()
      modifies this`pendingRequests, limiter
      ensures limiter.Valid() && (limiter.asked == old(limiter.asked) || limiter.asked == old(limiter.asked) + [now])
      ensures limiter.accepted == old(limiter.accepted) + if allowed then [now] else []
      ensures pendingRequests == old(pendingRequests) + (if allowed then 1 else 0) <= cfg.maxPendingRequests
      ensures allowed <==> old(HasRoom(now))
      ensures allowed
        <==> && (state == Connected || state == Ready) && old(pendingRequests) < cfg.maxPendingRequests
             && old(|SecondBefore(limiter.requestTimestamps, |limiter.requestTimestamps|, now)| < limiter.maxRequestsPerSecond)
      ensures !Active(state) || old(pendingRequests) == cfg.maxPendingRequests ==>
        !allowed && limiter.asked == old(limiter.asked)
    {
      if !Active(state) {
        return false;
      }
      if pendingRequests >= cfg.maxPendingRequests {
        return false;
      }
      RecentMeans(limiter.requestTimestamps, |limiter.requestTimestamps|, now);
      var inTime := limiter.CheckRateLimit(now);
      if !inTime {
        return false;
      }
      pendingRequests := pendingRequests + 1;
      allowed := true;
    }

    method EndRequest()
      modifies this`pendingRequests
      ensures pendingRequests == if old(pendingRequests) > 0 then old(pendingRequests) - 1 else 0
    {
      if pendingRequests > 0 {
        pendingRequests := pendingRequests - 1;
      }
    }

    /** A reply or an error with this id, handed to `send`. */
    method Reply(id: Int32)
      modifies this`answered
      ensures answered == old(answered) + if Active(state) then [id] else []
    {
      if Active(state) {
        answered := answered + [id];
      }
    }

    method Close()
      modifies this`state
      ensures state == if Active(old(state)) then Closed else old(state)
    {
      if state == Closed || state == Closing {
        return;
      }
      state := Closing;
      state := Closed;
    }

    method MarkClosed()
      modifies this`state
      ensures state == Closed
    {
      state := Closed;
    }

    method CloseWithError()
      modifies this`state
      ensures Active(old(state)) ==> state == Closed
      ensures !Active(old(state)) ==> state == old(state)
    {
      if state == Closed {
        return;
      }
      Close();
    }

    method HandleHandshake(e: Event)
      requires e.Receive? && |e.raw| > 0 && e.raw[0] == HANDSHAKE
      modifies this`state
      ensures Rank(old(state)) <= Rank(state)
      ensures old(state) == Connected ==> state == if GoodHandshake(e) then Ready else Closed
      ensures old(state) != Connected ==> state == old(state)
    {
      if state == Ready {
        return;
      }
      if |e.raw| < 5 {
        CloseWithError();
        return;
      }
      if !e.unpacks {
        CloseWithError();
        return;
      }
      if e.hello.protocolVersion < PROTOCOL_VERSION || e.hello.protocolVersion > PROTOCOL_VERSION {
        Close();
        return;
      }
      if e.hello.clientNameLength == 0 || e.hello.clientNameLength > 64 {
        Close();
        return;
      }
      var threw := CompleteHandshake();
      if threw || !e.hello.replyBuilds {
        CloseWithError();
      }
    }

    /** The common end of both request paths, from the decoded id to the first `await`. */
    method Serve(id: Int32, unpacks: bool, hasHandler: bool, now: int)
      requires Valid() && state == Ready
      modifies this`pendingRequests, this`inFlight, this`answered, limiter
      ensures Valid()
      ensures limiter.asked == old(limiter.asked) || limiter.asked == old(limiter.asked) + [now]
      ensures Books() == WithRequest(old(Books()), id, unpacks && hasHandler && old(HasRoom(now)))
    {
      if !unpacks {
        Reply(id);
        return;
      }
      var allowed := StartRequest(now);
      if !allowed {
        Reply(id);
        return;
      }
      if !hasHandler {
        Reply(id);
        EndRequest();
        return;
      }
      inFlight := inFlight + [id];
    }

    /** In a ready session every request gets an owner; before the handshake it costs the connection. */
    method ProcessMessage(e: Event)
      requires Valid() && e.Receive?
      modifies this`state, this`pendingRequests, this`inFlight, this`answered, limiter
      ensures Valid() && Books() == AfterMessage(cfg, old(Books()), e, old(HasRoom(e.now)))
      ensures limiter.asked == old(limiter.asked) || limiter.asked == old(limiter.asked) + [e.now]
    {
      if |e.raw| < 1 {
        CloseWithError();
        return;
      }
      var opcode, payload := e.raw[0], e.raw[1..];
      if IsPluginOpcode(cfg, opcode) {
        HandlePluginOpcode(e);
        return;
      }
      if opcode !in cfg.core {
        CloseWithError();
        return;
      }
      if cfg.core[opcode] && state != Ready {
        Close();
        return;
      }
      if opcode == PING {
        return;
      }
      if opcode == HANDSHAKE {
        HandleHandshake(e);
        return;
      }
      if |payload| < 4 {
        return;
      }
      Serve(Decode(payload), e.unpacks, e.hasHandler, e.now);
    }

    method HandlePluginOpcode(e: Event)
      requires Valid() && e.Receive? && |e.raw| > 0 && IsPluginOpcode(cfg, e.raw[0])
      modifies this`state, this`pendingRequests, this`inFlight, this`answered, limiter
      ensures Valid() && Books() == AfterMessage(cfg, old(Books()), e, old(HasRoom(e.now)))
      ensures limiter.asked == old(limiter.asked) || limiter.asked == old(limiter.asked) + [e.now]
    {
      if state != Ready {
        Close();
        return;
      }
      if !e.hasHandler {
        CloseWithError();
        return;
      }
      if |e.raw| < 5 {
        return;
      }
      Serve(Decode(e.raw[1..]), e.unpacks, true, e.now);
    }

    /** A suspended handler comes back: it replies, or fails and may take the connection down, and in any case
        ends its request, for which the guard of `endRequest` is never needed. */
    method FinishHandler(k: nat, outcome: Outcome)
      requires Valid() && k < |inFlight|
      modifies this`state, this`pendingRequests, this`inFlight, this`answered
      ensures Valid() && pendingRequests == old(pendingRequests) - 1
      ensures Books() == AfterHandler(old(Books()), k, outcome)
      ensures inFlight == old(inFlight)[..k] + old(inFlight)[k + 1..]
      ensures answered == old(answered) + if old(state) == Connected || old(state) == Ready then [old(inFlight)[k]] else []
      ensures state == if outcome == Fails(true) && (old(state) == Connected || old(state) == Ready) then Closed else old(state)
    {
      var id := inFlight[k];
      Reply(id);
      if outcome.Fails? && outcome.fatal {
        Close();
      }
      EndRequest();
      inFlight := inFlight[..k] + inFlight[k + 1..];
    }

    /** `onMessage`: what arrives on a connection that is no longer active is dropped. */
    method OnMessage(e: Event)
      requires Valid() && e.Receive?
      modifies this`state, this`pendingRequests, this`inFlight, this`answered, limiter
      ensures Valid() && Handled(cfg, e, old(Books()), Books())
      ensures limiter.asked == old(limiter.asked) || limiter.asked == old(limiter.asked) + [e.now]
    {
      ghost var before, room := Books(), HasRoom(e.now);
      if Active(state) {
        ProcessMessage(e);
        MessageIsHandled(cfg, before, e, room);
      } else {
        LostIsHandled(cfg, before, e);
      }
    }

    method OnHandlerDone(e: Event)
      requires Valid() && e.HandlerDone?
      modifies this`state, this`pendingRequests, this`inFlight, this`answered
      ensures Valid() && Handled(cfg, e, old(Books()), Books())
    {
      ghost var before := Books();
      if e.k < |inFlight| {
        FinishHandler(e.k, e.outcome);
        HandlerIsHandled(cfg, before, e);
      } else {
        NothingIsHandled(cfg, before, e);
      }
    }

    method Handle(e: Event)
      requires Valid()
      modifies this, limiter
      ensures Valid() && Handled(cfg, e, old(Books()), Books())
      ensures limiter.asked == old(limiter.asked) || (e.Receive? && limiter.asked == old(limiter.asked) + [e.now])
    {
      ghost var before := Books();
      match e {
        case Receive(_, _, _, _, _) => OnMessage(e);
        case HandlerDone(_, _) => OnHandlerDone(e);
        case ServerCloses =>
          Close();
          CloseIsHandled(cfg, before, e, state);
        case SocketClosed =>
          MarkClosed();
          CloseIsHandled(cfg, before, e, state);
      }
    }
  }

  /** Requests that have an owner: answered or being served. */
  ghost function AccountOf(answered: seq<Int32>, inFlight: seq<Int32>): multiset<Int32> {
    multiset(answered) + multiset(inFlight)
  }

  lemma Finished(answered: seq<Int32>, inFlight: seq<Int32>, k: nat)
    requires k < |inFlight|
    ensures AccountOf(answered + [inFlight[k]], inFlight[..k] + inFlight[k + 1..]) == AccountOf(answered, inFlight)
    ensures AccountOf(answered, inFlight[..k] + inFlight[k + 1..]) <= AccountOf(answered, inFlight)
  {
    assert inFlight == inFlight[..k] + [inFlight[k]] + inFlight[k + 1..];
  }

  lemma MessageIsHandled(cfg: Config, b: Ledger, e: Event, room: bool)
    requires Standard(cfg) && e.Receive? && Active(b.state)
    ensures Handled(cfg, e, b, AfterMessage(cfg, b, e, room))
  {
    if b.state == Ready && IsRequest(cfg, e) {
      assert multiset(b.answered + [RequestId(cfg, e)]) == multiset(b.answered) + multiset{RequestId(cfg, e)};
      assert multiset(b.inFlight + [RequestId(cfg, e)]) == multiset(b.inFlight) + multiset{RequestId(cfg, e)};
    }
  }

  lemma LostIsHandled(cfg: Config, b: Ledger, e: Event)
    requires !Active(b.state)
    ensures Handled(cfg, e, b, b)
  {
  }

  lemma HandlerIsHandled(cfg: Config, b: Ledger, e: Event)
    requires e.HandlerDone? && e.k < |b.inFlight| && b.state != Connected
    ensures Handled(cfg, e, b, AfterHandler(b, e.k, e.outcome))
  {
    var b' := AfterHandler(b, e.k, e.outcome);
    HandlerAccounts(b, e.k, e.outcome);
    assert AccountOf(b.answered, b.inFlight) + multiset{} == AccountOf(b.answered, b.inFlight);
  }

  lemma HandlerAccounts(b: Ledger, k: nat, outcome: Outcome)
    requires k < |b.inFlight|
    ensures var b' := AfterHandler(b, k, outcome);
      && AccountOf(b'.answered, b'.inFlight) <= AccountOf(b.answered, b.inFlight)
      && (Active(b.state) ==> AccountOf(b'.answered, b'.inFlight) == AccountOf(b.answered, b.inFlight))
  {
    Finished(b.answered, b.inFlight, k);
  }

  lemma NothingIsHandled(cfg: Config, b: Ledger, e: Event)
    requires !e.Receive?
    ensures Handled(cfg, e, b, b)
  {
    assert AccountOf(b.answered, b.inFlight) + multiset{} == AccountOf(b.answered, b.inFlight);
  }

  lemma CloseIsHandled(cfg: Config, b: Ledger, e: Event, s: ConnectionState)
    requires !e.Receive? && Rank(b.state) <= Rank(s) && !Active(s)
    ensures Handled(cfg, e, b, b.(state := s))
  {
  }

  ghost predicate HandshakeIn(events: seq<Event>, n: nat)
    requires n <= |events|
  {
    exists i :: 0 <= i < n && GoodHandshake(events[i])
  }

  ghost predicate OnlyForward(states: seq<ConnectionState>) {
    forall i, j :: 0 <= i < j < |states| ==> Rank(states[i]) <= Rank(states[j])
  }

  lemma OneMoreState(states: seq<ConnectionState>, s: ConnectionState)
    requires states != [] && OnlyForward(states) && Rank(states[|states| - 1]) <= Rank(s)
    ensures OnlyForward(states + [s])
  {
    forall i | 0 <= i < |states| ensures Rank(states[i]) <= Rank(s) {
      assert i < |states| - 1 ==> Rank(states[i]) <= Rank(states[|states| - 1]);
    }
  }

  /** Messages arrive under a clock that does not go back. */
  ghost predicate Clocked(events: seq<Event>) {
    forall i, j :: 0 <= i < j < |events| && events[i].Receive? && events[j].Receive? ==> events[i].now <= events[j].now
  }

  /** The limiter was asked in order, and never later than any message still to come. */
  ghost predicate AskedInOrder(events: seq<Event>, n: nat, asked: seq<int>) {
    && NonDecreasing(asked)
    && forall i, k :: 0 <= i < |asked| && n <= k < |events| && events[k].Receive? ==> asked[i] <= events[k].now
  }

  lemma AskedOnceMore(events: seq<Event>, n: nat, asked: seq<int>, asked': seq<int>)
    requires n < |events| && Clocked(events) && AskedInOrder(events, n, asked)
    requires asked' == asked || (events[n].Receive? && asked' == asked + [events[n].now])
    ensures AskedInOrder(events, n + 1, asked')
  {
  }

  /** What any event does to a connection. */
  ghost predicate Handled(cfg: Config, e: Event, b: Ledger, b': Ledger) {
    var asked := if IsRequest(cfg, e) then multiset{RequestId(cfg, e)} else multiset{};
    && Rank(b.state) <= Rank(b'.state) && b.answered <= b'.answered
    && AccountOf(b'.answered, b'.inFlight) <= AccountOf(b.answered, b.inFlight) + asked
    && (Active(b'.state) ==> Active(b.state) && AccountOf(b'.answered, b'.inFlight) == AccountOf(b.answered, b.inFlight) + asked)
    && (b.state != Ready ==> b'.answered == b.answered && |b'.inFlight| <= |b.inFlight|)
    && (b'.state == Ready ==> b.state == Ready || GoodHandshake(e))
  }

  /** What holds of a connection after the first `n` events. */
  ghost predicate InOrder(cfg: Config, events: seq<Event>, n: nat, b: Ledger)
    requires n <= |events|
  {
    && (Served(b.state, b.inFlight, b.answered) ==> HandshakeIn(events, n))
    && AccountOf(b.answered, b.inFlight) <= multiset(Asked(cfg, events, n))
    && (Active(b.state) ==> AccountOf(b.answered, b.inFlight) == multiset(Asked(cfg, events, n)))
  }

  lemma StaysInOrder(cfg: Config, events: seq<Event>, n: nat, b: Ledger, b': Ledger)
    requires n < |events| && InOrder(cfg, events, n, b) && Handled(cfg, events[n], b, b')
    ensures InOrder(cfg, events, n + 1, b')
  {
    if Served(b'.state, b'.inFlight, b'.answered) {
      assert HandshakeIn(events, n) || GoodHandshake(events[n]);
    }
  }

  /** In every run: the counter is the number of suspended handlers and stays within the limit; nothing is served
      before a good handshake; states only move forward; no request is answered twice or unasked, and while the
      connection lives every request has been answered or is being served; and no second sees more admitted
      requests than the rate allows. */
  method Simulate(cfg: Config, events: seq<Event>)
    returns (states: seq<ConnectionState>, pending: nat, inFlight: seq<Int32>, answered: seq<Int32>, admitted: seq<int>)
    requires Standard(cfg)
    ensures |states| == |events| + 1 && states[0] == Connected && OnlyForward(states)
    ensures pending == |inFlight| <= cfg.maxPendingRequests
    ensures inFlight != [] || answered != [] ==> HandshakeIn(events, |events|)
    ensures AccountOf(answered, inFlight) <= multiset(Asked(cfg, events, |events|))
    ensures Active(states[|events|]) ==> AccountOf(answered, inFlight) == multiset(Asked(cfg, events, |events|))
    ensures Clocked(events) ==> forall t :: |SecondUpTo(admitted, |admitted|, t)| <= cfg.maxRequestsPerSecond
  {
    var c := new Client(cfg);
    states := [Connected];
    for n := 0 to |events|
      invariant fresh(c) && fresh(c.limiter) && c.cfg == cfg && c.Valid()
      invariant |states| == n + 1 && states[0] == Connected && states[n] == c.state && OnlyForward(states)
      invariant InOrder(cfg, events, n, c.Books())
      invariant Clocked(events) ==> AskedInOrder(events, n, c.limiter.asked)
    {
      ghost var asked, books := c.limiter.asked, c.Books();
      c.Handle(events[n]);
      OneMoreState(states, c.state);
      StaysInOrder(cfg, events, n, books, c.Books());
      if Clocked(events) {
        AskedOnceMore(events, n, asked, c.limiter.asked);
      }
      states := states + [c.state];
    }
    pending, inFlight, answered, admitted := c.pendingRequests, c.inFlight, c.answered, c.limiter.accepted;
    if Clocked(events) {
      EveryWindow(c.limiter.asked, admitted, c.limiter.requestTimestamps, cfg.maxRequestsPerSecond);
    }
  }

  lemma EveryWindow(asked: seq<int>, accepted: seq<int>, kept: seq<int>, max: nat)
    requires NonDecreasing(asked) && Memory(accepted, kept) == Forgetful(asked, |asked|, max)
    ensures forall t :: |SecondUpTo(accepted, |accepted|, t)| <= max
  {
    ForwardNeverReturns(asked);
    forall t ensures |SecondUpTo(accepted, |accepted|, t)| <= max {
      WindowNeverOverflows(asked, |asked|, max, t);
      WindowMeans(accepted, |accepted|, t);
    }
  }

  /** The session has got past its handshake. */
  predicate Served(s: ConnectionState, inFlight: seq<Int32>, answered: seq<Int32>) {
    s == Ready || inFlight != [] || answered != []
  }
}
