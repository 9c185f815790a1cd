/** `WebSocketClient`: the send queue under backpressure. */
module Backpressure {

  type Message = seq<nat>

  /** What the socket does with one message. */
  datatype Outcome = Accepts | Refuses | Throws

  datatype Event = SendMessage(data: Message, outcome: Outcome) | Drain(outcomes: seq<Outcome>) | Close

  datatype Flushed = Flushed(sent: seq<Message>, rest: seq<Message>)

  /** What a drain sends and what it leaves: it goes on until the socket refuses, past messages it throws on. */
  function Flush(queue: seq<Message>, outcomes: seq<Outcome>, k: nat): Flushed {
    if queue == [] then Flushed([], []) else
      match if k < |outcomes| then outcomes[k] else Accepts
      case Accepts => var f := Flush(queue[1..], outcomes, k + 1); f.(sent := [queue[0]] + f.sent)
      case Refuses => Flushed([], queue)
      case Throws => Flush(queue[1..], outcomes, k + 1)
  }

  /** What the socket does with the `i`-th message of a drain. */
  function OutcomeAt(outcomes: seq<Outcome>, i: nat): Outcome {
    if i < |outcomes| then outcomes[i] else Accepts
  }

  /** The messages among the first `m` that the socket accepts. */
  function AcceptedOf(queue: seq<Message>, outcomes: seq<Outcome>, k: nat, m: nat): seq<Message>
    requires m <= |queue|
  {
    if m == 0 then [] else
      AcceptedOf(queue, outcomes, k, m - 1) + if OutcomeAt(outcomes, k + m - 1) == Accepts then [queue[m - 1]] else []
  }

  /** A drain works off the queue up to the first message that the socket refuses, and keeps that and all behind it; of
      those worked off, the accepted ones are sent in order, so that only messages on which the socket throws are lost. */
  lemma {:induction false} FlushMeans(queue: seq<Message>, outcomes: seq<Outcome>, k: nat) returns (m: nat)
    ensures m <= |queue| && Flush(queue, outcomes, k) == Flushed(AcceptedOf(queue, outcomes, k, m), queue[m..])
    ensures forall i :: k <= i < k + m ==> OutcomeAt(outcomes, i) != Refuses
    ensures m < |queue| ==> OutcomeAt(outcomes, k + m) == Refuses
  {
    m := 0;
    if queue != [] && OutcomeAt(outcomes, k) != Refuses {
      var rest := FlushMeans(queue[1..], outcomes, k + 1);
      m := rest + 1;
      AcceptedFront(queue, outcomes, k, m);
    }
  }

  lemma {:induction false} AcceptedFront(queue: seq<Message>, outcomes: seq<Outcome>, k: nat, m: nat)
    requires 0 < m <= |queue|
    ensures AcceptedOf(queue, outcomes, k, m)
      == (if OutcomeAt(outcomes, k) == Accepts then [queue[0]] else []) + AcceptedOf(queue[1..], outcomes, k + 1, m - 1)
  {
    if m > 1 {
      AcceptedFront(queue, outcomes, k, m - 1);
    }
  }

  class Client {
    var active: bool
    var isDraining: bool
    var messageQueue: seq<Message>

    /** Everything the socket has accepted so far, in order. */
    var delivered: seq<Message>

    constructor ()
      ensures active && !isDraining && messageQueue == [] && delivered == []
    {
      active, isDraining := true, false;
      messageQueue, delivered := [], [];
    }

    /** Messages on their way, oldest first. */
    ghost function Line(): seq<Message>
      reads this
    {
      delivered + messageQueue
    }

    /** A queue exists only while the socket is draining, so nothing overtakes it. */
    ghost predicate Valid()
      reads this
    {
      !isDraining ==> messageQueue == []
    }

    method Send(data: Message, outcome: Outcome) returns (sent: bool)
      requires Valid()
      modifies this
      ensures Valid() && active == old(active)
      ensures sent <==> active && (old(isDraining) || outcome != Throws)
      ensures Line() == if sent then old(Line()) + [data] else old(Line())
      ensures delivered == if active && !old(isDraining) && outcome == Accepts then old(delivered) + [data] else old(delivered)
      ensures isDraining <==> old(isDraining) || (active && outcome == Refuses)
    {
      if !active {
        return false;
      }
      if isDraining {
        messageQueue := messageQueue + [data];
        return true;
      }
      match outcome {
        case Accepts => delivered := delivered + [data];
        case Refuses =>
          isDraining := true;
          messageQueue := messageQueue + [data];
        case Throws => return false;
      }
      sent := true;
    }

    /** Flushes the queue until the socket refuses again; a message on which the socket throws is dropped. */
    method OnDrain(outcomes: seq<Outcome>)
      requires Valid()
      modifies this
      ensures Valid() && active == old(active)
      ensures var flush := Flush(old(messageQueue), outcomes, 0);
        && delivered == old(delivered) + flush.sent && messageQueue == flush.rest
        && (isDraining <==> flush.rest != [])
    {
      isDraining := false;
      var k := 0;
      ghost var flush := Flush(messageQueue, outcomes, 0);
      while |messageQueue| > 0 && !isDraining
        invariant active == old(active)
        invariant isDraining ==> delivered == old(delivered) + flush.sent && messageQueue == flush.rest != []
        invariant !isDraining ==>
            var next := Flush(messageQueue, outcomes, k);
            delivered + next.sent == old(delivered) + flush.sent && next.rest == flush.rest
        decreases |messageQueue|, !isDraining
      {
        var data, outcome := messageQueue[0], if k < |outcomes| then outcomes[k] else Accepts;
        messageQueue := messageQueue[1..];
        k := k + 1;
        match outcome {
          case Accepts => delivered := delivered + [data];
          case Refuses =>
            messageQueue := [data] + messageQueue;
            isDraining := true;
          case Throws =>
        }
      }
    }
  }

  // ----- order -----

  ghost predicate IsSubsequence<T>(a: seq<T>, b: seq<T>) {
    if b == [] then a == [] else
      || (a != [] && a[|a| - 1] == b[|b| - 1] && IsSubsequence(a[..|a| - 1], b[..|b| - 1]))
      || IsSubsequence(a, b[..|b| - 1])
  }

  lemma {:induction false} Reflexive<T>(a: seq<T>)
    ensures IsSubsequence(a, a)
  {
    if a != [] {
      Reflexive(a[..|a| - 1]);
    }
  }

  lemma {:induction false} DropOne<T>(a: seq<T>, x: T, c: seq<T>, b: seq<T>)
    requires IsSubsequence(a + [x] + c, b)
    ensures IsSubsequence(a + c, b)
    decreases |b|
  {
    var s, n := a + [x] + c, |b| - 1;
    if IsSubsequence(s, b[..n]) {
      DropOne(a, x, c, b[..n]);
    } else if c == [] {
      assert s[..|s| - 1] == a + c;
    } else {
      var m := |c| - 1;
      assert s[..|s| - 1] == a + [x] + c[..m] && (a + c)[..|a + c| - 1] == a + c[..m];
      DropOne(a, x, c[..m], b[..n]);
    }
  }

  lemma {:induction false} Transitive<T>(a: seq<T>, b: seq<T>, c: seq<T>)
    requires IsSubsequence(a, b) && IsSubsequence(b, c)
    ensures IsSubsequence(a, c)
    decreases |b| + |c|
  {
    if c != [] {
      var n := |c| - 1;
      if IsSubsequence(b, c[..n]) {
        Transitive(a, b, c[..n]);
      } else if IsSubsequence(a, b[..|b| - 1]) {
        Transitive(a, b[..|b| - 1], c[..n]);
      } else {
        Transitive(a[..|a| - 1], b[..|b| - 1], c[..n]);
      }
    }
  }

  /** A drain keeps the order, and loses only messages on which the socket throws. */
  lemma {:induction false} FlushKeepsOrder(before: seq<Message>, queue: seq<Message>, outcomes: seq<Outcome>, k: nat)
    ensures var f := Flush(queue, outcomes, k);
      && IsSubsequence(before + f.sent + f.rest, before + queue)
      && (Throws !in outcomes ==> f.sent + f.rest == queue)
    decreases |queue|
  {
    if queue == [] || (k < |outcomes| && outcomes[k] == Refuses) {
      FlushStops(before, queue, outcomes, k);
    } else if k < |outcomes| && outcomes[k] == Throws {
      FlushKeepsOrder(before, queue[1..], outcomes, k + 1);
      FlushThrows(before, queue, outcomes, k);
    } else {
      FlushKeepsOrder(before + [queue[0]], queue[1..], outcomes, k + 1);
      FlushSends(before, queue, outcomes, k);
    }
  }

  lemma FlushStops(before: seq<Message>, queue: seq<Message>, outcomes: seq<Outcome>, k: nat)
    requires queue == [] || (k < |outcomes| && outcomes[k] == Refuses)
    ensures var f := Flush(queue, outcomes, k);
      IsSubsequence(before + f.sent + f.rest, before + queue) && f.sent + f.rest == queue
  {
    var f := Flush(queue, outcomes, k);
    assert before + f.sent + f.rest == before + queue;
    Reflexive(before + queue);
  }

  lemma FlushThrows(before: seq<Message>, queue: seq<Message>, outcomes: seq<Outcome>, k: nat)
    requires queue != [] && k < |outcomes| && outcomes[k] == Throws
    requires var f := Flush(queue[1..], outcomes, k + 1); IsSubsequence(before + f.sent + f.rest, before + queue[1..])
    ensures var f := Flush(queue, outcomes, k); IsSubsequence(before + f.sent + f.rest, before + queue)
    ensures Throws in outcomes
  {
    var f := Flush(queue, outcomes, k);
    assert before + [queue[0]] + queue[1..] == before + queue;
    Reflexive(before + queue);
    DropOne(before, queue[0], queue[1..], before + queue);
    Transitive(before + f.sent + f.rest, before + queue[1..], before + queue);
  }

  lemma FlushSends(before: seq<Message>, queue: seq<Message>, outcomes: seq<Outcome>, k: nat)
    requires queue != [] && (k < |outcomes| ==> outcomes[k] == Accepts)
    requires var f := Flush(queue[1..], outcomes, k + 1);
      && IsSubsequence(before + [queue[0]] + f.sent + f.rest, before + [queue[0]] + queue[1..])
      && (Throws !in outcomes ==> f.sent + f.rest == queue[1..])
    ensures var f := Flush(queue, outcomes, k);
      && IsSubsequence(before + f.sent + f.rest, before + queue)
      && (Throws !in outcomes ==> f.sent + f.rest == queue)
  {
    var f, next := Flush(queue, outcomes, k), Flush(queue[1..], outcomes, k + 1);
    Regroup(before, queue[0], queue[1..], next.sent, next.rest);
    assert queue == [queue[0]] + queue[1..] && f == Flushed([queue[0]] + next.sent, next.rest);
  }

  lemma Regroup(before: seq<Message>, x: Message, tail: seq<Message>, sent: seq<Message>, rest: seq<Message>)
    ensures before + [x] + tail == before + ([x] + tail)
    ensures before + [x] + sent + rest == before + ([x] + sent) + rest
    ensures ([x] + sent) + rest == [x] + (sent + rest)
  {
  }

  // ----- whole runs -----

  ghost predicate OpenUntil(events: seq<Event>, n: nat)
    requires n <= |events|
  {
    forall i :: 0 <= i < n ==> !events[i].Close?
  }

  /** The messages handed to `send` while the connection was active, in the first `n` events. */
  ghost function Passed(events: seq<Event>, n: nat): seq<Message>
    requires n <= |events|
  {
    if n == 0 then []
    else if events[n - 1].SendMessage? && OpenUntil(events, n - 1) then Passed(events, n - 1) + [events[n - 1].data]
    else Passed(events, n - 1)
  }

  ghost predicate NeverThrows(events: seq<Event>) {
    forall i :: 0 <= i < |events| ==> Gentle(events[i])
  }

  predicate Gentle(e: Event) {
    (e.SendMessage? ==> e.outcome != Throws) && (e.Drain? ==> Throws !in e.outcomes)
  }

  /** At every point what the socket accepted, followed by the queue, is what was passed to `send`: in order,
      without duplicates, and without loss unless the socket threw.  The queue is empty when nothing drains. */
  method Simulate(events: seq<Event>) returns (delivered: seq<Message>, queue: seq<Message>, draining: bool)
    ensures IsSubsequence(delivered + queue, Passed(events, |events|))
    ensures NeverThrows(events) ==> delivered + queue == Passed(events, |events|)
    ensures !draining ==> queue == []
  {
    var c := new Client();
    for i := 0 to |events|
      invariant fresh(c) && c.Valid()
      invariant c.active <==> OpenUntil(events, i)
      invariant IsSubsequence(c.Line(), Passed(events, i))
      invariant NeverThrows(events) ==> c.Line() == Passed(events, i)
    {
      Handle(c, events[i], Passed(events, i));
      assert NeverThrows(events) ==> Gentle(events[i]);
    }
    delivered, queue, draining := c.delivered, c.messageQueue, c.isDraining;
  }

  method Handle(c: Client, e: Event, ghost passed: seq<Message>)
    requires c.Valid() && IsSubsequence(c.Line(), passed)
    modifies c
    ensures c.Valid() && (c.active <==> old(c.active) && !e.Close?)
    ensures var now := if e.SendMessage? && old(c.active) then passed + [e.data] else passed;
      && IsSubsequence(c.Line(), now)
      && (Gentle(e) && old(c.Line()) == passed ==> c.Line() == now)
  {
    ghost var before := c.Line();
    match e {
      case SendMessage(data, outcome) =>
        var sent := c.Send(data, outcome);
        Extend(before, passed, data);
      case Drain(outcomes) =>
        FlushKeepsOrder(c.delivered, c.messageQueue, outcomes, 0);
        c.OnDrain(outcomes);
        Transitive(c.Line(), before, passed);
        assert Throws !in outcomes ==> c.Line() == before;
      case Close => c.active := false;
    }
  }

  lemma Extend<T>(a: seq<T>, b: seq<T>, x: T)
    requires IsSubsequence(a, b)
    ensures IsSubsequence(a + [x], b + [x]) && IsSubsequence(a, b + [x])
  {
    assert (a + [x])[..|a|] == a && (b + [x])[..|b|] == b;
  }
}
