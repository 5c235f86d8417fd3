/** A delivery that nothing interrupts: it settles the event as one call of `SettleEvent` does,
    retries while a market is in the way, and always ends acknowledged. */
module DeliveryAlone {
  import opened Orders
  import opened Ledger
  import opened ExactlyOnce
  import opened Delivery
  import opened DeliveryRuns
  import D = Decimal
  import E = Events

  /** The next `n` calls of one consumer, none of which fails. */
  ghost function Went(w: World, c: nat, n: nat): World
    requires DeliveryInv(w)
    decreases n
  {
    if n == 0 then w
    else
      MovedInv(w, ConsumerStep(c, true));
      Went(Moved(w, ConsumerStep(c, true)), c, n - 1)
  }

  lemma StepIsConsume(w: World, c: nat)
    requires DeliveryInv(w) && c in w.consumers
    ensures Moved(w, ConsumerStep(c, true)) == Consume(w, c, true)
  {
    hide DeliveryInv, Consume;
  }

  lemma WentOne(w: World, c: nat, n: nat)
    requires DeliveryInv(w) && c in w.consumers
    ensures DeliveryInv(Consume(w, c, true)) && Went(w, c, n + 1) == Went(Consume(w, c, true), c, n)
  {
    hide DeliveryInv, Consume, Moved;
    MovedInv(w, ConsumerStep(c, true));
    StepIsConsume(w, c);
  }

  /** Going on after `n` steps. */
  lemma {:induction false} WentOn(w: World, c: nat, n: nat, m: nat)
    requires DeliveryInv(w)
    ensures DeliveryInv(Went(w, c, n)) && Went(w, c, n + m) == Went(Went(w, c, n), c, m)
    decreases n
  {
    hide DeliveryInv, Moved;
    if n > 0 {
      MovedInv(w, ConsumerStep(c, true));
      WentOn(Moved(w, ConsumerStep(c, true)), c, n - 1, m);
    }
  }

  // ----- one step, phase by phase -----

  lemma Positioned(w: World, c: nat)
    requires DeliveryInv(w) && c in w.consumers
    ensures w.consumers[c].pos < |w.stream| && (w.consumers[c].Settling? ==> w.stream[w.consumers[c].pos].Resolution?)
    ensures w.consumers[c].Received? ==> 1 <= w.consumers[c].attempt <= RETRY_ATTEMPTS
  {
    assert ConsumerOk(w, w.consumers[c]);
  }

  lemma Consumes(w: World, c: nat)
    requires DeliveryInv(w) && c in w.consumers
    ensures w.consumers[c].pos < |w.stream|
    ensures Consume(w, c, true) ==
            match w.consumers[c]
            case Received(pos, attempt) => ListMarkets(w, c, pos, attempt, false)
            case Settling(pos, _, _, _, _, _) => if w.stream[pos].Resolution? then SettleNext(w, c, w.consumers[c], w.stream[pos].event, false) else w
            case Failing(pos) => DeadLetter(w, c, pos, true)
            case Acking(pos, verdict) => Acknowledge(w, c, pos, verdict, true)
  {
    Positioned(w, c);
    hide DeliveryInv, ListMarkets, SettleNext, DeadLetter, Acknowledge;
  }

  lemma ConsumingTwice(w: World, c: nat, p: Consumer, q: Consumer)
    ensures Consuming(Consuming(w, c, p), c, q) == Consuming(w, c, q) && GoneConsumer(Consuming(w, c, p), c) == GoneConsumer(w, c)
  {
    assert w.consumers[c := p][c := q] == w.consumers[c := q];
    assert w.consumers[c := p] - {c} == w.consumers - {c};
  }

  lemma ConsumingSame(w: World, c: nat)
    requires c in w.consumers
    ensures Consuming(w, c, w.consumers[c]) == w
  {
    assert w.consumers[c := w.consumers[c]] == w.consumers;
  }

  /** The message acknowledged, its consumer done. */
  function Acked(w: World, c: nat, pos: nat, verdict: Verdict): World {
    GoneConsumer(w.(acked := w.acked[pos := verdict]), c)
  }

  function Lettered(w: World, pos: nat): World
    requires pos < |w.stream|
  {
    w.(deadLetters := w.deadLetters + [w.stream[pos]])
  }

  lemma AckingEnds(w: World, c: nat, pos: nat, verdict: Verdict)
    requires DeliveryInv(w) && c in w.consumers && w.consumers[c] == Acking(pos, verdict)
    ensures Went(w, c, 1) == Acked(w, c, pos, verdict)
  {
    Consumes(w, c);
    hide DeliveryInv;
    WentOne(w, c, 0);
  }

  lemma FailingEnds(w: World, c: nat, pos: nat)
    requires DeliveryInv(w) && c in w.consumers && w.consumers[c] == Failing(pos)
    ensures pos < |w.stream|
    ensures Went(w, c, 2) == Acked(Lettered(w, pos), c, pos, DeadLettered(|w.deadLetters|))
  {
    Consumes(w, c);
    hide DeliveryInv, Consume, Went;
    WentOne(w, c, 1);
    var sent := Consume(w, c, true);
    AckingEnds(sent, c, pos, DeadLettered(|w.deadLetters|));
    ConsumingTwice(Lettered(w, pos).(acked := w.acked[pos := DeadLettered(|w.deadLetters|)]), c, Acking(pos, DeadLettered(|w.deadLetters|)), Failing(pos));
  }

  // ----- going through the listed markets -----

  /** Where going through the rest of the list leads, by what `SettleMarkets` makes of it. */
  function Through(w: World, c: nat, s: Consumer, run: EventRun): World
    requires s.Settling?
  {
    if !run.aborted then Consuming(w.(ledger := run.st), c, s.(left := [], rejected := s.rejected + run.rejected))
    else Retry(w.(ledger := run.st), c, s.pos, s.attempt)
  }

  lemma ThroughAfter(w: World, c: nat, s: Consumer, t: Consumer, ledger: State, run: EventRun)
    requires s.Settling? && t.Settling? && t.pos == s.pos && t.attempt == s.attempt && t.winner == s.winner && t.covered == s.covered
    ensures Through(Consuming(w.(ledger := ledger), c, t), c, t, run)
         == if run.aborted then Retry(w.(ledger := run.st), c, s.pos, s.attempt)
            else Consuming(w.(ledger := run.st), c, s.(left := [], rejected := t.rejected + run.rejected))
  {
    var x := w.(ledger := run.st);
    ConsumingTwice(x, c, t, Failing(s.pos));
    ConsumingTwice(x, c, t, Received(s.pos, s.attempt + 1));
    ConsumingTwice(x, c, t, s.(left := [], rejected := t.rejected + run.rejected));
    assert Consuming(w.(ledger := ledger), c, t).(ledger := run.st) == Consuming(x, c, t);
  }

  lemma SettlesOneMore(w: World, c: nat, s: Consumer, e: EventId)
    requires s.Settling? && s.left != [] && c in SettleNext(w, c, s, e, false).consumers && SettleNext(w, c, s, e, false).consumers[c].Settling?
    ensures var next := SettleNext(w, c, s, e, false);
            var t := next.consumers[c];
            var rest, run := SettleMarkets(next.ledger, t.left, e, s.winner, {}), SettleMarkets(w.ledger, s.left, e, s.winner, {});
            && run.st == rest.st && run.aborted == rest.aborted && s.rejected + run.rejected == t.rejected + rest.rejected
            && t == s.(left := s.left[1..], rejected := t.rejected) && next == Consuming(w.(ledger := next.ledger), c, t)
  {
    hide Settle;
  }

  /** One market further is as far through the rest of the list. */
  lemma ThroughOne(w: World, c: nat, s: Consumer, e: EventId)
    requires s.Settling? && s.left != []
    ensures var next, end := SettleNext(w, c, s, e, false), Through(w, c, s, SettleMarkets(w.ledger, s.left, e, s.winner, {}));
            && c in next.consumers
            && var t := next.consumers[c];
               if t.Settling? then
                 && t.pos == s.pos && t.winner == s.winner && |t.left| < |s.left|
                 && Through(next, c, t, SettleMarkets(next.ledger, t.left, e, t.winner, {})) == end
               else next == end
  {
    var next := SettleNext(w, c, s, e, false);
    assert c in next.consumers by { hide Settle; }
    if next.consumers[c].Settling? {
      SettlesOneMore(w, c, s, e);
      hide SettleNext, SettleMarkets;
      ThroughAfter(w, c, s, next.consumers[c], next.ledger, SettleMarkets(next.ledger, next.consumers[c].left, e, s.winner, {}));
    } else {
      StopsHere(w, c, s, e);
    }
  }

  lemma StopsHere(w: World, c: nat, s: Consumer, e: EventId)
    requires s.Settling? && s.left != [] && c in SettleNext(w, c, s, e, false).consumers && !SettleNext(w, c, s, e, false).consumers[c].Settling?
    ensures SettleNext(w, c, s, e, false) == Through(w, c, s, SettleMarkets(w.ledger, s.left, e, s.winner, {}))
  {
    hide Settle;
    assert w.(ledger := w.ledger) == w;
  }

  lemma ThroughNone(w: World, c: nat, s: Consumer, e: EventId)
    requires s.Settling? && s.left == [] && c in w.consumers && w.consumers[c] == s
    ensures Through(w, c, s, SettleMarkets(w.ledger, s.left, e, s.winner, {})) == w
  {
    ConsumingSame(w, c);
    assert s.rejected + {} == s.rejected && w.(ledger := w.ledger) == w;
  }

  lemma {:induction false} GoesThrough(w: World, c: nat, s: Consumer) returns (n: nat)
    requires DeliveryInv(w) && c in w.consumers && w.consumers[c] == s && s.Settling?
    ensures s.pos < |w.stream| && w.stream[s.pos].Resolution? && DeliveryInv(Went(w, c, n))
    ensures Went(w, c, n) == Through(w, c, s, SettleMarkets(w.ledger, s.left, w.stream[s.pos].event, s.winner, {}))
    decreases |s.left|
  {
    hide DeliveryInv, Consume, Went, SettleNext, SettleMarkets, Through;
    Positioned(w, c);
    var e := w.stream[s.pos].event;
    if s.left == [] {
      n := 0;
      WentNone(w, c);
      ThroughNone(w, c, s, e);
    } else {
      Consumes(w, c);
      var next := Consume(w, c, true);
      WentOne(w, c, 0);
      ThroughOne(w, c, s, e);
      if next.consumers[c].Settling? {
        ConsumeKeepsStream(w, c);
        var m := GoesThrough(next, c, next.consumers[c]);
        WentOne(w, c, m);
        n := m + 1;
      } else {
        n := 1;
        WentNone(next, c);
      }
    }
  }

  lemma ConsumeKeepsStream(w: World, c: nat)
    requires DeliveryInv(w) && c in w.consumers
    ensures Consume(w, c, true).stream == w.stream
  {
    Consumes(w, c);
    hide DeliveryInv, Consume, Settle;
  }

  lemma WentNone(w: World, c: nat)
    requires DeliveryInv(w)
    ensures Went(w, c, 0) == w
  {
    hide DeliveryInv, Moved;
  }

  // ----- how a delivery ends -----

  lemma ListedEnds(w: World, c: nat, s: Consumer) returns (n: nat)
    requires DeliveryInv(w) && c in w.consumers && w.consumers[c] == s && s.Settling? && s.left == []
    ensures s.pos < |w.stream| && w.stream[s.pos].Resolution?
    ensures Went(w, c, n) == if s.rejected == {} then Acked(w, c, s.pos, SettledAll(w.stream[s.pos].event, s.covered))
                             else Acked(Lettered(w, s.pos), c, s.pos, DeadLettered(|w.deadLetters|))
  {
    hide DeliveryInv, Consume, Went;
    Positioned(w, c);
    Consumes(w, c);
    var e := w.stream[s.pos].event;
    WentOne(w, c, 0);
    var next := Consume(w, c, true);
    if s.rejected == {} {
      AckingEnds(next, c, s.pos, SettledAll(e, s.covered));
      ConsumingTwice(w.(acked := w.acked[s.pos := SettledAll(e, s.covered)]), c, Acking(s.pos, SettledAll(e, s.covered)), s);
      WentOne(w, c, 1);
      n := 2;
    } else {
      FailingEnds(next, c, s.pos);
      ConsumingTwice(Lettered(w, s.pos).(acked := w.acked[s.pos := DeadLettered(|w.deadLetters|)]), c, Failing(s.pos), s);
      WentOne(w, c, 2);
      n := 3;
    }
  }

  /** A resolved event whose message is being handled, at some attempt. */
  ghost predicate Handles(w: World, c: nat, pos: nat, attempt: nat, e: EventId, winner: string) {
    && c in w.consumers && w.consumers[c] == Received(pos, attempt)
    && pos < |w.stream| && w.stream[pos].Resolution? && w.stream[pos].event == e && ResolvedTo(w.events, e, winner)
  }

  lemma ListsFirst(w: World, c: nat, pos: nat, attempt: nat, e: EventId, winner: string)
    requires DeliveryInv(w) && Handles(w, c, pos, attempt, e, winner)
    ensures winner != ""
    ensures Consume(w, c, true) == Consuming(w, c, Settling(pos, attempt, winner, MarketsOf(w.ledger, e), SettlementList(w.ledger, e), {}))
  {
    Consumes(w, c);
    assert E.OutcomeOk(w.events.byID[e]);
    hide DeliveryInv, Consume, MarketsOf, SettlementList;
  }

  /** One attempt that nothing interrupts is one call of `SettleEvent` on the event's outcome. */
  lemma AttemptIsSettleEvent(w: World, c: nat, pos: nat, attempt: nat, e: EventId, winner: string) returns (n: nat, s: Consumer)
    requires DeliveryInv(w) && Handles(w, c, pos, attempt, e, winner)
    ensures winner != "" && DeliveryInv(Went(w, c, n))
    ensures s == Settling(pos, attempt, winner, MarketsOf(w.ledger, e), SettlementList(w.ledger, e), {})
    ensures Went(w, c, n) == Through(w, c, s, SettleEvent(w.ledger, e, Resolved(winner), {}).run)
  {
    hide DeliveryInv, Consume, Went, SettleMarkets, MarketsOf, SettlementList;
    ListsFirst(w, c, pos, attempt, e, winner);
    s := Settling(pos, attempt, winner, MarketsOf(w.ledger, e), SettlementList(w.ledger, e), {});
    WentOne(w, c, 0);
    var next := Consume(w, c, true);
    n := GoesThrough(next, c, s);
    WentOne(w, c, n);
    ThroughAfter(w, c, s, s, w.ledger, SettleMarkets(w.ledger, s.left, e, winner, {}));
    assert w.(ledger := w.ledger) == w;
    n := n + 1;
  }

  /** If that call is not stopped by a market, the message is acknowledged with its outcome: as
      settled, or, when markets were rejected for good, with its dead letter sent. */
  lemma DeliveryIsSettleEvent(w: World, c: nat, pos: nat, attempt: nat, e: EventId, winner: string) returns (n: nat)
    requires DeliveryInv(w) && Handles(w, c, pos, attempt, e, winner)
    requires SettleEvent(w.ledger, e, Resolved(winner), {}).Listed? && !SettleEvent(w.ledger, e, Resolved(winner), {}).run.aborted
    ensures var run := SettleEvent(w.ledger, e, Resolved(winner), {}).run;
            Went(w, c, n) == if run.rejected == {} then Acked(w.(ledger := run.st), c, pos, SettledAll(e, MarketsOf(w.ledger, e)))
                             else Acked(Lettered(w.(ledger := run.st), pos), c, pos, DeadLettered(|w.deadLetters|))
  {
    hide DeliveryInv, Consume, Went, SettleEvent, MarketsOf, SettlementList, ResolvedTo;
    var k, s := AttemptIsSettleEvent(w, c, pos, attempt, e, winner);
    var run := SettleEvent(w.ledger, e, Resolved(winner), {}).run;
    var x, t := w.(ledger := run.st), s.(left := [], rejected := s.rejected + run.rejected);
    assert {} + run.rejected == run.rejected;
    var m := ListedEnds(Went(w, c, k), c, t);
    WentOn(w, c, k, m);
    n := k + m;
    ConsumingTwice(x.(acked := w.acked[pos := SettledAll(e, MarketsOf(w.ledger, e))]), c, t, t);
    ConsumingTwice(Lettered(x, pos).(acked := w.acked[pos := DeadLettered(|w.deadLetters|)]), c, t, t);
  }

  /** A message that cannot be decoded, or whose event is missing or unresolved, is dead-lettered
      and acknowledged, and nothing else changes. */
  lemma UnsettleableEnds(w: World, c: nat, pos: nat, attempt: nat) returns (n: nat)
    requires DeliveryInv(w) && c in w.consumers && w.consumers[c] == Received(pos, attempt) && pos < |w.stream|
    requires w.stream[pos].Malformed? || Unsettleable(w, w.stream[pos].event)
    ensures Went(w, c, n) == Acked(Lettered(w, pos), c, pos, DeadLettered(|w.deadLetters|))
  {
    Consumes(w, c);
    assert E.TableInv(w.events);
    GivesUpAtOnce(w, c, pos, attempt);
    hide DeliveryInv, Consume, Went, ListMarkets, Unsettleable, E.TableInv;
    WentOne(w, c, 2);
    FailingEnds(Consuming(w, c, Failing(pos)), c, pos);
    ConsumingTwice(Lettered(w, pos).(acked := w.acked[pos := DeadLettered(|w.deadLetters|)]), c, Failing(pos), Failing(pos));
    n := 3;
  }

  lemma GivesUpAtOnce(w: World, c: nat, pos: nat, attempt: nat)
    requires E.TableInv(w.events) && pos < |w.stream| && (w.stream[pos].Malformed? || Unsettleable(w, w.stream[pos].event))
    ensures ListMarkets(w, c, pos, attempt, false) == Consuming(w, c, Failing(pos))
  {
    if w.stream[pos].Resolution? && w.stream[pos].event in w.events.byID { assert E.OutcomeOk(w.events.byID[w.stream[pos].event]); }
    hide E.TableInv, MarketsOf, SettlementList;
  }

  /** Whatever stands in the way, the attempts run out: a delivery that nothing interrupts ends
      acknowledged. */
  lemma {:induction false} DeliveryEnds(w: World, c: nat, pos: nat, attempt: nat) returns (n: nat)
    requires DeliveryInv(w) && c in w.consumers && w.consumers[c] == Received(pos, attempt)
    ensures pos in Went(w, c, n).acked && c !in Went(w, c, n).consumers
    decreases RETRY_ATTEMPTS - attempt
  {
    hide DeliveryInv, Consume, Went, SettleEvent, MarketsOf, SettlementList, ResolvedTo;
    Positioned(w, c);
    if w.stream[pos].Malformed? || Unsettleable(w, w.stream[pos].event) {
      n := UnsettleableEnds(w, c, pos, attempt);
    } else {
      var e := w.stream[pos].event;
      var winner := OutcomeOf(w, e);
      ResolvedIsListed(w.ledger, e, winner);
      var run := SettleEvent(w.ledger, e, Resolved(winner), {}).run;
      if run.aborted {
        var k, s := AttemptIsSettleEvent(w, c, pos, attempt, e, winner);
        var x := Went(w, c, k);
        var m := 2;
        if attempt < RETRY_ATTEMPTS { m := DeliveryEnds(x, c, pos, attempt + 1); } else { FailingEnds(x, c, pos); }
        WentOn(w, c, k, m);
        n := k + m;
      } else {
        n := DeliveryIsSettleEvent(w, c, pos, attempt, e, winner);
      }
    }
  }

  lemma ResolvedIsListed(st: State, e: EventId, winner: string)
    requires winner != ""
    ensures SettleEvent(st, e, Resolved(winner), {}).Listed?
  {
    hide SettleMarkets;
  }

  lemma OutcomeOf(w: World, e: EventId) returns (winner: string)
    requires DeliveryInv(w) && !Unsettleable(w, e)
    ensures ResolvedTo(w.events, e, winner) && winner != ""
  {
    assert E.OutcomeOk(w.events.byID[e]);
    winner := w.events.byID[e].outcome.value;
  }

  // ----- in any reachable state -----

  lemma {:induction false} WentReached(moves: seq<Move>, c: nat, n: nat)
    ensures Reached(moves + seq(n, _ => ConsumerStep(c, true))) == Went(Reached(moves), c, n)
    decreases n
  {
    hide DeliveryInv, Moved;
    var step := ConsumerStep(c, true);
    if n == 0 {
      assert moves + seq(0, _ => step) == moves;
      hide Reached;
      WentNone(Reached(moves), c);
    } else {
      hide Reached;
      WentReached(moves + [step], c, n - 1);
      assert moves + seq(n, _ => step) == moves + [step] + seq(n - 1, _ => step);
      ReachedNext(moves, step);
    }
  }

  /** No message is ever stuck: in every reachable state one consumer that nothing interrupts can
      take any unacknowledged message to its acknowledgement. */
  lemma NoMessageIsStuck(moves: seq<Move>, c: nat, pos: nat) returns (n: nat)
    requires var w := Reached(moves); pos < |w.stream| && pos !in w.acked && c !in w.consumers
    ensures pos in Reached(moves + [Deliver(c, pos)] + seq(n, _ => ConsumerStep(c, true))).acked
  {
    hide Reached, DeliveryInv, Moved;
    ReachedNext(moves, Deliver(c, pos));
    Delivers(Reached(moves), c, pos);
    n := DeliveryEnds(Reached(moves + [Deliver(c, pos)]), c, pos, 1);
    WentReached(moves + [Deliver(c, pos)], c, n);
  }

  lemma Delivers(w: World, c: nat, pos: nat)
    requires DeliveryInv(w) && pos < |w.stream| && pos !in w.acked && c !in w.consumers
    ensures var r := Moved(w, Deliver(c, pos)); c in r.consumers && r.consumers[c] == Received(pos, 1)
  {
    hide DeliveryInv;
  }
}
