/** What holds over whole runs of the delivery protocol, stated on the runs themselves. */
module DeliveryRuns {
  import opened Orders
  import opened Ledger
  import opened LedgerInvariants
  import opened SettlementRuns
  import opened ExactlyOnce
  import opened Delivery
  import D = Decimal
  import E = Events

  /** The state after a run from nothing. */
  ghost function Reached(moves: seq<Move>): (w: World)
    ensures DeliveryInv(w)
    decreases |moves|
  {
    if moves == [] then
      StartInv();
      START
    else
      var before, last := Reached(moves[..|moves| - 1]), moves[|moves| - 1];
      MovedInv(before, last);
      Moved(before, last)
  }

  lemma StartInv()
    ensures DeliveryInv(START)
  {
    EmptyInv();
  }

  lemma ReachedNext(moves: seq<Move>, move: Move)
    ensures Reached(moves + [move]) == Moved(Reached(moves), move)
  {
    assert (moves + [move])[..|moves|] == moves;
  }

  /** Markets are only ever settled for the outcome their event is resolved to. */
  lemma SettledForTheOutcome(moves: seq<Move>, m: MarketId)
    requires m in Reached(moves).ledger.settlements
    ensures var w := Reached(moves);
            && m in w.ledger.markets && w.ledger.settlements[m].event == w.ledger.markets[m].event
            && ResolvedTo(w.events, w.ledger.markets[m].event, w.ledger.settlements[m].winner)
  {
    var w := Reached(moves);
    assert IsMarketOf(w.ledger, m, w.ledger.settlements[m].event);
  }

  // ----- resolving an event -----

  /** A resolution of a closed event, by one of the two sources there are, writes status and
      outcome, one audit row and one outbox row; any other changes nothing. */
  lemma ResolutionCommits(w: World, e: EventId, outcome: string, source: string, now: int)
    requires DeliveryInv(w)
    ensures Moved(w, Resolves(e, outcome, source, now)) ==
            if e in w.events.byID && w.events.byID[e].status == E.Closed && outcome != "" && (source == "manual" || source == "polymarket") then
              w.(events := E.Table(w.events.byID[e := w.events.byID[e].(status := E.Resolved, outcome := D.Some(outcome))], w.events.idBySource),
                 audits := w.audits + [Audit(e, outcome, source)],
                 outbox := w.outbox + [OutboxRow(e, Resolution(e, outcome), now, false)])
            else w
  {
    forall i | 0 <= i < |w.outbox| ensures w.outbox[i].event in w.events.byID && w.events.byID[w.outbox[i].event].status == E.Resolved {
      assert ResolvedTo(w.events, w.outbox[i].event, w.outbox[i].message.outcome);
    }
    hide DeliveryInv;
  }

  lemma {:induction false} AuditsStay(a: seq<Move>, b: seq<Move>)
    ensures Reached(a).audits <= Reached(a + b).audits
    decreases |b|
  {
    hide Reached, Moved, DeliveryInv;
    if b == [] {
      assert a + b == a;
    } else {
      var before, last := b[..|b| - 1], b[|b| - 1];
      AuditsStay(a, before);
      MovedInv(Reached(a + before), last);
      ReachedNext(a + before, last);
      assert a + b == a + before + [last];
    }
  }

  lemma OneAudit(events: E.Table, audits: seq<Audit>, e: EventId)
    requires AuditsOk(events, audits)
    ensures if e in events.byID && events.byID[e].status == E.Resolved then
              exists i: nat :: i < |audits| && audits[i].event == e && D.Some(audits[i].outcome) == events.byID[e].outcome
                && (audits[i].source == "manual" || audits[i].source == "polymarket")
                && forall j | 0 <= j < |audits| && j != i :: audits[j].event != e
            else forall j | 0 <= j < |audits| :: audits[j].event != e
  {
    if e in events.byID && events.byID[e].status == E.Resolved {
      assert HasAudit(audits, e);
      var i: nat :| i < |audits| && audits[i].event == e;
      assert ResolvedTo(events, audits[i].event, audits[i].outcome);
    } else {
      forall j | 0 <= j < |audits| ensures audits[j].event != e {
        assert ResolvedTo(events, audits[j].event, audits[j].outcome);
      }
    }
  }

  lemma ReachedAudits(moves: seq<Move>)
    ensures AuditsOk(Reached(moves).events, Reached(moves).audits)
  {
    hide AuditsOk;
  }

  /** Over every run: a resolved event has exactly one audit row, with its outcome and the source
      that supplied it; no other event has one; and rows are never removed or changed. */
  lemma ResolutionsAreAudited(a: seq<Move>, b: seq<Move>, e: EventId)
    ensures Reached(a).audits <= Reached(a + b).audits
    ensures var w := Reached(a + b);
            if e in w.events.byID && w.events.byID[e].status == E.Resolved then
              exists i: nat :: i < |w.audits| && w.audits[i].event == e && D.Some(w.audits[i].outcome) == w.events.byID[e].outcome
                && (w.audits[i].source == "manual" || w.audits[i].source == "polymarket")
                && forall j | 0 <= j < |w.audits| && j != i :: w.audits[j].event != e
            else forall j | 0 <= j < |w.audits| :: w.audits[j].event != e
  {
    hide Reached, AuditsOk, DeliveryInv;
    AuditsStay(a, b);
    ReachedAudits(a + b);
    OneAudit(Reached(a + b).events, Reached(a + b).audits, e);
  }

  /** Only a consumer's own step acknowledges, dead-letters, gives up or reaches a verdict. */
  lemma OthersDoNotDecide(w: World, move: Move)
    requires DeliveryInv(w) && !move.ConsumerStep?
    ensures var r := Moved(w, move);
            && r.acked == w.acked && r.deadLetters == w.deadLetters
            && forall c | c in r.consumers :: (c in w.consumers && r.consumers[c] == w.consumers[c]) || r.consumers[c].Received?
  {
    hide DeliveryInv, Next, E.After, Unsent, Marked, HasRow;
  }

  // ----- one step of a consumer, in one statement -----

  predicate Unsettleable(w: World, e: EventId) {
    e !in w.events.byID || !w.events.byID[e].status.Resolved?
  }

  /** What reading a message can lead to, and why. */
  ghost predicate ReadTo(w: World, pos: nat, attempt: nat, ok: bool, next: Consumer)
    requires pos < |w.stream|
  {
    || (next == Failing(pos)
        && (w.stream[pos].Malformed? || (ok && Unsettleable(w, w.stream[pos].event)) || (!ok && attempt >= RETRY_ATTEMPTS)))
    || (!ok && attempt < RETRY_ATTEMPTS && next == Received(pos, attempt + 1))
    || (w.stream[pos].Resolution? && next.Settling? && next.pos == pos && next.covered == MarketsOf(w.ledger, w.stream[pos].event))
  }

  lemma ListReads(w: World, c: nat, pos: nat, attempt: nat, ok: bool)
    requires E.TableInv(w.events) && c in w.consumers && pos < |w.stream|
    ensures var r := ListMarkets(w, c, pos, attempt, !ok);
            c in r.consumers && r == w.(consumers := w.consumers[c := r.consumers[c]]) && ReadTo(w, pos, attempt, ok, r.consumers[c])
  {
    if w.stream[pos].Resolution? && w.stream[pos].event in w.events.byID {
      assert E.OutcomeOk(w.events.byID[w.stream[pos].event]);
    }
    hide E.TableInv, MarketsOf;
  }

  /** Everything one consumer's step decides. */
  ghost predicate Steps(w: World, c: nat, ok: bool, r: World)
    requires c in w.consumers && w.consumers[c].pos < |w.stream|
  {
    && r.stream == w.stream && r.outbox == w.outbox && r.dispatchers == w.dispatchers
    && match w.consumers[c]
       case Received(pos, attempt) =>
         && r.acked == w.acked && r.deadLetters == w.deadLetters
         && c in r.consumers && r.consumers == w.consumers[c := r.consumers[c]] && ReadTo(w, pos, attempt, ok, r.consumers[c])
       case Settling(pos, _, _, _, _, _) =>
         && r.acked == w.acked && r.deadLetters == w.deadLetters && w.stream[pos].Resolution?
         && c in r.consumers && r.consumers == w.consumers[c := r.consumers[c]]
         && NextConsumer(w.ledger, r.ledger, w.consumers[c], r.consumers[c], w.stream[pos].event, !ok)
       case Failing(pos) =>
         && r.acked == w.acked
         && (if ok then r.deadLetters == w.deadLetters + [w.stream[pos]]
                     && r.consumers == w.consumers[c := Acking(pos, DeadLettered(|w.deadLetters|))]
             else r.deadLetters == w.deadLetters && r.consumers == w.consumers - {c})
       case Acking(pos, verdict) =>
         && r.deadLetters == w.deadLetters && r.consumers == w.consumers - {c}
         && r.acked == (if ok then w.acked[pos := verdict] else w.acked)
  }

  lemma ConsumeSteps(w: World, c: nat, ok: bool)
    requires DeliveryInv(w) && c in w.consumers
    ensures w.consumers[c].pos < |w.stream| && Steps(w, c, ok, Consume(w, c, ok))
  {
    assert ConsumerOk(w, w.consumers[c]);
    match w.consumers[c]
    case Received(pos, attempt) => ListReads(w, c, pos, attempt, ok); hide DeliveryInv, ListMarkets, ReadTo;
    case Settling(pos, _, _, _, _, _) =>
      SettleNextShape(w, c, w.consumers[c], w.stream[pos].event, !ok);
      hide DeliveryInv, SettleNext, NextConsumer;
    case _ => hide DeliveryInv, VerdictOk;
  }

  // ----- markets that existed before the message are covered -----

  /** Whatever a consumer has read of a message of `e` at or behind position `n` lists market `m`. */
  predicate Lists(c: Consumer, stream: seq<Message>, m: MarketId, e: EventId, n: nat) {
    n <= c.pos < |stream| && stream[c.pos].Resolution? && stream[c.pos].event == e ==>
      match c
      case Settling(_, _, _, covered, _, _) => m in covered
      case Acking(_, verdict) => verdict.SettledAll? ==> m in verdict.covered
      case _ => true
  }

  ghost predicate Covers(w: World, m: MarketId, e: EventId, n: nat) {
    && n <= |w.stream| && IsMarketOf(w.ledger, m, e)
    && (forall c {:trigger w.consumers[c]} | c in w.consumers :: Lists(w.consumers[c], w.stream, m, e, n))
    && (forall pos {:trigger w.acked[pos]} | pos in w.acked :: Lists(Acking(pos, w.acked[pos]), w.stream, m, e, n))
  }

  lemma ListsKept(c: Consumer, a: seq<Message>, b: seq<Message>, m: MarketId, e: EventId, n: nat)
    requires Lists(c, a, m, e, n) && a <= b && c.pos < |a|
    ensures Lists(c, b, m, e, n)
  {
    assert b[c.pos] == a[c.pos];
  }

  lemma StepLists(w: World, c: nat, ok: bool, r: World, m: MarketId, e: EventId, n: nat)
    requires c in w.consumers && w.consumers[c].pos < |w.stream| && Covers(w, m, e, n) && Steps(w, c, ok, r)
    requires IsMarketOf(r.ledger, m, e)
    ensures Covers(r, m, e, n)
  {
    hide Stuck, Unsettleable, SettledBy;
    assert Lists(w.consumers[c], w.stream, m, e, n);
    forall d | d in r.consumers ensures Lists(r.consumers[d], r.stream, m, e, n) {
      if d != c { assert Lists(w.consumers[d], w.stream, m, e, n); }
    }
    forall pos | pos in r.acked ensures Lists(Acking(pos, r.acked[pos]), r.stream, m, e, n) {
      if pos in w.acked { assert Lists(Acking(pos, w.acked[pos]), w.stream, m, e, n); }
    }
  }

  lemma OtherLists(w: World, move: Move, m: MarketId, e: EventId, n: nat)
    requires DeliveryInv(w) && !move.ConsumerStep? && Covers(w, m, e, n)
    ensures Covers(Moved(w, move), m, e, n)
  {
    var r := Moved(w, move);
    OthersDoNotDecide(w, move);
    MovedInv(w, move);
    forall c | c in w.consumers ensures w.consumers[c].pos < |w.stream| { assert ConsumerOk(w, w.consumers[c]); }
    forall pos | pos in w.acked ensures pos < |w.stream| { assert VerdictOk(w, pos, w.acked[pos]); }
    hide DeliveryInv, Moved, ResolutionsStay, RowsStay;
    forall c | c in r.consumers ensures Lists(r.consumers[c], r.stream, m, e, n) {
      if c in w.consumers && r.consumers[c] == w.consumers[c] { ListsKept(w.consumers[c], w.stream, r.stream, m, e, n); }
    }
    forall pos | pos in r.acked ensures Lists(Acking(pos, r.acked[pos]), r.stream, m, e, n) {
      ListsKept(Acking(pos, w.acked[pos]), w.stream, r.stream, m, e, n);
    }
  }

  lemma MovedCovers(w: World, move: Move, m: MarketId, e: EventId, n: nat)
    requires DeliveryInv(w) && Covers(w, m, e, n)
    ensures Covers(Moved(w, move), m, e, n)
  {
    if move.ConsumerStep? {
      if move.c in w.consumers {
        ConsumeSteps(w, move.c, move.ok);
        ConsumeInv(w, move.c, move.ok);
        hide DeliveryInv, Consume, Steps;
        StepLists(w, move.c, move.ok, Consume(w, move.c, move.ok), m, e, n);
      }
    } else {
      OtherLists(w, move, m, e, n);
    }
  }

  lemma CoversAtFirst(w: World, m: MarketId, e: EventId)
    requires DeliveryInv(w) && IsMarketOf(w.ledger, m, e)
    ensures Covers(w, m, e, |w.stream|)
  {
    forall c | c in w.consumers ensures Lists(w.consumers[c], w.stream, m, e, |w.stream|) {
      assert ConsumerOk(w, w.consumers[c]);
    }
  }

  lemma {:induction false} RunCovers(a: seq<Move>, b: seq<Move>, m: MarketId, e: EventId)
    requires IsMarketOf(Reached(a).ledger, m, e)
    ensures Covers(Reached(a + b), m, e, |Reached(a).stream|)
    decreases |b|
  {
    hide Covers, Reached, Moved, DeliveryInv;
    if b == [] {
      assert a + b == a;
      CoversAtFirst(Reached(a), m, e);
    } else {
      var before, last := b[..|b| - 1], b[|b| - 1];
      RunCovers(a, before, m, e);
      MovedCovers(Reached(a + before), last, m, e, |Reached(a).stream|);
      ReachedNext(a + before, last);
      assert a + b == a + before + [last];
    }
  }

  /** A message sent after a market of its event existed is acknowledged as settled only when
      that market has been settled, for the outcome the event is resolved to. */
  lemma AcknowledgedMarketsAreSettled(a: seq<Move>, b: seq<Move>, m: MarketId, pos: nat)
    requires m in Reached(a).ledger.markets && pos >= |Reached(a).stream|
    requires pos in Reached(a + b).acked && Reached(a + b).acked[pos].SettledAll?
    requires Reached(a + b).acked[pos].event == Reached(a).ledger.markets[m].event
    ensures var w, e := Reached(a + b), Reached(a).ledger.markets[m].event;
            m in w.ledger.settlements && w.ledger.settlements[m].event == e && ResolvedTo(w.events, e, w.ledger.settlements[m].winner)
  {
    var w, e := Reached(a + b), Reached(a).ledger.markets[m].event;
    RunCovers(a, b, m, e);
    assert VerdictOk(w, pos, w.acked[pos]) && Lists(Acking(pos, w.acked[pos]), w.stream, m, e, |Reached(a).stream|);
    SettledForTheOutcome(a + b, m);
  }

  // ----- no resolution is lost -----

  /** What was sent of the event went to the stream at or behind position `n`. */
  ghost predicate SentBehind(w: World, e: EventId, n: nat) {
    && n <= |w.stream|
    && (forall i | 0 <= i < |w.outbox| && w.outbox[i].event == e && w.outbox[i].published :: w.outbox[i].message in w.stream[n..])
    && (forall d {:trigger w.dispatchers[d]} | d in w.dispatchers :: BatchBehind(w, w.dispatchers[d], e, n))
  }

  ghost predicate BatchBehind(w: World, b: Batch, e: EventId, n: nat)
    requires n <= |w.stream|
  {
    forall j | 0 <= j < b.sent && j < |b.rows| && b.rows[j] < |w.outbox| && w.outbox[b.rows[j]].event == e ::
      w.outbox[b.rows[j]].message in w.stream[n..]
  }

  lemma TailKeeps(a: seq<Message>, b: seq<Message>, n: nat, message: Message)
    requires a <= b && n <= |a| && message in a[n..]
    ensures message in b[n..]
  {
    var i :| 0 <= i < |a[n..]| && a[n..][i] == message;
    assert b[n..][i] == message;
  }

  /** Rows keep their events, and no row appears published. */
  ghost predicate RowsKept(a: seq<OutboxRow>, b: seq<OutboxRow>) {
    && |a| <= |b| && (forall i | 0 <= i < |a| :: b[i] == a[i])
    && (forall i | |a| <= i < |b| :: !b[i].published)
  }

  lemma BatchStaysBehind(w: World, r: World, b: Batch, e: EventId, n: nat)
    requires n <= |w.stream| && BatchBehind(w, b, e, n) && w.stream <= r.stream && RowsKept(w.outbox, r.outbox)
    requires forall j | 0 <= j < |b.rows| :: b.rows[j] < |w.outbox|
    ensures BatchBehind(r, b, e, n)
  {
    forall j | 0 <= j < b.sent && j < |b.rows| && b.rows[j] < |r.outbox| && r.outbox[b.rows[j]].event == e
      ensures r.outbox[b.rows[j]].message in r.stream[n..]
    {
      assert w.outbox[b.rows[j]].message in w.stream[n..];
      TailKeeps(w.stream, r.stream, n, w.outbox[b.rows[j]].message);
    }
  }

  /** A step that marks no row and sends nothing of a batch. */
  lemma StaysBehind(w: World, r: World, e: EventId, n: nat)
    requires SentBehind(w, e, n) && w.stream <= r.stream && RowsKept(w.outbox, r.outbox)
    requires forall d | d in w.dispatchers :: forall j | 0 <= j < |w.dispatchers[d].rows| :: w.dispatchers[d].rows[j] < |w.outbox|
    requires forall d | d in r.dispatchers :: (d in w.dispatchers && r.dispatchers[d] == w.dispatchers[d]) || r.dispatchers[d].sent == 0
    ensures SentBehind(r, e, n)
  {
    forall i | 0 <= i < |r.outbox| && r.outbox[i].event == e && r.outbox[i].published ensures r.outbox[i].message in r.stream[n..] {
      TailKeeps(w.stream, r.stream, n, w.outbox[i].message);
    }
    forall d | d in r.dispatchers ensures BatchBehind(r, r.dispatchers[d], e, n) {
      if d in w.dispatchers && r.dispatchers[d] == w.dispatchers[d] { BatchStaysBehind(w, r, w.dispatchers[d], e, n); }
    }
  }

  lemma PublishBehind(w: World, d: nat, e: EventId, n: nat)
    requires SentBehind(w, e, n) && d in w.dispatchers
    requires forall x | x in w.dispatchers :: forall j | 0 <= j < |w.dispatchers[x].rows| :: w.dispatchers[x].rows[j] < |w.outbox|
    ensures SentBehind(PublishNext(w, d, w.dispatchers[d]), e, n)
  {
    var b, r := w.dispatchers[d], PublishNext(w, d, w.dispatchers[d]);
    if b.sent < |b.rows| {
      var message := w.outbox[b.rows[b.sent]].message;
      assert r.stream[n..] == w.stream[n..] + [message];
      forall i | 0 <= i < |r.outbox| && r.outbox[i].event == e && r.outbox[i].published ensures r.outbox[i].message in r.stream[n..] {
        assert w.outbox[i].message in w.stream[n..];
      }
      forall x | x in r.dispatchers ensures BatchBehind(r, r.dispatchers[x], e, n) {
        assert BatchBehind(w, w.dispatchers[x], e, n);
        BatchStaysBehind(w, r, w.dispatchers[x], e, n);
      }
    }
  }

  lemma CommitBehind(w: World, d: nat, e: EventId, n: nat)
    requires SentBehind(w, e, n) && d in w.dispatchers
    requires forall x | x in w.dispatchers :: forall j | 0 <= j < |w.dispatchers[x].rows| :: w.dispatchers[x].rows[j] < |w.outbox|
    ensures SentBehind(CommitBatch(w, d, w.dispatchers[d]), e, n)
  {
    var b, r := w.dispatchers[d], CommitBatch(w, d, w.dispatchers[d]);
    assert BatchBehind(w, b, e, n);
    if b.sent >= |b.rows| {
      forall i | 0 <= i < |r.outbox| && r.outbox[i].event == e && r.outbox[i].published ensures r.outbox[i].message in r.stream[n..] {
        if i in b.rows {
          var j :| 0 <= j < |b.rows| && b.rows[j] == i;
          assert w.outbox[b.rows[j]].message in w.stream[n..];
        }
      }
      forall x | x in r.dispatchers ensures BatchBehind(r, r.dispatchers[x], e, n) {
        assert BatchBehind(w, w.dispatchers[x], e, n);
      }
    }
  }

  /** Only publishing and committing touch what is sent. */
  lemma OthersDoNotSend(w: World, move: Move)
    requires DeliveryInv(w) && !move.Publish? && !move.Commit? && !move.ConsumerStep?
    ensures var r := Moved(w, move);
            && RowsKept(w.outbox, r.outbox)
            && forall d | d in r.dispatchers :: (d in w.dispatchers && r.dispatchers[d] == w.dispatchers[d]) || r.dispatchers[d].sent == 0
  {
    hide DeliveryInv, Next, E.After, E.Resolve, Unsent, HasRow;
  }

  lemma MovedBehind(w: World, move: Move, e: EventId, n: nat)
    requires DeliveryInv(w) && SentBehind(w, e, n)
    ensures SentBehind(Moved(w, move), e, n)
  {
    forall d | d in w.dispatchers ensures forall j | 0 <= j < |w.dispatchers[d].rows| :: w.dispatchers[d].rows[j] < |w.outbox| {
      assert BatchOk(w, w.dispatchers[d]);
    }
    if move.Publish? {
      hide DeliveryInv, SentBehind, PublishNext;
      if move.d in w.dispatchers { PublishBehind(w, move.d, e, n); }
    } else if move.Commit? {
      hide DeliveryInv, SentBehind, CommitBatch;
      if move.d in w.dispatchers { CommitBehind(w, move.d, e, n); }
    } else {
      MovedInv(w, move);
      if move.ConsumerStep? {
        if move.c in w.consumers { ConsumeSteps(w, move.c, move.ok); }
        hide Consume;
      } else {
        OthersDoNotSend(w, move);
      }
      hide DeliveryInv, SentBehind, Moved;
      StaysBehind(w, Moved(w, move), e, n);
    }
  }

  lemma NothingSentYet(w: World, e: EventId)
    requires DeliveryInv(w) && Unsettleable(w, e)
    ensures SentBehind(w, e, |w.stream|)
  {
    forall i | 0 <= i < |w.outbox| ensures w.outbox[i].event != e {
      assert ResolvedTo(w.events, w.outbox[i].event, w.outbox[i].message.outcome);
    }
  }

  lemma {:induction false} RunBehind(a: seq<Move>, b: seq<Move>, e: EventId)
    requires Unsettleable(Reached(a), e)
    ensures SentBehind(Reached(a + b), e, |Reached(a).stream|)
    decreases |b|
  {
    hide SentBehind, Reached, Moved, DeliveryInv;
    if b == [] {
      assert a + b == a;
      NothingSentYet(Reached(a), e);
    } else {
      var before, last := b[..|b| - 1], b[|b| - 1];
      RunBehind(a, before, e);
      MovedBehind(Reached(a + before), last, e, |Reached(a).stream|);
      ReachedNext(a + before, last);
      assert a + b == a + before + [last];
    }
  }

  /** The one outbox row of a resolved event. */
  ghost predicate OnlyRow(w: World, i: nat, e: EventId, outcome: string) {
    && i < |w.outbox| && w.outbox[i].event == e && w.outbox[i].message == Resolution(e, outcome)
    && forall j | 0 <= j < |w.outbox| && j != i :: w.outbox[j].event != e
  }

  /** Where a published resolution is: unacknowledged on the stream; or acknowledged with every
      market in `markets` settled for the outcome; or in the dead-letter topic. */
  ghost predicate Delivered(w: World, pos: nat, e: EventId, outcome: string, markets: set<MarketId>) {
    && pos < |w.stream| && w.stream[pos] == Resolution(e, outcome)
    && (pos in w.acked ==>
          match w.acked[pos]
          case SettledAll(_, _) => forall m | m in markets :: m in w.ledger.settlements && w.ledger.settlements[m] == Settlement(e, outcome)
          case DeadLettered(at) => at < |w.deadLetters| && w.deadLetters[at] == Resolution(e, outcome))
  }

  lemma OnlyRowMeans(w: World, i: nat, e: EventId, outcome: string)
    requires OnlyRow(w, i, e, outcome)
    ensures i < |w.outbox| && w.outbox[i].event == e && w.outbox[i].message == Resolution(e, outcome)
  {
  }

  lemma RowOfResolved(w: World, e: EventId, outcome: string) returns (i: nat)
    requires DeliveryInv(w) && ResolvedTo(w.events, e, outcome)
    ensures OnlyRow(w, i, e, outcome)
  {
    assert HasRow(w.outbox, e);
    i :| 0 <= i < |w.outbox| && w.outbox[i].event == e;
    assert ResolvedTo(w.events, w.outbox[i].event, w.outbox[i].message.outcome);
  }

  /** No resolution is lost: whenever an event is resolved, after any run `a`, then in every
      later state it has exactly one outbox row, and that is still to be published, or its
      message is on the stream unacknowledged, or every market the event had by then is
      settled for its outcome, or the message is in the dead-letter topic. */
  lemma NoLostResolution(a: seq<Move>, b: seq<Move>, e: EventId, outcome: string)
    requires Unsettleable(Reached(a), e) && ResolvedTo(Reached(a + b).events, e, outcome)
    ensures var w := Reached(a + b);
            exists i: nat :: OnlyRow(w, i, e, outcome)
              && (!w.outbox[i].published || exists pos: nat :: Delivered(w, pos, e, outcome, MarketsOf(Reached(a).ledger, e)))
  {
    hide Reached, DeliveryInv, Delivered, OnlyRow, MarketsOf;
    var w, n := Reached(a + b), |Reached(a).stream|;
    RunBehind(a, b, e);
    var i := RowOfResolved(w, e, outcome);
    assert i < |w.outbox| && w.outbox[i].event == e && w.outbox[i].message == Resolution(e, outcome) by { OnlyRowMeans(w, i, e, outcome); }
    if w.outbox[i].published {
      assert w.outbox[i].message in w.stream[n..];
      var k :| 0 <= k < |w.stream[n..]| && w.stream[n..][k] == w.outbox[i].message;
      PublishedIsDelivered(a, b, e, outcome, n + k);
    }
  }

  lemma PublishedIsDelivered(a: seq<Move>, b: seq<Move>, e: EventId, outcome: string, pos: nat)
    requires |Reached(a).stream| <= pos < |Reached(a + b).stream| && Reached(a + b).stream[pos] == Resolution(e, outcome)
    requires ResolvedTo(Reached(a + b).events, e, outcome)
    ensures Delivered(Reached(a + b), pos, e, outcome, MarketsOf(Reached(a).ledger, e))
  {
    var w := Reached(a + b);
    if pos in w.acked {
      assert VerdictOk(w, pos, w.acked[pos]);
      hide DeliveryInv, Reached;
      if w.acked[pos].SettledAll? {
        forall m | m in MarketsOf(Reached(a).ledger, e)
          ensures m in w.ledger.settlements && w.ledger.settlements[m] == Settlement(e, outcome)
        {
          AcknowledgedMarketsAreSettled(a, b, m, pos);
        }
      }
    }
  }

  // ----- why a message was acknowledged -----

  /** Consumer `move.c` was at `pos` when it made this step. */
  predicate StepAt(w: World, move: Move, pos: nat) {
    move.ConsumerStep? && move.c in w.consumers && w.consumers[move.c].pos == pos && pos < |w.stream|
  }

  /** A settlement call returned nil: its listed markets were all gone through and none was rejected. */
  predicate ReturnsNil(w: World, move: Move, pos: nat, verdict: Verdict) {
    && StepAt(w, move, pos) && w.consumers[move.c].Settling? && w.stream[pos].Resolution?
    && w.consumers[move.c].left == [] && w.consumers[move.c].rejected == {}
    && verdict == SettledAll(w.stream[pos].event, w.consumers[move.c].covered)
  }

  /** The message was given up: it cannot be decoded, its event is missing or unresolved, a
      market was rejected for not offering the outcome, or the last attempt failed. */
  ghost predicate GivesUp(w: World, move: Move, pos: nat) {
    && StepAt(w, move, pos)
    && match w.consumers[move.c]
       case Received(_, attempt) =>
         w.stream[pos].Malformed? || (move.ok && Unsettleable(w, w.stream[pos].event)) || (!move.ok && attempt == RETRY_ATTEMPTS)
       case Settling(_, attempt, winner, _, left, rejected) =>
         && w.stream[pos].Resolution?
         && ((left == [] && rejected != {}
              && forall m | m in rejected :: IsMarketOf(w.ledger, m, w.stream[pos].event) && winner !in w.ledger.markets[m].options)
             || (attempt == RETRY_ATTEMPTS && Stuck(w.ledger, w.consumers[move.c], w.stream[pos].event, !move.ok)))
       case _ => false
  }

  /** The dead letter of the message was published. */
  predicate SendsLetter(w: World, move: Move, pos: nat, verdict: Verdict) {
    && StepAt(w, move, pos) && w.consumers[move.c].Failing? && move.ok && verdict == DeadLettered(|w.deadLetters|)
  }

  predicate Acknowledges(w: World, move: Move, pos: nat, verdict: Verdict) {
    StepAt(w, move, pos) && move.ok && w.consumers[move.c] == Acking(pos, verdict)
  }

  /** Some step of the run gave the message up. */
  ghost predicate GaveUp(moves: seq<Move>, pos: nat) {
    exists k {:trigger moves[..k]} | 0 <= k < |moves| :: GivesUp(Reached(moves[..k]), moves[k], pos)
  }

  /** Some step of the run returned nil for the message, or sent its dead letter after an
      earlier one had given it up. */
  ghost predicate Justified(moves: seq<Move>, pos: nat, verdict: Verdict) {
    exists k {:trigger moves[..k]} | 0 <= k < |moves| ::
      || ReturnsNil(Reached(moves[..k]), moves[k], pos, verdict)
      || (SendsLetter(Reached(moves[..k]), moves[k], pos, verdict) && GaveUp(moves[..k], pos))
  }

  /** Some step of the run acknowledged the message, justified by the steps before it. */
  ghost predicate AcknowledgedFor(moves: seq<Move>, pos: nat, verdict: Verdict) {
    exists k {:trigger moves[..k]} | 0 <= k < |moves| ::
      Acknowledges(Reached(moves[..k]), moves[k], pos, verdict) && Justified(moves[..k], pos, verdict)
  }

  lemma Earlier(moves: seq<Move>, move: Move)
    ensures forall k {:trigger (moves + [move])[..k]} | 0 <= k <= |moves| :: (moves + [move])[..k] == moves[..k]
    ensures moves[..|moves|] == moves
  {
  }

  lemma GaveUpEarlier(moves: seq<Move>, move: Move, pos: nat)
    requires GaveUp(moves, pos)
    ensures GaveUp(moves + [move], pos)
  {
    Earlier(moves, move);
    hide GivesUp, Reached;
    var k :| 0 <= k < |moves| && GivesUp(Reached(moves[..k]), moves[k], pos);
    assert (moves + [move])[..k] == moves[..k];
  }

  lemma JustifiedEarlier(moves: seq<Move>, move: Move, pos: nat, verdict: Verdict)
    requires Justified(moves, pos, verdict)
    ensures Justified(moves + [move], pos, verdict)
  {
    Earlier(moves, move);
    hide GaveUp, ReturnsNil, SendsLetter, Reached;
    var k :| 0 <= k < |moves| && (ReturnsNil(Reached(moves[..k]), moves[k], pos, verdict)
               || (SendsLetter(Reached(moves[..k]), moves[k], pos, verdict) && GaveUp(moves[..k], pos)));
    assert (moves + [move])[..k] == moves[..k];
  }

  lemma AcknowledgedEarlier(moves: seq<Move>, move: Move, pos: nat, verdict: Verdict)
    requires AcknowledgedFor(moves, pos, verdict)
    ensures AcknowledgedFor(moves + [move], pos, verdict)
  {
    Earlier(moves, move);
    hide Justified, Acknowledges, Reached;
    var k :| 0 <= k < |moves| && Acknowledges(Reached(moves[..k]), moves[k], pos, verdict) && Justified(moves[..k], pos, verdict);
    assert (moves + [move])[..k] == moves[..k];
  }

  /** Where a consumer stands is justified by the run so far. */
  ghost predicate ConsumerJustified(moves: seq<Move>, c: Consumer) {
    match c
    case Failing(pos) => GaveUp(moves, pos)
    case Acking(pos, verdict) => Justified(moves, pos, verdict)
    case _ => true
  }

  /** So is every acknowledgement. `w` is where the run has led. */
  ghost predicate JustifiedIn(moves: seq<Move>, w: World) {
    && (forall c {:trigger w.consumers[c]} | c in w.consumers :: ConsumerJustified(moves, w.consumers[c]))
    && (forall pos {:trigger w.acked[pos]} | pos in w.acked :: AcknowledgedFor(moves, pos, w.acked[pos]))
  }

  lemma ConsumerJustifiedEarlier(moves: seq<Move>, move: Move, c: Consumer)
    requires ConsumerJustified(moves, c)
    ensures ConsumerJustified(moves + [move], c)
  {
    hide GaveUp, Justified;
    if c.Failing? { GaveUpEarlier(moves, move, c.pos); }
    if c.Acking? { JustifiedEarlier(moves, move, c.pos, c.verdict); }
  }

  /** The step just made is the last of the run. */
  lemma GaveUpNow(moves: seq<Move>, move: Move, pos: nat)
    requires GivesUp(Reached(moves), move, pos)
    ensures GaveUp(moves + [move], pos)
  {
    hide GivesUp, Reached;
    assert (moves + [move])[..|moves|] == moves;
  }

  lemma JustifiedNow(moves: seq<Move>, move: Move, pos: nat, verdict: Verdict)
    requires ReturnsNil(Reached(moves), move, pos, verdict) || (SendsLetter(Reached(moves), move, pos, verdict) && GaveUp(moves, pos))
    ensures Justified(moves + [move], pos, verdict)
  {
    hide ReturnsNil, SendsLetter, GaveUp, Reached;
    assert (moves + [move])[..|moves|] == moves;
  }

  lemma AcknowledgedNow(moves: seq<Move>, move: Move, pos: nat, verdict: Verdict)
    requires Acknowledges(Reached(moves), move, pos, verdict) && Justified(moves, pos, verdict)
    ensures AcknowledgedFor(moves + [move], pos, verdict)
  {
    hide Acknowledges, Justified, Reached;
    assert (moves + [move])[..|moves|] == moves;
  }

  /** What a consumer's step makes of itself has its cause in that step. */
  lemma StepCause(w: World, c: nat, ok: bool, r: World)
    requires c in w.consumers && ConsumerOk(w, w.consumers[c]) && Steps(w, c, ok, r) && c in r.consumers
    ensures var move, pos, next := ConsumerStep(c, ok), w.consumers[c].pos, r.consumers[c];
            && (next.Failing? || next.Acking? ==> next.pos == pos)
            && (next.Failing? ==> GivesUp(w, move, pos))
            && (next.Acking? && w.consumers[c] == Failing(pos) ==> SendsLetter(w, move, pos, next.verdict))
            && (next.Acking? && w.consumers[c] != Failing(pos) ==> ReturnsNil(w, move, pos, next.verdict))
  {
    hide VerdictOk, Stuck, Unsettleable, SettledBy;
  }

  lemma StepJustified(moves: seq<Move>, c: nat, ok: bool, r: World)
    requires c in Reached(moves).consumers && c in r.consumers && ConsumerJustified(moves, Reached(moves).consumers[c])
    requires ConsumerOk(Reached(moves), Reached(moves).consumers[c]) && Steps(Reached(moves), c, ok, r)
    ensures ConsumerJustified(moves + [ConsumerStep(c, ok)], r.consumers[c])
  {
    var w, move := Reached(moves), ConsumerStep(c, ok);
    StepCause(w, c, ok, r);
    hide Reached, Steps, ConsumerOk, GivesUp, ReturnsNil, SendsLetter, GaveUp, Justified;
    if r.consumers[c].Failing? {
      GaveUpNow(moves, move, w.consumers[c].pos);
    } else if r.consumers[c].Acking? {
      JustifiedNow(moves, move, w.consumers[c].pos, r.consumers[c].verdict);
    }
  }

  lemma ConsumersJustified(moves: seq<Move>, c: nat, ok: bool, r: World)
    requires var w := Reached(moves);
             && JustifiedIn(moves, w) && c in w.consumers && ConsumerOk(w, w.consumers[c]) && Steps(w, c, ok, r)
             && forall d | d in r.consumers && d != c :: d in w.consumers && r.consumers[d] == w.consumers[d]
    ensures forall d | d in r.consumers :: ConsumerJustified(moves + [ConsumerStep(c, ok)], r.consumers[d])
  {
    hide Reached, Steps, ConsumerOk, ConsumerJustified, AcknowledgedFor;
    var w, move := Reached(moves), ConsumerStep(c, ok);
    forall d | d in r.consumers ensures ConsumerJustified(moves + [move], r.consumers[d]) {
      if d == c { StepJustified(moves, c, ok, r); } else { ConsumerJustifiedEarlier(moves, move, w.consumers[d]); }
    }
  }

  lemma AcksJustified(moves: seq<Move>, c: nat, ok: bool, acked: map<nat, Verdict>)
    requires var w := Reached(moves);
             && JustifiedIn(moves, w) && c in w.consumers
             && forall pos | pos in acked :: (pos in w.acked && acked[pos] == w.acked[pos]) || Acknowledges(w, ConsumerStep(c, ok), pos, acked[pos])
    ensures forall pos | pos in acked :: AcknowledgedFor(moves + [ConsumerStep(c, ok)], pos, acked[pos])
  {
    hide Reached, ConsumerJustified, AcknowledgedFor, Acknowledges;
    var w, move := Reached(moves), ConsumerStep(c, ok);
    forall pos | pos in acked ensures AcknowledgedFor(moves + [move], pos, acked[pos]) {
      if pos in w.acked && acked[pos] == w.acked[pos] {
        AcknowledgedEarlier(moves, move, pos, w.acked[pos]);
      } else {
        AcknowledgesJustified(moves, c, ok, pos, acked[pos]);
      }
    }
  }

  lemma ConsumerMoveJustified(moves: seq<Move>, c: nat, ok: bool, r: World)
    requires var w := Reached(moves); JustifiedIn(moves, w) && c in w.consumers && w.consumers[c].pos < |w.stream|
    requires ConsumerOk(Reached(moves), Reached(moves).consumers[c]) && Steps(Reached(moves), c, ok, r)
    ensures JustifiedIn(moves + [ConsumerStep(c, ok)], r)
  {
    hide Reached, Steps, ConsumerOk, Acknowledges, ConsumerJustified, AcknowledgedFor;
    StepRows(Reached(moves), c, ok, r);
    ConsumersJustified(moves, c, ok, r);
    AcksJustified(moves, c, ok, r.acked);
  }

  lemma AcknowledgesJustified(moves: seq<Move>, c: nat, ok: bool, pos: nat, verdict: Verdict)
    requires c in Reached(moves).consumers && ConsumerJustified(moves, Reached(moves).consumers[c])
    requires Acknowledges(Reached(moves), ConsumerStep(c, ok), pos, verdict)
    ensures AcknowledgedFor(moves + [ConsumerStep(c, ok)], pos, verdict)
  {
    hide Reached, Justified, GaveUp;
    AcknowledgedNow(moves, ConsumerStep(c, ok), pos, verdict);
  }

  /** The rows a consumer's step does not decide stay. */
  lemma StepRows(w: World, c: nat, ok: bool, r: World)
    requires c in w.consumers && w.consumers[c].pos < |w.stream| && Steps(w, c, ok, r)
    ensures forall d | d in r.consumers && d != c :: d in w.consumers && r.consumers[d] == w.consumers[d]
    ensures forall pos | pos in r.acked :: (pos in w.acked && r.acked[pos] == w.acked[pos]) || Acknowledges(w, ConsumerStep(c, ok), pos, r.acked[pos])
  {
    hide ReadTo, NextConsumer;
  }

  lemma OtherMoveJustified(moves: seq<Move>, w: World, move: Move, r: World)
    requires w == Reached(moves) && JustifiedIn(moves, w) && r.acked == w.acked
    requires forall c | c in r.consumers :: (c in w.consumers && r.consumers[c] == w.consumers[c]) || r.consumers[c].Received?
    ensures JustifiedIn(moves + [move], r)
  {
    hide Reached, GaveUp, Justified, AcknowledgedFor;
    forall c | c in r.consumers ensures ConsumerJustified(moves + [move], r.consumers[c]) {
      if c in w.consumers && r.consumers[c] == w.consumers[c] { ConsumerJustifiedEarlier(moves, move, w.consumers[c]); }
    }
    forall pos | pos in r.acked ensures AcknowledgedFor(moves + [move], pos, r.acked[pos]) {
      AcknowledgedEarlier(moves, move, pos, w.acked[pos]);
    }
  }

  lemma MoveJustified(moves: seq<Move>, move: Move)
    requires JustifiedIn(moves, Reached(moves))
    ensures JustifiedIn(moves + [move], Reached(moves + [move]))
  {
    var w := Reached(moves);
    ReachedNext(moves, move);
    hide Reached, JustifiedIn;
    if move.ConsumerStep? && move.c in w.consumers {
      ConsumeSteps(w, move.c, move.ok);
      assert ConsumerOk(w, w.consumers[move.c]);
      assert Reached(moves + [move]) == Consume(w, move.c, move.ok);
      hide DeliveryInv, Steps, ConsumerOk, Consume, Moved;
      ConsumerMoveJustified(moves, move.c, move.ok, Consume(w, move.c, move.ok));
    } else {
      if !move.ConsumerStep? { OthersDoNotDecide(w, move); } else { assert Moved(w, move) == w; }
      hide DeliveryInv, Moved;
      OtherMoveJustified(moves, w, move, Moved(w, move));
    }
  }

  lemma {:induction false} EveryRunJustified(moves: seq<Move>)
    ensures JustifiedIn(moves, Reached(moves))
    decreases |moves|
  {
    if moves != [] {
      var before, last := moves[..|moves| - 1], moves[|moves| - 1];
      hide JustifiedIn, Reached, DeliveryInv;
      assert moves == before + [last];
      EveryRunJustified(before);
      MoveJustified(before, last);
    }
  }

  /** An acknowledgement follows only a settlement call of that message that returned nil, or a
      dead letter of that message, published after the message had been given up for cause. */
  lemma AcknowledgedForCause(moves: seq<Move>, pos: nat)
    requires pos in Reached(moves).acked
    ensures AcknowledgedFor(moves, pos, Reached(moves).acked[pos])
  {
    EveryRunJustified(moves);
  }
}
