/** From a resolved event to settled markets: the resolution transaction with its outbox row,
    dispatchers that publish before they commit, and consumers that settle, retry, dead-letter
    and acknowledge. Every call is one step; anything may run or crash between two of them. */
module Delivery {
  import opened Orders
  import opened Ledger
  import opened LedgerInvariants
  import opened SettlementRuns
  import opened ExactlyOnce
  import D = Decimal
  import E = Events

  const RETRY_ATTEMPTS: nat := 5

  /** What travels on the topic: a decodable resolution, or anything else. */
  datatype Message = Resolution(event: EventId, outcome: string) | Malformed(text: string)

  datatype OutboxRow = OutboxRow(event: EventId, message: Message, createdAt: int, published: bool)

  datatype Audit = Audit(event: EventId, outcome: string, source: string)

  /** Why a message was acknowledged: `covered` are the event's markets when they were listed. */
  datatype Verdict = SettledAll(event: EventId, covered: set<MarketId>) | DeadLettered(at: nat)

  /** A dispatch transaction: the rows it locked and how many it has published. */
  datatype Batch = Batch(rows: seq<nat>, sent: nat)

  datatype Consumer =
    | Received(pos: nat, attempt: nat)
    | Settling(pos: nat, attempt: nat, winner: string, covered: set<MarketId>, left: seq<MarketId>, rejected: set<MarketId>)
    | Failing(pos: nat)
    | Acking(pos: nat, verdict: Verdict)

  /** `stream` never shrinks; `acked` holds the acknowledged positions and, as history, why. */
  datatype World = World(
    events: E.Table, audits: seq<Audit>, outbox: seq<OutboxRow>,
    stream: seq<Message>, acked: map<nat, Verdict>, deadLetters: seq<Message>,
    ledger: State, dispatchers: map<nat, Batch>, consumers: map<nat, Consumer>)

  const START := World(E.NO_EVENTS, [], [], [], map[], [], EMPTY, map[], map[])

  // ----- the resolution transaction -----

  ghost predicate HasRow(outbox: seq<OutboxRow>, e: EventId) {
    exists i | 0 <= i < |outbox| :: outbox[i].event == e
  }

  /** What the audit table's constraint on its sources admits. */
  predicate KnownSource(source: string) {
    source == "manual" || source == "polymarket"
  }

  /** Status, audit and outbox row, all or nothing; a second row of the event is dropped. */
  ghost function ResolveEvent(w: World, e: EventId, outcome: string, source: string, now: int): World {
    if !KnownSource(source) then w
    else
      match E.Resolve(w.events, e, E.Closed, outcome, source)
      case Failure(_) => w
      case Success(table) =>
        w.(events := table, audits := w.audits + [Audit(e, outcome, source)],
           outbox := if HasRow(w.outbox, e) then w.outbox
                     else w.outbox + [OutboxRow(e, Resolution(e, outcome), now, false)])
  }

  // ----- dispatching -----

  ghost predicate Unsent(w: World, rows: seq<nat>) {
    forall i | 0 <= i < |rows| :: rows[i] < |w.outbox| && !w.outbox[rows[i]].published
  }

  function Marked(outbox: seq<OutboxRow>, rows: seq<nat>): seq<OutboxRow> {
    seq(|outbox|, i requires 0 <= i < |outbox| => if i in rows then outbox[i].(published := true) else outbox[i])
  }

  function Dispatcher(w: World, d: nat, b: Batch): World {
    w.(dispatchers := w.dispatchers[d := b])
  }

  function PublishNext(w: World, d: nat, b: Batch): World {
    if b.sent >= |b.rows| || b.rows[b.sent] >= |w.outbox| then w
    else Dispatcher(w.(stream := w.stream + [w.outbox[b.rows[b.sent]].message]), d, b.(sent := b.sent + 1))
  }

  function CommitBatch(w: World, d: nat, b: Batch): World {
    if b.sent < |b.rows| then w
    else w.(outbox := Marked(w.outbox, b.rows), dispatchers := w.dispatchers - {d})
  }

  // ----- consuming -----

  function Consuming(w: World, c: nat, phase: Consumer): World {
    w.(consumers := w.consumers[c := phase])
  }

  function GoneConsumer(w: World, c: nat): World {
    w.(consumers := w.consumers - {c})
  }

  function MarketsOf(st: State, e: EventId): set<MarketId> {
    set m | m in st.markets && st.markets[m].event == e
  }

  /** A failure that may pass is retried, the last one is not. */
  function Retry(w: World, c: nat, pos: nat, attempt: nat): World {
    if attempt >= RETRY_ATTEMPTS then Consuming(w, c, Failing(pos)) else Consuming(w, c, Received(pos, attempt + 1))
  }

  /** Decoding, and the reads `SettleEvent` begins with. */
  ghost function ListMarkets(w: World, c: nat, pos: nat, attempt: nat, fault: bool): World
    requires pos < |w.stream|
  {
    match w.stream[pos]
    case Malformed(_) => Consuming(w, c, Failing(pos))
    case Resolution(e, _) =>
      if fault then Retry(w, c, pos, attempt)
      else if e !in w.events.byID then Consuming(w, c, Failing(pos))
      else
        match w.events.byID[e].outcome
        case None => Consuming(w, c, Failing(pos))
        case Some(winner) =>
          if !w.events.byID[e].status.Resolved? || winner == "" then Consuming(w, c, Failing(pos))
          else Consuming(w, c, Settling(pos, attempt, winner, MarketsOf(w.ledger, e), SettlementList(w.ledger, e), {}))
  }

  /** The next market of `SettleEvent`, in its own transaction, or the call's return. */
  ghost function SettleNext(w: World, c: nat, s: Consumer, e: EventId, fault: bool): World
    requires s.Settling?
  {
    if s.left == [] then
      if s.rejected == {} then Consuming(w, c, Acking(s.pos, SettledAll(e, s.covered))) else Consuming(w, c, Failing(s.pos))
    else if fault then Retry(w, c, s.pos, s.attempt)
    else
      match Settle(w.ledger, s.left[0], e, s.winner)
      case Success(next) => Consuming(w.(ledger := next), c, s.(left := s.left[1..]))
      case Failure(error) =>
        if PermanentError(error) then Consuming(w, c, s.(left := s.left[1..], rejected := s.rejected + {s.left[0]}))
        else Retry(w, c, s.pos, s.attempt)
  }

  /** Publishing the dead letter; a failure leaves the message unacknowledged. */
  function DeadLetter(w: World, c: nat, pos: nat, ok: bool): World
    requires pos < |w.stream|
  {
    if !ok then GoneConsumer(w, c)
    else Consuming(w.(deadLetters := w.deadLetters + [w.stream[pos]]), c, Acking(pos, DeadLettered(|w.deadLetters|)))
  }

  function Acknowledge(w: World, c: nat, pos: nat, verdict: Verdict, ok: bool): World {
    if !ok then GoneConsumer(w, c) else GoneConsumer(w.(acked := w.acked[pos := verdict]), c)
  }

  ghost function Consume(w: World, c: nat, ok: bool): World
    requires DeliveryInv(w) && c in w.consumers
  {
    assert ConsumerOk(w, w.consumers[c]);
    match w.consumers[c]
    case Received(pos, attempt) => ListMarkets(w, c, pos, attempt, !ok)
    case Settling(pos, _, _, _, _, _) => SettleNext(w, c, w.consumers[c], w.stream[pos].event, !ok)
    case Failing(pos) => DeadLetter(w, c, pos, ok)
    case Acking(pos, verdict) => Acknowledge(w, c, pos, verdict, ok)
  }

  /** `LedgerCall` is any call of the exchange but a settlement, which only a consumer makes;
      `EventCall` is any call of the event tables but a resolution. */
  datatype Move =
    | EventCall(op: E.Op)
    | Resolves(e: EventId, outcome: string, source: string, now: int)
    | LedgerCall(tx: Op)
    | Foreign(message: Message)
    | BeginDispatch(d: nat, rows: seq<nat>)
    | Publish(d: nat)
    | Commit(d: nat)
    | CrashDispatch(d: nat)
    | Deliver(c: nat, pos: nat)
    | ConsumerStep(c: nat, ok: bool)
    | CrashConsumer(c: nat)

  ghost function Moved(w: World, move: Move): World
    requires DeliveryInv(w)
  {
    match move
    case EventCall(op) => if op.OpResolve? then w else w.(events := E.After(w.events, op))
    case Resolves(e, outcome, source, now) => if outcome == "" then w else ResolveEvent(w, e, outcome, source, now)
    case LedgerCall(tx) => if tx.OpSettle? then w else w.(ledger := Next(w.ledger, tx))
    case Foreign(message) => w.(stream := w.stream + [message])
    case BeginDispatch(d, rows) => if d in w.dispatchers || !Unsent(w, rows) then w else Dispatcher(w, d, Batch(rows, 0))
    case Publish(d) => if d in w.dispatchers then PublishNext(w, d, w.dispatchers[d]) else w
    case Commit(d) => if d in w.dispatchers then CommitBatch(w, d, w.dispatchers[d]) else w
    case CrashDispatch(d) => w.(dispatchers := w.dispatchers - {d})
    case Deliver(c, pos) =>
      if c in w.consumers || pos >= |w.stream| || pos in w.acked then w else Consuming(w, c, Received(pos, 1))
    case ConsumerStep(c, ok) => if c in w.consumers then Consume(w, c, ok) else w
    case CrashConsumer(c) => GoneConsumer(w, c)
  }

  // ----- what every step keeps -----

  ghost predicate ResolvedTo(events: E.Table, e: EventId, outcome: string) {
    e in events.byID && events.byID[e].status.Resolved? && events.byID[e].outcome == D.Some(outcome)
  }

  /** Every resolved event has one row, and every row tells the event's outcome. */
  ghost predicate OutboxOk(events: E.Table, outbox: seq<OutboxRow>) {
    && (forall e {:trigger HasRow(outbox, e)} | e in events.byID && events.byID[e].status.Resolved? :: HasRow(outbox, e))
    && (forall i | 0 <= i < |outbox| ::
          outbox[i].message.Resolution? && outbox[i].message.event == outbox[i].event
          && ResolvedTo(events, outbox[i].event, outbox[i].message.outcome))
    && (forall i, j | 0 <= i < j < |outbox| :: outbox[i].event != outbox[j].event)
  }

  /** Every resolved event has one audit row, and every row tells the event's outcome and who
      supplied it. */
  ghost predicate AuditsOk(events: E.Table, audits: seq<Audit>) {
    && (forall e {:trigger HasAudit(audits, e)} | e in events.byID && events.byID[e].status.Resolved? :: HasAudit(audits, e))
    && (forall i | 0 <= i < |audits| :: ResolvedTo(events, audits[i].event, audits[i].outcome) && KnownSource(audits[i].source))
    && (forall i, j | 0 <= i < j < |audits| :: audits[i].event != audits[j].event)
  }

  ghost predicate HasAudit(audits: seq<Audit>, e: EventId) {
    exists i | 0 <= i < |audits| :: audits[i].event == e
  }

  /** What is marked published is on the stream. */
  ghost predicate PublishedOk(outbox: seq<OutboxRow>, stream: seq<Message>) {
    forall i | 0 <= i < |outbox| && outbox[i].published :: outbox[i].message in stream
  }

  ghost predicate BatchOk(w: World, b: Batch) {
    && b.sent <= |b.rows|
    && (forall j | 0 <= j < |b.rows| :: b.rows[j] < |w.outbox|)
    && (forall j | 0 <= j < b.sent :: w.outbox[b.rows[j]].message in w.stream)
  }

  /** The message at `pos` may be acknowledged for this reason. */
  ghost predicate VerdictOk(w: World, pos: nat, v: Verdict) {
    && pos < |w.stream|
    && match v
       case SettledAll(e, covered) =>
         w.stream[pos].Resolution? && w.stream[pos].event == e && forall m | m in covered :: m in w.ledger.settlements
       case DeadLettered(at) => at < |w.deadLetters| && w.deadLetters[at] == w.stream[pos]
  }

  predicate IsMarketOf(st: State, m: MarketId, e: EventId) {
    m in st.markets && st.markets[m].event == e
  }

  ghost predicate ConsumerOk(w: World, c: Consumer) {
    && c.pos < |w.stream|
    && match c
       case Received(_, attempt) => 1 <= attempt <= RETRY_ATTEMPTS
       case Settling(pos, attempt, winner, covered, left, rejected) =>
         && 1 <= attempt <= RETRY_ATTEMPTS && w.stream[pos].Resolution? && ResolvedTo(w.events, w.stream[pos].event, winner)
         && (forall m | m in left :: IsMarketOf(w.ledger, m, w.stream[pos].event))
         && (forall m | m in rejected :: IsMarketOf(w.ledger, m, w.stream[pos].event) && winner !in w.ledger.markets[m].options)
         && (forall m | m in covered :: m in w.ledger.settlements || m in left || m in rejected)
       case Failing(_) => true
       case Acking(pos, verdict) => VerdictOk(w, pos, verdict)
  }

  /** Every settled market was settled for the outcome its event is resolved to. */
  ghost predicate SettledRight(events: E.Table, st: State) {
    forall m {:trigger st.settlements[m]} | m in st.settlements ::
      IsMarketOf(st, m, st.settlements[m].event) && ResolvedTo(events, st.settlements[m].event, st.settlements[m].winner)
  }

  ghost predicate DeliveryInv(w: World) {
    && E.TableInv(w.events) && Inv(w.ledger) && SettledRight(w.events, w.ledger)
    && AuditsOk(w.events, w.audits) && OutboxOk(w.events, w.outbox) && PublishedOk(w.outbox, w.stream)
    && (forall d {:trigger w.dispatchers[d]} | d in w.dispatchers :: BatchOk(w, w.dispatchers[d]))
    && (forall c {:trigger w.consumers[c]} | c in w.consumers :: ConsumerOk(w, w.consumers[c]))
    && (forall pos {:trigger w.acked[pos]} | pos in w.acked :: VerdictOk(w, pos, w.acked[pos]))
  }

  // ----- what only grows -----

  ghost predicate LedgerGrows(a: State, b: State) {
    && (forall m | m in a.settlements :: m in b.settlements && b.settlements[m] == a.settlements[m])
    && OptionsStay(a, b)
  }

  ghost predicate ResolutionsStay(a: E.Table, b: E.Table) {
    forall e, outcome :: ResolvedTo(a, e, outcome) ==> ResolvedTo(b, e, outcome)
  }

  lemma AdvancesKeepResolutions(a: E.Table, b: E.Table)
    requires E.TableAdvances(a, b)
    ensures ResolutionsStay(a, b)
  {
  }

  ghost predicate RowsStay(a: seq<OutboxRow>, b: seq<OutboxRow>) {
    |a| <= |b| && forall i | 0 <= i < |a| :: b[i].message == a[i].message
  }

  ghost predicate Grows(w: World, r: World) {
    && w.stream <= r.stream && w.deadLetters <= r.deadLetters && w.audits <= r.audits
    && LedgerGrows(w.ledger, r.ledger) && ResolutionsStay(w.events, r.events) && RowsStay(w.outbox, r.outbox)
  }

  lemma VerdictKept(w: World, r: World, pos: nat, v: Verdict)
    requires VerdictOk(w, pos, v) && Grows(w, r)
    ensures VerdictOk(r, pos, v)
  {
    assert r.stream[pos] == w.stream[pos];
  }

  lemma ConsumerKept(w: World, r: World, c: Consumer)
    requires ConsumerOk(w, c) && Grows(w, r)
    ensures ConsumerOk(r, c)
  {
    assert r.stream[c.pos] == w.stream[c.pos];
    if c.Acking? { VerdictKept(w, r, c.pos, c.verdict); }
  }

  lemma BatchKept(w: World, r: World, b: Batch)
    requires BatchOk(w, b) && Grows(w, r)
    ensures BatchOk(r, b)
  {
    forall j | 0 <= j < b.sent ensures r.outbox[b.rows[j]].message in r.stream {
      StreamKeeps(w.stream, r.stream, w.outbox[b.rows[j]].message);
    }
  }

  lemma StreamKeeps(a: seq<Message>, b: seq<Message>, m: Message)
    requires a <= b && m in a
    ensures m in b
  {
    var i :| 0 <= i < |a| && a[i] == m;
    assert b[i] == m;
  }

  lemma PublishedKept(outbox: seq<OutboxRow>, a: seq<Message>, b: seq<Message>)
    requires PublishedOk(outbox, a) && a <= b
    ensures PublishedOk(outbox, b)
  {
    forall i | 0 <= i < |outbox| && outbox[i].published ensures outbox[i].message in b {
      StreamKeeps(a, b, outbox[i].message);
    }
  }

  // ----- the ledger under everyone else's calls -----

  lemma SettleGrows(st: State, m: MarketId, e: EventId, winner: string)
    requires Inv(st) && Settle(st, m, e, winner).Success?
    ensures var next := Settle(st, m, e, winner).value;
            && LedgerGrows(st, next)
            && (IsMarketOf(st, m, e) ==> m in next.settlements)
            && (forall x | x in next.settlements && x !in st.settlements ::
                  x == m && IsMarketOf(st, m, e) && next.settlements[x] == Settlement(e, winner))
  {
    SettledForWinner(st, m, e, winner);
    if Settles(st, m, e, winner) {
      var ids, paid := SettleEffect(st, m, e, winner);
    }
  }

  lemma PlaceGrows(st: State, terms: Terms)
    requires Inv(st) && ValidTerms(terms) && Place(st, terms).Success?
    ensures LedgerGrows(st, Place(st, terms).value)
  {
    hide Inv, ValidTerms;
  }

  lemma NextGrows(st: State, tx: Op)
    requires Inv(st) && !tx.OpSettle?
    ensures LedgerGrows(st, Next(st, tx)) && Next(st, tx).settlements == st.settlements
  {
    OtherOpsSettleNothing(st, tx);
    if Accepted(tx) && Attempt(st, tx).Success? {
      match tx
      case OpPlace(terms) => PlaceGrows(st, terms);
      case _ =>
    }
  }

  lemma RightKept(events: E.Table, a: State, b: State)
    requires SettledRight(events, a) && LedgerGrows(a, b) && b.settlements == a.settlements
    ensures SettledRight(events, b)
  {
    forall m | m in b.settlements ensures IsMarketOf(b, m, b.settlements[m].event) {
      assert IsMarketOf(a, m, a.settlements[m].event);
    }
  }

  // ----- a step of one participant -----

  /** Everything but one consumer and the acknowledgement it may make stayed or grew. */
  lemma ConsumerStepInv(w: World, c: nat, r: World)
    requires DeliveryInv(w) && c in w.consumers && Grows(w, r) && Inv(r.ledger) && SettledRight(r.events, r.ledger)
    requires r.events == w.events && r.audits == w.audits && r.outbox == w.outbox && r.stream == w.stream && r.dispatchers == w.dispatchers
    requires r.acked == w.acked || exists pos, v :: r.acked == w.acked[pos := v] && VerdictOk(w, pos, v)
    requires forall d | d in r.consumers :: (d in w.consumers && r.consumers[d] == w.consumers[d]) || ConsumerOk(r, r.consumers[d])
    ensures DeliveryInv(r)
  {
    forall d | d in r.consumers ensures ConsumerOk(r, r.consumers[d]) {
      if d in w.consumers && r.consumers[d] == w.consumers[d] { ConsumerKept(w, r, w.consumers[d]); }
    }
    forall d | d in r.dispatchers ensures BatchOk(r, r.dispatchers[d]) {
      BatchKept(w, r, w.dispatchers[d]);
    }
    forall pos | pos in r.acked ensures VerdictOk(r, pos, r.acked[pos]) {
      VerdictKept(w, r, pos, r.acked[pos]);
    }
  }

  /** Only what the rest reads grew. */
  lemma SharedStepInv(w: World, r: World)
    requires DeliveryInv(w) && Grows(w, r)
    requires E.TableInv(r.events) && Inv(r.ledger) && SettledRight(r.events, r.ledger)
    requires AuditsOk(r.events, r.audits) && OutboxOk(r.events, r.outbox) && PublishedOk(r.outbox, r.stream)
    requires r.acked == w.acked && r.consumers == w.consumers
    requires forall d | d in r.dispatchers :: (d in w.dispatchers && r.dispatchers[d] == w.dispatchers[d]) || BatchOk(r, r.dispatchers[d])
    ensures DeliveryInv(r)
  {
    forall d | d in r.consumers ensures ConsumerOk(r, r.consumers[d]) {
      ConsumerKept(w, r, w.consumers[d]);
    }
    forall d | d in r.dispatchers ensures BatchOk(r, r.dispatchers[d]) {
      if d in w.dispatchers && r.dispatchers[d] == w.dispatchers[d] { BatchKept(w, r, w.dispatchers[d]); }
    }
    forall pos | pos in r.acked ensures VerdictOk(r, pos, r.acked[pos]) {
      VerdictKept(w, r, pos, w.acked[pos]);
    }
  }

  // ----- events and their outbox -----

  lemma OutboxKept(a: E.Table, b: E.Table, outbox: seq<OutboxRow>)
    requires OutboxOk(a, outbox) && E.TableAdvances(a, b)
    requires forall e | e in b.byID && b.byID[e].status.Resolved? :: e in a.byID && a.byID[e].status.Resolved?
    ensures OutboxOk(b, outbox)
  {
    forall i | 0 <= i < |outbox| ensures ResolvedTo(b, outbox[i].event, outbox[i].message.outcome) {
      assert ResolvedTo(a, outbox[i].event, outbox[i].message.outcome);
    }
  }

  lemma AuditsKept(a: E.Table, b: E.Table, audits: seq<Audit>)
    requires AuditsOk(a, audits) && E.TableAdvances(a, b)
    requires forall e | e in b.byID && b.byID[e].status.Resolved? :: e in a.byID && a.byID[e].status.Resolved?
    ensures AuditsOk(b, audits)
  {
    forall i | 0 <= i < |audits| ensures ResolvedTo(b, audits[i].event, audits[i].outcome) {
      assert ResolvedTo(a, audits[i].event, audits[i].outcome);
    }
  }

  lemma OnlyResolveResolves(t: E.Table, op: E.Op)
    requires E.TableInv(t) && !op.OpResolve?
    ensures E.TableInv(E.After(t, op)) && E.TableAdvances(t, E.After(t, op))
    ensures var r := E.After(t, op);
            forall e | e in r.byID && r.byID[e].status.Resolved? :: e in t.byID && t.byID[e].status.Resolved?
  {
    E.AfterInv(t, op);
    hide E.TableInv, E.TableAdvances;
  }

  lemma EventCallInv(w: World, op: E.Op)
    requires DeliveryInv(w) && !op.OpResolve?
    ensures DeliveryInv(w.(events := E.After(w.events, op)))
    ensures Grows(w, w.(events := E.After(w.events, op)))
  {
    hide Inv, E.TableInv, E.TableAdvances, AuditsOk, OutboxOk, HasRow, ConsumerOk, VerdictOk, BatchOk, E.After;
    var r := w.(events := E.After(w.events, op));
    OnlyResolveResolves(w.events, op);
    OutboxKept(w.events, r.events, w.outbox);
    AuditsKept(w.events, r.events, w.audits);
    AdvancesKeepResolutions(w.events, r.events);
    SharedStepInv(w, r);
  }

  lemma OutboxGains(events: E.Table, outbox: seq<OutboxRow>, e: EventId, outcome: string, now: int, r: E.Table)
    requires OutboxOk(events, outbox) && E.TableAdvances(events, r)
    requires e in events.byID && !events.byID[e].status.Resolved? && ResolvedTo(r, e, outcome)
    requires forall x | x in r.byID && x != e :: x in events.byID && r.byID[x] == events.byID[x]
    ensures !HasRow(outbox, e)
    ensures OutboxOk(r, outbox + [OutboxRow(e, Resolution(e, outcome), now, false)])
  {
    var more := outbox + [OutboxRow(e, Resolution(e, outcome), now, false)];
    forall i | 0 <= i < |outbox| ensures outbox[i].event != e && ResolvedTo(r, outbox[i].event, outbox[i].message.outcome) {
      assert ResolvedTo(events, outbox[i].event, outbox[i].message.outcome);
    }
    forall x | x in r.byID && r.byID[x].status.Resolved? ensures HasRow(more, x) {
      if x == e {
        assert more[|outbox|].event == e;
      } else {
        assert HasRow(outbox, x);
        var i :| 0 <= i < |outbox| && outbox[i].event == x;
        assert more[i].event == x;
      }
    }
  }

  lemma AuditsGain(events: E.Table, audits: seq<Audit>, e: EventId, outcome: string, source: string, r: E.Table)
    requires AuditsOk(events, audits) && E.TableAdvances(events, r) && KnownSource(source)
    requires e in events.byID && !events.byID[e].status.Resolved? && ResolvedTo(r, e, outcome)
    requires forall x | x in r.byID && x != e :: x in events.byID && r.byID[x] == events.byID[x]
    ensures AuditsOk(r, audits + [Audit(e, outcome, source)])
  {
    var more := audits + [Audit(e, outcome, source)];
    forall i | 0 <= i < |audits| ensures audits[i].event != e && ResolvedTo(r, audits[i].event, audits[i].outcome) {
      assert ResolvedTo(events, audits[i].event, audits[i].outcome);
    }
    forall x | x in r.byID && r.byID[x].status.Resolved? ensures HasAudit(more, x) {
      if x == e {
        assert more[|audits|].event == e;
      } else {
        assert HasAudit(audits, x);
        var i :| 0 <= i < |audits| && audits[i].event == x;
        assert more[i].event == x;
      }
    }
  }

  lemma ResolveEffect(t: E.Table, e: EventId, outcome: string, source: string)
    requires E.TableInv(t) && outcome != "" && E.Resolve(t, e, E.Closed, outcome, source).Success?
    ensures var r := E.Resolve(t, e, E.Closed, outcome, source).value;
            && E.TableInv(r) && E.TableAdvances(t, r)
            && e in t.byID && !t.byID[e].status.Resolved? && ResolvedTo(r, e, outcome)
            && forall x | x in r.byID && x != e :: x in t.byID && r.byID[x] == t.byID[x]
  {
    E.AfterInv(t, E.OpResolve(e, E.Closed, outcome, source));
    hide E.TableInv, E.TableAdvances;
  }

  lemma ResolvesInv(w: World, e: EventId, outcome: string, source: string, now: int)
    requires DeliveryInv(w) && outcome != ""
    ensures DeliveryInv(ResolveEvent(w, e, outcome, source, now))
    ensures Grows(w, ResolveEvent(w, e, outcome, source, now))
  {
    hide Inv, E.TableInv, E.TableAdvances, E.Resolve, AuditsOk, OutboxOk, HasRow, ConsumerOk, VerdictOk, BatchOk, PublishedOk;
    var r := ResolveEvent(w, e, outcome, source, now);
    if KnownSource(source) && E.Resolve(w.events, e, E.Closed, outcome, source).Success? {
      ResolveEffect(w.events, e, outcome, source);
      AuditsGain(w.events, w.audits, e, outcome, source, r.events);
      OutboxGains(w.events, w.outbox, e, outcome, now, r.events);
      PublishedMore(w.outbox, w.stream, OutboxRow(e, Resolution(e, outcome), now, false));
      AdvancesKeepResolutions(w.events, r.events);
      SharedStepInv(w, r);
    }
  }

  lemma PublishedMore(outbox: seq<OutboxRow>, stream: seq<Message>, row: OutboxRow)
    requires PublishedOk(outbox, stream) && !row.published
    ensures PublishedOk(outbox + [row], stream) && RowsStay(outbox, outbox + [row])
  {
  }

  // ----- dispatching -----

  lemma PublishInv(w: World, d: nat)
    requires DeliveryInv(w) && d in w.dispatchers
    ensures DeliveryInv(PublishNext(w, d, w.dispatchers[d]))
    ensures Grows(w, PublishNext(w, d, w.dispatchers[d]))
  {
    var b := w.dispatchers[d];
    var r := PublishNext(w, d, b);
    assert BatchOk(w, b);
    hide Inv, E.TableInv, SettledRight, ConsumerOk, VerdictOk, AuditsOk, OutboxOk, PublishedOk;
    if r != w {
      PublishedKept(w.outbox, w.stream, r.stream);
      forall j | 0 <= j < b.sent + 1 ensures r.outbox[b.rows[j]].message in r.stream {
        if j < b.sent { StreamKeeps(w.stream, r.stream, w.outbox[b.rows[j]].message); }
        else { assert r.stream[|w.stream|] == w.outbox[b.rows[j]].message; }
      }
      SharedStepInv(w, r);
    }
  }

  lemma MarkedPublished(w: World, b: Batch)
    requires BatchOk(w, b) && b.sent == |b.rows| && PublishedOk(w.outbox, w.stream)
    ensures PublishedOk(Marked(w.outbox, b.rows), w.stream) && RowsStay(w.outbox, Marked(w.outbox, b.rows))
  {
    var marked := Marked(w.outbox, b.rows);
    forall i | 0 <= i < |marked| && marked[i].published ensures marked[i].message in w.stream {
      if i in b.rows {
        var j :| 0 <= j < |b.rows| && b.rows[j] == i;
        assert w.outbox[b.rows[j]].message in w.stream;
      }
    }
  }

  lemma CommitInv(w: World, d: nat)
    requires DeliveryInv(w) && d in w.dispatchers
    ensures DeliveryInv(CommitBatch(w, d, w.dispatchers[d]))
    ensures Grows(w, CommitBatch(w, d, w.dispatchers[d]))
  {
    var b := w.dispatchers[d];
    assert BatchOk(w, b);
    hide Inv, E.TableInv, SettledRight, ConsumerOk, VerdictOk, AuditsOk, OutboxOk, PublishedOk, Marked, RowsStay;
    if b.sent == |b.rows| {
      MarkedPublished(w, b);
      MarkedOk(w.events, w.outbox, b.rows);
      hide BatchOk;
      SharedStepInv(w, CommitBatch(w, d, b));
    } else {
      SameGrows(w);
    }
  }

  lemma SameGrows(w: World)
    ensures Grows(w, w)
  {
  }

  lemma MarkedOk(events: E.Table, outbox: seq<OutboxRow>, rows: seq<nat>)
    requires OutboxOk(events, outbox)
    ensures OutboxOk(events, Marked(outbox, rows))
  {
    var r := Marked(outbox, rows);
    forall e | e in events.byID && events.byID[e].status.Resolved? ensures HasRow(r, e) {
      assert HasRow(outbox, e);
      var i :| 0 <= i < |outbox| && outbox[i].event == e;
      assert r[i].event == e;
    }
    forall i | 0 <= i < |r|
      ensures r[i].message.Resolution? && r[i].message.event == r[i].event && ResolvedTo(events, r[i].event, r[i].message.outcome)
    {
      assert r[i].event == outbox[i].event && r[i].message == outbox[i].message;
    }
  }

  // ----- consuming -----

  lemma ListedCovers(st: State, e: EventId)
    ensures forall m | m in SettlementList(st, e) :: m in st.markets && st.markets[m].event == e
    ensures forall m | m in MarketsOf(st, e) :: m in st.settlements || m in SettlementList(st, e)
  {
    ListIsUnsettled(st, e);
  }

  lemma ListPhase(w: World, c: nat, pos: nat, attempt: nat, fault: bool)
    requires c in w.consumers && pos < |w.stream| && 1 <= attempt <= RETRY_ATTEMPTS
    ensures var r := ListMarkets(w, c, pos, attempt, fault);
            c in r.consumers && r == w.(consumers := w.consumers[c := r.consumers[c]]) && ConsumerOk(w, r.consumers[c])
  {
    hide MarketsOf;
    if w.stream[pos].Resolution? { ListedCovers(w.ledger, w.stream[pos].event); }
  }

  lemma ListInv(w: World, c: nat, pos: nat, attempt: nat, fault: bool)
    requires DeliveryInv(w) && c in w.consumers && w.consumers[c] == Received(pos, attempt)
    ensures pos < |w.stream| && DeliveryInv(ListMarkets(w, c, pos, attempt, fault))
    ensures Grows(w, ListMarkets(w, c, pos, attempt, fault))
  {
    assert ConsumerOk(w, w.consumers[c]);
    hide Inv, E.TableInv, AuditsOk, OutboxOk, PublishedOk, BatchOk, ListMarkets;
    var r := ListMarkets(w, c, pos, attempt, fault);
    ListPhase(w, c, pos, attempt, fault);
    ConsumerKept(w, r, r.consumers[c]);
    hide ConsumerOk, VerdictOk;
    ConsumerStepInv(w, c, r);
  }

  ghost predicate SettledBy(a: State, m: MarketId, e: EventId, b: State) {
    IsMarketOf(a, m, e) ==> m in b.settlements
  }

  /** The next market cannot be settled now: the call failed from outside, or for a reason that
      may pass. */
  ghost predicate Stuck(a: State, s: Consumer, e: EventId, fault: bool)
    requires s.Settling?
  {
    s.left != [] && Blocks(a, s.left[0], e, s.winner, if fault then {s.left[0]} else {})
  }

  /** What one step of `SettleEvent` can lead to, and why. */
  ghost predicate NextConsumer(a: State, b: State, s: Consumer, next: Consumer, e: EventId, fault: bool)
    requires s.Settling?
  {
    || (s.left == [] && s.rejected == {} && next == Acking(s.pos, SettledAll(e, s.covered)))
    || (s.left == [] && s.rejected != {} && next == Failing(s.pos))
    || (s.attempt >= RETRY_ATTEMPTS && Stuck(a, s, e, fault) && next == Failing(s.pos))
    || (s.attempt < RETRY_ATTEMPTS && next == Received(s.pos, s.attempt + 1))
    || (s.left != [] && SettledBy(a, s.left[0], e, b) && next == s.(left := s.left[1..]))
    || (s.left != [] && IsMarketOf(a, s.left[0], e) && s.winner !in a.markets[s.left[0]].options
        && next == s.(left := s.left[1..], rejected := s.rejected + {s.left[0]}))
  }

  /** The only settlement a step may add is the event's, for the winner it read. */
  ghost predicate SettlesOnly(a: State, b: State, e: EventId, winner: string) {
    forall m | m in b.settlements && m !in a.settlements :: IsMarketOf(a, m, e) && b.settlements[m] == Settlement(e, winner)
  }

  lemma SettleNextShape(w: World, c: nat, s: Consumer, e: EventId, fault: bool)
    requires Inv(w.ledger) && s.Settling? && c in w.consumers
    ensures var r := SettleNext(w, c, s, e, fault);
            && c in r.consumers && r == w.(ledger := r.ledger, consumers := w.consumers[c := r.consumers[c]])
            && Inv(r.ledger) && LedgerGrows(w.ledger, r.ledger) && SettlesOnly(w.ledger, r.ledger, e, s.winner)
            && NextConsumer(w.ledger, r.ledger, s, r.consumers[c], e, fault)
  {
    if s.left != [] && !fault {
      match Settle(w.ledger, s.left[0], e, s.winner)
      case Success(_) =>
        SettleKeeps(w.ledger, s.left[0], e, s.winner);
        SettleGrows(w.ledger, s.left[0], e, s.winner);
      case Failure(error) =>
        if PermanentError(error) { PermanentCause(w.ledger, s.left[0], e, s.winner); }
    }
    hide Settle, Inv;
  }

  /** The markets still to settle after one was settled or passed over. */
  lemma LeftOver(w: World, ledger: State, s: Consumer, next: Consumer, e: EventId, fault: bool)
    requires ConsumerOk(w, s) && s.Settling? && e == w.stream[s.pos].event
    requires LedgerGrows(w.ledger, ledger) && NextConsumer(w.ledger, ledger, s, next, e, fault)
    ensures ConsumerOk(w.(ledger := ledger), next)
  {
    hide Blocks;
    assert s.left != [] ==> forall m :: m in s.left <==> m == s.left[0] || m in s.left[1..];
  }

  lemma RightAfter(events: E.Table, a: State, b: State, e: EventId, winner: string)
    requires SettledRight(events, a) && LedgerGrows(a, b) && SettlesOnly(a, b, e, winner) && ResolvedTo(events, e, winner)
    ensures SettledRight(events, b)
  {
    forall m | m in b.settlements
      ensures IsMarketOf(b, m, b.settlements[m].event) && ResolvedTo(events, b.settlements[m].event, b.settlements[m].winner)
    {
      if m in a.settlements { assert IsMarketOf(a, m, a.settlements[m].event); }
    }
  }

  lemma SettleNextInv(w: World, c: nat, s: Consumer, fault: bool)
    requires DeliveryInv(w) && c in w.consumers && w.consumers[c] == s && s.Settling?
    ensures s.pos < |w.stream| && w.stream[s.pos].Resolution?
    ensures DeliveryInv(SettleNext(w, c, s, w.stream[s.pos].event, fault))
    ensures Grows(w, SettleNext(w, c, s, w.stream[s.pos].event, fault))
  {
    assert ConsumerOk(w, s);
    var e := w.stream[s.pos].event;
    var r := SettleNext(w, c, s, e, fault);
    hide Inv, E.TableInv, AuditsOk, OutboxOk, PublishedOk, BatchOk, SettleNext, SettledRight, NextConsumer, SettlesOnly;
    SettleNextShape(w, c, s, e, fault);
    RightAfter(w.events, w.ledger, r.ledger, e, s.winner);
    LeftOver(w, r.ledger, s, r.consumers[c], e, fault);
    assert ConsumerOk(r, r.consumers[c]);
    hide DeliveryInv, ConsumerOk, VerdictOk, LedgerGrows;
    ConsumerStepInv(w, c, r);
  }

  lemma ConsumeInv(w: World, c: nat, ok: bool)
    requires DeliveryInv(w) && c in w.consumers
    ensures DeliveryInv(Consume(w, c, ok))
    ensures Grows(w, Consume(w, c, ok))
  {
    assert ConsumerOk(w, w.consumers[c]);
    var r := Consume(w, c, ok);
    match w.consumers[c]
    case Received(pos, attempt) => ListInv(w, c, pos, attempt, !ok);
    case Settling(_, _, _, _, _, _) => SettleNextInv(w, c, w.consumers[c], !ok);
    case Failing(_) => ConsumerStepInv(w, c, r);
    case Acking(_, _) => ConsumerStepInv(w, c, r);
  }

  lemma DeliverInv(w: World, c: nat, pos: nat)
    requires DeliveryInv(w) && c !in w.consumers && pos < |w.stream|
    ensures DeliveryInv(Consuming(w, c, Received(pos, 1)))
    ensures Grows(w, Consuming(w, c, Received(pos, 1)))
  {
    var r := Consuming(w, c, Received(pos, 1));
    forall d | d in r.consumers ensures ConsumerOk(r, r.consumers[d]) {
      if d != c { ConsumerKept(w, r, w.consumers[d]); }
    }
    forall d | d in r.dispatchers ensures BatchOk(r, r.dispatchers[d]) {
      BatchKept(w, r, w.dispatchers[d]);
    }
    forall p | p in r.acked ensures VerdictOk(r, p, r.acked[p]) {
      VerdictKept(w, r, p, w.acked[p]);
    }
  }

  /** Every step of every participant, and every crash, keeps the protocol's invariant. */
  lemma MovedInv(w: World, move: Move)
    requires DeliveryInv(w)
    ensures DeliveryInv(Moved(w, move))
    ensures Grows(w, Moved(w, move))
  {
    hide E.TableInv, AuditsOk, OutboxOk, ConsumerOk, VerdictOk, BatchOk, ResolveEvent, PublishNext, CommitBatch, Consume;
    match move
    case EventCall(op) => if !op.OpResolve? { EventCallInv(w, op); }
    case Resolves(e, outcome, source, now) => if outcome != "" { ResolvesInv(w, e, outcome, source, now); }
    case LedgerCall(tx) => if !tx.OpSettle? { LedgerCallInv(w, tx); }
    case Foreign(message) => PublishedKept(w.outbox, w.stream, w.stream + [message]); SharedStepInv(w, Moved(w, move));
    case BeginDispatch(d, rows) => if d !in w.dispatchers && Unsent(w, rows) { BeginInv(w, d, rows); }
    case Publish(d) => if d in w.dispatchers { PublishInv(w, d); }
    case Commit(d) => if d in w.dispatchers { CommitInv(w, d); }
    case CrashDispatch(d) => SharedStepInv(w, Moved(w, move));
    case Deliver(c, pos) => if c !in w.consumers && pos < |w.stream| { DeliverInv(w, c, pos); }
    case ConsumerStep(c, ok) => if c in w.consumers { ConsumeInv(w, c, ok); }
    case CrashConsumer(c) => if c in w.consumers { ConsumerStepInv(w, c, Moved(w, move)); } else { assert w.consumers - {c} == w.consumers; }
  }

  lemma LedgerCallInv(w: World, tx: Op)
    requires DeliveryInv(w) && !tx.OpSettle?
    ensures DeliveryInv(w.(ledger := Next(w.ledger, tx)))
    ensures Grows(w, w.(ledger := Next(w.ledger, tx)))
  {
    var r := w.(ledger := Next(w.ledger, tx));
    NextInv(w.ledger, tx);
    NextGrows(w.ledger, tx);
    RightKept(w.events, w.ledger, r.ledger);
    hide Inv, E.TableInv, AuditsOk, OutboxOk, ConsumerOk, VerdictOk, BatchOk, Next, SettledRight, LedgerGrows;
    SharedStepInv(w, r);
  }

  lemma BeginInv(w: World, d: nat, rows: seq<nat>)
    requires DeliveryInv(w) && d !in w.dispatchers && Unsent(w, rows)
    ensures DeliveryInv(Dispatcher(w, d, Batch(rows, 0)))
    ensures Grows(w, Dispatcher(w, d, Batch(rows, 0)))
  {
    var r := Dispatcher(w, d, Batch(rows, 0));
    assert BatchOk(r, Batch(rows, 0));
    hide E.TableInv, AuditsOk, OutboxOk, ConsumerOk, VerdictOk, BatchOk, Unsent;
    SharedStepInv(w, r);
  }
}
