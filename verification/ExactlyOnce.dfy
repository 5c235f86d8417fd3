/** Settling an event: each market in its own transaction, each paid at most once, permanent
    failures passed over, any other failure ending the call. */
module ExactlyOnce {
  import opened Sorting
  import opened Orders
  import opened BookInvariants
  import opened Collateral
  import opened Ledger
  import opened LedgerInvariants
  import opened LedgerRuns
  import opened SettlementRuns
  import Conservation

  /** What the events table says of the event. */
  datatype EventRow = Missing | Unresolved | Resolved(outcome: string)

  /** `rejected`: markets passed over for a permanent error; `aborted`: the call stopped early. */
  datatype EventRun = EventRun(st: State, rejected: set<MarketId>, aborted: bool)

  datatype EventResult = EventNotFound | EventUnresolved | Listed(run: EventRun)

  predicate PermanentError(e: Error) {
    e == OutcomeNotOption || e == OrderWalletNotFound
  }

  function UnsettledMarkets(st: State, e: EventId): set<MarketId> {
    set m | m in st.markets && st.markets[m].event == e && m !in st.settlements
  }

  ghost function SettlementList(st: State, e: EventId): (ms: seq<MarketId>)
    ensures IsSortOf(ms, UnsettledMarkets(st, e), ById())
  {
    Sort(UnsettledMarkets(st, e), ById())
  }

  /** Settles the listed markets in turn. The transactions of the markets in `faults` fail
      for reasons outside the model and are rolled back. */
  ghost function SettleMarkets(st: State, ms: seq<MarketId>, e: EventId, winner: string, faults: set<MarketId>): EventRun
    decreases |ms|
  {
    if ms == [] then EventRun(st, {}, false)
    else if ms[0] in faults then EventRun(st, {}, true)
    else
      match Settle(st, ms[0], e, winner)
      case Success(next) => SettleMarkets(next, ms[1..], e, winner, faults)
      case Failure(error) =>
        if PermanentError(error) then
          var rest := SettleMarkets(st, ms[1..], e, winner, faults);
          rest.(rejected := rest.rejected + {ms[0]})
        else EventRun(st, {}, true)
  }

  ghost function SettleEvent(st: State, e: EventId, row: EventRow, faults: set<MarketId>): EventResult {
    match row
    case Missing => EventNotFound
    case Unresolved => EventUnresolved
    case Resolved(outcome) =>
      if outcome == "" then EventUnresolved
      else Listed(SettleMarkets(st, SettlementList(st, e), e, outcome, faults))
  }

  // ----- once only -----

  /** What was settled stays settled as it was: no second payout, no reopened order. */
  ghost predicate SettledStays(a: State, b: State) {
    && (forall m | m in a.settlements :: m in b.settlements && b.settlements[m] == a.settlements[m])
    && (forall id | id in a.closeouts :: id in b.closeouts && b.closeouts[id] == a.closeouts[id])
    && (forall id | id in a.closeouts && id in a.orders :: id in b.orders && b.orders[id] == a.orders[id])
  }

  lemma SettledStaysTransitive(a: State, b: State, c: State)
    requires SettledStays(a, b) && SettledStays(b, c)
    requires forall id | id in a.closeouts :: id in a.orders
    ensures SettledStays(a, c)
  {
  }

  lemma AdvanceKeepsSettled(st: State, r: State)
    requires ClosedInv(st) && BookAdvances(st.orders, r.orders)
    requires r.settlements == st.settlements && r.closeouts == st.closeouts
    ensures SettledStays(st, r)
  {
    forall id | id in st.closeouts && id in st.orders ensures id in r.orders && r.orders[id] == st.orders[id] {
      assert ClosedWell(st, id);
      assert Advances(st.orders[id], r.orders[id]);
    }
  }

  lemma SettleKeepsSettled(st: State, m: MarketId, e: EventId, winner: string)
    requires Inv(st) && Settle(st, m, e, winner).Success?
    ensures SettledStays(st, Settle(st, m, e, winner).value)
  {
    if Settles(st, m, e, winner) {
      var ids, paid := SettleEffect(st, m, e, winner);
      forall id | id in st.closeouts ensures id !in ids && id in st.orders {
        assert ClosedWell(st, id);
      }
    }
  }

  /** No transaction pays an order twice, changes a settlement, or reopens a closed order. */
  lemma NextKeepsSettled(st: State, op: Op)
    requires Inv(st)
    ensures SettledStays(st, Next(st, op))
  {
    NextInv(st, op);
    if op.OpSettle? {
      if Settle(st, op.m, op.e, op.winner).Success? {
        SettleKeepsSettled(st, op.m, op.e, op.winner);
      }
    } else {
      OtherOpsSettleNothing(st, op);
      AdvanceKeepsSettled(st, Next(st, op));
    }
  }

  lemma OtherOpsSettleNothing(st: State, op: Op)
    requires BookOk(st.orders) && !op.OpSettle?
    ensures Next(st, op).settlements == st.settlements && Next(st, op).closeouts == st.closeouts
  {
  }

  /** Over every run each order of a settled market was closed out exactly once. */
  lemma {:induction false} RunKeepsSettled(st: State, ops: seq<Op>)
    requires Inv(st)
    ensures SettledStays(st, Run(st, ops))
    decreases |ops|
  {
    if ops != [] {
      NextInv(st, ops[0]);
      NextKeepsSettled(st, ops[0]);
      RunKeepsSettled(Next(st, ops[0]), ops[1..]);
      SettledStaysTransitive(st, Next(st, ops[0]), Run(st, ops));
    }
  }

  // ----- one event -----

  /** Nothing of market `m` was written. */
  ghost predicate MarketUntouched(a: State, b: State, m: MarketId) {
    && (m in b.settlements <==> m in a.settlements)
    && (m in b.markets <==> m in a.markets) && (m in a.markets ==> b.markets[m] == a.markets[m])
    && (forall id :: id in b.orders <==> id in a.orders)
    && (forall id | id in a.orders && a.orders[id].terms.market == m ::
          b.orders[id] == a.orders[id] && (id in b.closeouts <==> id in a.closeouts))
  }

  lemma UntouchedTransitive(a: State, b: State, c: State, m: MarketId)
    requires MarketUntouched(a, b, m) && MarketUntouched(b, c, m)
    ensures MarketUntouched(a, c, m)
  {
  }

  /** Settling one market touches no other. */
  lemma SettleTouchesOne(st: State, m: MarketId, e: EventId, winner: string, other: MarketId)
    requires Inv(st) && Settle(st, m, e, winner).Success? && other != m
    ensures MarketUntouched(st, Settle(st, m, e, winner).value, other)
  {
    if Settles(st, m, e, winner) {
      var ids, paid := SettleEffect(st, m, e, winner);
    }
  }

  /** A market the call could still settle. */
  ghost predicate Pending(st: State, e: EventId, ms: seq<MarketId>) {
    && (forall i, j | 0 <= i < j < |ms| :: ms[i] != ms[j])
    && (forall i | 0 <= i < |ms| :: ms[i] in UnsettledMarkets(st, e))
  }

  lemma PendingAfter(st: State, e: EventId, ms: seq<MarketId>, winner: string, r: State)
    requires Inv(st) && Pending(st, e, ms) && ms != []
    requires r == st || Settle(st, ms[0], e, winner) == Success(r)
    ensures Pending(r, e, ms[1..])
  {
    var rest := ms[1..];
    forall i | 0 <= i < |rest| ensures rest[i] in UnsettledMarkets(r, e) {
      assert rest[i] == ms[i + 1] && ms[i + 1] != ms[0];
      if r != st {
        SettleTouchesOne(st, ms[0], e, winner, rest[i]);
      }
    }
  }

  /** The call keeps the ledger, settles nothing twice, and leaves every market it does not
      settle as it was; if it runs to its end, it settles every listed market but the rejected. */
  lemma {:induction false} SettleMarketsRuns(st: State, ms: seq<MarketId>, e: EventId, winner: string, faults: set<MarketId>)
    requires Inv(st) && Pending(st, e, ms)
    ensures var run := SettleMarkets(st, ms, e, winner, faults);
            && Inv(run.st) && SettledStays(st, run.st) && run.st.markets.Keys == st.markets.Keys
            && (forall m :: m in run.rejected ==> m in ms)
            && (forall m | m !in run.st.settlements :: MarketUntouched(st, run.st, m))
            && (forall m | m !in ms :: MarketUntouched(st, run.st, m))
            && (!run.aborted ==> forall m | m in ms :: m in run.st.settlements <==> m !in run.rejected)
    decreases |ms|
  {
    if ms != [] && ms[0] !in faults {
      var rest := ms[1..];
      assert forall m :: m in ms <==> m == ms[0] || m in rest;
      assert ms[0] !in rest;
      assert ms[0] in UnsettledMarkets(st, e);
      match Settle(st, ms[0], e, winner) {
        case Success(next) =>
          SettleKeeps(st, ms[0], e, winner);
          SettleKeepsSettled(st, ms[0], e, winner);
          PendingAfter(st, e, ms, winner, next);
          SettleMarketsRuns(next, rest, e, winner, faults);
          SettleMarketsStep(st, ms, e, winner, faults, next);
        case Failure(error) =>
          if PermanentError(error) {
            PendingAfter(st, e, ms, winner, st);
            SettleMarketsRuns(st, rest, e, winner, faults);
          }
      }
    }
  }

  lemma SettleMarketsStep(st: State, ms: seq<MarketId>, e: EventId, winner: string, faults: set<MarketId>, next: State)
    requires Inv(st) && ms != [] && ms[0] in UnsettledMarkets(st, e) && Settle(st, ms[0], e, winner) == Success(next)
    requires forall m :: m in ms <==> m == ms[0] || m in ms[1..]
    requires ms[0] !in ms[1..] && SettledStays(st, next)
    requires var run := SettleMarkets(next, ms[1..], e, winner, faults);
             && SettledStays(next, run.st)
             && (forall m | m !in run.st.settlements :: MarketUntouched(next, run.st, m))
             && (forall m | m !in ms[1..] :: MarketUntouched(next, run.st, m))
    ensures var run := SettleMarkets(next, ms[1..], e, winner, faults);
            && SettledStays(st, run.st) && ms[0] in run.st.settlements
            && next.markets.Keys == st.markets.Keys
            && (forall m | m !in run.st.settlements :: MarketUntouched(st, run.st, m))
            && (forall m | m !in ms :: MarketUntouched(st, run.st, m))
  {
    var run := SettleMarkets(next, ms[1..], e, winner, faults);
    forall id | id in st.closeouts ensures id in st.orders {
      assert ClosedWell(st, id);
    }
    hide SettleMarkets, BookInv, MoneyInv, VolumeInv, ClosedWell;
    SettledStaysTransitive(st, next, run.st);
    forall m | m != ms[0] && MarketUntouched(next, run.st, m)
      ensures MarketUntouched(st, run.st, m)
    {
      SettleTouchesOne(st, ms[0], e, winner, m);
      UntouchedTransitive(st, next, run.st, m);
    }
  }

  lemma ListIsUnsettled(st: State, e: EventId)
    ensures Pending(st, e, SettlementList(st, e))
    ensures forall m :: m in SettlementList(st, e) <==> m in UnsettledMarkets(st, e)
  {
    var ms := SettlementList(st, e);
    SortedDistinct(ms, UnsettledMarkets(st, e), ById());
    forall m ensures m in ms <==> m in UnsettledMarkets(st, e) {
      assert m in ms <==> m in Elements(ms);
    }
  }

  // ----- why a market is rejected, and why a call aborts -----

  /** The market's transaction cannot go through now: it fails from outside, or for a reason
      the call does not pass over. */
  ghost predicate Blocks(st: State, m: MarketId, e: EventId, winner: string, faults: set<MarketId>) {
    m in faults || (Settle(st, m, e, winner).Failure? && !PermanentError(Settle(st, m, e, winner).error))
  }

  /** Markets keep their event and their options. */
  ghost predicate OptionsStay(a: State, b: State) {
    forall m | m in a.markets :: m in b.markets && b.markets[m].event == a.markets[m].event && b.markets[m].options == a.markets[m].options
  }

  /** No wallet is ever missing, so the only permanent failure is an outcome the market does
      not offer. */
  lemma PermanentCause(st: State, m: MarketId, e: EventId, winner: string)
    requires Inv(st) && Settle(st, m, e, winner).Failure? && PermanentError(Settle(st, m, e, winner).error)
    ensures m in st.markets && st.markets[m].event == e && winner !in st.markets[m].options
  {
    Conservation.AuditNeverRejects(st, m);
    hide Inv, AuditPasses, Conserved;
    if m in st.markets && st.markets[m].event == e && winner in st.markets[m].options && m !in st.settlements {
      ApplyAllFailure(st, SettlementQueue(st.orders, m), winner);
    }
  }

  /** A committed settlement of a listed market records the winner it was asked for. */
  lemma SettledForWinner(st: State, m: MarketId, e: EventId, winner: string)
    requires Inv(st) && Settle(st, m, e, winner).Success?
    ensures var next := Settle(st, m, e, winner).value;
            && OptionsStay(st, next)
            && (m in UnsettledMarkets(st, e) ==>
                  winner in st.markets[m].options && m in next.settlements && next.settlements[m] == Settlement(e, winner))
  {
    if Settles(st, m, e, winner) {
      var ids, paid := SettleEffect(st, m, e, winner);
    }
  }

  /** Rejected markets do not offer the outcome, settled ones do and were settled for it, and
      the call aborts exactly when some listed market cannot go through. */
  ghost predicate Caused(st: State, ms: seq<MarketId>, e: EventId, winner: string, faults: set<MarketId>, run: EventRun) {
    && OptionsStay(st, run.st)
    && (forall m | m in run.rejected :: m in ms && m in st.markets && winner !in st.markets[m].options)
    && (forall m | m in ms && m in run.st.settlements ::
          m in st.markets && winner in st.markets[m].options && run.st.settlements[m] == Settlement(e, winner))
    && (run.aborted <==> exists m :: m in ms && Blocks(run.st, m, e, winner, faults))
  }

  lemma {:induction false} SettleMarketsCauses(st: State, ms: seq<MarketId>, e: EventId, winner: string, faults: set<MarketId>)
    requires Inv(st) && Pending(st, e, ms)
    ensures Caused(st, ms, e, winner, faults, SettleMarkets(st, ms, e, winner, faults))
    decreases |ms|
  {
    if ms != [] {
      var rest := ms[1..];
      assert ms[0] in UnsettledMarkets(st, e);
      hide Inv, Caused;
      if ms[0] in faults {
        BlockedCauses(st, ms, e, winner, faults);
      } else {
        match Settle(st, ms[0], e, winner) {
          case Success(next) =>
            SettleKeeps(st, ms[0], e, winner);
            PendingAfter(st, e, ms, winner, next);
            SettledForWinner(st, ms[0], e, winner);
            SettleMarketsCauses(next, rest, e, winner, faults);
            SettleMarketsRuns(next, rest, e, winner, faults);
            SettledCauses(st, ms, e, winner, faults, next, SettleMarkets(next, rest, e, winner, faults));
          case Failure(error) =>
            if PermanentError(error) {
              PermanentCause(st, ms[0], e, winner);
              PendingAfter(st, e, ms, winner, st);
              SettleMarketsCauses(st, rest, e, winner, faults);
              SettleMarketsRuns(st, rest, e, winner, faults);
              RejectedCauses(st, ms, e, winner, faults, SettleMarkets(st, rest, e, winner, faults));
            } else {
              BlockedCauses(st, ms, e, winner, faults);
            }
        }
      }
    }
  }

  lemma BlockedCauses(st: State, ms: seq<MarketId>, e: EventId, winner: string, faults: set<MarketId>)
    requires ms != [] && Blocks(st, ms[0], e, winner, faults)
    requires forall i | 0 <= i < |ms| :: ms[i] in UnsettledMarkets(st, e)
    ensures Caused(st, ms, e, winner, faults, EventRun(st, {}, true))
  {
    hide Blocks;
  }

  lemma SettledCauses(st: State, ms: seq<MarketId>, e: EventId, winner: string, faults: set<MarketId>, next: State, run: EventRun)
    requires ms != [] && ms[0] !in faults && ms[0] in st.markets && st.markets[ms[0]].event == e && winner in st.markets[ms[0]].options
    requires ms[0] in next.settlements && next.settlements[ms[0]] == Settlement(e, winner)
    requires OptionsStay(st, next) && SettledStays(next, run.st) && Caused(next, ms[1..], e, winner, faults, run)
    requires forall m | m in ms :: m in st.markets
    ensures Caused(st, ms, e, winner, faults, run)
  {
    assert forall m :: m in ms <==> m == ms[0] || m in ms[1..];
    assert Settle(run.st, ms[0], e, winner) == Success(run.st);
    hide Settle;
  }

  lemma RejectedCauses(st: State, ms: seq<MarketId>, e: EventId, winner: string, faults: set<MarketId>, rest: EventRun)
    requires ms != [] && ms[0] !in faults && ms[0] !in ms[1..] && ms[0] !in st.settlements
    requires ms[0] in st.markets && st.markets[ms[0]].event == e && winner !in st.markets[ms[0]].options
    requires Caused(st, ms[1..], e, winner, faults, rest) && (ms[0] in rest.st.settlements ==> ms[0] in st.settlements)
    ensures Caused(st, ms, e, winner, faults, rest.(rejected := rest.rejected + {ms[0]}))
  {
    assert forall m :: m in ms <==> m == ms[0] || m in ms[1..];
    assert Settle(rest.st, ms[0], e, winner) == Failure(OutcomeNotOption);
    hide Settle;
  }

  /** Exactly-once settlement of an event under arbitrary per-market failures: every market is
      settled for the outcome or left as it was; a market is rejected only for not offering the
      outcome; the call aborts exactly when a market cannot go through; and otherwise it has
      settled exactly the markets that offer the outcome. */
  lemma EventSettledOnce(st: State, e: EventId, row: EventRow, faults: set<MarketId>)
    requires Inv(st) && SettleEvent(st, e, row, faults).Listed?
    ensures var run := SettleEvent(st, e, row, faults).run;
            && Inv(run.st) && SettledStays(st, run.st)
            && (forall m | m !in run.st.settlements :: MarketUntouched(st, run.st, m))
            && (forall m | m in run.rejected :: m in UnsettledMarkets(st, e) && row.outcome !in st.markets[m].options)
            && (forall m | m in UnsettledMarkets(st, e) && m in run.st.settlements :: run.st.settlements[m] == Settlement(e, row.outcome))
            && (run.aborted <==> exists m :: m in UnsettledMarkets(st, e) && Blocks(run.st, m, e, row.outcome, faults))
            && (!run.aborted ==> forall m | m in UnsettledMarkets(st, e) :: m in run.st.settlements <==> row.outcome in st.markets[m].options)
  {
    ListIsUnsettled(st, e);
    SettleMarketsRuns(st, SettlementList(st, e), e, row.outcome, faults);
    SettleMarketsCauses(st, SettlementList(st, e), e, row.outcome, faults);
    hide Inv, Blocks, SettleMarkets;
  }

  // ----- where an aborted call stopped -----

  /** The call got as far as position `k` of its list. */
  ghost predicate StoppedAt(st: State, ms: seq<MarketId>, e: EventId, winner: string, faults: set<MarketId>, run: EventRun, k: nat) {
    && k < |ms| && Blocks(run.st, ms[k], e, winner, faults)
    && (forall i | 0 <= i < k :: ms[i] in st.markets && (ms[i] in run.st.settlements <==> winner in st.markets[ms[i]].options))
    && (forall i {:trigger ms[i]} | k <= i < |ms| :: ms[i] !in run.st.settlements)
  }

  lemma StoppedBehind(st: State, ms: seq<MarketId>, e: EventId, winner: string, faults: set<MarketId>, next: State, run: EventRun, k: nat)
    requires ms != [] && ms[0] in st.markets && OptionsStay(st, next) && (forall i | 0 <= i < |ms| :: ms[i] in st.markets)
    requires StoppedAt(next, ms[1..], e, winner, faults, run, k)
    requires ms[0] in run.st.settlements <==> winner in st.markets[ms[0]].options
    ensures StoppedAt(st, ms, e, winner, faults, run, k + 1)
  {
    hide Blocks;
    assert forall i | 0 < i < |ms| :: ms[i] == ms[1..][i - 1];
  }

  lemma PassesSettled(st: State, ms: seq<MarketId>, e: EventId, winner: string, faults: set<MarketId>)
    requires Inv(st) && Pending(st, e, ms) && ms != [] && Settle(st, ms[0], e, winner).Success?
    ensures var next := Settle(st, ms[0], e, winner).value;
            && Inv(next) && Pending(next, e, ms[1..]) && OptionsStay(st, next)
            && winner in st.markets[ms[0]].options && ms[0] in SettleMarkets(next, ms[1..], e, winner, faults).st.settlements
  {
    var next := Settle(st, ms[0], e, winner).value;
    assert ms[0] in UnsettledMarkets(st, e);
    SettleKeeps(st, ms[0], e, winner);
    PendingAfter(st, e, ms, winner, next);
    SettledForWinner(st, ms[0], e, winner);
    hide Inv, Settle, SettleMarkets;
    SettleMarketsRuns(next, ms[1..], e, winner, faults);
  }

  lemma PassesRejected(st: State, ms: seq<MarketId>, e: EventId, winner: string, faults: set<MarketId>)
    requires Inv(st) && Pending(st, e, ms) && ms != []
    requires Settle(st, ms[0], e, winner).Failure? && PermanentError(Settle(st, ms[0], e, winner).error)
    ensures Pending(st, e, ms[1..]) && OptionsStay(st, st)
    ensures winner !in st.markets[ms[0]].options && ms[0] !in SettleMarkets(st, ms[1..], e, winner, faults).st.settlements
  {
    assert ms[0] in UnsettledMarkets(st, e) && ms[0] !in ms[1..];
    PermanentCause(st, ms[0], e, winner);
    PendingAfter(st, e, ms, winner, st);
    hide Inv, Settle, SettleMarkets;
    SettleMarketsRuns(st, ms[1..], e, winner, faults);
    assert MarketUntouched(st, SettleMarkets(st, ms[1..], e, winner, faults).st, ms[0]);
  }

  lemma {:induction false} StopsSomewhere(st: State, ms: seq<MarketId>, e: EventId, winner: string, faults: set<MarketId>) returns (k: nat)
    requires Inv(st) && Pending(st, e, ms) && SettleMarkets(st, ms, e, winner, faults).aborted
    ensures StoppedAt(st, ms, e, winner, faults, SettleMarkets(st, ms, e, winner, faults), k)
    decreases |ms|
  {
    var rest := ms[1..];
    assert forall i | 0 <= i < |ms| :: ms[i] in UnsettledMarkets(st, e);
    hide Inv, StoppedAt, Settle, Pending, OptionsStay;
    if ms[0] in faults || (Settle(st, ms[0], e, winner).Failure? && !PermanentError(Settle(st, ms[0], e, winner).error)) {
      k := 0;
      StoppedFirst(st, ms, e, winner, faults);
    } else if Settle(st, ms[0], e, winner).Success? {
      var next := Settle(st, ms[0], e, winner).value;
      PassesSettled(st, ms, e, winner, faults);
      k := StopsSomewhere(next, rest, e, winner, faults);
      StoppedBehind(st, ms, e, winner, faults, next, SettleMarkets(next, rest, e, winner, faults), k);
      k := k + 1;
    } else {
      PassesRejected(st, ms, e, winner, faults);
      k := StopsSomewhere(st, rest, e, winner, faults);
      var run := SettleMarkets(st, rest, e, winner, faults);
      StoppedBehind(st, ms, e, winner, faults, st, run, k);
      StoppedRejects(st, ms, e, winner, faults, run, k + 1);
      k := k + 1;
    }
  }

  lemma StoppedRejects(st: State, ms: seq<MarketId>, e: EventId, winner: string, faults: set<MarketId>, run: EventRun, k: nat)
    requires ms != [] && StoppedAt(st, ms, e, winner, faults, run, k)
    ensures StoppedAt(st, ms, e, winner, faults, run.(rejected := run.rejected + {ms[0]}), k)
  {
    hide Blocks;
  }

  lemma StoppedFirst(st: State, ms: seq<MarketId>, e: EventId, winner: string, faults: set<MarketId>)
    requires ms != [] && Blocks(st, ms[0], e, winner, faults) && forall i | 0 <= i < |ms| :: ms[i] in UnsettledMarkets(st, e)
    ensures StoppedAt(st, ms, e, winner, faults, EventRun(st, {}, true), 0)
  {
    hide Blocks;
  }

  /** An aborted call went through the event's markets by identifier and stopped at the first it
      could not pass: smaller ones are settled if they offer the outcome, it and larger ones are
      untouched. */
  lemma AbortsInOrder(st: State, e: EventId, row: EventRow, faults: set<MarketId>)
    requires Inv(st) && SettleEvent(st, e, row, faults).Listed? && SettleEvent(st, e, row, faults).run.aborted
    ensures var run := SettleEvent(st, e, row, faults).run;
            exists stop :: stop in UnsettledMarkets(st, e) && Blocks(run.st, stop, e, row.outcome, faults)
              && forall m | m in st.markets && st.markets[m].event == e && m !in st.settlements ::
                   if m < stop then m in run.st.settlements <==> row.outcome in st.markets[m].options
                   else MarketUntouched(st, run.st, m)
  {
    var ms := SettlementList(st, e);
    ListIsUnsettled(st, e);
    var k := StopsSomewhere(st, ms, e, row.outcome, faults);
    SettleMarketsRuns(st, ms, e, row.outcome, faults);
    hide Inv, Blocks, SettleMarkets;
    var run := SettleEvent(st, e, row, faults).run;
    assert ms[k] in UnsettledMarkets(st, e);
    forall m | m in UnsettledMarkets(st, e)
      ensures if m < ms[k] then m in run.st.settlements <==> row.outcome in st.markets[m].options else MarketUntouched(st, run.st, m)
    {
      assert m in ms;
      var i :| 0 <= i < |ms| && ms[i] == m;
      assert i < k ==> ById()(ms[i], ms[k]);
      assert k < i ==> ById()(ms[k], ms[i]);
    }
  }

  /** The call settles nothing for an event that is missing, unresolved, or resolved to nothing. */
  lemma OnlyResolvedIsListed(st: State, e: EventId, row: EventRow, faults: set<MarketId>)
    ensures SettleEvent(st, e, row, faults) == EventNotFound <==> row == Missing
    ensures SettleEvent(st, e, row, faults) == EventUnresolved <==> row == Unresolved || row == Resolved("")
  {
  }

  /** After a call that succeeded for every market, another call changes nothing. */
  lemma SecondCallChangesNothing(st: State, e: EventId, row: EventRow, faults: set<MarketId>, faults': set<MarketId>)
    requires Inv(st) && SettleEvent(st, e, row, faults).Listed?
    requires var run := SettleEvent(st, e, row, faults).run; !run.aborted && run.rejected == {}
    ensures var run := SettleEvent(st, e, row, faults).run;
            SettleEvent(run.st, e, row, faults') == Listed(EventRun(run.st, {}, false))
  {
    var run := SettleEvent(st, e, row, faults).run;
    ListIsUnsettled(st, e);
    SettleMarketsRuns(st, SettlementList(st, e), e, row.outcome, faults);
    forall m | m in run.st.markets && run.st.markets[m].event == e ensures m in run.st.settlements {
      assert m !in run.st.settlements ==> MarketUntouched(st, run.st, m);
      assert m in UnsettledMarkets(st, e) ==> m in run.st.settlements;
    }
    assert UnsettledMarkets(run.st, e) == {};
    assert Elements(SettlementList(run.st, e)) == {};
  }

  /** A settled market has no open order in any later state. */
  lemma SettledMarketStaysClosed(st: State, ops: seq<Op>, m: MarketId, id: OrderId)
    requires Inv(st) && m in st.settlements
    requires id in Run(st, ops).orders && Run(st, ops).orders[id].terms.market == m
    ensures !Run(st, ops).orders[id].Open() && id in Run(st, ops).closeouts
  {
    RunKeepsSettled(st, ops);
    var r := Run(st, ops);
    assert id in r.closeouts && ClosedWell(r, id);
  }
}
