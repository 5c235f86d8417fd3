/** The tables as they are updated in place: each method is one database transaction, whose
    reads and writes go row by row, and which is proved to commit exactly the ledger's step. */
module Database {
  import opened Fixed
  import opened Sorting
  import opened Orders
  import opened BookInvariants
  import opened Collateral
  import opened Ledger
  import opened LedgerInvariants
  import opened LedgerRuns
  import opened SettlementRuns
  import opened Conservation
  import opened ExactlyOnce

  datatype SettleReport = NoEvent | NotResolved | Report(rejected: set<MarketId>, aborted: bool)

  class Tables {
    var orders: Book
    var trades: seq<Trade>
    var wallets: Wallets
    var markets: map<MarketId, Market>
    var settlements: map<MarketId, Settlement>
    var closeouts: map<OrderId, Closeout>
    ghost var funded: map<WalletKey, int>

    ghost function Now(): State
      reads this
    {
      State(orders, trades, wallets, markets, settlements, closeouts, funded)
    }

    ghost predicate Valid()
      reads this
    {
      Inv(Now())
    }

    constructor ()
      ensures Valid() && Now() == EMPTY
    {
      orders, trades, wallets, markets, settlements, closeouts, funded := map[], [], map[], map[], map[], map[], map[];
      new;
      EmptyInv();
    }

    /** Order placement with its collateral: lock, insert, match, refund, in one transaction. */
    method PlaceWithLockedCollateral(terms: Terms) returns (r: Result<int>)
      requires Valid() && ValidTerms(terms)
      modifies this
      ensures Valid()
      ensures match Place(old(Now()), terms)
              case Success(next) => Now() == next && r == Success(Refunds(terms, trades))
              case Failure(error) => Now() == old(Now()) && r == Failure(error)
    {
      hide MoneyInv, ClosedInv, VolumeInv, OrderOk, Uncrossed, FillsMatch, TradeOk, Refunds;
      if !MarketOpenFor(markets, terms) {
        return Failure(InvalidMarket);
      }
      var locked := LockFunds(wallets, KeyOf(terms), OrderCollateral(terms, terms.amount));
      if locked.Failure? {
        return Failure(locked.error);
      }
      if Taken(orders, terms) {
        return Failure(AlreadyExists);
      }
      var book, log, priceImprovement := MatchIncomingOrder(orders, trades, terms);
      var incoming := book[terms.id];
      var refundCents := priceImprovement;
      if incoming.status == Cancelled {
        refundCents := refundCents + OrderCollateral(terms, incoming.Remaining());
      }
      assert incoming.terms == terms by { IncomingFacts(orders, trades, terms); }
      assert refundCents == PlacementRefund(incoming, log);
      var released := Release(locked.value, KeyOf(terms), refundCents);
      if released.Failure? {
        return Failure(released.error);
      }
      ghost var next := Place(Now(), terms).value;
      assert next.wallets == released.value;
      PlaceKeeps(Now(), terms);
      orders, trades, wallets := book, log, released.value;
      markets := AddVolume(markets, terms.market, incoming.filled);
      assert Now() == next;
      return Success(priceImprovement);
    }

    /** Cancellation with the release of the unfilled part. */
    method CancelWithUnlock(id: OrderId) returns (r: Result<int>)
      requires Valid()
      modifies this
      ensures Valid()
      ensures match CancelOrder(old(Now()), id)
              case Success(next) => Now() == next && r == Success(next.orders[id].Remaining())
              case Failure(error) => Now() == old(Now()) && r == Failure(error)
    {
      hide MoneyInv, ClosedInv, VolumeInv, BookInv;
      if id !in orders {
        return Failure(NotFound);
      }
      var value := orders[id];
      if !value.Open() {
        return Failure(NotCancellable);
      }
      var released := Release(wallets, KeyOf(value.terms), OrderCollateral(value.terms, value.Remaining()));
      if released.Failure? {
        return Failure(released.error);
      }
      CancelKeeps(Now(), id);
      orders := orders[id := value.(status := Cancelled)];
      wallets := released.value;
      return Success(value.Remaining());
    }

    /** Settlement of one market: audit the trade log, check conservation, pay every order. */
    method SettleMarket(m: MarketId, e: EventId, winner: string) returns (r: Result<bool>)
      requires Valid()
      modifies this
      ensures Valid()
      ensures match Settle(old(Now()), m, e, winner)
              case Success(next) => Now() == next && r == Success(old(Settles(Now(), m, e, winner)))
              case Failure(error) => Now() == old(Now()) && r == Failure(error)
    {
      hide MoneyInv, ClosedInv, VolumeInv, OrderOk, Uncrossed, FillsMatch, TradeOk, AuditPasses, Conserved;
      if m !in markets || markets[m].event != e {
        return Success(false);
      }
      if winner !in markets[m].options {
        return Failure(OutcomeNotOption);
      }
      if m in settlements {
        return Success(false);
      }
      var ids := SortSet(OrdersOf(orders, m), ById());
      QueueIsMarket(Now(), m);
      AuditNeverRejects(Now(), m);
      var audited, stakes := LockTradeStakes(orders, trades, m, ids);
      if !audited {
        return Failure(AuditFailed);
      }
      var conserved := PayoutsConserve(orders, trades, stakes, winner, ids);
      if !conserved {
        return Failure(NotConserved);
      }
      var paid, ws, book, outs := ApplySettlement(Now(), wallets, orders, closeouts, stakes, winner, ids);
      if !paid {
        return Failure(InsufficientLocked);
      }
      SettleKeeps(Now(), m, e, winner);
      wallets, orders, closeouts := ws, book, outs;
      settlements := settlements[m := Settlement(e, winner)];
      markets := markets[m := markets[m].(status := Settled)];
      return Success(true);
    }

    /** Settles the unsettled markets of a resolved event one by one. `faults` are the markets
        whose transactions fail for reasons outside the model. */
    method SettleResolvedEvent(e: EventId, row: EventRow, faults: set<MarketId>) returns (r: SettleReport)
      requires Valid()
      modifies this
      ensures Valid()
      ensures match SettleEvent(old(Now()), e, row, faults)
              case EventNotFound => r == NoEvent && Now() == old(Now())
              case EventUnresolved => r == NotResolved && Now() == old(Now())
              case Listed(run) => r == Report(run.rejected, run.aborted) && Now() == run.st
    {
      if row.Missing? {
        return NoEvent;
      }
      if row.Unresolved? || row.outcome == "" {
        return NotResolved;
      }
      var marketIDs := SortSet((set m | m in markets && markets[m].event == e && m !in settlements), ById());
      assert marketIDs == SettlementList(Now(), e);
      hide Inv, SettleMarkets;
      var rejected, aborted := SettleListed(e, row.outcome, marketIDs, faults);
      return Report(rejected, aborted);
    }

    /** Each market in its own transaction; a permanent failure is kept and passed over. */
    method SettleListed(e: EventId, winner: string, marketIDs: seq<MarketId>, faults: set<MarketId>)
      returns (settlementErrors: set<MarketId>, aborted: bool)
      requires Valid()
      modifies this
      ensures Valid()
      ensures EventRun(Now(), settlementErrors, aborted) == SettleMarkets(old(Now()), marketIDs, e, winner, faults)
    {
      hide Inv, Settle, SettleMarkets;
      ghost var goal := SettleMarkets(Now(), marketIDs, e, winner, faults);
      settlementErrors := {};
      var i := 0;
      assert marketIDs[i..] == marketIDs;
      while i < |marketIDs|
        invariant 0 <= i <= |marketIDs| && Valid()
        invariant goal == WithRejected(SettleMarkets(Now(), marketIDs[i..], e, winner, faults), settlementErrors)
      {
        SettleMarketsTail(Now(), marketIDs, i, e, winner, faults);
        if marketIDs[i] in faults {
          return settlementErrors, true;
        }
        var settled := SettleMarket(marketIDs[i], e, winner);
        if settled.Failure? {
          if !PermanentError(settled.error) {
            return settlementErrors, true;
          }
          settlementErrors := settlementErrors + {marketIDs[i]};
        }
        i := i + 1;
      }
      SettleMarketsDone(Now(), marketIDs[i..], e, winner, faults);
      aborted := false;
    }
  }

  lemma SettleMarketsDone(st: State, ms: seq<MarketId>, e: EventId, winner: string, faults: set<MarketId>)
    requires |ms| == 0
    ensures SettleMarkets(st, ms, e, winner, faults) == EventRun(st, {}, false)
  {
  }

  /** The outcome of a call that had rejected some markets before. */
  function WithRejected(run: EventRun, rejected: set<MarketId>): EventRun {
    run.(rejected := run.rejected + rejected)
  }

  lemma SettleMarketsTail(st: State, ms: seq<MarketId>, i: nat, e: EventId, winner: string, faults: set<MarketId>)
    requires i < |ms|
    ensures SettleMarkets(st, ms[i..], e, winner, faults)
         == if ms[i] in faults then EventRun(st, {}, true)
            else match Settle(st, ms[i], e, winner)
                 case Success(next) => SettleMarkets(next, ms[i + 1..], e, winner, faults)
                 case Failure(error) =>
                   if PermanentError(error) then WithRejected(SettleMarkets(st, ms[i + 1..], e, winner, faults), {ms[i]})
                   else EventRun(st, {}, true)
  {
    hide Settle;
    assert ms[i..][0] == ms[i] && ms[i..][1..] == ms[i + 1..];
  }

  /** Candidates in matching order, then the fills, then the incoming order's own status. */
  method MatchIncomingOrder(orders: Book, trades: seq<Trade>, terms: Terms)
    returns (book: Book, log: seq<Trade>, priceImprovement: int)
    requires Placeable(orders, terms) && TradesOk(orders, trades)
    ensures Matching(book, log) == MatchIncoming(orders, trades, terms)
    ensures priceImprovement == Refunds(terms, log)
  {
    book := orders[terms.id := NewOrder(terms)];
    CandidatesQueue(orders, terms);
    PriorityTotal(book, terms.side);
    var queue := SortSet(EligibleMakers(book, terms), Priority(book, terms.side));
    assert queue == Candidates(book, terms);
    RefundsNone(orders, trades, terms);
    book, log, priceImprovement := FillQueue(book, trades, terms, queue);
    book := book[terms.id := Rest(book[terms.id])];
  }

  /** One fill at a time until the incoming order or the candidates run out. */
  method FillQueue(orders: Book, trades: seq<Trade>, terms: Terms, queue: seq<OrderId>)
    returns (book: Book, log: seq<Trade>, priceImprovement: int)
    requires terms.id in orders && orders[terms.id].terms == terms && terms.id !in queue
    requires forall i | 0 <= i < |queue| :: queue[i] in orders
    requires Refunds(terms, trades) == 0
    ensures Matching(book, log) == FillAll(Matching(orders, trades), terms.id, queue)
    ensures priceImprovement == Refunds(terms, log)
  {
    book, log, priceImprovement := orders, trades, 0;
    assert queue[0..] == queue;
    var i := 0;
    while i < |queue|
      invariant 0 <= i <= |queue|
      invariant book.Keys == orders.Keys && book[terms.id].terms == terms
      invariant FillAll(Matching(book, log), terms.id, queue[i..]) == FillAll(Matching(orders, trades), terms.id, queue)
      invariant priceImprovement == Refunds(terms, log)
    {
      var incoming, maker := book[terms.id], book[queue[i]];
      var incomingRemaining := incoming.Remaining();
      if incomingRemaining == 0 {
        break;
      }
      var fillAmount := Min(incomingRemaining, maker.Remaining());
      var trade := Trade(terms.market, queue[i], terms.id, fillAmount, maker.terms.price);
      TradeSumAppend(log, trade, RefundOf(terms));
      priceImprovement := priceImprovement + PriceImprovementCents(terms.side, fillAmount, terms.price, maker.terms.price);
      assert queue[i..][1..] == queue[i + 1..] && queue[i] in queue;
      log := log + [trade];
      book := book[queue[i] := AddFill(maker, fillAmount)];
      book := book[terms.id := incoming.(filled := incoming.filled + fillAmount)];
      i := i + 1;
    }
  }

  ghost predicate Accumulated(orders: Book, trades: seq<Trade>, stakes: map<OrderId, int>, matchedShares: map<OrderId, int>)
    requires stakes.Keys == matchedShares.Keys <= orders.Keys
  {
    && (forall id | id in stakes :: stakes[id] == Stake(orders[id].terms, trades))
    && (forall id | id in stakes :: matchedShares[id] == Matched(orders[id].terms, trades))
  }

  lemma AccumulatedNone(orders: Book, stakes: map<OrderId, int>, matchedShares: map<OrderId, int>)
    requires stakes.Keys == matchedShares.Keys <= orders.Keys
    requires forall id | id in stakes :: stakes[id] == matchedShares[id] == 0
    ensures Accumulated(orders, [], stakes, matchedShares)
  {
  }

  lemma AccumulatedMore(orders: Book, before: seq<Trade>, x: Trade, a: map<OrderId, int>, b: map<OrderId, int>,
                        a': map<OrderId, int>, b': map<OrderId, int>)
    requires a.Keys == b.Keys == a'.Keys == b'.Keys <= orders.Keys && Accumulated(orders, before, a, b)
    requires forall id | id in a :: a'[id] == a[id] + StakeOf(orders[id].terms)(x)
    requires forall id | id in a :: b'[id] == b[id] + SharesOf(orders[id].terms)(x)
    ensures Accumulated(orders, before + [x], a', b')
  {
    forall id | id in a
      ensures a'[id] == Stake(orders[id].terms, before + [x]) && b'[id] == Matched(orders[id].terms, before + [x])
    {
      TradeSumAppend(before, x, StakeOf(orders[id].terms));
      TradeSumAppend(before, x, SharesOf(orders[id].terms));
    }
  }

  /** The orders of a market have no part in a trade of another. */
  lemma AccumulatedElsewhere(orders: Book, before: seq<Trade>, x: Trade, a: map<OrderId, int>, b: map<OrderId, int>)
    requires a.Keys == b.Keys <= orders.Keys && Accumulated(orders, before, a, b)
    requires forall id | id in a :: orders[id].terms.market != x.market
    ensures Accumulated(orders, before + [x], a, b)
  {
    AccumulatedMore(orders, before, x, a, b, a, b);
  }

  /** One trade's stakes and shares, added to its two orders. */
  method AddTrade(orders: Book, ghost before: seq<Trade>, trade: Trade, stakes: map<OrderId, int>, matchedShares: map<OrderId, int>)
    returns (stakes': map<OrderId, int>, matchedShares': map<OrderId, int>)
    requires stakes.Keys == matchedShares.Keys <= orders.Keys && Accumulated(orders, before, stakes, matchedShares)
    requires forall id | id in stakes :: orders[id].terms.id == id && orders[id].terms.market == trade.market
    requires trade.maker in stakes && trade.taker in stakes
    requires orders[trade.maker].terms.side != orders[trade.taker].terms.side
    ensures stakes'.Keys == matchedShares'.Keys == stakes.Keys
    ensures Accumulated(orders, before + [trade], stakes', matchedShares')
  {
    var buyer, seller := if orders[trade.maker].terms.side == Buy then trade.maker else trade.taker,
                         if orders[trade.maker].terms.side == Buy then trade.taker else trade.maker;
    var buyerStake := CollateralCents(Buy, trade.shares, trade.price);
    var sellerStake := PayoutCents(trade.shares) - buyerStake;
    stakes' := stakes[buyer := stakes[buyer] + buyerStake];
    stakes' := stakes'[seller := stakes'[seller] + sellerStake];
    matchedShares' := matchedShares[buyer := matchedShares[buyer] + trade.shares];
    matchedShares' := matchedShares'[seller := matchedShares'[seller] + trade.shares];
    AccumulatedMore(orders, before, trade, stakes, matchedShares, stakes', matchedShares');
  }

  /** Recomputes every order's stake from the trade log and audits the filled amounts. */
  method LockTradeStakes(orders: Book, trades: seq<Trade>, m: MarketId, ids: seq<OrderId>)
    returns (ok: bool, stakes: map<OrderId, int>)
    requires BookOk(orders) && forall id :: id in ids <==> id in OrdersOf(orders, m)
    ensures ok <==> AuditPasses(orders, trades, m)
    ensures ok ==> forall id | id in ids :: id in stakes && stakes[id] == Stake(orders[id].terms, trades)
  {
    stakes := map id | id in ids :: 0;
    var matchedShares := map id | id in ids :: 0;
    AccumulatedNone(orders, stakes, matchedShares);
    hide Stake, Matched, OrderOk;
    var i := 0;
    while i < |trades|
      invariant 0 <= i <= |trades|
      invariant stakes.Keys == matchedShares.Keys == OrdersOf(orders, m)
      invariant forall j | 0 <= j < i && trades[j].market == m :: TradeAccepted(orders, m, trades[j])
      invariant Accumulated(orders, trades[..i], stakes, matchedShares)
    {
      var trade := trades[i];
      assert trades[..i + 1] == trades[..i] + [trade];
      if trade.market != m {
        AccumulatedElsewhere(orders, trades[..i], trade, stakes, matchedShares);
      } else {
        if trade.maker !in stakes || trade.taker !in stakes
           || orders[trade.maker].terms.side == orders[trade.taker].terms.side {
          assert !TradeAccepted(orders, m, trade);
          return false, stakes;
        }
        stakes, matchedShares := AddTrade(orders, trades[..i], trade, stakes, matchedShares);
      }
      i := i + 1;
    }
    assert trades[..i] == trades;
    ok := forall id | id in matchedShares :: matchedShares[id] == orders[id].filled;
    assert ok <==> forall id | id in OrdersOf(orders, m) :: orders[id].filled == Matched(orders[id].terms, trades);
  }

  function At(totals: map<string, int>, currency: string): int {
    if currency in totals then totals[currency] else 0
  }

  ghost predicate HasCurrency(orders: Book, ids: seq<OrderId>, c: string)
    requires forall i | 0 <= i < |ids| :: ids[i] in orders
  {
    exists j | 0 <= j < |ids| :: orders[ids[j]].terms.currency == c
  }

  /** The two maps hold the totals of exactly the currencies met in `ids`. */
  ghost predicate Totalled(orders: Book, trades: seq<Trade>, winner: string, ids: seq<OrderId>,
                           totalStake: map<string, int>, totalPayout: map<string, int>)
    requires forall i | 0 <= i < |ids| :: ids[i] in orders
  {
    && totalStake.Keys == totalPayout.Keys
    && (forall c {:trigger HasCurrency(orders, ids, c)} {:trigger c in totalStake} :: c in totalStake <==> HasCurrency(orders, ids, c))
    && (forall c {:trigger At(totalStake, c)} :: At(totalStake, c) == TotalStake(orders, trades, ids, c))
    && (forall c {:trigger At(totalPayout, c)} :: At(totalPayout, c) == TotalPayout(orders, winner, ids, c))
  }

  lemma TotalledMore(orders: Book, trades: seq<Trade>, winner: string, ids: seq<OrderId>, id: OrderId,
                     totalStake: map<string, int>, totalPayout: map<string, int>)
    requires id in orders && forall i | 0 <= i < |ids| :: ids[i] in orders
    requires Totalled(orders, trades, winner, ids, totalStake, totalPayout)
    ensures var o := orders[id];
            var c := o.terms.currency;
            Totalled(orders, trades, winner, ids + [id],
                     totalStake[c := At(totalStake, c) + Stake(o.terms, trades)],
                     totalPayout[c := At(totalPayout, c) + PayoutOf(o, winner)])
  {
    var o := orders[id];
    var c := o.terms.currency;
    var more := ids + [id];
    var stakes, payouts := totalStake[c := At(totalStake, c) + Stake(o.terms, trades)],
                           totalPayout[c := At(totalPayout, c) + PayoutOf(o, winner)];
    assert more[..|more| - 1] == ids && more[|more| - 1] == id;
    forall d
      ensures d in stakes <==> HasCurrency(orders, more, d)
    {
      if d == c {
        assert orders[more[|ids|]].terms.currency == c;
      } else if HasCurrency(orders, ids, d) {
        var j :| 0 <= j < |ids| && orders[ids[j]].terms.currency == d;
        assert orders[more[j]].terms.currency == d;
      } else {
        assert forall j | 0 <= j < |more| :: more[j] == (if j < |ids| then ids[j] else id);
      }
    }
    forall d
      ensures At(stakes, d) == TotalStake(orders, trades, more, d) && At(payouts, d) == TotalPayout(orders, winner, more, d)
    {
      assert At(totalStake, d) == TotalStake(orders, trades, ids, d);
      assert At(totalPayout, d) == TotalPayout(orders, winner, ids, d);
    }
  }

  /** Comparing the two maps decides conservation. */
  lemma TotalsDecide(orders: Book, trades: seq<Trade>, winner: string, ids: seq<OrderId>,
                     totalStake: map<string, int>, totalPayout: map<string, int>)
    requires forall i | 0 <= i < |ids| :: ids[i] in orders
    requires Totalled(orders, trades, winner, ids, totalStake, totalPayout)
    ensures (forall c | c in totalStake :: totalStake[c] == totalPayout[c]) <==> Conserved(orders, trades, winner, ids)
  {
    forall c | c in totalStake
      ensures totalStake[c] == TotalStake(orders, trades, ids, c) && totalPayout[c] == TotalPayout(orders, winner, ids, c)
      ensures HasCurrency(orders, ids, c)
    {
      assert totalStake[c] == At(totalStake, c) && totalPayout[c] == At(totalPayout, c);
    }
    forall j | 0 <= j < |ids|
      ensures orders[ids[j]].terms.currency in totalStake
    {
      assert HasCurrency(orders, ids, orders[ids[j]].terms.currency);
    }
  }

  /** Adds up stakes and payouts per currency and compares them. */
  method PayoutsConserve(orders: Book, ghost trades: seq<Trade>, stakes: map<OrderId, int>, winner: string, ids: seq<OrderId>)
    returns (ok: bool)
    requires forall i | 0 <= i < |ids| :: ids[i] in orders
    requires forall id | id in ids :: id in stakes && id in orders && stakes[id] == Stake(orders[id].terms, trades)
    ensures ok <==> Conserved(orders, trades, winner, ids)
  {
    var totalStake: map<string, int>, totalPayout: map<string, int> := map[], map[];
    var i := 0;
    assert Totalled(orders, trades, winner, ids[..0], totalStake, totalPayout);
    hide Totalled, Conserved, Stake, PayoutOf, Totalled, TotalStake, TotalPayout, HasCurrency;
    while i < |ids|
      invariant 0 <= i <= |ids|
      invariant Totalled(orders, trades, winner, ids[..i], totalStake, totalPayout)
    {
      var order := orders[ids[i]];
      var c := order.terms.currency;
      TotalledMore(orders, trades, winner, ids[..i], ids[i], totalStake, totalPayout);
      assert ids[..i + 1] == ids[..i] + [ids[i]];
      totalStake := totalStake[c := At(totalStake, c) + stakes[ids[i]]];
      totalPayout := totalPayout[c := At(totalPayout, c) + PayoutOf(order, winner)];
      i := i + 1;
    }
    assert ids[..i] == ids;
    TotalsDecide(orders, trades, winner, ids, totalStake, totalPayout);
    ok := forall c | c in totalStake :: totalStake[c] == totalPayout[c];
  }

  /** The payout of one order: its wallet moves, and an open remainder is cancelled. */
  method PayOrder(ghost st: State, wallets: Wallets, orders: Book, closeouts: map<OrderId, Closeout>, id: OrderId, c: Closeout)
    returns (paid: bool, ws: Wallets, book: Book, outs: map<OrderId, Closeout>)
    requires wallets == st.wallets && orders == st.orders && closeouts == st.closeouts
    requires id in orders && KeyOf(orders[id].terms) in wallets
    ensures match ApplyCloseout(st, id, c)
            case Success(next) => paid && next == st.(wallets := ws, orders := book, closeouts := outs)
            case Failure(error) => !paid && error == InsufficientLocked
  {
    ws, book, outs := wallets, orders, closeouts;
    var order := book[id];
    var key := KeyOf(order.terms);
    if c.LockedUse() > 0 || c.refund > 0 || c.payout > 0 {
      if ws[key].locked < c.LockedUse() {
        return false, ws, book, outs;
      }
      ws := ws[key := Wallet(ws[key].balance + c.refund + c.payout, ws[key].locked - c.LockedUse())];
    }
    if order.Open() {
      book := book[id := order.(status := Cancelled)];
    }
    outs := outs[id := c];
    paid := true;
  }

  /** The rows from position `i` on are still as read. */
  ghost predicate Unpaid(cur: State, orders: Book, ids: seq<OrderId>, i: nat) {
    && i <= |ids| && Payable(cur, ids[i..])
    && forall j | i <= j < |ids| :: ids[j] in cur.orders && ids[j] in orders && cur.orders[ids[j]] == orders[ids[j]]
  }

  /** Paying the tail of a queue is paying its head, then the shorter tail. */
  lemma ApplyAllStep(cur: State, orders: Book, ids: seq<OrderId>, i: nat, winner: string)
    requires i < |ids| && Unpaid(cur, orders, ids, i) && Distinct(ids)
    ensures ids[i] in cur.orders && KeyOf(cur.orders[ids[i]].terms) in cur.wallets
    ensures match ApplyCloseout(cur, ids[i], CloseoutOf(orders[ids[i]], cur.trades, winner))
            case Success(next) =>
              Unpaid(next, orders, ids, i + 1) && ApplyAll(cur, ids[i..], winner) == ApplyAll(next, ids[i + 1..], winner)
            case Failure(error) => ApplyAll(cur, ids[i..], winner) == Failure(error)
  {
    assert ids[i..][0] == ids[i] && ids[i..][1..] == ids[i + 1..];
  }

  /** Pays the market's orders in order of their identifiers. */
  method ApplySettlement(ghost st: State, wallets: Wallets, orders: Book, closeouts: map<OrderId, Closeout>,
                         stakes: map<OrderId, int>, winner: string, ids: seq<OrderId>)
    returns (paid: bool, ws: Wallets, book: Book, outs: map<OrderId, Closeout>)
    requires wallets == st.wallets && orders == st.orders && closeouts == st.closeouts
    requires Payable(st, ids) && Distinct(ids)
    requires forall id | id in ids :: id in stakes && stakes[id] == Stake(orders[id].terms, st.trades)
    ensures match ApplyAll(st, ids, winner)
            case Success(next) => paid && next == st.(wallets := ws, orders := book, closeouts := outs)
            case Failure(error) => !paid && error == InsufficientLocked
  {
    ws, book, outs := wallets, orders, closeouts;
    ghost var cur := st;
    var i := 0;
    assert ids[i..] == ids;
    while i < |ids|
      invariant 0 <= i <= |ids|
      invariant cur == st.(wallets := ws, orders := book, closeouts := outs)
      invariant Unpaid(cur, orders, ids, i)
      invariant ApplyAll(cur, ids[i..], winner) == ApplyAll(st, ids, winner)
    {
      hide Stake, ApplyAll, StakeOf, TradeSum;
      var order := orders[ids[i]];
      var c := Closeout(order, stakes[ids[i]], UnfilledCents(order), PayoutOf(order, winner));
      ApplyAllStep(cur, orders, ids, i, winner);
      paid, ws, book, outs := PayOrder(cur, ws, book, outs, ids[i], c);
      if !paid {
        return;
      }
      cur := ApplyCloseout(cur, ids[i], c).value;
      i := i + 1;
    }
    paid := true;
  }
}
