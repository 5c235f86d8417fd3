/** What every run of the exchange keeps, at any granularity of shares and prices: the book's
    invariants, the closing of settled markets, and two accounts of every wallet, one of
    what is locked and one of all it owns. */
module LedgerInvariants {
  import opened Fixed
  import opened Sorting
  import opened Sums
  import opened Orders
  import opened BookInvariants
  import opened Collateral
  import opened Ledger

  // ----- the two accounts of a wallet -----

  /** What an order still accounts for in the locked balance: what is held for it, less what
      settlement took. */
  ghost function Net(st: State, id: OrderId): int
    requires id in st.orders
  {
    if id in st.closeouts then Held(st.closeouts[id].before, st.trades) - st.closeouts[id].LockedUse()
    else Held(st.orders[id], st.trades)
  }

  ghost function NetAt(st: State, key: WalletKey, id: OrderId): int {
    if id in st.orders && KeyOf(st.orders[id].terms) == key then Net(st, id) else 0
  }

  ghost function NetFor(st: State, key: WalletKey): OrderId -> int {
    (id: OrderId) => NetAt(st, key, id)
  }

  /** What settlement has gained or lost a wallet through one order. */
  ghost function GainAt(st: State, key: WalletKey, id: OrderId): int {
    if id in st.orders && id in st.closeouts && KeyOf(st.orders[id].terms) == key
    then st.closeouts[id].payout - st.closeouts[id].stake else 0
  }

  ghost function GainFor(st: State, key: WalletKey): OrderId -> int {
    (id: OrderId) => GainAt(st, key, id)
  }

  ghost predicate WalletInv(st: State, key: WalletKey)
    requires key in st.wallets && key in st.funded
  {
    var w := st.wallets[key];
    && w.balance >= 0 && w.locked >= 0
    && w.locked == Sum(st.orders.Keys, NetFor(st, key))
    && w.balance + w.locked == st.funded[key] + Sum(st.orders.Keys, GainFor(st, key))
  }

  ghost predicate MoneyShape(st: State) {
    && st.wallets.Keys == st.funded.Keys
    && (forall id | id in st.orders :: KeyOf(st.orders[id].terms) in st.wallets)
    && (forall id | id in st.closeouts :: id in st.orders && st.closeouts[id].before.terms == st.orders[id].terms)
  }

  ghost predicate MoneyInv(st: State) {
    MoneyShape(st) && forall key {:trigger WalletInv(st, key)} | key in st.wallets :: WalletInv(st, key)
  }

  // ----- the book and the closed markets -----

  predicate SameKey(a: Terms, b: Terms) {
    a.key != "" && a.merchant == b.merchant && a.key == b.key
  }

  ghost predicate KeysUnique(orders: Book) {
    forall i, j {:trigger SameKey(orders[i].terms, orders[j].terms)} | i in orders && j in orders && i != j ::
      !SameKey(orders[i].terms, orders[j].terms)
  }

  ghost predicate BookInv(st: State) {
    && BookOk(st.orders) && Audited(st.orders, st.trades) && Uncrossed(st.orders) && KeysUnique(st.orders)
    && (forall id | id in st.orders :: st.orders[id].terms.market in st.markets)
  }

  ghost predicate ClosedWell(st: State, id: OrderId)
    requires id in st.closeouts && id in st.orders && st.orders[id].terms.market in st.settlements
  {
    var o, c := st.orders[id], st.closeouts[id];
    && OrderOk(c.before) && c.before.terms == o.terms && c.before.filled == o.filled
    && o == (if c.before.Open() then Cancel(c.before) else c.before)
    && c == CloseoutOf(c.before, st.trades, st.settlements[o.terms.market].winner)
  }

  /** Exactly the orders of settled markets are closed out, none of them is open, and each
      was closed out for its own stake and payout. */
  ghost predicate ClosedInv(st: State) {
    && (forall m | m in st.settlements :: m in st.markets && st.markets[m].status == Settled)
    && (forall id :: id in st.closeouts <==> id in st.orders && st.orders[id].terms.market in st.settlements)
    && (forall id {:trigger ClosedWell(st, id)} | id in st.closeouts :: ClosedWell(st, id))
  }

  ghost function InMarket(m: MarketId): Trade -> int {
    (x: Trade) => if x.market == m then x.shares else 0
  }

  ghost function Volume(trades: seq<Trade>, m: MarketId): int {
    TradeSum(trades, InMarket(m))
  }

  ghost predicate VolumeInv(st: State) {
    && (forall m {:trigger Volume(st.trades, m)} | m in st.markets :: st.markets[m].volume == Volume(st.trades, m))
    && (forall i | 0 <= i < |st.trades| :: st.trades[i].market in st.markets)
  }

  ghost predicate Inv(st: State) {
    BookInv(st) && ClosedInv(st) && VolumeInv(st) && MoneyInv(st)
  }

  // ----- placing: frame of the trade log -----

  /** `b` extends the log `a` by trades of one taker. */
  ghost predicate Extends(a: seq<Trade>, b: seq<Trade>, taker: OrderId) {
    a <= b && forall i | |a| <= i < |b| :: b[i].taker == taker
  }

  lemma {:induction false} RefundsFrame(t: Terms, a: seq<Trade>, b: seq<Trade>, taker: OrderId)
    requires Extends(a, b, taker) && t.id != taker
    ensures Refunds(t, b) == Refunds(t, a)
    decreases |b|
  {
    if |b| > |a| {
      var c := b[..|b| - 1];
      assert b == c + [b[|b| - 1]];
      RefundsFrame(t, a, c, taker);
      TradeSumAppend(c, b[|b| - 1], RefundOf(t));
    } else {
      assert a == b;
    }
  }

  lemma RefundsNone(orders: Book, trades: seq<Trade>, t: Terms)
    requires TradesOk(orders, trades) && t.id !in orders
    ensures Refunds(t, trades) == 0
  {
    forall i | 0 <= i < |trades| ensures RefundOf(t)(trades[i]) == 0 {
      assert TradeOk(orders, trades[i]);
    }
    TradeSumZero(trades, RefundOf(t));
  }

  lemma {:induction false} RefundsNonNegative(orders: Book, trades: seq<Trade>, t: Terms)
    requires TradesOk(orders, trades)
    ensures Refunds(t, trades) >= 0
    decreases |trades|
  {
    if trades != [] {
      var c, x := trades[..|trades| - 1], trades[|trades| - 1];
      assert trades == c + [x];
      RefundsNonNegative(orders, c, t);
      TradeSumAppend(c, x, RefundOf(t));
      assert TradeOk(orders, x);
      ImprovementNonNegative(t.side, x.shares, t.price, x.price);
    }
  }

  lemma ImprovementNonNegative(side: Side, shares: int, limitPrice: int, matchedPrice: int)
    requires shares >= 0
    ensures PriceImprovementCents(side, shares, limitPrice, matchedPrice) >= 0
  {
    var d := Improvement(side, limitPrice, matchedPrice);
    if d > 0 {
      ProductError(shares, d);
    }
  }

  lemma PlacementExtends(orders: Book, trades: seq<Trade>, terms: Terms, queue: seq<OrderId>)
    requires Matchable(orders, terms, queue)
    ensures Extends(trades, Match(orders, trades, terms, queue).trades, terms.id)
  {
    FillAllAppends(Matching(Inserted(orders, terms), trades), terms.id, queue);
  }

  /** Matching never cancels a resting order. */
  lemma PlacementCancelsNone(orders: Book, trades: seq<Trade>, terms: Terms, queue: seq<OrderId>, id: OrderId)
    requires Matchable(orders, terms, queue) && id in orders
    ensures Match(orders, trades, terms, queue).orders[id].status.Cancelled? ==> orders[id].status.Cancelled?
  {
    if id in queue {
      var i :| 0 <= i < |queue| && queue[i] == id;
      PlacementMaker(orders, trades, terms, queue, i);
    } else {
      PlacementFrame(orders, trades, terms, queue, id);
    }
  }

  /** Being matched as a maker moves no money of the maker. */
  lemma HeldFrame(orders: Book, trades: seq<Trade>, terms: Terms, queue: seq<OrderId>, id: OrderId)
    requires Matchable(orders, terms, queue) && id in orders
    ensures var m := Match(orders, trades, terms, queue);
            Held(m.orders[id], m.trades) == Held(orders[id], trades)
  {
    var m := Match(orders, trades, terms, queue);
    PlacementAdvancesOne(orders, trades, terms, queue, id);
    PlacementCancelsNone(orders, trades, terms, queue, id);
    PlacementExtends(orders, trades, terms, queue);
    RefundsFrame(orders[id].terms, trades, m.trades, terms.id);
  }

  /** The incoming order holds what was locked for it less what it got back at once. */
  lemma HeldByTaker(o: Order, trades: seq<Trade>)
    ensures Held(o, trades) == OrderCollateral(o.terms, o.terms.amount) - PlacementRefund(o, trades)
  {
  }

  // ----- volume -----

  lemma {:induction false} FillAllVolume(m: Matching, taker: OrderId, makers: seq<OrderId>, market: MarketId)
    requires Ready(m, taker, makers)
    ensures var r := FillAll(m, taker, makers);
            TradeSum(r.trades, InMarket(market)) == TradeSum(m.trades, InMarket(market))
              + (if m.orders[taker].terms.market == market then r.orders[taker].filled - m.orders[taker].filled else 0)
    ensures forall i | |m.trades| <= i < |FillAll(m, taker, makers).trades| ::
              FillAll(m, taker, makers).trades[i].market == m.orders[taker].terms.market
    decreases |makers|
  {
    if makers != [] && m.orders[taker].Remaining() != 0 {
      var n := Fill(m, taker, makers[0]);
      FillReady(m, taker, makers);
      FillAllVolume(n, taker, makers[1..], market);
      TradeSumAppend(m.trades, n.trades[|m.trades|], InMarket(market));
      FillAllAppends(n, taker, makers[1..]);
    }
  }

  lemma PlacementVolume(orders: Book, trades: seq<Trade>, terms: Terms, queue: seq<OrderId>, market: MarketId)
    requires Matchable(orders, terms, queue)
    ensures var r := Match(orders, trades, terms, queue);
            TradeSum(r.trades, InMarket(market)) == TradeSum(trades, InMarket(market))
              + (if terms.market == market then r.orders[terms.id].filled else 0)
    ensures forall i | |trades| <= i < |Match(orders, trades, terms, queue).trades| ::
              Match(orders, trades, terms, queue).trades[i].market == terms.market
  {
    var m := Matching(Inserted(orders, terms), trades);
    QueueReady(orders, trades, terms, queue);
    FillAllVolume(m, terms.id, queue, market);
    FillAllTaker(m, terms.id, queue);
  }

  /** A placement that nothing crosses just rests. */
  lemma PlacementRests(orders: Book, trades: seq<Trade>, terms: Terms)
    requires Placeable(orders, terms) && terms.tif.Gtc?
    requires forall id | id in orders :: !Eligible(terms, orders[id])
    ensures MatchIncoming(orders, trades, terms) == Matching(Inserted(orders, terms), trades)
  {
    CandidatesQueue(orders, terms);
    var queue := Candidates(Inserted(orders, terms), terms);
    assert EligibleMakers(Inserted(orders, terms), terms) == {};
    assert Elements(queue) == {};
    assert Inserted(orders, terms)[terms.id := NewOrder(terms)] == Inserted(orders, terms);
  }

  // ----- a placement in one statement -----

  /** Rows are only added and only advance. */
  ghost predicate RowsAdvance(orders: Book, terms: Terms, m: Matching) {
    && m.orders.Keys == orders.Keys + {terms.id} && terms.id !in orders
    && m.orders[terms.id].terms == terms
    && BookAdvances(orders, m.orders)
  }

  /** New trades are the incoming order's own, in its market. */
  ghost predicate LogExtends(trades: seq<Trade>, terms: Terms, m: Matching) {
    && Extends(trades, m.trades, terms.id)
    && (forall i | |trades| <= i < |m.trades| :: m.trades[i].market == terms.market)
  }

  ghost predicate HoldingsStay(orders: Book, trades: seq<Trade>, m: Matching) {
    forall id | id in orders :: id in m.orders && Held(m.orders[id], m.trades) == Held(orders[id], trades)
  }

  ghost predicate VolumeGrows(trades: seq<Trade>, terms: Terms, m: Matching)
    requires terms.id in m.orders
  {
    forall market: MarketId {:trigger Volume(m.trades, market)} ::
      Volume(m.trades, market) == Volume(trades, market) + (if market == terms.market then m.orders[terms.id].filled else 0)
  }

  /** What a match leaves of the tables it was given. */
  ghost predicate MatchFacts(orders: Book, trades: seq<Trade>, terms: Terms, m: Matching) {
    && RowsAdvance(orders, terms, m) && LogExtends(trades, terms, m)
    && BookOk(m.orders) && Audited(m.orders, m.trades) && Uncrossed(m.orders)
    && HoldingsStay(orders, trades, m) && VolumeGrows(trades, terms, m)
  }

  lemma MatchGivesFacts(orders: Book, trades: seq<Trade>, terms: Terms, queue: seq<OrderId>)
    requires Matchable(orders, terms, queue) && Audited(orders, trades) && Uncrossed(orders)
    ensures MatchFacts(orders, trades, terms, Match(orders, trades, terms, queue))
  {
    PlacementAdvances(orders, trades, terms, queue);
    PlacementUncrossed(orders, trades, terms, queue);
    PlacementAudited(orders, trades, terms, queue);
    PlacementExtends(orders, trades, terms, queue);
    PlacementVolume(orders, trades, terms, queue, terms.market);
    var m := Match(orders, trades, terms, queue);
    forall id | id in orders ensures Held(m.orders[id], m.trades) == Held(orders[id], trades) {
      HeldFrame(orders, trades, terms, queue, id);
    }
    forall market: MarketId
      ensures Volume(m.trades, market) == Volume(trades, market) + (if market == terms.market then m.orders[terms.id].filled else 0)
    {
      PlacementVolume(orders, trades, terms, queue, market);
    }
  }

  lemma IncomingFacts(orders: Book, trades: seq<Trade>, terms: Terms)
    requires Placeable(orders, terms) && Audited(orders, trades) && Uncrossed(orders)
    ensures MatchFacts(orders, trades, terms, MatchIncoming(orders, trades, terms))
  {
    CandidatesQueue(orders, terms);
    MatchGivesFacts(orders, trades, terms, Candidates(Inserted(orders, terms), terms));
  }

  /** The whole effect of a committed placement: the match, the market's volume, and one
      wallet, which moves into its locked balance exactly what the new order then holds. */
  ghost predicate Placed(st: State, terms: Terms, m: Matching, r: State) {
    && MarketOpenFor(st.markets, terms) && !Taken(st.orders, terms)
    && terms.id in m.orders && KeyOf(terms) in st.wallets
    && var h, w := Held(m.orders[terms.id], m.trades), st.wallets[KeyOf(terms)];
       && w.balance - h >= 0 && (w.locked >= 0 ==> w.locked + h >= 0)
       && r == st.(orders := m.orders, trades := m.trades,
                   wallets := st.wallets[KeyOf(terms) := Wallet(w.balance - h, w.locked + h)],
                   markets := AddVolume(st.markets, terms.market, m.orders[terms.id].filled))
  }

  lemma RefundRange(terms: Terms, m: Matching)
    requires BookOk(m.orders) && TradesOk(m.orders, m.trades) && terms.id in m.orders && m.orders[terms.id].terms == terms
    ensures PlacementRefund(m.orders[terms.id], m.trades) >= 0
    ensures OrderCollateral(terms, terms.amount) >= 0
  {
    RefundsNonNegative(m.orders, m.trades, terms);
    UnfilledNonNegative(m.orders[terms.id]);
    ProductError(terms.amount, Exposure(terms.side, terms.price));
  }

  lemma CommitPlaces(st: State, terms: Terms, locked: Wallets, m: Matching)
    requires MarketOpenFor(st.markets, terms) && !Taken(st.orders, terms)
    requires BookOk(m.orders) && TradesOk(m.orders, m.trades) && terms.id in m.orders && m.orders[terms.id].terms == terms
    requires LockFunds(st.wallets, KeyOf(terms), OrderCollateral(terms, terms.amount)) == Success(locked)
    requires CommitPlacement(st, locked, terms, m).Success?
    ensures Placed(st, terms, m, CommitPlacement(st, locked, terms, m).value)
  {
    RefundRange(terms, m);
    HeldByTaker(m.orders[terms.id], m.trades);
  }

  lemma PlaceEffect(st: State, terms: Terms) returns (m: Matching)
    requires BookInv(st) && ValidTerms(terms) && Place(st, terms).Success?
    ensures MatchFacts(st.orders, st.trades, terms, m)
    ensures Placed(st, terms, m, Place(st, terms).value)
  {
    IncomingFacts(st.orders, st.trades, terms);
    m := MatchIncoming(st.orders, st.trades, terms);
    CommitPlaces(st, terms, LockFunds(st.wallets, KeyOf(terms), OrderCollateral(terms, terms.amount)).value, m);
  }
}
