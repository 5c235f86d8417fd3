/** What each ledger transaction answers and what it leaves, in terms of the tables' columns:
    every refusal with its one cause, every row a commit writes. */
module LedgerRules {
  import opened Fixed
  import opened Sums
  import opened Orders
  import opened BookInvariants
  import opened Collateral
  import opened Ledger
  import opened LedgerInvariants
  import opened LedgerRuns
  import opened SettlementRuns
  import opened MatchingRules

  // ----- placing -----

  /** What a placement gives back at once: each better price it traded at, and an
      immediate-or-cancel remainder. */
  ghost function GivenBack(o: Order, trades: seq<Trade>): int {
    Refunds(o.terms, trades) + (if o.status == Cancelled then CollateralCents(o.terms.side, o.terms.amount - o.filled, o.terms.price) else 0)
  }

  /** A placement is refused for its market, its wallet, its balance or its identifiers, in this
      order and for nothing else before it is matched. */
  lemma PlaceRefusals(st: State, t: Terms)
    requires BookOk(st.orders) && ValidTerms(t)
    ensures var key := WalletKey(t.merchant, t.user, t.currency);
            if t.market !in st.markets || st.markets[t.market].status != Active || st.markets[t.market].merchant != t.merchant then
              Place(st, t) == Failure(InvalidMarket)
            else if key !in st.wallets then Place(st, t) == Failure(WalletNotFound)
            else if st.wallets[key].balance < CollateralCents(t.side, t.amount, t.price) then Place(st, t) == Failure(InsufficientBalance)
            else if t.id in st.orders
                    || (t.key != "" && exists id | id in st.orders :: st.orders[id].terms.merchant == t.merchant && st.orders[id].terms.key == t.key) then
              Place(st, t) == Failure(AlreadyExists)
            else Place(st, t).Success? || Place(st, t) == Failure(InsufficientLocked)
  {
    hide BookOk, MatchIncoming, CollateralCents, PlacementRefund;
  }

  lemma CommitWrites(st: State, locked: Wallets, t: Terms, m: Matching)
    requires t.id in m.orders && t.market in st.markets && WalletKey(t.merchant, t.user, t.currency) in locked
    requires PlacementRefund(m.orders[t.id], m.trades) >= 0
    ensures var key, back := WalletKey(t.merchant, t.user, t.currency), PlacementRefund(m.orders[t.id], m.trades);
            CommitPlacement(st, locked, t, m) ==
            if back > 0 && locked[key].locked < back then Failure(InsufficientLocked)
            else
              Success(st.(orders := m.orders, trades := m.trades,
                          wallets := locked[key := Wallet(locked[key].balance + back, locked[key].locked - back)],
                          markets := st.markets[t.market := st.markets[t.market].(volume := st.markets[t.market].volume + m.orders[t.id].filled)]))
  {
    hide PlacementRefund;
    var key := WalletKey(t.merchant, t.user, t.currency);
    assert locked == locked[key := Wallet(locked[key].balance, locked[key].locked)];
  }

  lemma PlaceIsCommit(st: State, t: Terms)
    requires BookOk(st.orders) && ValidTerms(t) && (Place(st, t).Success? || Place(st, t) == Failure(InsufficientLocked))
    ensures Placeable(st.orders, t) && t.market in st.markets && LockFunds(st.wallets, KeyOf(t), OrderCollateral(t, t.amount)).Success?
    ensures Place(st, t) == CommitPlacement(st, LockFunds(st.wallets, KeyOf(t), OrderCollateral(t, t.amount)).value, t, MatchIncoming(st.orders, st.trades, t))
  {
    hide BookOk, MatchIncoming, OrderCollateral, CommitPlacement;
  }

  /** One that is not refused moves the collateral of its whole amount into the locked balance of
      its own wallet, less what it gets back at once; it fails only if the locked balance is
      then too small to give that back. */
  lemma PlaceWrites(st: State, t: Terms)
    requires Inv(st) && ValidTerms(t) && (Place(st, t).Success? || Place(st, t) == Failure(InsufficientLocked))
    ensures Placeable(st.orders, t) && t.market in st.markets && WalletKey(t.merchant, t.user, t.currency) in st.wallets
    ensures var m, w := MatchIncoming(st.orders, st.trades, t), st.wallets[WalletKey(t.merchant, t.user, t.currency)];
            var cents, back := CollateralCents(t.side, t.amount, t.price), GivenBack(m.orders[t.id], m.trades);
            Place(st, t) ==
            if w.locked + cents < back then Failure(InsufficientLocked)
            else
              Success(st.(orders := m.orders, trades := m.trades,
                          wallets := st.wallets[WalletKey(t.merchant, t.user, t.currency) := Wallet(w.balance - cents + back, w.locked + cents - back)],
                          markets := st.markets[t.market := st.markets[t.market].(volume := st.markets[t.market].volume + m.orders[t.id].filled)]))
  {
    hide Inv, BookOk, Place, MatchIncoming, CommitPlacement, PlacementRefund, GivenBack, CollateralCents, Placeable, Refunds;
    BooksOfInv(st);
    PlaceIsCommit(st, t);
    RefundsInRange(st, t);
    LocksThen(st, t, MatchIncoming(st.orders, st.trades, t));
  }

  lemma LocksThen(st: State, t: Terms, m: Matching)
    requires t.id in m.orders && t.market in st.markets && WalletKey(t.merchant, t.user, t.currency) in st.wallets
    requires var key, cents := WalletKey(t.merchant, t.user, t.currency), CollateralCents(t.side, t.amount, t.price);
             LockFunds(st.wallets, key, cents).Success? && st.wallets[key].locked + cents >= 0
    requires PlacementRefund(m.orders[t.id], m.trades) >= 0
    ensures var key, cents, back := WalletKey(t.merchant, t.user, t.currency), CollateralCents(t.side, t.amount, t.price),
                                    PlacementRefund(m.orders[t.id], m.trades);
            var w := st.wallets[key];
            CommitPlacement(st, LockFunds(st.wallets, key, cents).value, t, m) ==
            if w.locked + cents < back then Failure(InsufficientLocked)
            else
              Success(st.(orders := m.orders, trades := m.trades,
                          wallets := st.wallets[key := Wallet(w.balance - cents + back, w.locked + cents - back)],
                          markets := st.markets[t.market := st.markets[t.market].(volume := st.markets[t.market].volume + m.orders[t.id].filled)]))
  {
    hide PlacementRefund, CollateralCents, CommitPlacement;
    var key, cents, back := WalletKey(t.merchant, t.user, t.currency), CollateralCents(t.side, t.amount, t.price),
                            PlacementRefund(m.orders[t.id], m.trades);
    var w := st.wallets[key];
    var locked := LockFunds(st.wallets, key, cents).value;
    CommitWrites(st, locked, t, m);
    var moved := Wallet(w.balance - cents + back, w.locked + cents - back);
    assert locked[key := moved] == st.wallets[key := moved];
  }

  lemma BooksOfInv(st: State)
    requires Inv(st)
    ensures BookOk(st.orders) && Audited(st.orders, st.trades) && Uncrossed(st.orders)
  {
    hide BookOk, Audited, Uncrossed, ClosedInv, VolumeInv, MoneyInv;
  }

  lemma LockedOfInv(st: State, key: WalletKey)
    requires Inv(st) && key in st.wallets
    ensures st.wallets[key].locked >= 0
  {
    hide BookInv, ClosedInv, VolumeInv;
    assert WalletInv(st, key);
  }

  lemma RefundIsGivenBack(o: Order, trades: seq<Trade>)
    ensures PlacementRefund(o, trades) == GivenBack(o, trades)
  {
    hide CollateralCents, Refunds;
  }

  lemma RefundsInRange(st: State, t: Terms)
    requires Inv(st) && Placeable(st.orders, t)
    ensures var m := MatchIncoming(st.orders, st.trades, t);
            && PlacementRefund(m.orders[t.id], m.trades) == GivenBack(m.orders[t.id], m.trades) >= 0
            && CollateralCents(t.side, t.amount, t.price) >= 0
    ensures KeyOf(t) in st.wallets ==> st.wallets[KeyOf(t)].locked >= 0
  {
    hide Inv, Audited, Uncrossed, BookOk, TradesOk, Placeable, MatchIncoming, CollateralCents, PlacementRefund, GivenBack;
    BooksOfInv(st);
    var m := MatchIncoming(st.orders, st.trades, t);
    IncomingFacts(st.orders, st.trades, t);
    FactsRefund(st, t, m);
    RefundIsGivenBack(m.orders[t.id], m.trades);
    if KeyOf(t) in st.wallets { LockedOfInv(st, KeyOf(t)); }
  }

  lemma FactsRefund(st: State, t: Terms, m: Matching)
    requires MatchFacts(st.orders, st.trades, t, m)
    ensures t.id in m.orders && PlacementRefund(m.orders[t.id], m.trades) >= 0 && CollateralCents(t.side, t.amount, t.price) >= 0
  {
    hide BookOk, TradesOk, FillsMatch, Uncrossed, HoldingsStay, VolumeGrows, LogExtends, PlacementRefund, CollateralCents, BookAdvances;
    RefundRange(t, m);
  }

  /** So a committed placement matched best price first, then earliest, then smallest identifier:
      an order that traded was traded with only after every open order of another user in its
      book, on its side and within the limit, that comes before it had been filled. */
  lemma PlacedBestFirst(st: State, t: Terms, first: OrderId, second: OrderId)
    requires Inv(st) && ValidTerms(t) && Place(st, t).Success? && first in st.orders && second in st.orders
    requires second in Place(st, t).value.orders && Place(st, t).value.orders[second] != st.orders[second]
    requires var o := st.orders[first];
             && (o.status == Pending || o.status == Partial)
             && o.terms.merchant == t.merchant && o.terms.market == t.market && o.terms.option == t.option && o.terms.currency == t.currency
             && o.terms.user != t.user && o.terms.side != t.side
             && (if t.side == Buy then o.terms.price <= t.price else o.terms.price >= t.price)
    requires var a, b := st.orders[first].terms, st.orders[second].terms;
             || (if t.side == Buy then a.price < b.price else a.price > b.price)
             || (a.price == b.price && a.createdAt < b.createdAt)
             || (a.price == b.price && a.createdAt == b.createdAt && first < second)
    ensures first in Place(st, t).value.orders
    ensures var o := Place(st, t).value.orders[first]; o.status == Filled && o.filled == o.terms.amount
  {
    PlaceWrites(st, t);
    hide Place, MatchIncoming, Inv;
    BestFirst(st.orders, st.trades, t, first, second);
  }

  // ----- cancelling -----

  /** A cancellation is refused for a missing order, one that is not open, or a locked balance
      too small; otherwise it cancels that order and moves the collateral of what was open back
      into the balance of the order's own wallet. */
  lemma CancelAnswers(st: State, id: OrderId)
    requires Inv(st)
    ensures if id !in st.orders then CancelOrder(st, id) == Failure(NotFound)
            else
              var o := st.orders[id];
              if o.status != Pending && o.status != Partial then CancelOrder(st, id) == Failure(NotCancellable)
              else
                var key, cents := WalletKey(o.terms.merchant, o.terms.user, o.terms.currency),
                                  CollateralCents(o.terms.side, o.terms.amount - o.filled, o.terms.price);
                && key in st.wallets && cents >= 0
                && var w := st.wallets[key];
                   CancelOrder(st, id) ==
                   if w.locked < cents then Failure(InsufficientLocked)
                   else Success(st.(orders := st.orders[id := o.(status := Cancelled)],
                                    wallets := st.wallets[key := Wallet(w.balance + cents, w.locked - cents)]))
  {
    if id in st.orders && st.orders[id].Open() {
      var o, key := st.orders[id], KeyOf(st.orders[id].terms);
      assert OrderOk(o) && key in st.wallets;
      assert WalletInv(st, key);
      UnfilledNonNegative(o);
      hide Inv, OrderOk, CollateralCents, WalletInv;
      assert st.wallets == st.wallets[key := Wallet(st.wallets[key].balance, st.wallets[key].locked)];
    }
  }

  // ----- settling one market -----

  /** A settlement of a market that is missing, belongs to another event or is settled already
      changes nothing, one for an outcome the market does not offer is refused. */
  lemma SettleRefusals(st: State, m: MarketId, e: EventId, winner: string)
    ensures m !in st.markets || st.markets[m].event != e ==> Settle(st, m, e, winner) == Success(st)
    ensures m in st.markets && st.markets[m].event == e && winner !in st.markets[m].options ==>
              Settle(st, m, e, winner) == Failure(OutcomeNotOption)
    ensures m in st.markets && st.markets[m].event == e && winner in st.markets[m].options && m in st.settlements ==>
              Settle(st, m, e, winner) == Success(st)
  {
  }

  /** What a committed settlement leaves of the market, its orders and every other row. */
  lemma SettleWrites(st: State, m: MarketId, e: EventId, winner: string)
    requires Inv(st) && m in st.markets && st.markets[m].event == e && winner in st.markets[m].options && m !in st.settlements
    requires Settle(st, m, e, winner).Success?
    ensures var r := Settle(st, m, e, winner).value;
            && r.settlements == st.settlements[m := Settlement(e, winner)]
            && r.markets == st.markets[m := st.markets[m].(status := Settled)]
            && r.trades == st.trades && r.funded == st.funded && r.orders.Keys == st.orders.Keys
            && (forall id | id in st.orders ::
                  r.orders[id] == if st.orders[id].terms.market == m && (st.orders[id].status == Pending || st.orders[id].status == Partial)
                                  then st.orders[id].(status := Cancelled) else st.orders[id])
  {
    var ids, paid := SettleEffect(st, m, e, winner);
    hide Inv, Settle, ApplyAll, Conserved, CloseoutOf, Queued;
    assert forall id | id in st.orders :: id in ids <==> st.orders[id].terms.market == m;
  }

  lemma CloseoutMeans(o: Order, trades: seq<Trade>, winner: string)
    ensures CloseoutOf(o, trades, winner)
         == Closeout(o, Stake(o.terms, trades),
                     if o.terms.amount > o.filled then CollateralCents(o.terms.side, o.terms.amount - o.filled, o.terms.price) else 0,
                     if (o.terms.side == Buy) == (o.terms.option == winner) then PayoutCents(o.filled) else 0)
  {
    hide CollateralCents, PayoutCents, Stake;
  }

  /** What it closes each of the market's orders out for: its stakes, the collateral of what was
      not filled, and par on its shares exactly if it bought the winning option or sold another. */
  lemma SettleCloses(st: State, m: MarketId, e: EventId, winner: string, id: OrderId)
    requires Inv(st) && m in st.markets && st.markets[m].event == e && winner in st.markets[m].options && m !in st.settlements
    requires Settle(st, m, e, winner).Success?
    ensures var r := Settle(st, m, e, winner).value;
            if id in st.orders && st.orders[id].terms.market == m then
              var o := st.orders[id];
              && id in r.closeouts
              && r.closeouts[id] == Closeout(o, Stake(o.terms, st.trades),
                                             if o.terms.amount > o.filled then CollateralCents(o.terms.side, o.terms.amount - o.filled, o.terms.price) else 0,
                                             if (o.terms.side == Buy) == (o.terms.option == winner) then PayoutCents(o.filled) else 0)
            else (id in r.closeouts <==> id in st.closeouts) && (id in st.closeouts ==> r.closeouts[id] == st.closeouts[id])
  {
    var ids, paid := SettleEffect(st, m, e, winner);
    hide Inv, BookOk, TradesOk, ClosedInv, Settle, ApplyAll, Conserved, Queued, Payable, CloseoutOf, PayoutCents, CollateralCents, Stake, OrdersOf;
    assert id in ids <==> id in st.orders && st.orders[id].terms.market == m;
    ClosesQueued(st, ids, winner, paid, id);
  }

  lemma ClosesQueued(st: State, ids: seq<OrderId>, winner: string, paid: State, id: OrderId)
    requires RowsClosed(st, ids, winner, paid) && (id in ids ==> id in st.orders)
    ensures if id in ids then
              var o := st.orders[id];
              && id in paid.closeouts
              && paid.closeouts[id] == Closeout(o, Stake(o.terms, st.trades),
                                                if o.terms.amount > o.filled then CollateralCents(o.terms.side, o.terms.amount - o.filled, o.terms.price) else 0,
                                                if (o.terms.side == Buy) == (o.terms.option == winner) then PayoutCents(o.filled) else 0)
            else (id in paid.closeouts <==> id in st.closeouts) && (id in st.closeouts ==> paid.closeouts[id] == st.closeouts[id])
  {
    hide CloseoutOf, PayoutCents, CollateralCents, Stake;
    if id in ids { CloseoutMeans(st.orders[id], st.trades, winner); }
  }

  // ----- funding and the markets -----

  /** Deposits and withdrawals move the balance of one wallet by their amount. */
  lemma FundWrites(st: State, key: WalletKey, cents: int)
    ensures var w := if key in st.wallets then st.wallets[key] else Wallet(0, 0);
            Fund(st, key, cents).Success? && Fund(st, key, cents).value.wallets == st.wallets[key := Wallet(w.balance + cents, w.locked)]
    ensures key !in st.wallets ==> Withdraw(st, key, cents) == Failure(WalletNotFound)
    ensures key in st.wallets ==>
              var w := st.wallets[key];
              if w.balance < cents then Withdraw(st, key, cents) == Failure(InsufficientBalance)
              else Withdraw(st, key, cents).Success?
                   && Withdraw(st, key, cents).value.wallets == st.wallets[key := Wallet(w.balance - cents, w.locked)]
  {
  }

  /** A new market is stored active with no volume, unless its identifier is taken. */
  lemma OpenAnswers(st: State, m: MarketId, merchant: string, e: EventId, options: seq<string>)
    ensures OpenMarket(st, m, merchant, e, options) ==
            if m in st.markets then Failure(AlreadyExists)
            else Success(st.(markets := st.markets[m := Market(merchant, e, options, Active, 0)]))
  {
  }

  /** A market moves from active to suspended or closed and from suspended to active or closed,
      and no other move is made. */
  lemma MoveAnswers(st: State, m: MarketId, to: MarketStatus)
    ensures if m !in st.markets then MoveMarket(st, m, to) == Failure(NotFound)
            else
              var x := st.markets[m];
              MoveMarket(st, m, to) ==
              if (x.status == Active && (to == Suspended || to == Closed)) || (x.status == Suspended && (to == Active || to == Closed)) then
                Success(st.(markets := st.markets[m := Market(x.merchant, x.event, x.options, to, x.volume)]))
              else Failure(InvalidMarket)
  {
  }

  /** The market takes no more orders: it is closed or settled. */
  predicate Over(st: State, m: MarketId) {
    m in st.markets && (st.markets[m].status == Closed || st.markets[m].status == Settled)
  }

  /** The orders of market `m` are the same, and none of them has traded. */
  ghost predicate NoneTraded(a: State, b: State, m: MarketId) {
    forall id | id in b.orders && b.orders[id].terms.market == m ::
      id in a.orders && b.orders[id].terms == a.orders[id].terms && b.orders[id].filled == a.orders[id].filled
  }

  lemma PlaceLeavesMarket(st: State, t: Terms, m: MarketId)
    requires Inv(st) && ValidTerms(t) && Place(st, t).Success? && Over(st, m)
    ensures var r := Place(st, t).value; Over(r, m) && NoneTraded(st, r, m)
  {
    hide Inv, BookOk, Place, MatchIncoming, Placeable;
    BooksOfInv(st);
    PlaceRefusals(st, t);
    PlaceWrites(st, t);
    var r := Place(st, t).value;
    IncomingEnds(st.orders, st.trades, t);
    forall id | id in r.orders && r.orders[id].terms.market == m
      ensures id in st.orders && r.orders[id].terms == st.orders[id].terms && r.orders[id].filled == st.orders[id].filled
    {
      if id in st.orders { RestingEnds(st.orders, st.trades, t, id); }
    }
  }

  lemma SettleLeavesMarket(st: State, x: MarketId, e: EventId, winner: string, m: MarketId)
    requires Inv(st) && Settle(st, x, e, winner).Success? && Over(st, m)
    ensures var r := Settle(st, x, e, winner).value; Over(r, m) && NoneTraded(st, r, m)
  {
    SettleRefusals(st, x, e, winner);
    hide Inv, Settle;
    if Settles(st, x, e, winner) { SettleWrites(st, x, e, winner); }
  }

  lemma NextLeavesMarket(st: State, op: Op, m: MarketId)
    requires Inv(st) && Over(st, m)
    ensures Over(Next(st, op), m) && NoneTraded(st, Next(st, op), m)
  {
    hide Inv, Place, Settle;
    BooksOfInv(st);
    if Accepted(op) && Attempt(st, op).Success? {
      match op
      case OpPlace(t) => PlaceLeavesMarket(st, t, m);
      case OpSettle(x, e, winner) => SettleLeavesMarket(st, x, e, winner, m);
      case _ =>
    }
  }

  /** Whatever runs: once a market is closed or settled it stays so, no order enters it, and none
      of its orders trades again. */
  lemma {:induction false} NothingTradesOnceClosed(st: State, ops: seq<Op>, m: MarketId)
    requires Inv(st) && m in st.markets && (st.markets[m].status == Closed || st.markets[m].status == Settled)
    ensures var r := Run(st, ops);
            && m in r.markets && (r.markets[m].status == Closed || r.markets[m].status == Settled)
            && forall id | id in r.orders && r.orders[id].terms.market == m ::
                 id in st.orders && r.orders[id].terms == st.orders[id].terms && r.orders[id].filled == st.orders[id].filled
    decreases |ops|
  {
    if ops != [] {
      NextInv(st, ops[0]);
      NextLeavesMarket(st, ops[0], m);
      hide Inv, Next;
      NothingTradesOnceClosed(Next(st, ops[0]), ops[1..], m);
    }
  }
}
