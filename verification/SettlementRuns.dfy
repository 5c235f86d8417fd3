/** Settling a market keeps the ledger's invariant, pays every order once, and conserves money. */
module SettlementRuns {
  import opened Fixed
  import opened Sorting
  import opened Sums
  import opened Orders
  import opened BookInvariants
  import opened Collateral
  import opened Ledger
  import opened LedgerInvariants
  import opened LedgerRuns

  // ----- one order -----

  ghost predicate CloseoutNonNegative(c: Closeout) {
    c.stake >= 0 && c.refund >= 0 && c.payout >= 0
  }

  lemma CloseoutIsNonNegative(orders: Book, trades: seq<Trade>, id: OrderId, winner: string)
    requires BookOk(orders) && TradesOk(orders, trades) && id in orders
    ensures CloseoutNonNegative(CloseoutOf(orders[id], trades, winner))
  {
    StakeIsNonNegative(orders, trades, orders[id].terms);
    UnfilledNonNegative(orders[id]);
    PayoutError(orders[id].filled);
  }

  /** The whole effect of paying one order out. */
  ghost predicate ClosedOut(st: State, id: OrderId, c: Closeout, r: State) {
    && id in st.orders && KeyOf(st.orders[id].terms) in st.wallets
    && var o, key := st.orders[id], KeyOf(st.orders[id].terms);
       var w := st.wallets[key];
       && (w.locked >= 0 ==> c.LockedUse() <= w.locked)
       && r == st.(
            wallets := st.wallets[key := Wallet(w.balance + c.refund + c.payout, w.locked - c.LockedUse())],
            orders := st.orders[id := if o.Open() then Cancel(o) else o],
            closeouts := st.closeouts[id := c])
  }

  lemma ApplyEffect(st: State, id: OrderId, c: Closeout)
    requires id in st.orders && KeyOf(st.orders[id].terms) in st.wallets && CloseoutNonNegative(c)
    requires ApplyCloseout(st, id, c).Success?
    ensures ClosedOut(st, id, c, ApplyCloseout(st, id, c).value)
  {
    var w := st.wallets[KeyOf(st.orders[id].terms)];
    assert st.wallets == st.wallets[KeyOf(st.orders[id].terms) := Wallet(w.balance, w.locked)];
    assert st.orders == st.orders[id := st.orders[id]];
  }

  lemma CloseoutOnly(st: State, id: OrderId, c: Closeout, r: State)
    requires ClosedOut(st, id, c, r)
    ensures OnlyOrder(st, r, id)
  {
  }

  lemma CloseoutNet(st: State, id: OrderId, c: Closeout, r: State, key: WalletKey)
    requires ClosedOut(st, id, c, r) && id !in st.closeouts && key == KeyOf(st.orders[id].terms)
    requires c.before == st.orders[id]
    ensures NetFor(r, key)(id) == NetFor(st, key)(id) - c.LockedUse()
    ensures GainFor(r, key)(id) == GainFor(st, key)(id) + c.payout - c.stake
  {
  }

  lemma CloseoutWallet(st: State, id: OrderId, c: Closeout, r: State, key: WalletKey)
    requires ClosedOut(st, id, c, r) && id !in st.closeouts && key == KeyOf(st.orders[id].terms)
    requires c.before == st.orders[id] && CloseoutNonNegative(c)
    requires key in st.funded && st.wallets[key].balance >= 0 && st.wallets[key].locked >= 0
    ensures WalletFollows(st, r, id, key)
  {
    CloseoutNet(st, id, c, r, key);
  }

  /** Paying one order out keeps both accounts of every wallet. */
  lemma CloseoutMoney(st: State, id: OrderId, c: Closeout, r: State)
    requires MoneyInv(st) && ClosedOut(st, id, c, r) && id !in st.closeouts
    requires c.before == st.orders[id] && CloseoutNonNegative(c)
    ensures MoneyInv(r)
  {
    var key := KeyOf(st.orders[id].terms);
    assert WalletInv(st, key);
    CloseoutWallet(st, id, c, r, key);
    CloseoutOnly(st, id, c, r);
    MoneyFollows(st, r, id, key);
  }

  // ----- all orders of a market -----

  ghost predicate Distinct(ids: seq<OrderId>) {
    forall i, j | 0 <= i < j < |ids| :: ids[i] != ids[j]
  }

  /** Orders still to be paid out. */
  ghost predicate Queued(st: State, ids: seq<OrderId>) {
    Payable(st, ids) && Distinct(ids) && forall i | 0 <= i < |ids| :: ids[i] !in st.closeouts
  }

  /** Paying out leaves the rest of the queue as it was. */
  lemma QueuedAfter(st: State, ids: seq<OrderId>, c: Closeout, r: State)
    requires Queued(st, ids) && ids != [] && ClosedOut(st, ids[0], c, r)
    ensures Queued(r, ids[1..])
    ensures forall i | 0 < i < |ids| :: r.orders[ids[i]] == st.orders[ids[i]]
  {
    var rest := ids[1..];
    assert forall i | 0 <= i < |rest| :: rest[i] == ids[i + 1];
  }

  ghost function ClosedRow(o: Order): Order {
    if o.Open() then Cancel(o) else o
  }

  /** What paying out a whole queue does to the rows. */
  ghost predicate RowsClosed(st: State, ids: seq<OrderId>, winner: string, r: State) {
    && r.orders.Keys == st.orders.Keys
    && (forall id | id in st.orders :: r.orders[id] == if id in ids then ClosedRow(st.orders[id]) else st.orders[id])
    && (forall id :: id in r.closeouts <==> id in st.closeouts || id in ids)
    && (forall id | id in r.closeouts :: id in st.closeouts && id !in ids ==> r.closeouts[id] == st.closeouts[id])
    && (forall id | id in r.closeouts && id in ids :: id in st.orders && r.closeouts[id] == CloseoutOf(st.orders[id], st.trades, winner))
  }

  lemma RowsClosedStep(st: State, ids: seq<OrderId>, winner: string, next: State, r: State)
    requires Queued(st, ids) && ids != []
    requires ClosedOut(st, ids[0], CloseoutOf(st.orders[ids[0]], st.trades, winner), next)
    requires RowsClosed(next, ids[1..], winner, r)
    ensures RowsClosed(st, ids, winner, r)
  {
    var rest := ids[1..];
    assert forall id :: id in ids <==> id == ids[0] || id in rest;
    assert ids[0] !in rest;
  }

  lemma {:induction false} ApplyAllRows(st: State, ids: seq<OrderId>, winner: string)
    requires Queued(st, ids) && BookOk(st.orders) && TradesOk(st.orders, st.trades)
    requires ApplyAll(st, ids, winner).Success?
    ensures RowsClosed(st, ids, winner, ApplyAll(st, ids, winner).value)
    decreases |ids|
  {
    if ids != [] {
      var next := PayFirst(st, ids, winner);
      ApplyAllRows(next, ids[1..], winner);
      RowsClosedStep(st, ids, winner, next, ApplyAll(st, ids, winner).value);
    }
  }

  /** The first payment of a queue, and what it leaves for the rest. */
  lemma PayFirst(st: State, ids: seq<OrderId>, winner: string) returns (next: State)
    requires Queued(st, ids) && ids != [] && BookOk(st.orders) && TradesOk(st.orders, st.trades)
    requires ApplyCloseout(st, ids[0], CloseoutOf(st.orders[ids[0]], st.trades, winner)).Success?
    ensures ApplyCloseout(st, ids[0], CloseoutOf(st.orders[ids[0]], st.trades, winner)) == Success(next)
    ensures ClosedOut(st, ids[0], CloseoutOf(st.orders[ids[0]], st.trades, winner), next)
    ensures CloseoutNonNegative(CloseoutOf(st.orders[ids[0]], st.trades, winner))
    ensures Queued(next, ids[1..]) && BookOk(next.orders) && TradesOk(next.orders, next.trades)
  {
    var c := CloseoutOf(st.orders[ids[0]], st.trades, winner);
    CloseoutIsNonNegative(st.orders, st.trades, ids[0], winner);
    next := ApplyCloseout(st, ids[0], c).value;
    ApplyEffect(st, ids[0], c);
    QueuedAfter(st, ids, c, next);
    TradesOkMonotone(st.orders, next.orders, st.trades);
  }

  lemma {:induction false} ApplyAllMoney(st: State, ids: seq<OrderId>, winner: string)
    requires Queued(st, ids) && BookOk(st.orders) && TradesOk(st.orders, st.trades) && MoneyInv(st)
    requires ApplyAll(st, ids, winner).Success?
    ensures MoneyInv(ApplyAll(st, ids, winner).value)
    decreases |ids|
  {
    if ids != [] {
      var next := PayFirst(st, ids, winner);
      CloseoutMoney(st, ids[0], CloseoutOf(st.orders[ids[0]], st.trades, winner), next);
      ApplyAllMoney(next, ids[1..], winner);
    }
  }

  // ----- a whole settlement -----

  /** The call that settles: the market is the event's, lists the outcome, and is not settled. */
  ghost predicate Settles(st: State, m: MarketId, e: EventId, winner: string) {
    m in st.markets && st.markets[m].event == e && winner in st.markets[m].options && m !in st.settlements
  }

  lemma QueueIsMarket(st: State, m: MarketId)
    ensures Distinct(SettlementQueue(st.orders, m))
    ensures forall id :: id in SettlementQueue(st.orders, m) <==> id in st.orders && st.orders[id].terms.market == m
  {
    var ids := SettlementQueue(st.orders, m);
    SortedDistinct(ids, OrdersOf(st.orders, m), ById());
    forall id ensures id in ids <==> id in OrdersOf(st.orders, m) {
      assert id in ids <==> id in Elements(ids);
    }
  }

  ghost predicate MarketQueue(st: State, m: MarketId, ids: seq<OrderId>) {
    && Distinct(ids)
    && (forall id :: id in ids <==> id in st.orders && st.orders[id].terms.market == m)
  }

  /** A committed settlement: the market's orders are closed out and paid, then the market
      is marked. */
  ghost predicate SettledWell(st: State, m: MarketId, e: EventId, winner: string, ids: seq<OrderId>, paid: State, r: State) {
    && Settles(st, m, e, winner) && MarketQueue(st, m, ids) && Queued(st, ids)
    && Conserved(st.orders, st.trades, winner, ids)
    && ApplyAll(st, ids, winner) == Success(paid)
    && RowsClosed(st, ids, winner, paid)
    && paid == st.(orders := paid.orders, wallets := paid.wallets, closeouts := paid.closeouts)
    && r == CloseMarket(paid, m, e, winner)
  }

  lemma SettleEffect(st: State, m: MarketId, e: EventId, winner: string) returns (ids: seq<OrderId>, paid: State)
    requires BookOk(st.orders) && TradesOk(st.orders, st.trades) && ClosedInv(st)
    requires Settles(st, m, e, winner) && Settle(st, m, e, winner).Success?
    ensures SettledWell(st, m, e, winner, ids, paid, Settle(st, m, e, winner).value)
  {
    ids := SettlementQueue(st.orders, m);
    QueueIsMarket(st, m);
    paid := ApplyAll(st, ids, winner).value;
    ApplyAllRows(st, ids, winner);
  }

  lemma RowsOnlyCancel(st: State, ids: seq<OrderId>, winner: string, r: State)
    requires RowsClosed(st, ids, winner, r)
    ensures OnlyCancels(st.orders, r.orders)
  {
  }

  lemma SettleCloseouts(st: State, m: MarketId, e: EventId, winner: string, ids: seq<OrderId>, paid: State, r: State, id: OrderId)
    requires ClosedInv(st) && SettledWell(st, m, e, winner, ids, paid, r)
    ensures id in r.closeouts <==> id in r.orders && r.orders[id].terms.market in r.settlements
  {
    hide ApplyAll, Conserved, ClosedWell;
    assert id in ids <==> id in st.orders && st.orders[id].terms.market == m;
    assert id in r.closeouts <==> id in st.closeouts || id in ids;
    assert id in st.orders ==> r.orders[id].terms == st.orders[id].terms;
  }

  lemma SettleClosedWell(st: State, m: MarketId, e: EventId, winner: string, ids: seq<OrderId>, paid: State, r: State, id: OrderId)
    requires BookOk(st.orders) && ClosedInv(st) && SettledWell(st, m, e, winner, ids, paid, r)
    requires id in r.closeouts && id in r.orders && r.orders[id].terms.market in r.settlements
    ensures ClosedWell(r, id)
  {
    hide ApplyAll, Conserved;
    assert id in ids <==> id in st.orders && st.orders[id].terms.market == m;
    if id !in ids {
      assert ClosedWell(st, id);
    }
  }

  lemma SettleClosed(st: State, m: MarketId, e: EventId, winner: string, ids: seq<OrderId>, paid: State, r: State)
    requires BookOk(st.orders) && ClosedInv(st) && SettledWell(st, m, e, winner, ids, paid, r)
    ensures ClosedInv(r)
  {
    assert r.settlements == st.settlements[m := Settlement(e, winner)] && r.markets == st.markets[m := r.markets[m]];
    forall id ensures id in r.closeouts <==> id in r.orders && r.orders[id].terms.market in r.settlements {
      SettleCloseouts(st, m, e, winner, ids, paid, r, id);
    }
    forall id | id in r.closeouts
      ensures ClosedWell(r, id)
    {
      SettleClosedWell(st, m, e, winner, ids, paid, r, id);
    }
  }

  lemma SettleMoney(st: State, m: MarketId, e: EventId, winner: string, ids: seq<OrderId>, paid: State, r: State)
    requires BookOk(st.orders) && TradesOk(st.orders, st.trades) && MoneyInv(st)
    requires SettledWell(st, m, e, winner, ids, paid, r)
    ensures MoneyInv(r)
  {
    ApplyAllMoney(st, ids, winner);
    TablesMoney(paid, r);
  }

  lemma SettleInv(st: State, m: MarketId, e: EventId, winner: string, ids: seq<OrderId>, paid: State, r: State)
    requires Inv(st) && SettledWell(st, m, e, winner, ids, paid, r)
    ensures Inv(r) && BookAdvances(st.orders, r.orders)
  {
    assert BookInv(r) && BookAdvances(st.orders, r.orders) by {
      RowsOnlyCancel(st, ids, winner, r);
      CancelsBook(st, r);
    }
    assert ClosedInv(r) by { SettleClosed(st, m, e, winner, ids, paid, r); }
    assert VolumeInv(r) by { VolumeStays(st, r); }
    assert MoneyInv(r) by { SettleMoney(st, m, e, winner, ids, paid, r); }
  }

  // ----- every run -----

  lemma PlaceKeeps(st: State, terms: Terms)
    requires Inv(st) && ValidTerms(terms) && Place(st, terms).Success?
    ensures var r := Place(st, terms).value; Inv(r) && BookAdvances(st.orders, r.orders)
  {
    var m := PlaceEffect(st, terms);
    PlaceInv(st, terms, m, Place(st, terms).value);
  }

  lemma CancelKeeps(st: State, id: OrderId)
    requires Inv(st) && CancelOrder(st, id).Success?
    ensures var r := CancelOrder(st, id).value; Inv(r) && BookAdvances(st.orders, r.orders)
  {
    CancelEffect(st, id);
    CancelInv(st, id, CancelOrder(st, id).value);
  }

  lemma SettleKeeps(st: State, m: MarketId, e: EventId, winner: string)
    requires Inv(st) && Settle(st, m, e, winner).Success?
    ensures var r := Settle(st, m, e, winner).value; Inv(r) && BookAdvances(st.orders, r.orders)
  {
    if Settles(st, m, e, winner) {
      var ids, paid := SettleEffect(st, m, e, winner);
      SettleInv(st, m, e, winner, ids, paid, Settle(st, m, e, winner).value);
    }
  }

  lemma MarketMoves(st: State, op: Op)
    requires ClosedInv(st) && (op.OpOpen? || op.OpMove?) && MarketWrite(st, op).Success?
    ensures MarketMoved(st, op.m, MarketWrite(st, op).value)
  {
  }

  /** The two writers of the markets table. */
  function MarketWrite(st: State, op: Op): Result<State>
    requires op.OpOpen? || op.OpMove?
  {
    if op.OpOpen? then OpenMarket(st, op.m, op.merchant, op.e, op.options) else MoveMarket(st, op.m, op.to)
  }

  lemma FundKeeps(st: State, key: WalletKey, cents: int, r: State)
    requires Inv(st) && cents > 0
    requires Fund(st, key, cents) == Success(r) || Withdraw(st, key, cents) == Success(r)
    ensures Inv(r) && BookAdvances(st.orders, r.orders)
  {
    if Fund(st, key, cents) == Success(r) {
      FundAccepted(st, key, cents);
      FundingInv(st, key, cents, r);
    } else {
      FundingInv(st, key, -cents, r);
    }
  }

  /** Every transaction keeps the invariant, whatever its arguments. */
  lemma NextInv(st: State, op: Op)
    requires Inv(st)
    ensures Inv(Next(st, op)) && BookAdvances(st.orders, Next(st, op).orders)
  {
    if Accepted(op) && Attempt(st, op).Success? {
      var r := Attempt(st, op).value;
      match op {
        case OpOpen(m, merchant, e, options) => MarketMoves(st, op); MarketsInv(st, m, r);
        case OpMove(m, to) => MarketMoves(st, op); MarketsInv(st, m, r);
        case OpFund(key, cents) => FundKeeps(st, key, cents, r);
        case OpWithdraw(key, cents) => FundKeeps(st, key, cents, r);
        case OpPlace(terms) => PlaceKeeps(st, terms);
        case OpCancel(id) => CancelKeeps(st, id);
        case OpSettle(m, e, winner) => SettleKeeps(st, m, e, winner);
      }
    }
  }

  lemma FundAccepted(st: State, key: WalletKey, cents: int)
    requires MoneyInv(st) && cents > 0
    ensures Funded(st, key, cents, Fund(st, key, cents).value)
  {
    assert key in st.wallets ==> WalletInv(st, key);
  }

  /** The state after a run. */
  ghost function Run(st: State, ops: seq<Op>): (r: State)
    requires Inv(st)
    ensures Inv(r)
    decreases |ops|
  {
    if ops == [] then st
    else
      NextInv(st, ops[0]);
      Run(Next(st, ops[0]), ops[1..])
  }

  /** Paying out fails only at a locked-balance guard. */
  lemma {:induction false} ApplyAllFailure(st: State, ids: seq<OrderId>, winner: string)
    requires Payable(st, ids)
    ensures ApplyAll(st, ids, winner).Success? || ApplyAll(st, ids, winner) == Failure(InsufficientLocked)
    decreases |ids|
  {
    if ids != [] {
      var first := ApplyCloseout(st, ids[0], CloseoutOf(st.orders[ids[0]], st.trades, winner));
      if first.Success? {
        assert forall i | 0 <= i < |ids[1..]| :: ids[1..][i] == ids[i + 1];
        ApplyAllFailure(first.value, ids[1..], winner);
      }
    }
  }

  /** Over every run orders are never lost, only fill further while they are open, and never
      change again once filled or cancelled. */
  lemma {:induction false} RunAdvances(st: State, ops: seq<Op>)
    requires Inv(st)
    ensures BookAdvances(st.orders, Run(st, ops).orders)
    decreases |ops|
  {
    if ops != [] {
      var next := Next(st, ops[0]);
      NextInv(st, ops[0]);
      RunAdvances(next, ops[1..]);
      forall id | id in st.orders ensures id in Run(st, ops).orders && Advances(st.orders[id], Run(st, ops).orders[id]) {
        assert Advances(st.orders[id], next.orders[id]) && Advances(next.orders[id], Run(next, ops[1..]).orders[id]);
      }
    }
  }

  lemma EmptyInv()
    ensures Inv(EMPTY)
  {
  }

  /** Whole-run account: whatever is opened, funded, placed, cancelled and settled, in any order
      and at any granularity, each wallet has locked exactly what its orders hold less what
      settlement took for them, and owns exactly its funding and what settlement won it. */
  lemma EveryRunKeepsTheLedger(ops: seq<Op>, key: WalletKey)
    requires key in Run(EMPTY, ops).wallets
    ensures var st := Run(EMPTY, ops);
            var w := st.wallets[key];
            && Inv(st) && key in st.funded && w.balance >= 0 && w.locked >= 0
            && w.locked == Sum(st.orders.Keys, NetFor(st, key))
            && w.balance + w.locked == st.funded[key] + Sum(st.orders.Keys, GainFor(st, key))
  {
    var st := Run(EMPTY, ops);
    assert WalletInv(st, key);
  }
}
