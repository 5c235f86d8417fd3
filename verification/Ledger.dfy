/** The exchange's tables and the database transactions over them: placing, cancelling and
    settling. A transaction either commits its whole new state or fails and changes nothing. */
module Ledger {
  import opened Fixed
  import opened Sorting
  import opened Orders
  import opened BookInvariants
  import opened Collateral

  type EventId = nat

  datatype WalletKey = WalletKey(merchant: string, user: string, currency: string)

  datatype Wallet = Wallet(balance: int, locked: int)

  type Wallets = map<WalletKey, Wallet>

  datatype MarketStatus = Active | Suspended | Closed | Settled

  datatype Market = Market(merchant: string, event: EventId, options: seq<string>, status: MarketStatus, volume: int)

  /** A row of market_settlements. */
  datatype Settlement = Settlement(event: EventId, winner: string)

  /** What settlement computes for one order: its row as read, and the cents it moves.
      Rows of filled orders are the rows of settlement_payouts. */
  datatype Closeout = Closeout(before: Order, stake: int, refund: int, payout: int) {
    function LockedUse(): int { stake + refund }
  }

  /** `funded` is a history variable: credits minus debits of each wallet. */
  datatype State = State(
    orders: Book, trades: seq<Trade>, wallets: Wallets, markets: map<MarketId, Market>,
    settlements: map<MarketId, Settlement>, closeouts: map<OrderId, Closeout>, funded: map<WalletKey, int>)

  datatype Error =
    | InvalidMarket | InvalidAmount | NotFound | AlreadyExists | NotCancellable
    | WalletNotFound | InsufficientBalance | InsufficientLocked
    | OutcomeNotOption | OrderWalletNotFound | AuditFailed | NotConserved

  datatype Result<+T> = Success(value: T) | Failure(error: Error) {
    predicate IsFailure() { Failure? }

    function PropagateFailure<U>(): Result<U>
      requires Failure?
    {
      Failure(error)
    }

    function Extract(): T
      requires Success?
    {
      value
    }
  }

  function KeyOf(t: Terms): WalletKey {
    WalletKey(t.merchant, t.user, t.currency)
  }

  // ----- wallet updates -----

  function LockFunds(wallets: Wallets, key: WalletKey, cents: int): Result<Wallets> {
    if key !in wallets then Failure(WalletNotFound)
    else if wallets[key].balance < cents then Failure(InsufficientBalance)
    else Success(wallets[key := Wallet(wallets[key].balance - cents, wallets[key].locked + cents)])
  }

  function UnlockFunds(wallets: Wallets, key: WalletKey, cents: int): Result<Wallets> {
    if key !in wallets then Failure(WalletNotFound)
    else if wallets[key].locked < cents then Failure(InsufficientLocked)
    else Success(wallets[key := Wallet(wallets[key].balance + cents, wallets[key].locked - cents)])
  }

  /** A release of nothing is skipped. */
  function Release(wallets: Wallets, key: WalletKey, cents: int): Result<Wallets> {
    if cents > 0 then UnlockFunds(wallets, key, cents) else Success(wallets)
  }

  // ----- placing and cancelling -----

  /** The unique constraints of the orders table. */
  predicate Taken(orders: Book, terms: Terms) {
    || terms.id in orders
    || (terms.key != "" && exists id | id in orders :: orders[id].terms.merchant == terms.merchant && orders[id].terms.key == terms.key)
  }

  function MarketOpenFor(markets: map<MarketId, Market>, terms: Terms): bool {
    terms.market in markets && markets[terms.market].status == Active && markets[terms.market].merchant == terms.merchant
  }

  function AddVolume(markets: map<MarketId, Market>, m: MarketId, shares: int): map<MarketId, Market>
    requires m in markets
  {
    markets[m := markets[m].(volume := markets[m].volume + shares)]
  }

  /** What the incoming order gets back at once: its price improvement, and its whole
      remainder when it was immediate-or-cancel. */
  ghost function PlacementRefund(o: Order, trades: seq<Trade>): int {
    Refunds(o.terms, trades) + (if o.status.Cancelled? then OrderCollateral(o.terms, o.Remaining()) else 0)
  }

  /** The incoming order matched against everything that crosses it, in priority order. */
  ghost function MatchIncoming(orders: Book, trades: seq<Trade>, terms: Terms): (r: Matching)
    requires Placeable(orders, terms)
    ensures r.orders.Keys == orders.Keys + {terms.id}
  {
    CandidatesQueue(orders, terms);
    Match(orders, trades, terms, Candidates(Inserted(orders, terms), terms))
  }

  /** The refund and the writes that close a placement. */
  ghost function CommitPlacement(st: State, locked: Wallets, terms: Terms, m: Matching): Result<State>
    requires terms.id in m.orders && terms.market in st.markets
  {
    var taker := m.orders[terms.id];
    var released :- Release(locked, KeyOf(terms), PlacementRefund(taker, m.trades));
    Success(st.(orders := m.orders, trades := m.trades, wallets := released,
                markets := AddVolume(st.markets, terms.market, taker.filled)))
  }

  ghost function Place(st: State, terms: Terms): Result<State>
    requires BookOk(st.orders) && ValidTerms(terms)
  {
    if !MarketOpenFor(st.markets, terms) then Failure(InvalidMarket)
    else
      var locked :- LockFunds(st.wallets, KeyOf(terms), OrderCollateral(terms, terms.amount));
      if Taken(st.orders, terms) then Failure(AlreadyExists)
      else
        CommitPlacement(st, locked, terms, MatchIncoming(st.orders, st.trades, terms))
  }

  function CancelOrder(st: State, id: OrderId): Result<State> {
    if id !in st.orders then Failure(NotFound)
    else
      var o := st.orders[id];
      if !o.Open() then Failure(NotCancellable)
      else
        var released :- Release(st.wallets, KeyOf(o.terms), OrderCollateral(o.terms, o.Remaining()));
        Success(st.(orders := st.orders[id := Cancel(o)], wallets := released))
  }

  // ----- settling one market -----

  function OrdersOf(orders: Book, m: MarketId): set<OrderId> {
    set id | id in orders && orders[id].terms.market == m
  }

  function ById(): (nat, nat) -> bool {
    (a: nat, b: nat) => a < b
  }

  ghost function SettlementQueue(orders: Book, m: MarketId): (ids: seq<OrderId>)
    ensures IsSortOf(ids, OrdersOf(orders, m), ById())
  {
    Sort(OrdersOf(orders, m), ById())
  }

  predicate Wins(t: Terms, winner: string) {
    (t.side.Buy? && t.option == winner) || (t.side.Sell? && t.option != winner)
  }

  function PayoutOf(o: Order, winner: string): int {
    if Wins(o.terms, winner) then PayoutCents(o.filled) else 0
  }

  /** `calculatePayouts` for one order; the unfilled part is refunded whatever the status. */
  ghost function CloseoutOf(o: Order, trades: seq<Trade>, winner: string): Closeout {
    Closeout(o, Stake(o.terms, trades), UnfilledCents(o), PayoutOf(o, winner))
  }

  /** A trade of market `m` that settlement accepts. */
  predicate TradeAccepted(orders: Book, m: MarketId, x: Trade) {
    && x.maker in OrdersOf(orders, m) && x.taker in OrdersOf(orders, m)
    && orders[x.maker].terms.side != orders[x.taker].terms.side
  }

  /** Settlement's audit of the trade log of market `m`. */
  ghost predicate AuditPasses(orders: Book, trades: seq<Trade>, m: MarketId) {
    && (forall i | 0 <= i < |trades| && trades[i].market == m :: TradeAccepted(orders, m, trades[i]))
    && (forall id | id in OrdersOf(orders, m) :: orders[id].filled == Matched(orders[id].terms, trades))
  }

  ghost function TotalStake(orders: Book, trades: seq<Trade>, ids: seq<OrderId>, currency: string): int
    requires forall i | 0 <= i < |ids| :: ids[i] in orders
  {
    if ids == [] then 0
    else
      var last := orders[ids[|ids| - 1]];
      TotalStake(orders, trades, ids[..|ids| - 1], currency)
      + (if last.terms.currency == currency then Stake(last.terms, trades) else 0)
  }

  ghost function TotalPayout(orders: Book, winner: string, ids: seq<OrderId>, currency: string): int
    requires forall i | 0 <= i < |ids| :: ids[i] in orders
  {
    if ids == [] then 0
    else
      var last := orders[ids[|ids| - 1]];
      TotalPayout(orders, winner, ids[..|ids| - 1], currency)
      + (if last.terms.currency == currency then PayoutOf(last, winner) else 0)
  }

  /** Every currency pays out exactly what was staked in it. */
  ghost predicate Conserved(orders: Book, trades: seq<Trade>, winner: string, ids: seq<OrderId>)
    requires forall i | 0 <= i < |ids| :: ids[i] in orders
  {
    forall i | 0 <= i < |ids| ::
      var c := orders[ids[i]].terms.currency;
      TotalStake(orders, trades, ids, c) == TotalPayout(orders, winner, ids, c)
  }

  /** Paying out one order: the wallet is drained of the locked use and credited with the
      refund and the payout, and an open remainder is cancelled. */
  function ApplyCloseout(st: State, id: OrderId, c: Closeout): Result<State>
    requires id in st.orders && KeyOf(st.orders[id].terms) in st.wallets
  {
    var o, key := st.orders[id], KeyOf(st.orders[id].terms);
    var w := st.wallets[key];
    var moves := c.LockedUse() > 0 || c.refund > 0 || c.payout > 0;
    if moves && w.locked < c.LockedUse() then Failure(InsufficientLocked)
    else
      Success(st.(
        wallets := if moves then st.wallets[key := Wallet(w.balance + c.refund + c.payout, w.locked - c.LockedUse())] else st.wallets,
        orders := if o.Open() then st.orders[id := Cancel(o)] else st.orders,
        closeouts := st.closeouts[id := c]))
  }

  ghost predicate Payable(st: State, ids: seq<OrderId>) {
    forall i | 0 <= i < |ids| :: ids[i] in st.orders && KeyOf(st.orders[ids[i]].terms) in st.wallets
  }

  ghost function ApplyAll(st: State, ids: seq<OrderId>, winner: string): (r: Result<State>)
    requires Payable(st, ids)
    ensures r.Success? ==> r.value == st.(orders := r.value.orders, wallets := r.value.wallets, closeouts := r.value.closeouts)
    decreases |ids|
  {
    if ids == [] then Success(st)
    else
      var next :- ApplyCloseout(st, ids[0], CloseoutOf(st.orders[ids[0]], st.trades, winner));
      assert forall i | 0 <= i < |ids[1..]| :: ids[1..][i] == ids[i + 1];
      ApplyAll(next, ids[1..], winner)
  }

  function CloseMarket(st: State, m: MarketId, e: EventId, winner: string): State
    requires m in st.markets
  {
    st.(settlements := st.settlements[m := Settlement(e, winner)],
        markets := st.markets[m := st.markets[m].(status := Settled)])
  }

  ghost function Settle(st: State, m: MarketId, e: EventId, winner: string): Result<State> {
    if m !in st.markets || st.markets[m].event != e then Success(st)
    else if winner !in st.markets[m].options then Failure(OutcomeNotOption)
    else if m in st.settlements then Success(st)
    else
      var ids := SettlementQueue(st.orders, m);
      assert forall i | 0 <= i < |ids| :: ids[i] in OrdersOf(st.orders, m);
      if !Payable(st, ids) then Failure(OrderWalletNotFound)
      else if !AuditPasses(st.orders, st.trades, m) then Failure(AuditFailed)
      else if !Conserved(st.orders, st.trades, winner, ids) then Failure(NotConserved)
      else
        var paid :- ApplyAll(st, ids, winner);
        Success(CloseMarket(paid, m, e, winner))
  }

  // ----- the other writers of these tables -----

  function Fund(st: State, key: WalletKey, cents: int): Result<State> {
    var w := if key in st.wallets then st.wallets[key] else Wallet(0, 0);
    var f := if key in st.funded then st.funded[key] else 0;
    Success(st.(wallets := st.wallets[key := w.(balance := w.balance + cents)], funded := st.funded[key := f + cents]))
  }

  function Withdraw(st: State, key: WalletKey, cents: int): Result<State> {
    if key !in st.wallets then Failure(WalletNotFound)
    else
      var w := st.wallets[key];
      var f := if key in st.funded then st.funded[key] else 0;
      if w.balance < cents then Failure(InsufficientBalance)
      else Success(st.(wallets := st.wallets[key := w.(balance := w.balance - cents)], funded := st.funded[key := f - cents]))
  }

  function OpenMarket(st: State, m: MarketId, merchant: string, e: EventId, options: seq<string>): Result<State> {
    if m in st.markets then Failure(AlreadyExists)
    else Success(st.(markets := st.markets[m := Market(merchant, e, options, Active, 0)]))
  }

  predicate MarketMayMove(from: MarketStatus, to: MarketStatus) {
    (from.Active? && (to.Suspended? || to.Closed?)) || (from.Suspended? && (to.Active? || to.Closed?))
  }

  function MoveMarket(st: State, m: MarketId, to: MarketStatus): Result<State> {
    if m !in st.markets then Failure(NotFound)
    else if !MarketMayMove(st.markets[m].status, to) then Failure(InvalidMarket)
    else Success(st.(markets := st.markets[m := st.markets[m].(status := to)]))
  }

  // ----- runs -----

  datatype Op =
    | OpOpen(m: MarketId, merchant: string, e: EventId, options: seq<string>)
    | OpMove(m: MarketId, to: MarketStatus)
    | OpFund(key: WalletKey, cents: int)
    | OpWithdraw(key: WalletKey, cents: int)
    | OpPlace(terms: Terms)
    | OpCancel(id: OrderId)
    | OpSettle(m: MarketId, e: EventId, winner: string)

  /** What a validated request attempts. */
  ghost predicate Accepted(op: Op) {
    match op
    case OpFund(_, cents) => cents > 0
    case OpWithdraw(_, cents) => cents > 0
    case OpPlace(terms) => ValidTerms(terms)
    case _ => true
  }

  ghost function Attempt(st: State, op: Op): Result<State>
    requires BookOk(st.orders) && Accepted(op)
  {
    match op
    case OpOpen(m, merchant, e, options) => OpenMarket(st, m, merchant, e, options)
    case OpMove(m, to) => MoveMarket(st, m, to)
    case OpFund(key, cents) => Fund(st, key, cents)
    case OpWithdraw(key, cents) => Withdraw(st, key, cents)
    case OpPlace(terms) => Place(st, terms)
    case OpCancel(id) => CancelOrder(st, id)
    case OpSettle(m, e, winner) => Settle(st, m, e, winner)
  }

  /** One transaction: a failure leaves every table as it was. */
  ghost function Next(st: State, op: Op): State
    requires BookOk(st.orders)
  {
    if !Accepted(op) then st
    else
      match Attempt(st, op)
      case Success(next) => next
      case Failure(_) => st
  }

  const EMPTY := State(map[], [], map[], map[], map[], map[], map[])
}
