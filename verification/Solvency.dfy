/** Solvency on the grid of whole shares at whole-cent prices: exactly when no cancelled order
    is ever settled, the locked balances are the open obligations, and no wallet update fails. */
module Solvency {
  import opened Fixed
  import opened Sorting
  import opened Sums
  import opened Orders
  import opened BookInvariants
  import opened Collateral
  import opened Ledger
  import opened LedgerInvariants
  import opened LedgerRuns
  import opened SettlementRuns
  import opened Conservation

  // ----- the grid is kept -----

  ghost predicate GridOrder(o: Order) {
    WholeTerms(o.terms) && WholeShares(o.filled)
  }

  ghost predicate GridBook(orders: Book, trades: seq<Trade>) {
    (forall id | id in orders :: GridOrder(orders[id])) && WholeTrades(trades)
  }

  ghost predicate GridInv(st: State) {
    GridBook(st.orders, st.trades)
  }

  ghost predicate GridOp(op: Op) {
    op.OpPlace? ==> WholeTerms(op.terms)
  }

  lemma WholeIsMultiple(x: int)
    requires WholeShares(x)
    ensures Multiple(x, SHARE_SCALE) && Multiple(x, GRID)
  {
  }

  lemma GridIsGranular(orders: Book, trades: seq<Trade>)
    requires GridBook(orders, trades)
    ensures Granular(orders, trades, SHARE_SCALE) && Granular(orders, trades, GRID)
  {
    hide WholeShares, WholeCents, Multiple;
    forall id | id in orders
      ensures Multiple(orders[id].terms.amount, SHARE_SCALE) && Multiple(orders[id].filled, SHARE_SCALE)
      ensures Multiple(orders[id].terms.amount, GRID) && Multiple(orders[id].filled, GRID)
    {
      assert GridOrder(orders[id]);
      WholeIsMultiple(orders[id].terms.amount);
      WholeIsMultiple(orders[id].filled);
    }
    forall i | 0 <= i < |trades| ensures Multiple(trades[i].shares, SHARE_SCALE) && Multiple(trades[i].shares, GRID) {
      WholeIsMultiple(trades[i].shares);
    }
  }

  lemma GranularIsGrid(orders: Book, trades: seq<Trade>)
    requires Granular(orders, trades, SHARE_SCALE) && TradesOk(orders, trades)
    requires forall id | id in orders :: WholeCents(orders[id].terms.price)
    ensures GridBook(orders, trades)
  {
    forall i | 0 <= i < |trades| ensures WholeShares(trades[i].shares) && WholeCents(trades[i].price) {
      assert TradeOk(orders, trades[i]);
    }
  }

  lemma PlaceGrid(st: State, terms: Terms)
    requires BookInv(st) && GridInv(st) && ValidTerms(terms) && WholeTerms(terms) && Place(st, terms).Success?
    ensures GridInv(Place(st, terms).value)
  {
    MatchGrid(st.orders, st.trades, terms);
  }

  lemma MatchGrid(orders: Book, trades: seq<Trade>, terms: Terms)
    requires Placeable(orders, terms) && Audited(orders, trades) && Uncrossed(orders)
    requires GridBook(orders, trades) && WholeTerms(terms)
    ensures var m := MatchIncoming(orders, trades, terms); GridBook(m.orders, m.trades)
  {
    var m := MatchIncoming(orders, trades, terms);
    IncomingFacts(orders, trades, terms);
    IncomingGranular(orders, trades, terms, SHARE_SCALE) by {
      GridIsGranular(orders, trades);
    }
    forall id | id in m.orders ensures WholeCents(m.orders[id].terms.price) {
      assert id in orders ==> Advances(orders[id], m.orders[id]);
    }
    GranularIsGrid(m.orders, m.trades);
  }

  lemma IncomingGranular(orders: Book, trades: seq<Trade>, terms: Terms, g: int)
    requires g > 0 && Placeable(orders, terms) && Granular(orders, trades, g) && Multiple(terms.amount, g)
    ensures var m := MatchIncoming(orders, trades, terms); Granular(m.orders, m.trades, g)
  {
    CandidatesQueue(orders, terms);
    PlacementGranular(orders, trades, terms, Candidates(Inserted(orders, terms), terms), g);
  }

  lemma CancelsGrid(st: State, r: State)
    requires GridInv(st) && OnlyCancels(st.orders, r.orders) && r.trades == st.trades
    ensures GridInv(r)
  {
  }

  lemma SettleGrid(st: State, m: MarketId, e: EventId, winner: string)
    requires Inv(st) && GridInv(st) && Settle(st, m, e, winner).Success?
    ensures GridInv(Settle(st, m, e, winner).value)
  {
    if Settles(st, m, e, winner) {
      var ids, paid := SettleEffect(st, m, e, winner);
      RowsOnlyCancel(st, ids, winner, paid);
      CancelsGrid(st, paid);
    }
  }

  lemma NextGrid(st: State, op: Op)
    requires Inv(st) && GridInv(st) && GridOp(op)
    ensures GridInv(Next(st, op))
  {
    if Accepted(op) && Attempt(st, op).Success? {
      match op {
        case OpPlace(terms) => PlaceGrid(st, terms);
        case OpSettle(m, e, winner) => SettleGrid(st, m, e, winner);
        case _ =>
      }
    }
  }

  // ----- obligations -----

  /** What an order of an unsettled market has at stake: its fills, and its open remainder. */
  ghost function OwedAt(st: State, key: WalletKey, id: OrderId): int {
    if id in st.orders && KeyOf(st.orders[id].terms) == key && st.orders[id].terms.market !in st.settlements
    then Stake(st.orders[id].terms, st.trades) + (if st.orders[id].Open() then UnfilledCents(st.orders[id]) else 0)
    else 0
  }

  ghost function Owed(st: State, key: WalletKey): OrderId -> int {
    (id: OrderId) => OwedAt(st, key, id)
  }

  /** What settlement took for the already released remainder of a cancelled order. */
  ghost function TakenTwiceAt(st: State, key: WalletKey, id: OrderId): int {
    if id in st.orders && id in st.closeouts && KeyOf(st.orders[id].terms) == key && st.closeouts[id].before.status.Cancelled?
    then UnfilledCents(st.closeouts[id].before) else 0
  }

  ghost function TakenTwice(st: State, key: WalletKey): OrderId -> int {
    (id: OrderId) => TakenTwiceAt(st, key, id)
  }

  /** The locked balance is exactly the open obligations. */
  ghost predicate Solvent(st: State) {
    forall key {:trigger Owed(st, key)} | key in st.wallets :: st.wallets[key].locked == Sum(st.orders.Keys, Owed(st, key))
  }

  /** No order was already cancelled when its market was settled. */
  ghost predicate Clean(st: State) {
    forall id | id in st.closeouts :: !st.closeouts[id].before.status.Cancelled?
  }

  ghost predicate NoneCancelled(st: State, m: MarketId) {
    forall id | id in st.orders && st.orders[id].terms.market == m :: !st.orders[id].status.Cancelled?
  }

  /** On the grid, what an order accounts for is what it owes, less what was taken twice. */
  lemma NetIsOwed(st: State, key: WalletKey, id: OrderId)
    requires BookInv(st) && ClosedInv(st) && GridInv(st) && id in st.orders
    ensures NetAt(st, key, id) == OwedAt(st, key, id) - TakenTwiceAt(st, key, id)
    ensures TakenTwiceAt(st, key, id) >= 0
    ensures id in st.closeouts && st.closeouts[id].before.status.Cancelled? && KeyOf(st.orders[id].terms) == key
            ==> TakenTwiceAt(st, key, id) > 0
  {
    if id in st.closeouts {
      assert ClosedWell(st, id);
      CloseoutNetOnGrid(st, id);
    } else {
      OpenNetOnGrid(st, id);
    }
  }

  lemma OpenNetOnGrid(st: State, id: OrderId)
    requires BookInv(st) && GridInv(st) && id in st.orders
    ensures Held(st.orders[id], st.trades) == Stake(st.orders[id].terms, st.trades)
              + (if st.orders[id].Open() then UnfilledCents(st.orders[id]) else 0)
  {
    assert GridOrder(st.orders[id]);
    NoDriftOnGrid(st.orders, st.trades, id);
  }

  /** The closed-out row, as settlement read it, in the book it was read from. */
  lemma CloseoutNetOnGrid(st: State, id: OrderId)
    requires BookInv(st) && GridInv(st) && id in st.closeouts && id in st.orders
    requires st.orders[id].terms.market in st.settlements && ClosedWell(st, id)
    ensures Net(st, id) == -(if st.closeouts[id].before.status.Cancelled? then UnfilledCents(st.closeouts[id].before) else 0)
    ensures st.closeouts[id].before.status.Cancelled? ==> UnfilledCents(st.closeouts[id].before) > 0
  {
    var before := st.closeouts[id].before;
    var book := st.orders[id := before];
    assert GridOrder(st.orders[id]);
    assert Audited(book, st.trades) by {
      TradesOkMonotone(st.orders, book, st.trades);
      assert FillsMatch(book, st.trades);
    }
    NoDriftOnGrid(book, st.trades, id);
    HeldOnGrid(book, st.trades, id);
  }

  lemma LockedIsOwed(st: State, key: WalletKey)
    requires Inv(st) && GridInv(st) && key in st.wallets
    ensures st.wallets[key].locked == Sum(st.orders.Keys, Owed(st, key)) - Sum(st.orders.Keys, TakenTwice(st, key))
    ensures forall id | id in st.orders :: 0 <= TakenTwice(st, key)(id) <= Sum(st.orders.Keys, TakenTwice(st, key))
  {
    assert WalletInv(st, key);
    forall id | id in st.orders
      ensures Owed(st, key)(id) == NetFor(st, key)(id) + TakenTwice(st, key)(id) && TakenTwice(st, key)(id) >= 0
    {
      NetIsOwed(st, key, id);
    }
    SumAdd<OrderId>(st.orders.Keys, NetFor(st, key), TakenTwice(st, key), Owed(st, key));
    SumNonNegative<OrderId>(st.orders.Keys, TakenTwice(st, key));
  }

  /** The exact condition: a reachable grid state is solvent if and only if no settlement
      ever met an order that had been cancelled. */
  lemma SolventExactlyWhenClean(st: State)
    requires Inv(st) && GridInv(st)
    ensures Solvent(st) <==> Clean(st)
  {
    if Clean(st) {
      forall key | key in st.wallets ensures st.wallets[key].locked == Sum(st.orders.Keys, Owed(st, key)) {
        LockedIsOwed(st, key);
        SumZero<OrderId>(st.orders.Keys, TakenTwice(st, key));
      }
    } else {
      var id :| id in st.closeouts && st.closeouts[id].before.status.Cancelled?;
      var key := KeyOf(st.orders[id].terms);
      LockedIsOwed(st, key);
      NetIsOwed(st, key, id);
      assert TakenTwice(st, key)(id) > 0;
      assert st.wallets[key].locked != Sum(st.orders.Keys, Owed(st, key));
    }
  }

  /** One settlement keeps a clean ledger clean exactly when none of the market's orders is
      cancelled, which a caller can see in the orders table. */
  lemma SettlementStaysClean(st: State, m: MarketId, e: EventId, winner: string)
    requires Inv(st) && Clean(st) && Settles(st, m, e, winner) && Settle(st, m, e, winner).Success?
    ensures Clean(Settle(st, m, e, winner).value) <==> NoneCancelled(st, m)
  {
    var r := Settle(st, m, e, winner).value;
    var ids, paid := SettleEffect(st, m, e, winner);
    if !NoneCancelled(st, m) {
      var id :| id in st.orders && st.orders[id].terms.market == m && st.orders[id].status.Cancelled?;
      assert id in ids && id in r.closeouts && r.closeouts[id] == CloseoutOf(st.orders[id], st.trades, winner);
    }
  }

  // ----- no wallet update fails -----

  /** Every order accounts for at least nothing, and an open one for its whole remainder. */
  lemma NetsOnGrid(st: State, id: OrderId)
    requires BookInv(st) && ClosedInv(st) && GridInv(st) && Clean(st) && id in st.orders
    ensures Net(st, id) >= 0
    ensures id !in st.closeouts && st.orders[id].Open() ==> Net(st, id) >= UnfilledCents(st.orders[id])
  {
    if id in st.closeouts {
      assert ClosedWell(st, id);
      CloseoutNetOnGrid(st, id);
    } else {
      assert GridOrder(st.orders[id]);
      HeldOnGrid(st.orders, st.trades, id);
    }
  }

  ghost predicate NetsNonNegative(st: State) {
    forall id {:trigger Net(st, id)} | id in st.orders :: Net(st, id) >= 0
  }

  /** The locked balance covers the account of each of its orders. */
  lemma LockedCovers(st: State, id: OrderId)
    requires MoneyInv(st) && NetsNonNegative(st) && id in st.orders
    ensures KeyOf(st.orders[id].terms) in st.wallets && st.wallets[KeyOf(st.orders[id].terms)].locked >= Net(st, id)
  {
    var key := KeyOf(st.orders[id].terms);
    assert WalletInv(st, key);
    forall x | x in st.orders ensures NetFor(st, key)(x) >= 0 {
      assert Net(st, x) >= 0;
    }
    SumNonNegative<OrderId>(st.orders.Keys, NetFor(st, key));
    assert NetFor(st, key)(id) == Net(st, id);
  }

  /** A cancellation of an open order always finds the collateral it releases. */
  lemma CancelNeverFails(st: State, id: OrderId)
    requires Inv(st) && GridInv(st) && Clean(st) && id in st.orders && st.orders[id].Open()
    ensures CancelOrder(st, id).Success?
  {
    assert id in st.closeouts ==> ClosedWell(st, id);
    forall x | x in st.orders ensures Net(st, x) >= 0 {
      NetsOnGrid(st, x);
    }
    NetsOnGrid(st, id);
    LockedCovers(st, id);
    UnfilledNonNegative(st.orders[id]);
  }

  /** A placement never fails at its refund: only its own checks can reject it. */
  lemma PlaceFailsOnlyAtItsChecks(st: State, terms: Terms)
    requires Inv(st) && GridInv(st) && ValidTerms(terms) && WholeTerms(terms)
    ensures Place(st, terms).Failure? <==>
      || !MarketOpenFor(st.markets, terms)
      || KeyOf(terms) !in st.wallets
      || st.wallets[KeyOf(terms)].balance < OrderCollateral(terms, terms.amount)
      || Taken(st.orders, terms)
  {
    if MarketOpenFor(st.markets, terms) && KeyOf(terms) in st.wallets && !Taken(st.orders, terms)
       && st.wallets[KeyOf(terms)].balance >= OrderCollateral(terms, terms.amount) {
      IncomingFacts(st.orders, st.trades, terms);
      MatchGrid(st.orders, st.trades, terms);
      var m := MatchIncoming(st.orders, st.trades, terms);
      assert WalletInv(st, KeyOf(terms));
      CommitNeverFails(st, terms, m);
    }
  }

  lemma CommitNeverFails(st: State, terms: Terms, m: Matching)
    requires BookOk(m.orders) && Audited(m.orders, m.trades) && GridBook(m.orders, m.trades)
    requires terms.id in m.orders && m.orders[terms.id].terms == terms && terms.market in st.markets
    requires KeyOf(terms) in st.wallets && st.wallets[KeyOf(terms)].locked >= 0
    requires LockFunds(st.wallets, KeyOf(terms), OrderCollateral(terms, terms.amount)).Success?
    ensures CommitPlacement(st, LockFunds(st.wallets, KeyOf(terms), OrderCollateral(terms, terms.amount)).value, terms, m).Success?
  {
    assert GridOrder(m.orders[terms.id]);
    HeldOnGrid(m.orders, m.trades, terms.id);
    HeldByTaker(m.orders[terms.id], m.trades);
  }

  // ----- settlement never fails -----

  /** Orders still to be paid hold exactly what paying them takes. */
  ghost predicate CoveredQueue(st: State, ids: seq<OrderId>, winner: string) {
    forall i {:trigger ids[i]} | 0 <= i < |ids| :: ids[i] in st.orders
      && Held(st.orders[ids[i]], st.trades) == CloseoutOf(st.orders[ids[i]], st.trades, winner).LockedUse()
  }

  lemma CoveredAfter(st: State, ids: seq<OrderId>, winner: string, r: State)
    requires Queued(st, ids) && ids != [] && CoveredQueue(st, ids, winner) && NetsNonNegative(st)
    requires ClosedOut(st, ids[0], CloseoutOf(st.orders[ids[0]], st.trades, winner), r)
    ensures CoveredQueue(r, ids[1..], winner) && NetsNonNegative(r)
  {
    QueuedAfter(st, ids, CloseoutOf(st.orders[ids[0]], st.trades, winner), r);
    var rest := ids[1..];
    forall i | 0 <= i < |rest|
      ensures rest[i] in r.orders && Held(r.orders[rest[i]], r.trades) == CloseoutOf(r.orders[rest[i]], r.trades, winner).LockedUse()
    {
      assert rest[i] == ids[i + 1];
    }
    forall id | id in r.orders ensures Net(r, id) >= 0 {
      assert Net(st, id) >= 0;
      assert id != ids[0] ==> Net(r, id) == Net(st, id);
    }
  }

  lemma {:induction false} ApplyAllNeverFails(st: State, ids: seq<OrderId>, winner: string)
    requires Queued(st, ids) && BookOk(st.orders) && TradesOk(st.orders, st.trades) && MoneyInv(st)
    requires CoveredQueue(st, ids, winner) && NetsNonNegative(st)
    ensures ApplyAll(st, ids, winner).Success?
    decreases |ids|
  {
    if ids != [] {
      var c := CloseoutOf(st.orders[ids[0]], st.trades, winner);
      assert Net(st, ids[0]) == c.LockedUse();
      LockedCovers(st, ids[0]);
      var next := PayFirst(st, ids, winner);
      CoveredAfter(st, ids, winner, next);
      CloseoutMoney(st, ids[0], c, next);
      ApplyAllNeverFails(next, ids[1..], winner);
    }
  }

  lemma QueueCovered(st: State, m: MarketId, ids: seq<OrderId>, winner: string)
    requires BookInv(st) && GridInv(st) && NoneCancelled(st, m)
    requires forall id :: id in ids <==> id in st.orders && st.orders[id].terms.market == m
    ensures CoveredQueue(st, ids, winner)
  {
    forall i | 0 <= i < |ids|
      ensures ids[i] in st.orders
           && Held(st.orders[ids[i]], st.trades) == CloseoutOf(st.orders[ids[i]], st.trades, winner).LockedUse()
    {
      assert ids[i] in ids;
      assert GridOrder(st.orders[ids[i]]);
      NoDriftOnGrid(st.orders, st.trades, ids[i]);
    }
  }

  lemma AllNets(st: State)
    requires BookInv(st) && ClosedInv(st) && GridInv(st) && Clean(st)
    ensures NetsNonNegative(st)
  {
    forall id | id in st.orders ensures Net(st, id) >= 0 {
      NetsOnGrid(st, id);
    }
  }

  /** Settling a market without cancelled orders commits: every wallet, trade, payout and
      locked-balance check passes. */
  lemma SettlementNeverFails(st: State, m: MarketId, e: EventId, winner: string)
    requires Inv(st) && GridInv(st) && Clean(st) && Settles(st, m, e, winner) && NoneCancelled(st, m)
    ensures Settle(st, m, e, winner).Success?
  {
    var ids := SettlementQueue(st.orders, m);
    QueueIsMarket(st, m);
    AuditNeverRejects(st, m);
    assert Granular(st.orders, st.trades, GRID) by { GridIsGranular(st.orders, st.trades); }
    ConservationNeverFires(st, m, winner);
    AllNets(st);
    QueueCovered(st, m, ids, winner);
    ApplyAllNeverFails(st, ids, winner);
  }

  // ----- exactly when a settlement pays out -----

  /** What settlement takes out of the wallet `key` for one order. */
  ghost function UseAt(orders: Book, trades: seq<Trade>, key: WalletKey, id: OrderId): int {
    if id in orders && KeyOf(orders[id].terms) == key then Takes(orders[id], trades) else 0
  }

  ghost function UseFor(orders: Book, trades: seq<Trade>, key: WalletKey): OrderId -> int {
    (id: OrderId) => UseAt(orders, trades, key, id)
  }

  /** Every wallet's locked balance covers all that is taken from it for these orders. */
  ghost predicate LockedCoversUse(st: State, s: set<OrderId>) {
    forall key {:trigger UseFor(st.orders, st.trades, key)} | key in st.wallets ::
      Sum(s, UseFor(st.orders, st.trades, key)) <= st.wallets[key].locked
  }

  ghost predicate LockedNonNegative(st: State) {
    forall key | key in st.wallets :: st.wallets[key].locked >= 0
  }

  lemma AsSetFirst(ids: seq<OrderId>)
    requires ids != [] && Distinct(ids)
    ensures ids[0] in AsSet(ids) && AsSet(ids) - {ids[0]} == AsSet(ids[1..])
  {
    var rest := ids[1..];
    assert forall i | 0 <= i < |rest| :: rest[i] == ids[i + 1];
    forall id | id in AsSet(ids) && id != ids[0] ensures id in AsSet(rest) {
      var i :| 0 <= i < |ids| && ids[i] == id;
      assert rest[i - 1] == id;
    }
  }

  lemma UsesNonNegative(orders: Book, trades: seq<Trade>, key: WalletKey, s: set<OrderId>)
    requires BookOk(orders) && TradesOk(orders, trades)
    ensures Sum(s, UseFor(orders, trades, key)) >= 0
    ensures forall id | id in s && id in orders && KeyOf(orders[id].terms) == key :: Takes(orders[id], trades) <= Sum(s, UseFor(orders, trades, key))
  {
    forall id | id in s ensures UseFor(orders, trades, key)(id) >= 0 {
      if id in orders { CloseoutIsNonNegative(orders, trades, id, ""); }
    }
    SumNonNegative<OrderId>(s, UseFor(orders, trades, key));
    forall id | id in s && id in orders && KeyOf(orders[id].terms) == key
      ensures Takes(orders[id], trades) <= Sum(s, UseFor(orders, trades, key))
    {
      assert UseFor(orders, trades, key)(id) == Takes(orders[id], trades);
    }
  }

  /** Paying the first order takes as much from its wallet as it leaves less to take. */
  lemma UseMoves(st: State, ids: seq<OrderId>, winner: string, next: State, key: WalletKey)
    requires Queued(st, ids) && ids != [] && ClosedOut(st, ids[0], CloseoutOf(st.orders[ids[0]], st.trades, winner), next)
    requires key in st.wallets
    ensures key in next.wallets
    ensures Sum(AsSet(ids), UseFor(st.orders, st.trades, key)) - st.wallets[key].locked
         == Sum(AsSet(ids[1..]), UseFor(next.orders, next.trades, key)) - next.wallets[key].locked
  {
    hide Takes;
    AsSetFirst(ids);
    QueuedAfter(st, ids, CloseoutOf(st.orders[ids[0]], st.trades, winner), next);
    var f, g := UseFor(st.orders, st.trades, key), UseFor(next.orders, next.trades, key);
    SumRemove<OrderId>(AsSet(ids), f, ids[0]);
    forall id | id in AsSet(ids[1..]) ensures f(id) == g(id) {
      var i :| 0 <= i < |ids[1..]| && ids[1..][i] == id;
      assert id == ids[i + 1];
    }
    SumCong<OrderId>(AsSet(ids[1..]), f, g);
    assert f(ids[0]) == if KeyOf(st.orders[ids[0]].terms) == key then CloseoutOf(st.orders[ids[0]], st.trades, winner).LockedUse() else 0 by {
      TakesIsUse(st.orders[ids[0]], st.trades, winner);
    }
  }

  lemma TakesIsUse(o: Order, trades: seq<Trade>, winner: string)
    ensures Takes(o, trades) == CloseoutOf(o, trades, winner).LockedUse()
  {
  }

  /** So each wallet covers the rest exactly if it covered all. */
  lemma CoverAfterFirst(st: State, ids: seq<OrderId>, winner: string, next: State)
    requires Queued(st, ids) && ids != [] && ClosedOut(st, ids[0], CloseoutOf(st.orders[ids[0]], st.trades, winner), next)
    ensures LockedCoversUse(st, AsSet(ids)) <==> LockedCoversUse(next, AsSet(ids[1..]))
  {
    forall key | key in st.wallets
      ensures key in next.wallets
      ensures Sum(AsSet(ids), UseFor(st.orders, st.trades, key)) - st.wallets[key].locked
           == Sum(AsSet(ids[1..]), UseFor(next.orders, next.trades, key)) - next.wallets[key].locked
    {
      UseMoves(st, ids, winner, next, key);
    }
    hide Queued, AsSet, Takes, LockedCoversUse, CloseoutOf;
    assert next.wallets.Keys == st.wallets.Keys;
    CoverTransfers(st, AsSet(ids), next, AsSet(ids[1..]));
  }

  lemma CoverTransfers(a: State, s: set<OrderId>, b: State, t: set<OrderId>)
    requires b.wallets.Keys == a.wallets.Keys
    requires forall key | key in a.wallets ::
               Sum(s, UseFor(a.orders, a.trades, key)) - a.wallets[key].locked == Sum(t, UseFor(b.orders, b.trades, key)) - b.wallets[key].locked
    ensures LockedCoversUse(a, s) <==> LockedCoversUse(b, t)
  {
    if LockedCoversUse(a, s) {
      forall key | key in b.wallets ensures Sum(t, UseFor(b.orders, b.trades, key)) <= b.wallets[key].locked {
        assert Sum(s, UseFor(a.orders, a.trades, key)) <= a.wallets[key].locked;
      }
    }
    if LockedCoversUse(b, t) {
      forall key | key in a.wallets ensures Sum(s, UseFor(a.orders, a.trades, key)) <= a.wallets[key].locked {
        assert Sum(t, UseFor(b.orders, b.trades, key)) <= b.wallets[key].locked;
      }
    }
  }

  /** At any granularity a queue is paid out if and only if every wallet's locked balance covers
      the sum of what is taken from it. */
  lemma {:induction false} PaysExactlyWhen(st: State, ids: seq<OrderId>, winner: string)
    requires Queued(st, ids) && BookOk(st.orders) && TradesOk(st.orders, st.trades) && LockedNonNegative(st)
    ensures ApplyAll(st, ids, winner).Success? <==> LockedCoversUse(st, AsSet(ids))
    decreases |ids|
  {
    if ids == [] {
      assert AsSet(ids) == {};
    } else {
      var c, key := CloseoutOf(st.orders[ids[0]], st.trades, winner), KeyOf(st.orders[ids[0]].terms);
      CloseoutIsNonNegative(st.orders, st.trades, ids[0], winner);
      if ApplyCloseout(st, ids[0], c).Success? {
        var next := PayFirst(st, ids, winner);
        PaysExactlyWhen(next, ids[1..], winner);
        CoverAfterFirst(st, ids, winner, next);
      } else {
        AsSetFirst(ids);
        UsesNonNegative(st.orders, st.trades, key, AsSet(ids));
        assert c.LockedUse() == Takes(st.orders[ids[0]], st.trades) > st.wallets[key].locked;
        assert Sum(AsSet(ids), UseFor(st.orders, st.trades, key)) > st.wallets[key].locked;
      }
    }
  }

  /** The exact condition, in any reachable state and at any granularity: a market is settled if
      and only if its stakes equal its payouts and every locked balance covers what is taken from
      it; the first failing is reported as such, the second as a locked balance too small. */
  lemma SettlesExactlyWhen(st: State, m: MarketId, e: EventId, winner: string)
    requires Inv(st) && Settles(st, m, e, winner)
    ensures var ids := SettlementQueue(st.orders, m);
            && (forall i | 0 <= i < |ids| :: ids[i] in st.orders)
            && (Settle(st, m, e, winner).Success? <==>
                Conserved(st.orders, st.trades, winner, ids) && LockedCoversUse(st, OrdersOf(st.orders, m)))
            && (Settle(st, m, e, winner) == Failure(NotConserved) <==> !Conserved(st.orders, st.trades, winner, ids))
            && (Settle(st, m, e, winner) == Failure(InsufficientLocked) <==>
                Conserved(st.orders, st.trades, winner, ids) && !LockedCoversUse(st, OrdersOf(st.orders, m)))
  {
    var ids := SettlementQueue(st.orders, m);
    QueueIsMarket(st, m);
    AuditNeverRejects(st, m);
    assert Queued(st, ids) by { assert ClosedInv(st); }
    forall key | key in st.wallets ensures st.wallets[key].locked >= 0 { assert WalletInv(st, key); }
    assert AsSet(ids) == OrdersOf(st.orders, m);
    hide Inv, Conserved, LockedCoversUse, AuditPasses, BookOk, TradesOk, Queued;
    assert forall i | 0 <= i < |ids| :: ids[i] in ids;
    PaysExactlyWhen(st, ids, winner);
    ApplyAllFailure(st, ids, winner);
  }

  // ----- whole runs -----

  /** Whole shares at whole-cent prices, and no settlement of a market with a cancelled order. */
  ghost predicate CarefulOp(st: State, op: Op) {
    && GridOp(op)
    && (op.OpSettle? && Settles(st, op.m, op.e, op.winner) ==> NoneCancelled(st, op.m))
  }

  lemma NextClean(st: State, op: Op)
    requires Inv(st) && Clean(st) && CarefulOp(st, op)
    ensures Clean(Next(st, op))
  {
    if Accepted(op) && op.OpSettle? && Settles(st, op.m, op.e, op.winner) && Attempt(st, op).Success? {
      SettlementStaysClean(st, op.m, op.e, op.winner);
    }
  }

  ghost predicate CarefulRun(st: State, ops: seq<Op>)
    requires Inv(st)
    decreases |ops|
  {
    ops == [] || (CarefulOp(st, ops[0]) && (NextInv(st, ops[0]); CarefulRun(Next(st, ops[0]), ops[1..])))
  }

  /** Whole-run solvency: after every careful run each wallet's locked balance is the sum
      of the stakes and open remainders of its orders in unsettled markets. */
  lemma {:induction false} CarefulRunsAreSolvent(st: State, ops: seq<Op>)
    requires Inv(st) && GridInv(st) && Clean(st) && CarefulRun(st, ops)
    ensures var r := Run(st, ops); GridInv(r) && Clean(r) && Solvent(r)
    decreases |ops|
  {
    if ops == [] {
      SolventExactlyWhenClean(st);
    } else {
      NextInv(st, ops[0]);
      NextGrid(st, ops[0]);
      NextClean(st, ops[0]);
      CarefulRunsAreSolvent(Next(st, ops[0]), ops[1..]);
    }
  }
}
