/** Creating an order outside a transaction when nothing interrupts it, against the transaction:
    on the grid they are the same, and off it exactly where they differ. */
module CreationAlone {
  import opened Fixed
  import opened Sums
  import opened Orders
  import opened BookInvariants
  import opened Collateral
  import opened Ledger
  import opened LedgerInvariants
  import opened Solvency
  import opened Creation
  import opened CreationRuns

  // ----- runs of one client -----

  function Calls(c: ClientId, marketOpen: bool, n: nat): seq<Move> {
    seq(n, _ => Run(c, marketOpen))
  }

  /** A whole `Create`: the request and as many calls as any of its ways takes. */
  function CreateMoves(c: ClientId, t: Terms, marketOpen: bool): seq<Move> {
    [Submit(c, t)] + Calls(c, marketOpen, 5)
  }

  ghost function Alone(w: World, c: ClientId, t: Terms, marketOpen: bool): World
    requires WorldInv(w)
  {
    Interleaved(w, CreateMoves(c, t, marketOpen))
  }

  /** The next `n` calls of one client. */
  ghost function Went(w: World, c: ClientId, marketOpen: bool, n: nat): World
    requires WorldInv(w)
  {
    Interleaved(w, Calls(c, marketOpen, n))
  }

  lemma WentStep(w: World, c: ClientId, marketOpen: bool, n: nat)
    requires WorldInv(w) && c in w.clients
    ensures WorldInv(Advance(w, c, marketOpen))
    ensures Went(w, c, marketOpen, n + 1) == Went(Advance(w, c, marketOpen), c, marketOpen, n)
  {
    MovedInv(w, Run(c, marketOpen));
    assert Calls(c, marketOpen, n + 1)[1..] == Calls(c, marketOpen, n);
    hide WorldInv, Advance;
  }

  lemma {:induction false} WentNowhere(w: World, c: ClientId, marketOpen: bool, n: nat)
    requires WorldInv(w) && c in w.clients && Finished(w.clients[c])
    ensures Went(w, c, marketOpen, n) == w
  {
    if n > 0 {
      WentStep(w, c, marketOpen, n - 1);
      WentNowhere(w, c, marketOpen, n - 1);
    }
  }

  lemma AtTwice(w: World, c: ClientId, p: Phase, q: Phase)
    ensures At(At(w, c, p), c, q) == At(w, c, q)
  {
    assert w.clients[c := p][c := q] == w.clients[c := q];
  }

  lemma AloneStarts(w: World, c: ClientId, t: Terms, marketOpen: bool)
    requires WorldInv(w) && c !in w.clients && ValidTerms(t)
    ensures WorldInv(At(w, c, Checking(t))) && Alone(w, c, t, marketOpen) == Went(At(w, c, Checking(t)), c, marketOpen, 5)
  {
    MovedInv(w, Submit(c, t));
    assert CreateMoves(c, t, marketOpen)[1..] == Calls(c, marketOpen, 5);
    hide WorldInv;
  }

  /** No order is stored under the request's key. */
  ghost predicate NewKey(orders: Book, t: Terms) {
    forall id :: !Keyed(orders, t, id)
  }

  lemma KeyedAlone(w: World, c: ClientId, t: Terms, marketOpen: bool)
    requires WorldInv(w) && c !in w.clients && ValidTerms(t) && !NewKey(w.orders, t)
    ensures exists id :: Keyed(w.orders, t, id) && Alone(w, c, t, marketOpen) == At(w, c, Existing(t, id, 0))
  {
    AloneStarts(w, c, t, marketOpen);
    var s := At(w, c, Checking(t));
    WentStep(s, c, marketOpen, 4);
    var r := Advance(s, c, marketOpen);
    assert r == Check(s, c, t, marketOpen);
    hide WorldInv, Interleaved;
    var id := r.clients[c].id;
    AtTwice(w, c, Checking(t), Existing(t, id, 0));
    WentNowhere(r, c, marketOpen, 4);
  }

  lemma ClosedAlone(w: World, c: ClientId, t: Terms)
    requires WorldInv(w) && c !in w.clients && ValidTerms(t) && NewKey(w.orders, t)
    ensures Alone(w, c, t, false) == At(w, c, Rejected(t, InvalidMarket, 0))
  {
    AloneStarts(w, c, t, false);
    var s := At(w, c, Checking(t));
    WentStep(s, c, false, 4);
    AtTwice(w, c, Checking(t), Rejected(t, InvalidMarket, 0));
    assert Advance(s, c, false) == At(w, c, Rejected(t, InvalidMarket, 0));
    hide WorldInv, Interleaved;
    WentNowhere(At(w, c, Rejected(t, InvalidMarket, 0)), c, false, 4);
  }

  /** Past the checks, the client is about to lock its collateral. */
  lemma LocksNext(w: World, c: ClientId, t: Terms)
    requires WorldInv(w) && c !in w.clients && ValidTerms(t) && NewKey(w.orders, t)
    ensures WorldInv(LockCollateral(w, c, t)) && Alone(w, c, t, true) == Went(LockCollateral(w, c, t), c, true, 3)
  {
    AloneStarts(w, c, t, true);
    var s, u := At(w, c, Checking(t)), At(w, c, Locking(t));
    AtTwice(w, c, Checking(t), Locking(t));
    WentStep(s, c, true, 4);
    assert Advance(s, c, true) == u;
    WentStep(u, c, true, 3);
    assert LockCollateral(u, c, t) == LockCollateral(w, c, t) by { LockedAt(w, c, t); }
  }

  lemma LockedAt(w: World, c: ClientId, t: Terms)
    ensures LockCollateral(At(w, c, Locking(t)), c, t) == LockCollateral(w, c, t)
  {
    match Lock(w.wallets, KeyOf(t), Cents(t))
    case Failure(e) => AtTwice(w, c, Locking(t), Rejected(t, e, 0));
    case Success(wallets) => AtTwice(w.(wallets := wallets), c, Locking(t), Placing(t));
  }

  lemma RefusedAlone(w: World, c: ClientId, t: Terms)
    requires WorldInv(w) && c !in w.clients && ValidTerms(t) && NewKey(w.orders, t)
    requires Lock(w.wallets, KeyOf(t), Cents(t)).Failure?
    ensures Alone(w, c, t, true) == At(w, c, Rejected(t, Lock(w.wallets, KeyOf(t), Cents(t)).error, 0))
  {
    LocksNext(w, c, t);
    hide WorldInv, Interleaved;
    WentNowhere(LockCollateral(w, c, t), c, true, 3);
  }

  // ----- what it leaves -----

  lemma LocksAt(w: World, c: ClientId, t: Terms)
    requires Lock(w.wallets, KeyOf(t), Cents(t)).Success?
    ensures LockCollateral(w, c, t) == At(w.(wallets := Lock(w.wallets, KeyOf(t), Cents(t)).value), c, Placing(t))
  {
  }

  /** A lost race is undone: the collateral is unlocked again. */
  lemma TakenAlone(w: World, c: ClientId, t: Terms)
    requires WorldInv(w) && c !in w.clients && ValidTerms(t) && NewKey(w.orders, t) && Taken(w.orders, t)
    requires Lock(w.wallets, KeyOf(t), Cents(t)).Success?
    ensures Alone(w, c, t, true) == At(w, c, Rejected(t, AlreadyExists, 0))
  {
    var locked := w.(wallets := Lock(w.wallets, KeyOf(t), Cents(t)).value);
    LocksNext(w, c, t);
    LocksAt(w, c, t);
    assert Accounted(w, KeyOf(t));
    assert Unlock(locked.wallets, KeyOf(t), Cents(t)) == Success(w.wallets) by { LockUndone(w.wallets, KeyOf(t), Cents(t)); }
    hide WorldInv, Lock, Unlock, OrderCollateral, Taken;
    TakenUndone(w, locked.wallets, c, t);
  }

  lemma LockUndone(wallets: Wallets, key: WalletKey, cents: int)
    requires key in wallets && wallets[key].locked >= 0 && Lock(wallets, key, cents).Success?
    ensures Unlock(Lock(wallets, key, cents).value, key, cents) == Success(wallets)
  {
    var x := wallets[key];
    assert wallets[key := Wallet(x.balance - cents, x.locked + cents)][key := x] == wallets;
  }

  lemma PlacingTaken(x: World, c: ClientId, t: Terms)
    requires WorldInv(At(x, c, Placing(t))) && Taken(x.orders, t)
    ensures Advance(At(x, c, Placing(t)), c, true) == At(x, c, Undoing(t))
  {
    assert PhaseOk(At(x, c, Placing(t)), Placing(t));
    AtTwice(x, c, Placing(t), Undoing(t));
    hide WorldInv, PhaseOk, Taken;
  }

  lemma UndoingUnlocks(x: World, c: ClientId, t: Terms, wallets: Wallets)
    requires WorldInv(At(x, c, Undoing(t))) && Unlock(x.wallets, KeyOf(t), Cents(t)) == Success(wallets)
    ensures Advance(At(x, c, Undoing(t)), c, true) == At(x.(wallets := wallets), c, Rereading(t, 0))
  {
    AtTwice(x.(wallets := wallets), c, Undoing(t), Rereading(t, 0));
    hide WorldInv, Unlock, OrderCollateral;
  }

  lemma RereadingRejects(x: World, c: ClientId, t: Terms)
    requires WorldInv(At(x, c, Rereading(t, 0))) && NewKey(x.orders, t)
    ensures Advance(At(x, c, Rereading(t, 0)), c, true) == At(x, c, Rejected(t, AlreadyExists, 0))
  {
    AtTwice(x, c, Rereading(t, 0), Rejected(t, AlreadyExists, 0));
    hide WorldInv;
  }

  lemma TakenUndone(w: World, locked: Wallets, c: ClientId, t: Terms)
    requires WorldInv(At(w.(wallets := locked), c, Placing(t)))
    requires Taken(w.orders, t) && NewKey(w.orders, t) && Unlock(locked, KeyOf(t), Cents(t)) == Success(w.wallets)
    ensures Went(At(w.(wallets := locked), c, Placing(t)), c, true, 3) == At(w, c, Rejected(t, AlreadyExists, 0))
  {
    hide WorldInv, Went, Advance, Unlock, OrderCollateral, Taken, NewKey;
    var x := w.(wallets := locked);
    assert x.(wallets := w.wallets) == w;
    WentStep(At(x, c, Placing(t)), c, true, 2);
    PlacingTaken(x, c, t);
    WentStep(At(x, c, Undoing(t)), c, true, 1);
    UndoingUnlocks(x, c, t, w.wallets);
    WentStep(At(w, c, Rereading(t, 0)), c, true, 0);
    RereadingRejects(w, c, t);
    WentNowhere(At(w, c, Rejected(t, AlreadyExists, 0)), c, true, 0);
  }

  /** A duplicate that nothing interrupts leaves every table as it was, at any granularity and
      whatever the market service answers. */
  lemma DuplicateAloneIsNeutral(w: World, c: ClientId, t: Terms, marketOpen: bool)
    requires WorldInv(w) && c !in w.clients && ValidTerms(t) && Taken(w.orders, t)
    ensures var r := Alone(w, c, t, marketOpen);
            c in r.clients && Finished(r.clients[c]) && r == At(w, c, r.clients[c])
  {
    hide WorldInv, Alone, Taken, Lock;
    if !NewKey(w.orders, t) {
      KeyedAlone(w, c, t, marketOpen);
    } else if !marketOpen {
      ClosedAlone(w, c, t);
    } else if Lock(w.wallets, KeyOf(t), Cents(t)).Failure? {
      RefusedAlone(w, c, t);
    } else {
      TakenAlone(w, c, t);
    }
  }

  // ----- placing and releasing -----

  /** The tables once the order is placed, its client about to release what it need not hold. */
  ghost function PlacedWith(w: World, locked: Wallets, c: ClientId, t: Terms): World
    requires Placeable(w.orders, t)
  {
    var m := MatchIncoming(w.orders, w.trades, t);
    At(w.(orders := m.orders, trades := m.trades, wallets := locked), c, Improving(m.orders[t.id], Refunds(t, m.trades)))
  }

  lemma PlacingPlaces(w: World, locked: Wallets, c: ClientId, t: Terms)
    requires WorldInv(At(w.(wallets := locked), c, Placing(t))) && ValidTerms(t) && !Taken(w.orders, t)
    ensures Placeable(w.orders, t) && Advance(At(w.(wallets := locked), c, Placing(t)), c, true) == PlacedWith(w, locked, c, t)
  {
    var m := MatchIncoming(w.orders, w.trades, t);
    AtTwice(w.(orders := m.orders, trades := m.trades, wallets := locked), c, Placing(t), Improving(m.orders[t.id], Refunds(t, m.trades)));
    hide Audited, Uncrossed, KeysUnique, ClientsOk, Accounts, MatchIncoming, Refunds;
  }

  lemma UntakenIsNew(orders: Book, t: Terms)
    requires !Taken(orders, t)
    ensures NewKey(orders, t)
  {
  }

  lemma PlacesNext(w: World, c: ClientId, t: Terms)
    requires WorldInv(w) && c !in w.clients && ValidTerms(t) && !Taken(w.orders, t)
    requires Lock(w.wallets, KeyOf(t), Cents(t)).Success?
    ensures var locked := Lock(w.wallets, KeyOf(t), Cents(t)).value;
            && Placeable(w.orders, t) && WorldInv(PlacedWith(w, locked, c, t))
            && Alone(w, c, t, true) == Went(PlacedWith(w, locked, c, t), c, true, 2)
  {
    hide WorldInv, Taken, NewKey, Lock, OrderCollateral, Advance;
    var locked := Lock(w.wallets, KeyOf(t), Cents(t)).value;
    UntakenIsNew(w.orders, t);
    LocksNext(w, c, t);
    LocksAt(w, c, t);
    WentStep(At(w.(wallets := locked), c, Placing(t)), c, true, 2);
    PlacingPlaces(w, locked, c, t);
  }

  /** Where a `Create` ends whose unlocks find their cents: an unfilled remainder worth less
      than half a cent is refused by the wallet service, with nothing left to release. */
  function Ending(o: Order): Phase {
    if o.status.Cancelled? && o.Remaining() != 0 && Remainder(o) == 0 then Broken(o, InvalidAmount, 0) else Created(o)
  }

  lemma Improves(v: World, c: ClientId, o: Order, improvement: int)
    requires WorldInv(v) && c in v.clients && v.clients[c] == Improving(o, improvement)
    requires improvement > 0 ==> Unlock(v.wallets, KeyOf(o.terms), improvement).Success?
    ensures Release(v.wallets, KeyOf(o.terms), improvement).Success?
    ensures Advance(v, c, true) == At(v.(wallets := Release(v.wallets, KeyOf(o.terms), improvement).value), c, Releasing(o))
  {
    hide WorldInv;
  }

  lemma Releases(v: World, c: ClientId, o: Order)
    requires WorldInv(v) && c in v.clients && v.clients[c] == Releasing(o) && Remainder(o) >= 0
    requires Release(v.wallets, KeyOf(o.terms), Remainder(o)).Success?
    ensures Advance(v, c, true) == At(v.(wallets := Release(v.wallets, KeyOf(o.terms), Remainder(o)).value), c, Ending(o))
  {
    hide WorldInv, OrderCollateral;
  }

  /** Two releases in turn are one release of their sum. */
  lemma TwoReleases(locked: Wallets, key: WalletKey, first: int, second: int)
    requires first >= 0 && second >= 0 && Release(locked, key, first + second).Success?
    ensures Release(locked, key, first).Success?
    ensures Release(Release(locked, key, first).value, key, second) == Release(locked, key, first + second)
  {
    if first > 0 && second > 0 {
      var x := locked[key];
      var once, twice := Wallet(x.balance + first, x.locked - first), Wallet(x.balance + first + second, x.locked - first - second);
      assert locked[key := once][key := twice] == locked[key := twice];
    }
  }

  lemma Finishes(v: World, c: ClientId, o: Order, improvement: int)
    requires WorldInv(v) && c in v.clients && v.clients[c] == Improving(o, improvement) && improvement >= 0 && Remainder(o) >= 0
    requires Release(v.wallets, KeyOf(o.terms), improvement + Remainder(o)).Success?
    ensures Went(v, c, true, 2) == At(v.(wallets := Release(v.wallets, KeyOf(o.terms), improvement + Remainder(o)).value), c, Ending(o))
  {
    hide WorldInv, Went, Advance, Remainder, OrderCollateral;
    TwoReleases(v.wallets, KeyOf(o.terms), improvement, Remainder(o));
    WentStep(v, c, true, 1);
    Improves(v, c, o, improvement);
    var once := Advance(v, c, true);
    WentStep(once, c, true, 0);
    Releases(once, c, o);
    hide Release, Ending;
    var twice := Release(v.wallets, KeyOf(o.terms), improvement + Remainder(o)).value;
    AtTwice(v.(wallets := twice), c, Releasing(o), Ending(o));
    WentNowhere(At(v.(wallets := twice), c, Ending(o)), c, true, 0);
  }

  // ----- against the transaction -----

  /** The two paths work on the same orders, trades and wallets. */
  predicate SameTables(w: World, st: State) {
    st.orders == w.orders && st.trades == w.trades && st.wallets == w.wallets
  }

  lemma CentsFromHalf(t: Terms)
    requires ValidTerms(t)
    ensures Cents(t) >= 0 && (Cents(t) == 0 <==> 2 * (t.amount * Exposure(t.side, t.price)) < CENT_UNIT)
  {
    ProductError(t.amount, Exposure(t.side, t.price));
  }

  /** What the transaction releases at once is what the client releases in two calls. */
  lemma ReleasedAtOnce(orders: Book, trades: seq<Trade>, t: Terms)
    requires Placeable(orders, t) && Audited(orders, trades) && Uncrossed(orders)
    ensures var m := MatchIncoming(orders, trades, t);
            var o := m.orders[t.id];
            && o.terms == t && OrderOk(o) && Refunds(t, m.trades) >= 0 && Remainder(o) >= 0
            && PlacementRefund(o, m.trades) == Refunds(t, m.trades) + Remainder(o)
  {
    var m := MatchIncoming(orders, trades, t);
    IncomingFacts(orders, trades, t);
    RefundsNonNegative(m.orders, m.trades, t);
    UnfilledNonNegative(m.orders[t.id]);
  }

  /** A committed placement, read off the tables it started from. */
  lemma PlaceCommits(st: State, t: Terms)
    requires BookOk(st.orders) && ValidTerms(t) && Place(st, t).Success?
    ensures !Taken(st.orders, t) && Placeable(st.orders, t) && LockFunds(st.wallets, KeyOf(t), Cents(t)).Success?
    ensures var m, next := MatchIncoming(st.orders, st.trades, t), Place(st, t).value;
            && next.orders == m.orders && next.trades == m.trades
            && Release(LockFunds(st.wallets, KeyOf(t), Cents(t)).value, KeyOf(t), PlacementRefund(m.orders[t.id], m.trades)) == Success(next.wallets)
  {
    hide BookOk, MatchIncoming, OrderCollateral, PlacementRefund, Release;
  }

  lemma BooksAreOk(w: World)
    requires WorldInv(w)
    ensures BookOk(w.orders) && Audited(w.orders, w.trades) && Uncrossed(w.orders)
  {
    hide BookOk, Audited, Uncrossed, ClientsOk, Accounts;
  }

  lemma PlacedAlone(w: World, c: ClientId, t: Terms, st: State)
    requires WorldInv(w) && c !in w.clients && ValidTerms(t) && SameTables(w, st) && Place(st, t).Success? && Cents(t) > 0
    ensures var r, next := Alone(w, c, t, true), Place(st, t).value;
            && SameTables(r, next) && t.id in next.orders && c in r.clients && r.clients[c] == Ending(next.orders[t.id])
  {
    hide WorldInv, BookOk, Placeable, Place, LockFunds, Alone, Went, MatchIncoming, OrderCollateral, Refunds, Remainder, PlacementRefund,
         Taken, Ending, OrderOk, Release, Audited, Uncrossed;
    BooksAreOk(w);
    PlaceCommits(st, t);
    ReleasedAtOnce(w.orders, w.trades, t);
    PlacesNext(w, c, t);
    var v := PlacedWith(w, LockFunds(w.wallets, KeyOf(t), Cents(t)).value, c, t);
    Finishes(v, c, v.orders[t.id], Refunds(t, v.trades));
  }

  /** At any granularity, when the transaction would commit the placement: the create that
      nothing interrupts leaves the same orders, trades and wallets if and only if the order is
      worth half a cent or more; a smaller one the wallet service refuses to lock. */
  lemma CreateAloneExactlyWhen(w: World, c: ClientId, t: Terms, st: State)
    requires WorldInv(w) && c !in w.clients && ValidTerms(t) && SameTables(w, st) && Place(st, t).Success?
    ensures var r, next := Alone(w, c, t, true), Place(st, t).value;
            && (SameTables(r, next) <==> 2 * (t.amount * Exposure(t.side, t.price)) >= CENT_UNIT)
            && (SameTables(r, next) ==> t.id in next.orders && c in r.clients && r.clients[c] == Ending(next.orders[t.id]))
            && (!SameTables(r, next) ==> r == At(w, c, Rejected(t, InvalidAmount, 0)))
  {
    CentsFromHalf(t);
    if Cents(t) > 0 {
      PlacedAlone(w, c, t, st);
    } else {
      assert NewKey(w.orders, t) by { UntakenIsNew(w.orders, t); }
      assert t.id in Place(st, t).value.orders && t.id !in w.orders;
      hide WorldInv, Place, OrderCollateral;
      RefusedAlone(w, c, t);
    }
  }

  /** Fills of an order worth less than half a cent improve on its price by less. */
  lemma ImprovementBelow(side: Side, shares: int, amount: int, limitPrice: int, matchedPrice: int)
    requires 0 <= shares <= amount && ValidPrice(limitPrice) && ValidPrice(matchedPrice)
    requires CollateralCents(side, amount, limitPrice) == 0
    ensures PriceImprovementCents(side, shares, limitPrice, matchedPrice) == 0
    ensures CollateralCents(side, shares, limitPrice) == 0
  {
    var e, d := Exposure(side, limitPrice), Improvement(side, limitPrice, matchedPrice);
    ProductError(amount, e);
    ProductError(shares, e);
    MulMonotone(e, shares, amount);
    if d > 0 {
      ProductError(shares, d);
      MulMonotone(shares, d, e);
    }
  }

  lemma {:induction false} RefundsBelow(orders: Book, trades: seq<Trade>, t: Terms)
    requires BookOk(orders) && TradesOk(orders, trades) && t.id in orders && orders[t.id].terms == t
    requires forall i | 0 <= i < |trades| && Involves(trades[i], t) :: trades[i].shares <= t.amount
    requires Cents(t) == 0
    ensures Refunds(t, trades) == 0
  {
    forall i | 0 <= i < |trades| ensures RefundOf(t)(trades[i]) == 0 {
      assert TradeOk(orders, trades[i]);
      assert OrderOk(orders[trades[i].maker]);
      if Involves(trades[i], t) { ImprovementBelow(t.side, trades[i].shares, t.amount, t.price, trades[i].price); }
    }
    TradeSumZero(trades, RefundOf(t));
  }

  /** Nothing was locked and nothing is released. */
  lemma NothingReleased(orders: Book, trades: seq<Trade>, t: Terms)
    requires Placeable(orders, t) && Audited(orders, trades) && Uncrossed(orders) && Cents(t) == 0
    ensures var m := MatchIncoming(orders, trades, t); PlacementRefund(m.orders[t.id], m.trades) == 0
  {
    var m := MatchIncoming(orders, trades, t);
    var o := m.orders[t.id];
    IncomingFacts(orders, trades, t);
    forall i | 0 <= i < |m.trades| && Involves(m.trades[i], t) ensures m.trades[i].shares <= t.amount {
      FillWithin(m.orders, m.trades, i, t.id);
    }
    RefundsBelow(m.orders, m.trades, t);
    ImprovementBelow(t.side, o.Remaining(), t.amount, t.price, t.price);
  }

  /** The order of less than half a cent: with its market open, its wallet there and its
      identifiers new, the transaction accepts it whatever the balance, the other path refuses it. */
  lemma AdmittedBelowHalfCent(w: World, c: ClientId, t: Terms, st: State)
    requires WorldInv(w) && c !in w.clients && ValidTerms(t) && SameTables(w, st)
    requires MarketOpenFor(st.markets, t) && !Taken(w.orders, t) && KeyOf(t) in w.wallets
    requires 2 * (t.amount * Exposure(t.side, t.price)) < CENT_UNIT
    ensures Place(st, t).Success? && Alone(w, c, t, true) == At(w, c, Rejected(t, InvalidAmount, 0))
  {
    CentsFromHalf(t);
    assert Accounted(w, KeyOf(t));
    NothingReleased(w.orders, w.trades, t);
    UntakenIsNew(w.orders, t);
    RefusedAlone(w, c, t);
  }

  /** What matching leaves of the incoming order on the grid. */
  lemma IncomingOnGrid(w: World, t: Terms)
    requires WorldInv(w) && GridWorld(w) && ValidTerms(t) && WholeTerms(t) && t.id !in w.orders
    ensures var m := MatchIncoming(w.orders, w.trades, t);
            PlacementRefund(m.orders[t.id], m.trades) <= Cents(t) && Ending(m.orders[t.id]) == Created(m.orders[t.id])
  {
    var m := MatchIncoming(w.orders, w.trades, t);
    var o := m.orders[t.id];
    IncomingFacts(w.orders, w.trades, t);
    PlacedOnGrid(w, t);
    HeldByTaker(o, m.trades);
    HeldOnGrid(m.orders, m.trades, t.id);
    RemainingCollateral(o);
  }

  lemma GridCommits(w: World, t: Terms, st: State)
    requires WorldInv(w) && GridWorld(w) && ValidTerms(t) && WholeTerms(t) && SameTables(w, st)
    requires MarketOpenFor(st.markets, t) && !Taken(w.orders, t) && Lock(w.wallets, KeyOf(t), Cents(t)).Success?
    ensures Place(st, t).Success? && t.id in Place(st, t).value.orders
    ensures Ending(Place(st, t).value.orders[t.id]) == Created(Place(st, t).value.orders[t.id])
  {
    assert Accounted(w, KeyOf(t));
    IncomingOnGrid(w, t);
    hide GridWorld, ClientsOk, Accounts, Audited, Uncrossed, KeysUnique, MatchIncoming, OrderCollateral, PlacementRefund, Ending, WholeTerms;
  }

  /** On the grid a create that nothing interrupts is the transaction: it commits the same
      orders, trades and wallets, or reports the same failure and leaves every table as it was. */
  lemma CreateAloneIsPlace(w: World, c: ClientId, t: Terms, st: State)
    requires WorldInv(w) && GridWorld(w) && c !in w.clients && ValidTerms(t) && WholeTerms(t) && SameTables(w, st)
    requires NewKey(w.orders, t)
    ensures var r := Alone(w, c, t, MarketOpenFor(st.markets, t));
            match Place(st, t)
            case Success(next) => SameTables(r, next) && t.id in next.orders && c in r.clients && r.clients[c] == Created(next.orders[t.id])
            case Failure(e) => r == At(w, c, Rejected(t, e, 0))
  {
    ExactCollateral(t, t.amount);
    if !MarketOpenFor(st.markets, t) {
      ClosedAlone(w, c, t);
    } else if Lock(w.wallets, KeyOf(t), Cents(t)).Failure? {
      RefusedAlone(w, c, t);
    } else if Taken(w.orders, t) {
      TakenAlone(w, c, t);
    } else {
      GridCommits(w, t, st);
      PlacedAlone(w, c, t, st);
    }
  }

  // ----- releases below half a cent -----

  /** A release below half a cent rounds to nothing: the wallet service refuses it, so `Create`
      and `Cancel` report an error, while the transactional path skips it. */
  lemma ReleaseRefusedBelowHalfCent(wallets: Wallets, o: Order)
    requires OrderOk(o) && o.Remaining() > 0 && KeyOf(o.terms) in wallets
    requires wallets[KeyOf(o.terms)].locked >= OrderCollateral(o.terms, o.Remaining())
    ensures var cents := OrderCollateral(o.terms, o.Remaining());
            && (Unlock(wallets, KeyOf(o.terms), cents).Failure? <==> 2 * (o.Remaining() * Exposure(o.terms.side, o.terms.price)) < CENT_UNIT)
            && Release(wallets, KeyOf(o.terms), cents).Success?
  {
    ProductError(o.Remaining(), Exposure(o.terms.side, o.terms.price));
  }

  ghost function CancelAlone(w: World, c: ClientId, id: OrderId): World
    requires WorldInv(w)
  {
    Interleaved(w, [SubmitCancel(c, id)] + Calls(c, true, 2))
  }

  lemma CancelStarts(w: World, c: ClientId, id: OrderId)
    requires WorldInv(w) && c !in w.clients && id in w.orders && w.orders[id].Open()
    ensures var o := Cancel(w.orders[id]);
            var u := At(w.(orders := w.orders[id := o]), c, Unlocking(o));
            WorldInv(u) && CancelAlone(w, c, id) == Went(u, c, true, 1)
  {
    var o, s := Cancel(w.orders[id]), At(w, c, Cancelling(id));
    MovedInv(w, SubmitCancel(c, id));
    assert ([SubmitCancel(c, id)] + Calls(c, true, 2))[1..] == Calls(c, true, 2);
    WentStep(s, c, true, 1);
    AtTwice(w.(orders := w.orders[id := o]), c, Cancelling(id), Unlocking(o));
    assert Advance(s, c, true) == CancelStored(s, c, id);
    hide WorldInv, Interleaved, Advance;
  }

  /** Where a `Cancel` ends whose unlock finds its cents. */
  function CancelEnding(o: Order): Phase {
    if 2 * (o.Remaining() * Exposure(o.terms.side, o.terms.price)) < CENT_UNIT then CancelBroken(o, InvalidAmount) else CancelDone(o)
  }

  lemma UnlockingUnlocks(x: World, c: ClientId, o: Order)
    requires WorldInv(At(x, c, Unlocking(o))) && OrderOk(o) && o.Remaining() > 0
    requires Release(x.wallets, KeyOf(o.terms), OrderCollateral(o.terms, o.Remaining())).Success?
    ensures Advance(At(x, c, Unlocking(o)), c, true)
         == At(x.(wallets := Release(x.wallets, KeyOf(o.terms), OrderCollateral(o.terms, o.Remaining())).value), c, CancelEnding(o))
  {
    ProductError(o.Remaining(), Exposure(o.terms.side, o.terms.price));
    var wallets := Release(x.wallets, KeyOf(o.terms), OrderCollateral(o.terms, o.Remaining())).value;
    AtTwice(x.(wallets := wallets), c, Unlocking(o), CancelEnding(o));
    assert Advance(At(x, c, Unlocking(o)), c, true) == UnlockCancelled(At(x, c, Unlocking(o)), c, o);
    hide WorldInv, Advance;
  }

  lemma CancelCommits(orders: Book, st: State, id: OrderId)
    requires BookOk(orders) && st.orders == orders && CancelOrder(st, id).Success?
    ensures id in orders && orders[id].Open() && OrderOk(Cancel(orders[id])) && orders[id].Remaining() > 0
    ensures var o := Cancel(orders[id]);
            var released := Release(st.wallets, KeyOf(o.terms), OrderCollateral(o.terms, o.Remaining()));
            released.Success? && CancelOrder(st, id).value == st.(orders := orders[id := o], wallets := released.value)
  {
    hide OrderCollateral, Release;
  }

  /** At any granularity, when the transaction would commit the cancellation: the client leaves
      the same tables, but reports an error exactly when the open remainder is worth less than
      half a cent. */
  lemma CancelAloneExactlyWhen(w: World, c: ClientId, id: OrderId, st: State)
    requires WorldInv(w) && c !in w.clients && SameTables(w, st) && CancelOrder(st, id).Success?
    ensures var r, next := CancelAlone(w, c, id), CancelOrder(st, id).value;
            SameTables(r, next) && id in next.orders && c in r.clients && r.clients[c] == CancelEnding(next.orders[id])
  {
    hide WorldInv, BookOk, OrderOk, CancelOrder, Went, Advance, OrderCollateral, CancelAlone, CancelEnding, Release, Audited, Uncrossed;
    BooksAreOk(w);
    CancelCommits(w.orders, st, id);
    var o := Cancel(w.orders[id]);
    var x := w.(orders := w.orders[id := o]);
    CancelStarts(w, c, id);
    WentStep(At(x, c, Unlocking(o)), c, true, 0);
    UnlockingUnlocks(x, c, o);
    var end := At(x.(wallets := Release(x.wallets, KeyOf(o.terms), OrderCollateral(o.terms, o.Remaining())).value), c, CancelEnding(o));
    EndingFinished(o);
    WentNowhere(end, c, true, 0);
  }

  lemma EndingFinished(o: Order)
    ensures Finished(CancelEnding(o))
  {
  }

  // ----- a run in which the two paths differ -----

  const BIDDER := WalletKey("m", "a", "USD")
  const ASKER := WalletKey("m", "b", "USD")

  /** One unit more than a share. */
  function Bid(): Terms {
    Terms(1, "m", "a", 1, Buy, "Yes", 1_000_001, "USD", 500_000, Gtc, "", 1)
  }

  function Ask(): Terms {
    Terms(2, "m", "b", 1, Sell, "Yes", 1_000_000, "USD", 500_000, Gtc, "", 2)
  }

  lemma {:induction false} InterleavedConcat(w: World, a: seq<Move>, b: seq<Move>)
    requires WorldInv(w)
    ensures WorldInv(Interleaved(w, a)) && Interleaved(w, a + b) == Interleaved(Interleaved(w, a), b)
    decreases |a|
  {
    if a == [] {
      assert a + b == b;
    } else {
      MovedInv(w, a[0]);
      InterleavedConcat(Moved(w, a[0]), a[1..], b);
      assert (a + b)[0] == a[0] && (a + b)[1..] == a[1..] + b;
    }
  }

  /** A create that gets nothing back. */
  lemma AlonePlaces(w: World, c: ClientId, t: Terms)
    requires WorldInv(w) && c !in w.clients && ValidTerms(t) && !Taken(w.orders, t)
    requires Lock(w.wallets, KeyOf(t), Cents(t)).Success?
    requires var m := MatchIncoming(w.orders, w.trades, t);
             Refunds(t, m.trades) == 0 && !m.orders[t.id].status.Cancelled?
    ensures var r, m := Alone(w, c, t, true), MatchIncoming(w.orders, w.trades, t);
            && WorldInv(r) && r.orders == m.orders && r.trades == m.trades && r.clients == w.clients[c := Created(m.orders[t.id])]
  {
    hide WorldInv, Alone, Went, MatchIncoming, OrderCollateral, Refunds, Taken, Lock;
    AloneInv(w, c, t);
    PlacesNext(w, c, t);
    var v := PlacedWith(w, Lock(w.wallets, KeyOf(t), Cents(t)).value, c, t);
    Finishes(v, c, v.orders[t.id], 0);
  }

  lemma AloneInv(w: World, c: ClientId, t: Terms)
    requires WorldInv(w)
    ensures WorldInv(Alone(w, c, t, true))
  {
    InterleavedInv(w, CreateMoves(c, t, true));
  }

  /** The bid rests. */
  lemma BidRests(w: World)
    requires WorldInv(w) && w.orders == map[] && w.trades == [] && w.clients == map[]
    requires BIDDER in w.wallets && w.wallets[BIDDER].balance >= 50
    ensures var r := Alone(w, 1, Bid(), true);
            WorldInv(r) && r.orders == map[1 := NewOrder(Bid())] && r.trades == [] && r.clients.Keys == {1}
  {
    PlacementRests(w.orders, w.trades, Bid());
    assert Refunds(Bid(), []) == 0;
    ProductError(1_000_001, 500_000);
    hide WorldInv, Alone;
    AlonePlaces(w, 1, Bid());
  }

  function Nearly(): Order {
    Order(Bid(), 1_000_000, Partial)
  }

  lemma AskMatches()
    ensures var orders := map[1 := NewOrder(Bid())];
            && Placeable(orders, Ask()) && !Taken(orders, Ask())
            && MatchIncoming(orders, [], Ask())
               == Matching(map[1 := Nearly(), 2 := Order(Ask(), 1_000_000, Filled)], [Trade(1, 1, 2, 1_000_000, 500_000)])
  {
    var orders := map[1 := NewOrder(Bid())];
    OnlyCandidate(orders, Ask(), 1);
    assert [1][1..] == [];
    var m := Matching(Inserted(orders, Ask()), []);
    assert FillAll(m, 2, [1]) == Fill(m, 2, 1);
    assert MatchIncoming(orders, [], Ask()).orders == map[1 := Nearly(), 2 := Order(Ask(), 1_000_000, Filled)];
  }

  /** An ask for one share fills all of the bid but one unit. */
  lemma AskFills(w: World)
    requires WorldInv(w) && w.orders == map[1 := NewOrder(Bid())] && w.trades == [] && w.clients.Keys == {1}
    requires ASKER in w.wallets && w.wallets[ASKER].balance >= 50
    ensures var r := Alone(w, 2, Ask(), true);
            WorldInv(r) && r.orders == map[1 := Nearly(), 2 := Order(Ask(), 1_000_000, Filled)] && r.clients.Keys == {1, 2}
  {
    AskMatches();
    TradeSumAppend([], Trade(1, 1, 2, 1_000_000, 500_000), RefundOf(Ask()));
    assert [] + [Trade(1, 1, 2, 1_000_000, 500_000)] == [Trade(1, 1, 2, 1_000_000, 500_000)];
    ProductError(1_000_000, 500_000);
    hide WorldInv, Alone, MatchIncoming;
    AlonePlaces(w, 2, Ask());
  }

  lemma DepositLeaves(w: World, key: WalletKey, cents: int)
    requires WorldInv(w) && cents > 0
    ensures var r := Moved(w, Deposit(key, cents));
            && WorldInv(r) && r.orders == w.orders && r.trades == w.trades && r.clients == w.clients
            && key in r.wallets && r.wallets[key].balance >= cents
  {
    MovedInv(w, Deposit(key, cents));
    assert key in w.wallets ==> Accounted(w, key);
  }

  function UnitLeftOver(): seq<Move> {
    [Deposit(BIDDER, 50)] + CreateMoves(1, Bid(), true) + [Deposit(ASKER, 50)] + CreateMoves(2, Ask(), true)
  }

  lemma UnitIsLeftOver()
    ensures var w := Interleaved(START, UnitLeftOver());
            WorldInv(w) && w.orders == map[1 := Nearly(), 2 := Order(Ask(), 1_000_000, Filled)] && w.clients.Keys == {1, 2}
  {
    StartInv();
    var a, b, c, d := [Deposit(BIDDER, 50)], CreateMoves(1, Bid(), true), [Deposit(ASKER, 50)], CreateMoves(2, Ask(), true);
    hide WorldInv, Moved;
    InterleavedConcat(START, a + b + c, d);
    InterleavedConcat(START, a + b, c);
    InterleavedConcat(START, a, b);
    DepositLeaves(START, BIDDER, 50);
    OneMove(START, a[0]);
    var w := Interleaved(START, a);
    BidRests(w);
    var x := Interleaved(w, b);
    DepositLeaves(x, ASKER, 50);
    OneMove(x, c[0]);
    AskFills(Interleaved(x, c));
  }

  lemma OneMove(w: World, move: Move)
    requires WorldInv(w)
    ensures Interleaved(w, [move]) == Moved(w, move)
  {
    MovedInv(w, move);
    assert [move][1..] == [];
  }

  lemma UnitIsWorthNothing(st: State)
    requires 1 in st.orders && st.orders[1] == Nearly()
    ensures CancelOrder(st, 1) == Success(st.(orders := st.orders[1 := Cancel(Nearly())]))
    ensures CancelEnding(Cancel(Nearly())) == CancelBroken(Cancel(Nearly()), InvalidAmount)
  {
    ProductError(1, 500_000);
  }

  function TablesOf(w: World): State {
    EMPTY.(orders := w.orders, trades := w.trades, wallets := w.wallets)
  }

  /** A bid for a share and a unit at half price, filled by an ask for a share and then
      cancelled: the service reports an error, the transaction on the same tables commits. */
  lemma UnitCannotBeReleased()
    ensures WorldInv(START) && WorldInv(Interleaved(START, UnitLeftOver()))
    ensures var r := CancelAlone(Interleaved(START, UnitLeftOver()), 3, 1);
            3 in r.clients && r.clients[3] == CancelBroken(Cancel(Nearly()), InvalidAmount) && Nearly().Remaining() == 1
    ensures CancelOrder(TablesOf(Interleaved(START, UnitLeftOver())), 1).Success?
  {
    StartInv();
    hide WorldInv, Interleaved, CancelAlone, CancelOrder, CancelEnding;
    UnitIsLeftOver();
    var w := Interleaved(START, UnitLeftOver());
    UnitIsWorthNothing(TablesOf(w));
    CancelAloneExactlyWhen(w, 3, 1, TablesOf(w));
  }
}
