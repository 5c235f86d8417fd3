/** Every transaction keeps the ledger's invariant, so every run does. */
module LedgerRuns {
  import opened Fixed
  import opened Sorting
  import opened Sums
  import opened Orders
  import opened BookInvariants
  import opened Collateral
  import opened Ledger
  import opened LedgerInvariants

  // ----- placing -----

  lemma PlaceBook(st: State, terms: Terms, m: Matching, r: State)
    requires BookInv(st) && MatchFacts(st.orders, st.trades, terms, m) && Placed(st, terms, m, r)
    ensures BookInv(r) && BookAdvances(st.orders, r.orders)
  {
    assert KeysUnique(r.orders) by { PlaceKeys(st.orders, r.orders, terms); }
  }

  lemma PlaceKeys(a: Book, b: Book, terms: Terms)
    requires KeysUnique(a) && !Taken(a, terms) && b.Keys == a.Keys + {terms.id}
    requires BookAdvances(a, b) && b[terms.id].terms == terms
    ensures KeysUnique(b)
  {
    forall i, j | i in b && j in b && i != j
      ensures !SameKey(b[i].terms, b[j].terms)
    {
      assert i in a && j in a ==> !SameKey(a[i].terms, a[j].terms);
    }
  }

  lemma {:induction false} StakeFrame(t: Terms, a: seq<Trade>, b: seq<Trade>)
    requires a <= b && forall i | |a| <= i < |b| :: b[i].market != t.market
    ensures Stake(t, b) == Stake(t, a)
    decreases |b|
  {
    if |b| > |a| {
      var c := b[..|b| - 1];
      assert b == c + [b[|b| - 1]];
      StakeFrame(t, a, c);
      TradeSumAppend(c, b[|b| - 1], StakeOf(t));
    } else {
      assert a == b;
    }
  }

  // ----- frames: what the rest of a transaction needs to know about its writes -----

  /** Terms are immutable and no row is deleted. */
  ghost predicate SameTerms(a: Book, b: Book) {
    a.Keys <= b.Keys && forall id | id in a :: a[id].terms == b[id].terms
  }

  /** Closed-out orders keep their rows, and no settled market traded again. */
  ghost predicate ClosedFrame(st: State, r: State) {
    && r.closeouts == st.closeouts && r.settlements == st.settlements
    && SameTerms(st.orders, r.orders)
    && (forall id | id in r.orders && id !in st.orders :: r.orders[id].terms.market !in st.settlements)
    && (forall id | id in st.closeouts && id in st.orders :: r.orders[id] == st.orders[id])
    && st.trades <= r.trades
    && (forall i | |st.trades| <= i < |r.trades| :: r.trades[i].market !in st.settlements)
    && (forall m | m in st.settlements && m in st.markets :: m in r.markets && r.markets[m].status == st.markets[m].status)
  }

  lemma ClosedFramed(st: State, r: State)
    requires ClosedInv(st) && ClosedFrame(st, r)
    ensures ClosedInv(r)
  {
    forall id | id in r.closeouts
      ensures id in r.orders && r.orders[id].terms.market in r.settlements && ClosedWell(r, id)
    {
      assert ClosedWell(st, id);
      StakeFrame(st.orders[id].terms, st.trades, r.trades);
    }
  }

  /** Every order of `st` accounts for the same cents in `r`. */
  ghost predicate NetFrame(st: State, r: State) {
    && SameTerms(st.orders, r.orders) && r.closeouts == st.closeouts
    && (forall id | id in st.orders :: Net(r, id) == Net(st, id))
  }

  lemma NetsFramed(st: State, r: State, taker: OrderId)
    requires SameTerms(st.orders, r.orders) && r.closeouts == st.closeouts
    requires Extends(st.trades, r.trades, taker)
    requires forall id | id in st.closeouts :: st.closeouts[id].before.terms.id != taker
    requires forall id | id in st.orders :: Held(r.orders[id], r.trades) == Held(st.orders[id], st.trades)
    ensures NetFrame(st, r)
  {
    forall id | id in st.orders ensures Net(r, id) == Net(st, id) {
      if id in st.closeouts {
        RefundsFrame(st.closeouts[id].before.terms, st.trades, r.trades, taker);
      }
    }
  }

  lemma NetsAgree(st: State, r: State, key: WalletKey)
    requires NetFrame(st, r)
    ensures forall id | id in st.orders :: NetFor(r, key)(id) == NetFor(st, key)(id)
    ensures forall id | id in st.orders :: GainFor(r, key)(id) == GainFor(st, key)(id)
  {
  }

  lemma NewOrderNet(r: State, id: OrderId, key: WalletKey)
    requires id in r.orders && id !in r.closeouts
    ensures NetFor(r, key)(id) == if KeyOf(r.orders[id].terms) == key then Held(r.orders[id], r.trades) else 0
    ensures GainFor(r, key)(id) == 0
  {
  }

  /** One order is new: the sums over the orders grow by what it holds. */
  lemma SumsWithNewOrder(st: State, r: State, id: OrderId, key: WalletKey)
    requires NetFrame(st, r) && r.orders.Keys == st.orders.Keys + {id} && id !in st.orders && id !in st.closeouts
    ensures Sum(r.orders.Keys, NetFor(r, key)) == Sum(st.orders.Keys, NetFor(st, key))
              + (if KeyOf(r.orders[id].terms) == key then Held(r.orders[id], r.trades) else 0)
    ensures Sum(r.orders.Keys, GainFor(r, key)) == Sum(st.orders.Keys, GainFor(st, key))
  {
    NetsAgree(st, r, key);
    NewOrderNet(r, id, key);
    SumInserted<OrderId>(st.orders.Keys, NetFor(st, key), NetFor(r, key), id);
    SumInserted<OrderId>(st.orders.Keys, GainFor(st, key), GainFor(r, key), id);
  }

  // ----- placing, all together -----

  lemma PlaceClosed(st: State, terms: Terms, m: Matching, r: State)
    requires ClosedInv(st) && Placed(st, terms, m, r)
    requires RowsAdvance(st.orders, terms, m) && LogExtends(st.trades, terms, m)
    ensures ClosedInv(r)
  {
    assert ClosedFrame(st, r) by { PlaceClosedFrame(st, terms, m, r); }
    ClosedFramed(st, r);
  }

  lemma PlaceClosedFrame(st: State, terms: Terms, m: Matching, r: State)
    requires ClosedInv(st) && Placed(st, terms, m, r)
    requires RowsAdvance(st.orders, terms, m) && LogExtends(st.trades, terms, m)
    ensures ClosedFrame(st, r)
  {
    forall id | id in st.closeouts && id in st.orders ensures r.orders[id] == st.orders[id] {
      assert ClosedWell(st, id);
      assert Advances(st.orders[id], r.orders[id]);
    }
  }

  lemma PlaceNets(st: State, terms: Terms, m: Matching, r: State)
    requires MoneyInv(st) && BookOk(st.orders) && Placed(st, terms, m, r)
    requires RowsAdvance(st.orders, terms, m) && LogExtends(st.trades, terms, m) && HoldingsStay(st.orders, st.trades, m)
    ensures NetFrame(st, r) && terms.id !in st.closeouts
  {
    assert SameTerms(st.orders, r.orders);
    NetsFramed(st, r, terms.id);
  }

  lemma PlaceWallet(st: State, terms: Terms, m: Matching, r: State, key: WalletKey)
    requires key in st.wallets && key in st.funded && WalletInv(st, key) && NetFrame(st, r)
    requires Placed(st, terms, m, r) && terms.id !in st.closeouts
    requires m.orders.Keys == st.orders.Keys + {terms.id} && terms.id !in st.orders && m.orders[terms.id].terms == terms
    ensures WalletInv(r, key)
  {
    SumsWithNewOrder(st, r, terms.id, key);
  }

  lemma PlaceMoney(st: State, terms: Terms, m: Matching, r: State)
    requires MoneyInv(st) && BookOk(st.orders) && Placed(st, terms, m, r)
    requires RowsAdvance(st.orders, terms, m) && LogExtends(st.trades, terms, m) && HoldingsStay(st.orders, st.trades, m)
    ensures MoneyInv(r)
  {
    PlaceNets(st, terms, m, r);
    assert MoneyShape(r) by { PlaceShape(st, terms, m, r); }
    forall key | key in r.wallets ensures WalletInv(r, key) {
      assert key in st.wallets && WalletInv(st, key);
      PlaceWallet(st, terms, m, r, key);
    }
  }

  lemma PlaceShape(st: State, terms: Terms, m: Matching, r: State)
    requires MoneyShape(st) && Placed(st, terms, m, r) && SameTerms(st.orders, r.orders)
    requires m.orders.Keys == st.orders.Keys + {terms.id} && m.orders[terms.id].terms == terms
    ensures MoneyShape(r)
  {
  }

  lemma PlaceVolume(st: State, terms: Terms, m: Matching, r: State)
    requires VolumeInv(st) && Placed(st, terms, m, r) && LogExtends(st.trades, terms, m) && VolumeGrows(st.trades, terms, m)
    ensures VolumeInv(r)
  {
  }

  lemma PlaceInv(st: State, terms: Terms, m: Matching, r: State)
    requires Inv(st) && MatchFacts(st.orders, st.trades, terms, m) && Placed(st, terms, m, r)
    ensures Inv(r) && BookAdvances(st.orders, r.orders)
  {
    PlaceBook(st, terms, m, r);
    PlaceClosed(st, terms, m, r);
    PlaceVolume(st, terms, m, r);
    PlaceMoney(st, terms, m, r);
  }

  // ----- one order changes -----

  /** Every order but `id` keeps its row, its closeout and its account. */
  ghost predicate OnlyOrder(st: State, r: State, id: OrderId) {
    && r.orders.Keys == st.orders.Keys && id in st.orders && SameTerms(st.orders, r.orders)
    && r.trades == st.trades
    && (forall x | x in st.orders && x != id :: r.orders[x] == st.orders[x])
    && (forall x | x != id :: x in r.closeouts <==> x in st.closeouts)
    && (forall x | x != id && x in st.closeouts :: r.closeouts[x] == st.closeouts[x])
  }

  lemma OnlyOrderAgrees(st: State, r: State, id: OrderId, key: WalletKey)
    requires OnlyOrder(st, r, id)
    ensures forall x | x in st.orders && x != id :: NetFor(st, key)(x) == NetFor(r, key)(x)
    ensures forall x | x in st.orders && x != id :: GainFor(st, key)(x) == GainFor(r, key)(x)
  {
  }

  lemma SumsWithChangedOrder(st: State, r: State, id: OrderId, key: WalletKey)
    requires OnlyOrder(st, r, id)
    ensures Sum(r.orders.Keys, NetFor(r, key)) == Sum(st.orders.Keys, NetFor(st, key)) + NetFor(r, key)(id) - NetFor(st, key)(id)
    ensures Sum(r.orders.Keys, GainFor(r, key)) == Sum(st.orders.Keys, GainFor(st, key)) + GainFor(r, key)(id) - GainFor(st, key)(id)
  {
    OnlyOrderAgrees(st, r, id, key);
    SumUpdate<OrderId>(st.orders.Keys, NetFor(st, key), NetFor(r, key), id);
    SumUpdate<OrderId>(st.orders.Keys, GainFor(st, key), GainFor(r, key), id);
  }

  /** The wallet of the changed order moves with the order's account, the others stay. */
  ghost predicate WalletFollows(st: State, r: State, id: OrderId, key: WalletKey) {
    && r.funded == st.funded && key in st.wallets && key in st.funded && r.wallets.Keys == st.wallets.Keys
    && (forall k | k in st.wallets && k != key :: r.wallets[k] == st.wallets[k])
    && r.wallets[key].balance >= 0 && r.wallets[key].locked >= 0
    && r.wallets[key].locked == st.wallets[key].locked + NetFor(r, key)(id) - NetFor(st, key)(id)
    && r.wallets[key].balance + r.wallets[key].locked
       == st.wallets[key].balance + st.wallets[key].locked + GainFor(r, key)(id) - GainFor(st, key)(id)
  }

  lemma WalletFollowed(st: State, r: State, id: OrderId, key: WalletKey)
    requires OnlyOrder(st, r, id) && WalletFollows(st, r, id, key) && WalletInv(st, key)
    ensures WalletInv(r, key)
  {
    assert Sum(r.orders.Keys, NetFor(r, key)) == Sum(st.orders.Keys, NetFor(st, key)) + NetFor(r, key)(id) - NetFor(st, key)(id)
        && Sum(r.orders.Keys, GainFor(r, key)) == Sum(st.orders.Keys, GainFor(st, key)) + GainFor(r, key)(id) - GainFor(st, key)(id) by {
      SumsWithChangedOrder(st, r, id, key);
    }
  }

  lemma OtherWalletStays(st: State, r: State, id: OrderId, key: WalletKey)
    requires OnlyOrder(st, r, id) && key in st.wallets && key in st.funded && WalletInv(st, key)
    requires key in r.wallets && key in r.funded && r.wallets[key] == st.wallets[key] && r.funded[key] == st.funded[key]
    requires key != KeyOf(st.orders[id].terms)
    ensures WalletInv(r, key)
  {
    assert Sum(r.orders.Keys, NetFor(r, key)) == Sum(st.orders.Keys, NetFor(st, key))
        && Sum(r.orders.Keys, GainFor(r, key)) == Sum(st.orders.Keys, GainFor(st, key)) by {
      SumsWithChangedOrder(st, r, id, key);
    }
  }

  lemma ShapeFollows(st: State, r: State, id: OrderId)
    requires MoneyShape(st) && OnlyOrder(st, r, id) && r.funded == st.funded && r.wallets.Keys == st.wallets.Keys
    requires id in r.closeouts ==> r.closeouts[id].before.terms == st.orders[id].terms
    ensures MoneyShape(r)
  {
  }

  lemma MoneyFollows(st: State, r: State, id: OrderId, key: WalletKey)
    requires MoneyInv(st) && OnlyOrder(st, r, id) && key == KeyOf(st.orders[id].terms) && WalletFollows(st, r, id, key)
    requires id in r.closeouts ==> r.closeouts[id].before.terms == st.orders[id].terms
    ensures MoneyInv(r)
  {
    ShapeFollows(st, r, id);
    forall k | k in r.wallets ensures WalletInv(r, k) {
      assert k in st.wallets && WalletInv(st, k);
      if k == key {
        WalletFollowed(st, r, id, key);
      } else {
        OtherWalletStays(st, r, id, k);
      }
    }
  }

  // ----- cancelling -----

  /** The whole effect of a committed cancellation: one row, and one wallet, which gets
      the collateral of the remainder back. */
  ghost predicate CancelledWell(st: State, id: OrderId, r: State) {
    && id in st.orders && st.orders[id].Open() && KeyOf(st.orders[id].terms) in st.wallets
    && var o, key := st.orders[id], KeyOf(st.orders[id].terms);
       var cents := OrderCollateral(o.terms, o.Remaining());
       && 0 <= cents && (st.wallets[key].locked >= 0 ==> cents <= st.wallets[key].locked)
       && r == st.(orders := st.orders[id := Cancel(o)],
                   wallets := st.wallets[key := Wallet(st.wallets[key].balance + cents, st.wallets[key].locked - cents)])
  }

  lemma CancelEffect(st: State, id: OrderId)
    requires BookOk(st.orders) && MoneyShape(st) && CancelOrder(st, id).Success?
    ensures CancelledWell(st, id, CancelOrder(st, id).value)
  {
    UnfilledNonNegative(st.orders[id]);
    var key := KeyOf(st.orders[id].terms);
    assert st.wallets == st.wallets[key := Wallet(st.wallets[key].balance, st.wallets[key].locked)];
  }

  lemma CancelNet(st: State, id: OrderId, r: State, key: WalletKey)
    requires CancelledWell(st, id, r) && id !in st.closeouts && key == KeyOf(st.orders[id].terms)
    ensures NetFor(r, key)(id) == NetFor(st, key)(id) - OrderCollateral(st.orders[id].terms, st.orders[id].Remaining())
    ensures GainFor(r, key)(id) == GainFor(st, key)(id)
  {
  }

  lemma CancelMoney(st: State, id: OrderId, r: State)
    requires MoneyInv(st) && CancelledWell(st, id, r) && id !in st.closeouts
    ensures MoneyInv(r)
  {
    var key := KeyOf(st.orders[id].terms);
    assert WalletInv(st, key);
    CancelWallet(st, id, r, key);
    CancelOnly(st, id, r);
    MoneyFollows(st, r, id, key);
  }

  lemma CancelOnly(st: State, id: OrderId, r: State)
    requires CancelledWell(st, id, r)
    ensures OnlyOrder(st, r, id) && r.closeouts == st.closeouts
  {
  }

  lemma CancelWallet(st: State, id: OrderId, r: State, key: WalletKey)
    requires CancelledWell(st, id, r) && id !in st.closeouts && key == KeyOf(st.orders[id].terms)
    requires key in st.funded && WalletInv(st, key)
    ensures WalletFollows(st, r, id, key)
  {
    CancelNet(st, id, r, key);
  }

  /** Some open orders were cancelled, and nothing else happened to the book. */
  ghost predicate OnlyCancels(a: Book, b: Book) {
    a.Keys == b.Keys && forall id | id in a :: b[id] == a[id] || (a[id].Open() && b[id] == Cancel(a[id]))
  }

  lemma FillsSame(a: Book, b: Book, trades: seq<Trade>)
    requires Audited(a, trades) && OnlyCancels(a, b)
    ensures Audited(b, trades)
  {
    TradesOkMonotone(a, b, trades);
  }

  lemma KeysStay(a: Book, b: Book)
    requires KeysUnique(a) && OnlyCancels(a, b)
    ensures KeysUnique(b)
  {
    forall i, j | i in b && j in b && i != j
      ensures !SameKey(b[i].terms, b[j].terms)
    {
      assert i in a && j in a ==> !SameKey(a[i].terms, a[j].terms);
    }
  }

  lemma CancelsAdvance(a: Book, b: Book)
    requires BookOk(a) && OnlyCancels(a, b)
    ensures BookOk(b) && BookAdvances(a, b)
  {
  }

  lemma CancelsMarkets(st: State, r: State)
    requires OnlyCancels(st.orders, r.orders) && r.markets.Keys == st.markets.Keys
    requires forall id | id in st.orders :: st.orders[id].terms.market in st.markets
    ensures forall id | id in r.orders :: r.orders[id].terms.market in r.markets
  {
  }

  lemma CancelsBook(st: State, r: State)
    requires BookInv(st) && OnlyCancels(st.orders, r.orders) && r.trades == st.trades && r.markets.Keys == st.markets.Keys
    ensures BookInv(r) && BookAdvances(st.orders, r.orders)
  {
    CancelsAdvance(st.orders, r.orders);
    KeysStay(st.orders, r.orders);
    assert Uncrossed(r.orders) by { FewerOpenUncrossed(st.orders, r.orders); }
    FillsSame(st.orders, r.orders, st.trades);
    CancelsMarkets(st, r);
  }

  lemma CancelClosed(st: State, id: OrderId, r: State)
    requires ClosedInv(st) && CancelledWell(st, id, r)
    ensures ClosedInv(r) && id !in st.closeouts
  {
    assert id in st.closeouts ==> ClosedWell(st, id);
    ClosedFramed(st, r);
  }

  lemma VolumeStays(st: State, r: State)
    requires VolumeInv(st) && r.trades == st.trades && r.markets.Keys == st.markets.Keys
    requires forall m | m in st.markets :: r.markets[m].volume == st.markets[m].volume
    ensures VolumeInv(r)
  {
  }

  lemma CancelInv(st: State, id: OrderId, r: State)
    requires Inv(st) && CancelledWell(st, id, r)
    ensures Inv(r) && BookAdvances(st.orders, r.orders)
  {
    assert BookInv(r) && BookAdvances(st.orders, r.orders) by { CancelsBook(st, r); }
    assert ClosedInv(r) && id !in st.closeouts by { CancelClosed(st, id, r); }
    assert VolumeInv(r) by { VolumeStays(st, r); }
    assert MoneyInv(r) by { CancelMoney(st, id, r); }
  }

  // ----- funding, and the markets table -----

  /** A change of wallets and markets alone leaves every sum over the orders. */
  lemma SumsStay(st: State, r: State, key: WalletKey)
    requires r.orders == st.orders && r.trades == st.trades && r.closeouts == st.closeouts
    ensures Sum(r.orders.Keys, NetFor(r, key)) == Sum(st.orders.Keys, NetFor(st, key))
    ensures Sum(r.orders.Keys, GainFor(r, key)) == Sum(st.orders.Keys, GainFor(st, key))
  {
    SumCong<OrderId>(st.orders.Keys, NetFor(r, key), NetFor(st, key));
    SumCong<OrderId>(st.orders.Keys, GainFor(r, key), GainFor(st, key));
  }

  lemma NoOrdersNoSums(st: State, key: WalletKey)
    requires MoneyShape(st) && key !in st.wallets
    ensures Sum(st.orders.Keys, NetFor(st, key)) == 0 && Sum(st.orders.Keys, GainFor(st, key)) == 0
  {
    SumZero<OrderId>(st.orders.Keys, NetFor(st, key));
    SumZero<OrderId>(st.orders.Keys, GainFor(st, key));
  }

  /** Money enters or leaves one wallet's balance. */
  ghost predicate Funded(st: State, key: WalletKey, cents: int, r: State) {
    var w := if key in st.wallets then st.wallets[key] else Wallet(0, 0);
    var f := if key in st.funded then st.funded[key] else 0;
    && w.balance + cents >= 0
    && r == st.(wallets := st.wallets[key := w.(balance := w.balance + cents)], funded := st.funded[key := f + cents])
  }

  lemma FundingWallet(st: State, key: WalletKey, cents: int, r: State, k: WalletKey)
    requires MoneyInv(st) && Funded(st, key, cents, r) && k in r.wallets && k in r.funded
    ensures WalletInv(r, k)
  {
    SumsStay(st, r, k);
    if k in st.wallets {
      assert WalletInv(st, k);
    } else {
      NoOrdersNoSums(st, k);
    }
  }

  lemma FundingInv(st: State, key: WalletKey, cents: int, r: State)
    requires Inv(st) && Funded(st, key, cents, r)
    ensures Inv(r) && BookAdvances(st.orders, r.orders)
  {
    assert BookInv(r) && VolumeInv(r);
    assert ClosedInv(r) by { ClosedFramed(st, r); }
    assert MoneyShape(r);
    forall k | k in r.wallets ensures WalletInv(r, k) {
      FundingWallet(st, key, cents, r, k);
    }
  }

  /** Only the row of market `m` is new or moved. */
  ghost predicate MarketMoved(st: State, m: MarketId, r: State) {
    && r == st.(markets := r.markets) && m in r.markets && r.markets == st.markets[m := r.markets[m]]
    && (m in st.settlements ==> r.markets[m].status == Settled)
    && r.markets[m].volume == (if m in st.markets then st.markets[m].volume else 0)
  }

  lemma MarketsVolume(st: State, m: MarketId, r: State)
    requires VolumeInv(st) && MarketMoved(st, m, r)
    ensures VolumeInv(r)
  {
    if m !in st.markets {
      TradeSumZero(st.trades, InMarket(m));
    }
  }

  lemma MarketsClosed(st: State, m: MarketId, r: State)
    requires ClosedInv(st) && MarketMoved(st, m, r)
    ensures ClosedInv(r)
  {
    forall id | id in r.closeouts
      ensures id in r.orders && r.orders[id].terms.market in r.settlements && ClosedWell(r, id)
    {
      assert ClosedWell(st, id);
    }
  }

  /** Writes to the markets and settlements tables move no money. */
  lemma TablesMoney(st: State, r: State)
    requires MoneyInv(st) && r == st.(markets := r.markets, settlements := r.settlements)
    ensures MoneyInv(r)
  {
    assert MoneyShape(r);
    forall k | k in r.wallets ensures WalletInv(r, k) {
      assert WalletInv(st, k);
      SumsStay(st, r, k);
    }
  }

  lemma MarketsInv(st: State, m: MarketId, r: State)
    requires Inv(st) && MarketMoved(st, m, r)
    ensures Inv(r) && BookAdvances(st.orders, r.orders)
  {
    assert BookInv(r);
    MarketsVolume(st, m, r);
    MarketsClosed(st, m, r);
    TablesMoney(st, r);
  }
}
