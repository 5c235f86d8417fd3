/** Settlement conserves money: the trade log always passes its audit, the stakes of a market
    are its payouts exactly when its par values add up, and a committed settlement leaves the
    total of every currency unchanged. */
module Conservation {
  import opened Fixed
  import opened Sorting
  import opened Sums
  import opened Orders
  import opened BookInvariants
  import opened Collateral
  import opened Ledger
  import opened LedgerInvariants
  import opened LedgerRuns
  import opened SettlementRuns

  // ----- the audit never rejects -----

  lemma TradeIsAccepted(st: State, m: MarketId, i: nat)
    requires BookOk(st.orders) && TradesOk(st.orders, st.trades) && i < |st.trades| && st.trades[i].market == m
    ensures TradeAccepted(st.orders, m, st.trades[i])
  {
    assert TradeOk(st.orders, st.trades[i]);
  }

  /** In every reachable state settlement finds every wallet and accepts every trade. */
  lemma AuditNeverRejects(st: State, m: MarketId)
    requires Inv(st)
    ensures AuditPasses(st.orders, st.trades, m)
    ensures Payable(st, SettlementQueue(st.orders, m))
  {
    QueueIsMarket(st, m);
    forall i | 0 <= i < |st.trades| && st.trades[i].market == m
      ensures TradeAccepted(st.orders, m, st.trades[i])
    {
      TradeIsAccepted(st, m, i);
    }
  }

  // ----- stakes and payouts as sums -----

  ghost function StakeAt(orders: Book, trades: seq<Trade>, currency: string, id: OrderId): int {
    if id in orders && orders[id].terms.currency == currency then Stake(orders[id].terms, trades) else 0
  }

  ghost function StakeIn(orders: Book, trades: seq<Trade>, currency: string): OrderId -> int {
    (id: OrderId) => StakeAt(orders, trades, currency, id)
  }

  ghost function PayoutAt(orders: Book, winner: string, currency: string, id: OrderId): int {
    if id in orders && orders[id].terms.currency == currency then PayoutOf(orders[id], winner) else 0
  }

  ghost function PayoutIn(orders: Book, winner: string, currency: string): OrderId -> int {
    (id: OrderId) => PayoutAt(orders, winner, currency, id)
  }

  /** Shares of winning orders, replayed from the log. */
  ghost function WonAt(orders: Book, trades: seq<Trade>, winner: string, currency: string, id: OrderId): int {
    if id in orders && orders[id].terms.currency == currency && Wins(orders[id].terms, winner)
    then Matched(orders[id].terms, trades) else 0
  }

  ghost function WonIn(orders: Book, trades: seq<Trade>, winner: string, currency: string): OrderId -> int {
    (id: OrderId) => WonAt(orders, trades, winner, currency, id)
  }

  ghost function Times(k: int, f: OrderId -> int): OrderId -> int {
    (id: OrderId) => k * f(id)
  }

  function AsSet(ids: seq<OrderId>): set<OrderId> {
    set i | 0 <= i < |ids| :: ids[i]
  }

  lemma AsSetLast(ids: seq<OrderId>)
    requires ids != [] && Distinct(ids)
    ensures AsSet(ids) == AsSet(ids[..|ids| - 1]) + {ids[|ids| - 1]}
    ensures ids[|ids| - 1] !in AsSet(ids[..|ids| - 1])
  {
    var init, last := ids[..|ids| - 1], ids[|ids| - 1];
    forall id | id in AsSet(ids) ensures id in AsSet(init) + {last} {
      var i :| 0 <= i < |ids| && ids[i] == id;
      if i < |init| {
        assert init[i] == id;
      }
    }
    assert ids[|ids| - 1] in AsSet(ids);
    forall id | id in AsSet(init) ensures id in AsSet(ids) {
      var i :| 0 <= i < |init| && init[i] == id;
      assert ids[i] == id;
    }
  }

  lemma {:induction false} TotalsAreSums(orders: Book, trades: seq<Trade>, winner: string, ids: seq<OrderId>, currency: string)
    requires Distinct(ids) && forall i | 0 <= i < |ids| :: ids[i] in orders
    ensures TotalStake(orders, trades, ids, currency) == Sum(AsSet(ids), StakeIn(orders, trades, currency))
    ensures TotalPayout(orders, winner, ids, currency) == Sum(AsSet(ids), PayoutIn(orders, winner, currency))
    decreases |ids|
  {
    if ids != [] {
      var init, last := ids[..|ids| - 1], ids[|ids| - 1];
      TotalsAreSums(orders, trades, winner, init, currency);
      AsSetLast(ids);
      SumInsert<OrderId>(AsSet(init), StakeIn(orders, trades, currency), last);
      SumInsert<OrderId>(AsSet(init), PayoutIn(orders, winner, currency), last);
    }
  }

  // ----- the conservation assertion never fires -----

  /** All the orders of one market. */
  ghost predicate WholeMarket(orders: Book, m: MarketId, s: set<OrderId>) {
    forall id :: id in s <==> id in orders && orders[id].terms.market == m
  }

  /** Exactly one side of a trade wins. */
  lemma OneSideWins(orders: Book, x: Trade, winner: string)
    requires TradeOk(orders, x)
    ensures Wins(orders[x.maker].terms, winner) != Wins(orders[x.taker].terms, winner)
  {
  }

  /** The two stakes of a trade are its par value. */
  lemma StakesCoverPar(orders: Book, x: Trade)
    requires TradeOk(orders, x)
    ensures StakeOf(orders[x.maker].terms)(x) + StakeOf(orders[x.taker].terms)(x) == PayoutCents(x.shares)
  {
  }

  lemma OtherStakesStay(orders: Book, before: seq<Trade>, x: Trade, id: OrderId)
    requires TradeOk(orders, x) && id in orders && orders[id].terms.id == id && id != x.maker && id != x.taker
    ensures Stake(orders[id].terms, before + [x]) == Stake(orders[id].terms, before)
    ensures Matched(orders[id].terms, before + [x]) == Matched(orders[id].terms, before)
  {
    TradeSumAppend(before, x, StakeOf(orders[id].terms));
    TradeSumAppend(before, x, SharesOf(orders[id].terms));
  }

  /** One more trade of the market raises the stakes by its par value. */
  lemma StakesGrow(orders: Book, before: seq<Trade>, x: Trade, m: MarketId, s: set<OrderId>, currency: string)
    requires BookOk(orders) && TradeOk(orders, x) && WholeMarket(orders, m, s)
    ensures Sum(s, StakeIn(orders, before + [x], currency)) == Sum(s, StakeIn(orders, before, currency))
              + (if x.market == m && orders[x.maker].terms.currency == currency then PayoutCents(x.shares) else 0)
  {
    var f, g := StakeIn(orders, before, currency), StakeIn(orders, before + [x], currency);
    forall id | id in s && id != x.maker && id != x.taker ensures f(id) == g(id) {
      OtherStakesStay(orders, before, x, id);
    }
    if x.market == m {
      TradeSumAppend(before, x, StakeOf(orders[x.maker].terms));
      TradeSumAppend(before, x, StakeOf(orders[x.taker].terms));
      StakesCoverPar(orders, x);
      SumUpdateTwo<OrderId>(s, f, g, x.maker, x.taker);
    } else {
      SumCong<OrderId>(s, f, g);
    }
  }

  /** One more trade of the market raises the winners' shares by its shares. */
  lemma WinsGrow(orders: Book, before: seq<Trade>, x: Trade, m: MarketId, s: set<OrderId>, winner: string, currency: string)
    requires BookOk(orders) && TradeOk(orders, x) && WholeMarket(orders, m, s)
    ensures Sum(s, WonIn(orders, before + [x], winner, currency)) == Sum(s, WonIn(orders, before, winner, currency))
              + (if x.market == m && orders[x.maker].terms.currency == currency then x.shares else 0)
  {
    var f, g := WonIn(orders, before, winner, currency), WonIn(orders, before + [x], winner, currency);
    forall id | id in s && id != x.maker && id != x.taker ensures f(id) == g(id) {
      OtherStakesStay(orders, before, x, id);
    }
    if x.market == m {
      TradeSumAppend(before, x, SharesOf(orders[x.maker].terms));
      TradeSumAppend(before, x, SharesOf(orders[x.taker].terms));
      OneSideWins(orders, x, winner);
      SumUpdateTwo<OrderId>(s, f, g, x.maker, x.taker);
    } else {
      SumCong<OrderId>(s, f, g);
    }
  }

  // ----- exactly when the assertion holds -----

  /** The par value, rounded by itself, of a trade of market `m` in one currency. */
  ghost function ParAt(orders: Book, m: MarketId, currency: string, x: Trade): int {
    if x.market == m && x.maker in orders && orders[x.maker].terms.currency == currency then PayoutCents(x.shares) else 0
  }

  ghost function ParIn(orders: Book, m: MarketId, currency: string): Trade -> int {
    (x: Trade) => ParAt(orders, m, currency, x)
  }

  lemma {:induction false} StakesArePar(orders: Book, trades: seq<Trade>, m: MarketId, s: set<OrderId>, currency: string)
    requires BookOk(orders) && TradesOk(orders, trades) && WholeMarket(orders, m, s)
    ensures Sum(s, StakeIn(orders, trades, currency)) == TradeSum(trades, ParIn(orders, m, currency))
    decreases |trades|
  {
    if trades == [] {
      SumZero<OrderId>(s, StakeIn(orders, trades, currency));
    } else {
      var before, x := trades[..|trades| - 1], trades[|trades| - 1];
      assert trades == before + [x];
      assert TradeOk(orders, x);
      StakesArePar(orders, before, m, s, currency);
      StakesGrow(orders, before, x, m, s, currency);
    }
  }

  /** The orders of market `m`, each once. */
  ghost predicate MarketIds(orders: Book, m: MarketId, ids: seq<OrderId>) {
    Distinct(ids) && forall id :: id in ids <==> id in orders && orders[id].terms.market == m
  }

  lemma MarketSet(orders: Book, m: MarketId, ids: seq<OrderId>)
    requires MarketIds(orders, m, ids)
    ensures WholeMarket(orders, m, AsSet(ids)) && forall i | 0 <= i < |ids| :: ids[i] in orders
  {
    forall id ensures id in AsSet(ids) <==> id in ids {
    }
  }

  /** For any audited book, at any granularity: the assertion holds if and only if in every
      currency the par values of the market's trades, each rounded by itself, add up to the
      payouts of the winning orders. Prices do not enter. */
  lemma ConservedExactlyWhen(orders: Book, trades: seq<Trade>, m: MarketId, ids: seq<OrderId>, winner: string)
    requires BookOk(orders) && Audited(orders, trades) && MarketIds(orders, m, ids)
    ensures forall i | 0 <= i < |ids| :: ids[i] in orders
    ensures Conserved(orders, trades, winner, ids) <==>
            forall i | 0 <= i < |ids| ::
              var c := orders[ids[i]].terms.currency;
              TradeSum(trades, ParIn(orders, m, c)) == TotalPayout(orders, winner, ids, c)
  {
    MarketSet(orders, m, ids);
    forall i | 0 <= i < |ids|
      ensures var c := orders[ids[i]].terms.currency;
              TotalStake(orders, trades, ids, c) == TradeSum(trades, ParIn(orders, m, c))
    {
      var c := orders[ids[i]].terms.currency;
      TotalsAreSums(orders, trades, winner, ids, c);
      StakesArePar(orders, trades, m, AsSet(ids), c);
    }
  }

  // ----- when par is proportional to shares -----

  /** Par is proportional to shares on the multiples of `g` an order can have. */
  ghost predicate Proportional(g: int)
    requires g > 0
  {
    forall s {:trigger PayoutCents(s)} | 0 <= s <= MAX_SHARE_UNITS && Multiple(s, g) :: g * PayoutCents(s) == PayoutCents(g) * s
  }

  lemma GridProportional()
    ensures Proportional(GRID)
  {
    PayoutExact(GRID);
    forall s | 0 <= s <= MAX_SHARE_UNITS && Multiple(s, GRID) ensures GRID * PayoutCents(s) == PayoutCents(GRID) * s {
      PayoutExact(s);
    }
  }

  /** The trades behind one order's fills, each at par. */
  ghost predicate ParTrades(trades: seq<Trade>, g: int, par: int) {
    forall i | 0 <= i < |trades| :: g * PayoutCents(trades[i].shares) == par * trades[i].shares
  }

  /** What a market staked is par for what its winners hold. */
  lemma {:induction false} StakesAreParOfWins(orders: Book, trades: seq<Trade>, m: MarketId, s: set<OrderId>, winner: string, currency: string,
                                              g: int, par: int)
    requires BookOk(orders) && TradesOk(orders, trades) && WholeMarket(orders, m, s) && ParTrades(trades, g, par)
    ensures g * Sum(s, StakeIn(orders, trades, currency)) == par * Sum(s, WonIn(orders, trades, winner, currency))
    decreases |trades|
  {
    if trades == [] {
      SumZero<OrderId>(s, StakeIn(orders, trades, currency));
      SumZero<OrderId>(s, WonIn(orders, trades, winner, currency));
    } else {
      var before, x := trades[..|trades| - 1], trades[|trades| - 1];
      assert trades == before + [x];
      assert TradeOk(orders, x);
      StakesAreParOfWins(orders, before, m, s, winner, currency, g, par);
      StakesGrow(orders, before, x, m, s, currency);
      WinsGrow(orders, before, x, m, s, winner, currency);
      assert g * PayoutCents(x.shares) == par * x.shares;
      Distribute(Sum(s, StakeIn(orders, before, currency)), PayoutCents(x.shares), g);
      Distribute(Sum(s, WonIn(orders, before, winner, currency)), x.shares, par);
    }
  }

  /** Payouts of winners are par for their shares. */
  lemma PayoutsAreParOfWins(orders: Book, trades: seq<Trade>, s: set<OrderId>, winner: string, currency: string, g: int, par: int)
    requires BookOk(orders) && FillsMatch(orders, trades)
    requires forall id | id in orders :: g * PayoutCents(orders[id].filled) == par * orders[id].filled
    ensures g * Sum(s, PayoutIn(orders, winner, currency)) == par * Sum(s, WonIn(orders, trades, winner, currency))
  {
    var paid, won := PayoutIn(orders, winner, currency), WonIn(orders, trades, winner, currency);
    forall id | id in s ensures Times(g, paid)(id) == Times(par, won)(id) {
      if id in orders {
        assert orders[id].filled == Matched(orders[id].terms, trades);
      }
    }
    SumCong<OrderId>(s, Times(g, paid), Times(par, won));
    SumScale<OrderId>(s, paid, Times(g, paid), g);
    SumScale<OrderId>(s, won, Times(par, won), par);
  }

  /** If par is proportional on the granularity of every amount, the conservation assertion
      never fires, whatever was matched and whichever option wins. */
  lemma GranularConserved(st: State, m: MarketId, winner: string, g: int)
    requires g > 0 && Proportional(g)
    requires BookOk(st.orders) && Audited(st.orders, st.trades) && Granular(st.orders, st.trades, g)
    ensures var ids := SettlementQueue(st.orders, m);
            (forall i | 0 <= i < |ids| :: ids[i] in st.orders) && Conserved(st.orders, st.trades, winner, ids)
  {
    var ids := SettlementQueue(st.orders, m);
    QueueIsMarket(st, m);
    MarketConserved(st.orders, st.trades, m, ids, winner, g);
  }

  /** On whole hundredths of a share it never fires. */
  lemma ConservationNeverFires(st: State, m: MarketId, winner: string)
    requires BookOk(st.orders) && Audited(st.orders, st.trades) && Granular(st.orders, st.trades, GRID)
    ensures var ids := SettlementQueue(st.orders, m);
            (forall i | 0 <= i < |ids| :: ids[i] in st.orders) && Conserved(st.orders, st.trades, winner, ids)
  {
    GridProportional();
    GranularConserved(st, m, winner, GRID);
  }

  lemma TotalsProportional(orders: Book, trades: seq<Trade>, m: MarketId, ids: seq<OrderId>, winner: string, currency: string, g: int, par: int)
    requires BookOk(orders) && Audited(orders, trades) && MarketIds(orders, m, ids) && ParTrades(trades, g, par) && g > 0
    requires forall id | id in orders :: g * PayoutCents(orders[id].filled) == par * orders[id].filled
    ensures forall i | 0 <= i < |ids| :: ids[i] in orders
    ensures TotalStake(orders, trades, ids, currency) == TotalPayout(orders, winner, ids, currency)
  {
    MarketSet(orders, m, ids);
    TotalsAreSums(orders, trades, winner, ids, currency);
    StakesAreParOfWins(orders, trades, m, AsSet(ids), winner, currency, g, par);
    PayoutsAreParOfWins(orders, trades, AsSet(ids), winner, currency, g, par);
    hide BookOk, Audited, MarketIds, ParTrades, TotalStake, TotalPayout;
    Cancellation(g, TotalStake(orders, trades, ids, currency), TotalPayout(orders, winner, ids, currency));
  }

  lemma Cancellation(g: int, a: int, b: int)
    requires g > 0 && g * a == g * b
    ensures a == b
  {
    Distribute(a, -b, g);
    MulOrder(a - b, g);
  }

  lemma MarketConserved(orders: Book, trades: seq<Trade>, m: MarketId, ids: seq<OrderId>, winner: string, g: int)
    requires g > 0 && Proportional(g)
    requires BookOk(orders) && Audited(orders, trades) && Granular(orders, trades, g) && MarketIds(orders, m, ids)
    ensures (forall i | 0 <= i < |ids| :: ids[i] in orders) && Conserved(orders, trades, winner, ids)
  {
    forall i | 0 <= i < |trades| ensures g * PayoutCents(trades[i].shares) == PayoutCents(g) * trades[i].shares {
      assert TradeOk(orders, trades[i]);
      FillWithin(orders, trades, i, trades[i].maker);
    }
    forall id | id in orders ensures g * PayoutCents(orders[id].filled) == PayoutCents(g) * orders[id].filled {
      assert OrderOk(orders[id]);
    }
    forall i | 0 <= i < |ids|
      ensures ids[i] in orders
      ensures var c := orders[ids[i]].terms.currency; TotalStake(orders, trades, ids, c) == TotalPayout(orders, winner, ids, c)
    {
      assert ids[i] in orders;
      hide BookOk, Audited, Granular, Proportional, TotalStake, TotalPayout;
      TotalsProportional(orders, trades, m, ids, winner, orders[ids[i]].terms.currency, g, PayoutCents(g));
    }
  }

  // ----- a committed settlement conserves every currency -----

  ghost function OwnedAt(wallets: Wallets, currency: string, key: WalletKey): int {
    if key in wallets && key.currency == currency then wallets[key].balance + wallets[key].locked else 0
  }

  ghost function OwnedIn(wallets: Wallets, currency: string): WalletKey -> int {
    (key: WalletKey) => OwnedAt(wallets, currency, key)
  }

  /** All that the wallets of a currency own. */
  ghost function Owned(wallets: Wallets, currency: string): int {
    Sum(wallets.Keys, OwnedIn(wallets, currency))
  }

  lemma OneWalletMoves(a: Wallets, b: Wallets, key: WalletKey, currency: string)
    requires key in a && b.Keys == a.Keys && forall k | k in a && k != key :: b[k] == a[k]
    ensures Owned(b, currency) == Owned(a, currency) + OwnedAt(b, currency, key) - OwnedAt(a, currency, key)
  {
    SumUpdate<WalletKey>(a.Keys, OwnedIn(a, currency), OwnedIn(b, currency), key);
  }

  lemma {:induction false} TotalsFromFront(orders: Book, trades: seq<Trade>, winner: string, ids: seq<OrderId>, currency: string)
    requires ids != [] && forall i | 0 <= i < |ids| :: ids[i] in orders
    ensures TotalStake(orders, trades, ids, currency)
         == StakeAt(orders, trades, currency, ids[0]) + TotalStake(orders, trades, ids[1..], currency)
    ensures TotalPayout(orders, winner, ids, currency)
         == PayoutAt(orders, winner, currency, ids[0]) + TotalPayout(orders, winner, ids[1..], currency)
    decreases |ids|
  {
    if |ids| > 1 {
      var init := ids[..|ids| - 1];
      TotalsFromFront(orders, trades, winner, init, currency);
      assert ids[1..][..|ids| - 2] == init[1..];
    }
  }

  lemma {:induction false} TotalsCong(a: Book, b: Book, trades: seq<Trade>, winner: string, ids: seq<OrderId>, currency: string)
    requires forall i | 0 <= i < |ids| :: ids[i] in a && ids[i] in b && a[ids[i]] == b[ids[i]]
    ensures TotalStake(a, trades, ids, currency) == TotalStake(b, trades, ids, currency)
    ensures TotalPayout(a, winner, ids, currency) == TotalPayout(b, winner, ids, currency)
    decreases |ids|
  {
    if ids != [] {
      TotalsCong(a, b, trades, winner, ids[..|ids| - 1], currency);
    }
  }

  lemma {:induction false} ApplyAllOwned(st: State, ids: seq<OrderId>, winner: string, currency: string)
    requires Queued(st, ids) && BookOk(st.orders) && TradesOk(st.orders, st.trades)
    requires ApplyAll(st, ids, winner).Success?
    ensures Owned(ApplyAll(st, ids, winner).value.wallets, currency) == Owned(st.wallets, currency)
              + TotalPayout(st.orders, winner, ids, currency) - TotalStake(st.orders, st.trades, ids, currency)
    decreases |ids|
  {
    if ids != [] {
      var next := PayFirst(st, ids, winner);
      ApplyAllOwned(next, ids[1..], winner, currency);
      OneWalletMoves(st.wallets, next.wallets, KeyOf(st.orders[ids[0]].terms), currency);
      TotalsFromFront(st.orders, st.trades, winner, ids, currency);
      QueuedAfter(st, ids, CloseoutOf(st.orders[ids[0]], st.trades, winner), next);
      assert forall i | 0 <= i < |ids[1..]| :: ids[1..][i] == ids[i + 1];
      TotalsCong(st.orders, next.orders, st.trades, winner, ids[1..], currency);
    }
  }

  lemma {:induction false} AbsentCurrency(orders: Book, trades: seq<Trade>, winner: string, ids: seq<OrderId>, currency: string)
    requires forall i | 0 <= i < |ids| :: ids[i] in orders && orders[ids[i]].terms.currency != currency
    ensures TotalStake(orders, trades, ids, currency) == 0 && TotalPayout(orders, winner, ids, currency) == 0
    decreases |ids|
  {
    if ids != [] {
      AbsentCurrency(orders, trades, winner, ids[..|ids| - 1], currency);
    }
  }

  /** At any granularity, a settlement that commits changes no currency's total. */
  lemma SettlementConservesCurrencies(st: State, m: MarketId, e: EventId, winner: string, currency: string)
    requires Inv(st) && Settle(st, m, e, winner).Success?
    ensures Owned(Settle(st, m, e, winner).value.wallets, currency) == Owned(st.wallets, currency)
  {
    if Settles(st, m, e, winner) {
      var ids, paid := SettleEffect(st, m, e, winner);
      ApplyAllOwned(st, ids, winner, currency);
      TotalsAgree(st.orders, st.trades, winner, ids, currency);
    }
  }

  /** Conservation of the currencies met in the queue is conservation of every currency. */
  lemma TotalsAgree(orders: Book, trades: seq<Trade>, winner: string, ids: seq<OrderId>, currency: string)
    requires forall i | 0 <= i < |ids| :: ids[i] in orders
    requires Conserved(orders, trades, winner, ids)
    ensures TotalStake(orders, trades, ids, currency) == TotalPayout(orders, winner, ids, currency)
  {
    if i :| 0 <= i < |ids| && orders[ids[i]].terms.currency == currency {
      assert orders[ids[i]].terms.currency == currency;
    } else {
      AbsentCurrency(orders, trades, winner, ids, currency);
    }
  }

  // ----- what a settled order gains -----

  /** What a trade is worth to the order `t` at the price it was made: a buyer of the winning
      option gains the rest of par, of a losing one it loses the price, and a seller the reverse. */
  function FairGainOf(t: Terms, winner: string, x: Trade): int {
    if !Involves(x, t) then 0
    else
      match t.side
      case Buy => if t.option == winner then x.shares * (PRICE_SCALE - x.price) else -(x.shares * x.price)
      case Sell => if t.option == winner then -(x.shares * (PRICE_SCALE - x.price)) else x.shares * x.price
  }

  ghost function FairGain(t: Terms, winner: string): Trade -> int {
    (x: Trade) => FairGainOf(t, winner, x)
  }

  /** What the log says an order wins: par on its shares when its side wins, less its stakes. */
  ghost function LoggedGain(t: Terms, winner: string, trades: seq<Trade>): int {
    (if Wins(t, winner) then PRICE_SCALE * Matched(t, trades) else 0) - CENT_UNIT * Stake(t, trades)
  }

  lemma OneGain(orders: Book, x: Trade, id: OrderId, winner: string)
    requires id in orders && BookOk(orders) && TradeOk(orders, x) && WholeShares(x.shares) && WholeCents(x.price)
    ensures var t := orders[id].terms;
            FairGain(t, winner)(x)
            == (if Wins(t, winner) then PRICE_SCALE * SharesOf(t)(x) else 0) - CENT_UNIT * StakeOf(t)(x)
  {
    var t := orders[id].terms;
    if Involves(x, t) {
      assert OrderOk(orders[x.maker]);
      GridProductCents(x.shares, x.price);
      WholeSharesPayout(x.shares);
      GainAddsUp(x.shares, x.price, x.shares * x.price, PayoutCents(x.shares), ProductCents(x.shares, x.price));
    }
  }

  /** The linear part of `OneGain`. */
  lemma GainAddsUp(shares: int, price: int, product: int, par: int, cents: int)
    requires product == shares * price && product == CENT_UNIT * cents && shares == GRID * par
    ensures shares * (PRICE_SCALE - price) == PRICE_SCALE * shares - product
    ensures CENT_UNIT * (par - cents) == PRICE_SCALE * shares - product
  {
    Distribute(PRICE_SCALE, -price, shares);
  }

  lemma {:induction false} LoggedGainIsFair(orders: Book, trades: seq<Trade>, id: OrderId, winner: string)
    requires id in orders && BookOk(orders) && TradesOk(orders, trades) && WholeTrades(trades)
    ensures LoggedGain(orders[id].terms, winner, trades) == TradeSum(trades, FairGain(orders[id].terms, winner))
    decreases |trades|
  {
    if trades != [] {
      var t, before, x := orders[id].terms, trades[..|trades| - 1], trades[|trades| - 1];
      assert trades == before + [x];
      LoggedGainIsFair(orders, before, id, winner);
      TradeSumAppend(before, x, FairGain(t, winner));
      TradeSumAppend(before, x, SharesOf(t));
      TradeSumAppend(before, x, StakeOf(t));
      assert TradeOk(orders, x);
      OneGain(orders, x, id, winner);
    }
  }

  /** On the grid settlement pays exactly the odds of the trades: payout less stake is the sum
      over the order's trades of what each was worth at its price. */
  lemma SettlementPaysTheOdds(orders: Book, trades: seq<Trade>, id: OrderId, winner: string)
    requires id in orders && BookOk(orders) && Audited(orders, trades) && WholeTrades(trades)
    requires WholeShares(orders[id].filled)
    ensures var c := CloseoutOf(orders[id], trades, winner);
            CENT_UNIT * (c.payout - c.stake) == TradeSum(trades, FairGain(orders[id].terms, winner))
  {
    LoggedGainIsFair(orders, trades, id, winner);
    WholeSharesPayout(orders[id].filled);
    assert orders[id].filled == Matched(orders[id].terms, trades);
  }
}
