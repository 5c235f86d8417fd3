/** The conservation assertion over whole runs: for every granularity of the amounts, exactly
    when it can stop a settlement, with the run in which it does. */
module ConservationRuns {
  import opened Fixed
  import opened Sorting
  import opened Sums
  import opened Orders
  import opened BookInvariants
  import opened Collateral
  import opened Ledger
  import opened LedgerInvariants
  import opened LedgerRuns
  import opened SettlementRuns
  import opened Conservation
  import opened SolventRuns

  // ----- when par adds up -----

  /** How far `g` is from the nearest whole cents of par, the upper one when it is halfway. */
  function Residue(g: int): int {
    g - GRID * PayoutCents(g)
  }

  /** As many times `g` as one order can hold stay within half a cent of whole cents. */
  predicate ParAddsUp(g: int)
    requires g > 0
  {
    -GRID <= 2 * (MAX_SHARE_UNITS / g * Residue(g)) < GRID
  }

  lemma Multiplied(k: nat, g: int)
    requires g > 0
    ensures k * g >= 0 && k * g == GRID * (k * PayoutCents(g)) + k * Residue(g)
    ensures PayoutCents(k * g) == k * PayoutCents(g) <==> -GRID <= 2 * (k * Residue(g)) < GRID
  {
    var p, e := PayoutCents(g), Residue(g);
    MulNonNegative(k, g);
    Distribute(GRID * p, e, k);
    assert k * (GRID * p) == GRID * (k * p) by { Regroup(k, p); }
    PayoutError(k * g);
    hide PayoutCents;
    var a, b := PayoutCents(k * g), k * p;
    assert -GRID <= 2 * GRID * (b - a) + 2 * (k * e) < GRID;
  }

  lemma Regroup(k: int, p: int)
    ensures k * (GRID * p) == GRID * (k * p)
  {
  }

  /** Less of the same sign stays within the same bounds. */
  lemma Between(k: nat, most: nat, e: int)
    requires k <= most && -GRID <= 2 * (most * e) < GRID
    ensures -GRID <= 2 * (k * e) < GRID
  {
    Distribute(k, most - k, e);
    if e >= 0 {
      MulNonNegative(most - k, e);
      MulNonNegative(k, e);
    } else {
      MulNonNegative(most - k, -e);
      MulNonNegative(k, -e);
      assert k * e == -(k * -e) && (most - k) * e == -((most - k) * -e);
    }
  }

  lemma QuotientBounds(s: int, g: int)
    requires 0 <= s <= MAX_SHARE_UNITS && g > 0
    ensures 0 <= s / g <= MAX_SHARE_UNITS / g && MAX_SHARE_UNITS / g * g <= MAX_SHARE_UNITS
  {
    var k, most := s / g, MAX_SHARE_UNITS / g;
    assert s == k * g + s % g && MAX_SHARE_UNITS == most * g + MAX_SHARE_UNITS % g;
    if k > most {
      MulMonotone(g, most + 1, k);
      Distribute(most, 1, g);
    }
  }

  lemma TimesBoth(g: int, k: int, p: int)
    ensures g * (k * p) == p * (k * g)
  {
  }

  /** The closed form of proportionality. */
  lemma ProportionalExactlyWhen(g: int)
    requires g > 0
    ensures Proportional(g) <==> ParAddsUp(g)
  {
    var most, p := MAX_SHARE_UNITS / g, PayoutCents(g);
    QuotientBounds(0, g);
    if ParAddsUp(g) {
      forall s | 0 <= s <= MAX_SHARE_UNITS && Multiple(s, g) ensures g * PayoutCents(s) == p * s {
        var k := s / g;
        QuotientBounds(s, g);
        MultipleTimes(s, g);
        hide PayoutCents, Multiple;
        Between(k, most, Residue(g));
        Multiplied(k, g);
        TimesBoth(g, k, p);
      }
    } else {
      hide PayoutCents;
      Multiplied(most, g);
      MultipleOf(most, g);
      TimesBoth(g, most, p);
      if g * PayoutCents(most * g) == p * (most * g) { Cancellation(g, PayoutCents(most * g), most * p); }
    }
  }

  /** For every granularity of which an order can hold a hundred shares' worth of cents, the
      condition is that it is whole cents of par. */
  lemma SmallGranularity(g: int)
    requires g > 0 && GRID * g <= MAX_SHARE_UNITS
    ensures ParAddsUp(g) <==> g % GRID == 0
  {
    var most, e := MAX_SHARE_UNITS / g, Residue(g);
    PayoutError(g);
    assert most >= GRID by {
      QuotientBounds(GRID * g, g);
      assert GRID * g / g == GRID by { MultipleOf(GRID, g); }
    }
    assert e == 0 <==> g % GRID == 0;
    hide PayoutCents, Residue;
    if e >= 1 {
      MulMonotone(most, 1, e);
    } else if e <= -1 {
      MulMonotone(most, e, -1);
    }
  }

  // ----- one ask sold piece by piece -----

  const SELLER := WalletKey("m", "seller", "USD")
  const BUYER := WalletKey("m", "buyer", "USD")

  function Ask(amount: int): Terms {
    Terms(1, "m", "seller", 1, Sell, "Yes", amount, "USD", 500_000, Gtc, "", 1)
  }

  function Purchase(id: OrderId, amount: int): Terms {
    Terms(id, "m", "buyer", 1, Buy, "Yes", amount, "USD", 500_000, Gtc, "", id)
  }

  function Enough(t: Terms): int {
    OrderCollateral(t, t.amount) + 1
  }

  /** An ask for `k` times `g`, and `j` bids that each buy `g` of it. */
  function Sale(g: int, k: nat, j: nat): seq<Op> {
    if j == 0 then [OpOpen(1, "m", 1, ["Yes", "No"]), OpFund(SELLER, Enough(Ask(k * g))), OpPlace(Ask(k * g))]
    else Sale(g, k, j - 1) + [OpFund(BUYER, Enough(Purchase(j + 1, g))), OpPlace(Purchase(j + 1, g))]
  }

  /** Every amount placed is a multiple of `g`. */
  ghost predicate OfGranularity(ops: seq<Op>, g: int)
    requires g > 0
  {
    forall i | 0 <= i < |ops| && ops[i].OpPlace? :: Multiple(ops[i].terms.amount, g)
  }

  lemma {:induction false} SaleGranular(g: int, k: nat, j: nat)
    requires g > 0
    ensures OfGranularity(Sale(g, k, j), g)
  {
    MultipleOf(k, g);
    MultipleOf(1, g);
    if j > 0 { SaleGranular(g, k, j - 1); }
  }

  /** The seller's order after `j` of the bids. */
  function Offered(g: int, k: nat, j: nat): Order {
    Order(Ask(k * g), j * g, if j == 0 then Pending else if j * g < k * g then Partial else Filled)
  }

  function Bought(id: OrderId, g: int): Order {
    Order(Purchase(id, g), g, Filled)
  }

  ghost predicate Sold(st: State, g: int, k: nat, j: nat) {
    && st.markets.Keys == {1} && st.markets[1].(volume := 0) == Market("m", 1, ["Yes", "No"], Active, 0) && st.settlements == map[]
    && SELLER in st.wallets
    && 1 in st.orders && st.orders[1] == Offered(g, k, j)
    && (forall id | id in st.orders && id != 1 :: 2 <= id <= j + 1 && st.orders[id] == Bought(id, g))
    && |st.trades| == j && forall i | 0 <= i < |st.trades| :: st.trades[i].shares == g
  }

  lemma NextTwice(st: State, ops: seq<Op>, x: Op, y: Op)
    requires Inv(st)
    ensures Inv(Next(Run(st, ops), x)) && Run(st, ops + [x, y]) == Next(Next(Run(st, ops), x), y)
  {
    NextInv(Run(st, ops), x);
    RunSnoc(st, ops, x);
    RunSnoc(st, ops + [x], y);
    assert ops + [x, y] == ops + [x] + [y];
  }

  lemma {:induction false} RunSnoc(st: State, ops: seq<Op>, op: Op)
    requires Inv(st)
    ensures Run(st, ops + [op]) == Next(Run(st, ops), op)
    decreases |ops|
  {
    if ops == [] {
      assert [op][1..] == [];
    } else {
      NextInv(st, ops[0]);
      RunSnoc(Next(st, ops[0]), ops[1..], op);
      assert (ops + [op])[0] == ops[0] && (ops + [op])[1..] == ops[1..] + [op];
    }
  }

  function Stall(t: Terms): State {
    EMPTY.(markets := map[1 := Market("m", 1, ["Yes", "No"], Active, 0)],
           wallets := map[SELLER := Wallet(Enough(t), 0)], funded := map[SELLER := Enough(t)])
  }

  lemma StallOpens(g: int, k: nat)
    requires 0 < k * g <= MAX_SHARE_UNITS
    ensures Inv(EMPTY) && Inv(Stall(Ask(k * g))) && Run(EMPTY, Sale(g, k, 0)) == Next(Stall(Ask(k * g)), OpPlace(Ask(k * g)))
  {
    EmptyInv();
    ProductError(k * g, 500_000);
    var ops := Sale(g, k, 0);
    NextInv(EMPTY, ops[0]);
    var a := EMPTY.(markets := map[1 := Market("m", 1, ["Yes", "No"], Active, 0)]);
    assert Next(EMPTY, ops[0]) == a && Next(a, ops[1]) == Stall(Ask(k * g));
    hide Inv, Next, OrderCollateral;
    assert [ops[0]][1..] == [] && Run(EMPTY, [ops[0]]) == a;
    NextTwice(EMPTY, [ops[0]], ops[1], ops[2]);
    assert ops == [ops[0]] + [ops[1], ops[2]];
  }

  lemma AskRests(g: int, k: nat)
    requires 0 < k * g <= MAX_SHARE_UNITS && Inv(Stall(Ask(k * g)))
    ensures Sold(Next(Stall(Ask(k * g)), OpPlace(Ask(k * g))), g, k, 0)
  {
    var t := Ask(k * g);
    var st := Stall(t);
    PlacementRests(st.orders, st.trades, t);
    assert LockFunds(st.wallets, SELLER, Enough(t) - 1) == Success(st.wallets[SELLER := Wallet(1, Enough(t) - 1)]);
    assert Refunds(t, []) == 0;
    hide Inv, OrderCollateral;
  }

  /** A bid for `g` at the ask's price takes that much of it. */
  lemma BidTakes(orders: Book, trades: seq<Trade>, g: int, k: nat, j: nat)
    requires 0 < g <= MAX_SHARE_UNITS && j < k && 0 < k * g <= MAX_SHARE_UNITS && BookOk(orders)
    requires 1 in orders && orders[1] == Offered(g, k, j)
    requires forall id | id in orders && id != 1 :: 2 <= id <= j + 1 && orders[id] == Bought(id, g)
    ensures Placeable(orders, Purchase(j + 2, g))
    ensures MatchIncoming(orders, trades, Purchase(j + 2, g))
         == Matching(orders[1 := Offered(g, k, j + 1)][j + 2 := Bought(j + 2, g)], trades + [Trade(1, 1, j + 2, g, 500_000)])
  {
    var terms := Purchase(j + 2, g);
    LeftOver(g, k, j);
    assert j + 2 !in orders;
    OnlyCandidate(orders, terms, 1);
    var m := Matching(Inserted(orders, terms), trades);
    assert [1][1..] == [];
    assert FillAll(m, j + 2, [1]) == Fill(m, j + 2, 1);
    var r := MatchIncoming(orders, trades, terms);
    assert r.trades == trades + [Trade(1, 1, j + 2, g, 500_000)];
    assert r.orders[j + 2] == Bought(j + 2, g);
    assert r.orders[1] == Offered(g, k, j + 1);
    assert r.orders == orders[1 := Offered(g, k, j + 1)][j + 2 := Bought(j + 2, g)];
  }

  lemma LeftOver(g: int, k: nat, j: nat)
    requires g > 0 && j < k
    ensures k * g - j * g >= g && (j + 1) * g == j * g + g && (j > 0 ==> j * g > 0)
  {
    Distribute(k - j, j, g);
    MulMonotone(g, 1, k - j);
    Distribute(j, 1, g);
    MulPositive(j, g);
  }

  /** Nothing is given back: the price is the bid's own and the bid is filled. */
  lemma NothingBack(orders: Book, trades: seq<Trade>, g: int, id: OrderId)
    requires TradesOk(orders, trades) && id !in orders
    ensures PlacementRefund(Bought(id, g), trades + [Trade(1, 1, id, g, 500_000)]) == 0
  {
    RefundsNone(orders, trades, Purchase(id, g));
    TradeSumAppend(trades, Trade(1, 1, id, g, 500_000), RefundOf(Purchase(id, g)));
  }

  /** The tables after the match. */
  function Bids(st: State, g: int, k: nat, j: nat): Matching {
    Matching(st.orders[1 := Offered(g, k, j + 1)][j + 2 := Bought(j + 2, g)], st.trades + [Trade(1, 1, j + 2, g, 500_000)])
  }

  function AfterBid(st: State, g: int, k: nat, j: nat): State
    requires BUYER in st.wallets && 1 in st.markets
  {
    var terms, w := Purchase(j + 2, g), st.wallets[BUYER];
    var c := OrderCollateral(terms, g);
    st.(orders := Bids(st, g, k, j).orders, trades := Bids(st, g, k, j).trades,
        wallets := st.wallets[BUYER := Wallet(w.balance - c, w.locked + c)],
        markets := AddVolume(st.markets, 1, g))
  }

  lemma CommitsAs(st: State, locked: Wallets, terms: Terms, m: Matching)
    requires terms.id in m.orders && terms.market in st.markets && PlacementRefund(m.orders[terms.id], m.trades) == 0
    ensures CommitPlacement(st, locked, terms, m)
         == Success(st.(orders := m.orders, trades := m.trades, wallets := locked, markets := AddVolume(st.markets, terms.market, m.orders[terms.id].filled)))
  {
  }

  lemma BidMatches(st: State, g: int, k: nat, j: nat)
    requires 0 < g <= MAX_SHARE_UNITS && j < k && 0 < k * g <= MAX_SHARE_UNITS
    requires BookOk(st.orders) && TradesOk(st.orders, st.trades) && Sold(st, g, k, j)
    ensures !Taken(st.orders, Purchase(j + 2, g)) && MarketOpenFor(st.markets, Purchase(j + 2, g))
    ensures Placeable(st.orders, Purchase(j + 2, g)) && MatchIncoming(st.orders, st.trades, Purchase(j + 2, g)) == Bids(st, g, k, j)
    ensures PlacementRefund(Bought(j + 2, g), Bids(st, g, k, j).trades) == 0
  {
    hide BookOk, TradesOk, PlacementRefund, MatchIncoming, Offered;
    BidTakes(st.orders, st.trades, g, k, j);
    NothingBack(st.orders, st.trades, g, j + 2);
  }

  lemma BidCommits(st: State, g: int, k: nat, j: nat)
    requires 0 < g <= MAX_SHARE_UNITS && j < k && 0 < k * g <= MAX_SHARE_UNITS
    requires BookOk(st.orders) && TradesOk(st.orders, st.trades) && Sold(st, g, k, j)
    requires BUYER in st.wallets && st.wallets[BUYER].balance >= Enough(Purchase(j + 2, g))
    ensures Place(st, Purchase(j + 2, g)) == Success(AfterBid(st, g, k, j))
  {
    hide BookOk, TradesOk, MatchIncoming, OrderCollateral, PlacementRefund, Taken, MarketOpenFor, Placeable, Offered, CommitPlacement;
    BidMatches(st, g, k, j);
    var terms := Purchase(j + 2, g);
    CommitsAs(st, LockFunds(st.wallets, BUYER, OrderCollateral(terms, g)).value, terms, Bids(st, g, k, j));
  }

  lemma SoldMore(st: State, g: int, k: nat, j: nat)
    requires Sold(st, g, k, j) && BUYER in st.wallets
    ensures Sold(AfterBid(st, g, k, j), g, k, j + 1)
  {
    hide OrderCollateral, Offered;
  }

  lemma BidPlaced(st: State, g: int, k: nat, j: nat)
    requires 0 < g <= MAX_SHARE_UNITS && j < k && 0 < k * g <= MAX_SHARE_UNITS
    requires Inv(st) && Sold(st, g, k, j)
    requires BUYER in st.wallets && st.wallets[BUYER].balance >= Enough(Purchase(j + 2, g))
    ensures Sold(Next(st, OpPlace(Purchase(j + 2, g))), g, k, j + 1)
  {
    hide Sold, Place, OrderCollateral, Uncrossed, KeysUnique, ClosedInv, VolumeInv, MoneyInv;
    BidCommits(st, g, k, j);
    SoldMore(st, g, k, j);
  }

  lemma BalanceNonNegative(st: State, key: WalletKey)
    requires Inv(st) && key in st.wallets
    ensures st.wallets[key].balance >= 0
  {
    hide BookInv, ClosedInv, VolumeInv;
    assert WalletInv(st, key);
  }

  lemma BuyerFunded(st: State, g: int, k: nat, j: nat)
    requires g > 0 && Inv(st) && Sold(st, g, k, j)
    ensures var r := Next(st, OpFund(BUYER, Enough(Purchase(j + 2, g))));
            Inv(r) && Sold(r, g, k, j) && BUYER in r.wallets && r.wallets[BUYER].balance >= Enough(Purchase(j + 2, g))
  {
    NextInv(st, OpFund(BUYER, Enough(Purchase(j + 2, g))));
    ProductError(g, 500_000);
    if BUYER in st.wallets { BalanceNonNegative(st, BUYER); }
    hide Audited, Uncrossed, KeysUnique, ClosedInv, VolumeInv, MoneyInv, OrderCollateral, Offered;
  }

  lemma {:induction false} SaleSells(g: int, k: nat, j: nat)
    requires 0 < g <= MAX_SHARE_UNITS && 0 < k * g <= MAX_SHARE_UNITS && j <= k
    ensures Inv(EMPTY) && Sold(Run(EMPTY, Sale(g, k, j)), g, k, j)
  {
    if j == 0 {
      StallOpens(g, k);
      AskRests(g, k);
    } else {
      SaleSells(g, k, j - 1);
      var st, terms := Run(EMPTY, Sale(g, k, j - 1)), Purchase(j + 1, g);
      BuyerFunded(st, g, k, j - 1);
      BidPlaced(Next(st, OpFund(BUYER, Enough(terms))), g, k, j - 1);
      hide Inv, Next, Sold;
      NextTwice(EMPTY, Sale(g, k, j - 1), OpFund(BUYER, Enough(terms)), OpPlace(terms));
    }
  }

  // ----- what the assertion sees -----

  lemma {:induction false} TradeSumConst(trades: seq<Trade>, f: Trade -> int, c: int)
    requires forall i | 0 <= i < |trades| :: f(trades[i]) == c
    ensures TradeSum(trades, f) == |trades| * c
    decreases |trades|
  {
    if trades != [] {
      TradeSumConst(trades[..|trades| - 1], f, c);
      Distribute(|trades| - 1, 1, c);
    }
  }

  lemma SoldPar(st: State, g: int, k: nat)
    requires TradesOk(st.orders, st.trades) && Sold(st, g, k, k)
    ensures TradeSum(st.trades, ParIn(st.orders, 1, "USD")) == k * PayoutCents(g)
  {
    hide PayoutCents;
    forall i | 0 <= i < |st.trades| ensures ParIn(st.orders, 1, "USD")(st.trades[i]) == PayoutCents(g) {
      assert TradeOk(st.orders, st.trades[i]);
    }
    TradeSumConst(st.trades, ParIn(st.orders, 1, "USD"), PayoutCents(g));
  }

  lemma OnlyTheAskIsPaid(st: State, g: int, k: nat, id: OrderId)
    requires Sold(st, g, k, k)
    ensures PayoutIn(st.orders, "No", "USD")(id) == if id == 1 then PayoutCents(k * g) else 0
  {
    hide PayoutCents;
  }

  /** When the ask wins it is paid once for what it sold in `k` pieces. */
  lemma SoldPayout(st: State, g: int, k: nat, ids: seq<OrderId>)
    requires Sold(st, g, k, k) && MarketIds(st.orders, 1, ids)
    ensures forall i | 0 <= i < |ids| :: ids[i] in st.orders
    ensures TotalPayout(st.orders, "No", ids, "USD") == PayoutCents(k * g)
  {
    MarketSet(st.orders, 1, ids);
    var s, paid := AsSet(ids), PayoutIn(st.orders, "No", "USD");
    assert 1 in s;
    hide PayoutCents, TotalPayout, Sold, AsSet, PayoutIn;
    TotalsAreSums(st.orders, st.trades, "No", ids, "USD");
    forall id ensures paid(id) == if id == 1 then PayoutCents(k * g) else 0 {
      OnlyTheAskIsPaid(st, g, k, id);
    }
    SumRemove<OrderId>(s, paid, 1);
    SumZero<OrderId>(s - {1}, paid);
  }

  /** A run from empty tables that ends in a market which can never be settled for this outcome. */
  lemma SaleCannotSettle(g: int, k: nat)
    requires 0 < g <= MAX_SHARE_UNITS && 0 < k * g <= MAX_SHARE_UNITS && PayoutCents(k * g) != k * PayoutCents(g)
    ensures OfGranularity(Sale(g, k, k), g)
    ensures Inv(EMPTY) && Settle(Run(EMPTY, Sale(g, k, k)), 1, 1, "No") == Failure(NotConserved)
  {
    SaleGranular(g, k, k);
    SaleSells(g, k, k);
    var st := Run(EMPTY, Sale(g, k, k));
    var ids := SettlementQueue(st.orders, 1);
    QueueIsMarket(st, 1);
    AuditNeverRejects(st, 1);
    SoldPar(st, g, k);
    SoldPayout(st, g, k, ids);
    ConservedExactlyWhen(st.orders, st.trades, 1, ids, "No");
    assert 1 in ids;
    var i :| 0 <= i < |ids| && ids[i] == 1;
    assert st.orders[ids[i]].terms.currency == "USD";
  }

  /** An ask of one hundredth of a share sold in two halves: par of each half is a whole cent,
      par of both is one cent. */
  lemma TwoHalvesCannotSettle()
    ensures Inv(EMPTY) && Settle(Run(EMPTY, Sale(5_000, 2, 2)), 1, 1, "No") == Failure(NotConserved)
  {
    SaleCannotSettle(5_000, 2);
  }

  // ----- exactly when it never fires -----

  /** In no run with amounts of this granularity does the assertion stop a settlement. */
  ghost predicate AlwaysConserves(g: int)
    requires g > 0 && Inv(EMPTY)
  {
    forall ops, m, e, winner | OfGranularity(ops, g) :: Settle(Run(EMPTY, ops), m, e, winner) != Failure(NotConserved)
  }

  lemma NeverStops(ops: seq<Op>, g: int, m: MarketId, e: EventId, winner: string)
    requires g > 0 && Proportional(g) && OfGranularity(ops, g) && Inv(EMPTY)
    ensures Settle(Run(EMPTY, ops), m, e, winner) != Failure(NotConserved)
  {
    RunGranular(EMPTY, ops, g);
    var st := Run(EMPTY, ops);
    GranularConserved(st, m, winner, g);
    QueueIsMarket(st, m);
    AuditNeverRejects(st, m);
    ApplyAllFailure(st, SettlementQueue(st.orders, m), winner);
  }

  /** For every granularity of the amounts: the conservation assertion stops no settlement of
      any run if and only if as many times `g` as one order can hold stay within half a cent of
      whole cents of par. */
  lemma ConservesExactlyWhen(g: int)
    requires g > 0
    ensures Inv(EMPTY)
    ensures AlwaysConserves(g) <==> ParAddsUp(g)
  {
    EmptyInv();
    ProportionalExactlyWhen(g);
    hide ParAddsUp, Inv;
    if ParAddsUp(g) {
      forall ops, m, e, winner | OfGranularity(ops, g) ensures Settle(Run(EMPTY, ops), m, e, winner) != Failure(NotConserved) {
        NeverStops(ops, g, m, e, winner);
      }
    } else {
      var k := Uneven(g);
      SaleCannotSettle(g, k);
    }
  }

  /** The piece count at which par does not add up. */
  lemma Uneven(g: int) returns (k: nat)
    requires g > 0 && !ParAddsUp(g)
    ensures g <= MAX_SHARE_UNITS && 0 < k * g <= MAX_SHARE_UNITS && PayoutCents(k * g) != k * PayoutCents(g)
  {
    k := MAX_SHARE_UNITS / g;
    QuotientBounds(0, g);
    Multiplied(k, g);
    hide PayoutCents, Residue;
    MulPositive(k, g);
    MulMonotone(g, 1, k);
  }

  /** For every granularity up to a ten-thousandth of the largest order, that is: if and only if
      it is whole hundredths of a share. */
  lemma ConservesOnlyOnGrid(g: int)
    requires g > 0 && GRID * g <= MAX_SHARE_UNITS
    ensures Inv(EMPTY)
    ensures AlwaysConserves(g) <==> g % GRID == 0
  {
    ConservesExactlyWhen(g);
    SmallGranularity(g);
  }
}
