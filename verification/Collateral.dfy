/** The money behind one order: what placing, matching and cancelling leave locked for it,
    and what settlement takes for it. The two packages round separately; here is how far
    they agree. */
module Collateral {
  import opened Fixed
  import opened Orders
  import opened BookInvariants

  function OrderCollateral(t: Terms, shares: int): int {
    CollateralCents(t.side, shares, t.price)
  }

  /** What a trade stakes for the order `t`. */
  ghost function StakeOf(t: Terms): Trade -> int {
    (x: Trade) => if Involves(x, t) then StakeCents(t.side, x.shares, x.price) else 0
  }

  /** What a trade refunds to the order `t` when it took a better price than its limit. */
  ghost function RefundOf(t: Terms): Trade -> int {
    (x: Trade) => if x.market == t.market && x.taker == t.id
                  then PriceImprovementCents(t.side, x.shares, t.price, x.price) else 0
  }

  ghost function Refunds(t: Terms, trades: seq<Trade>): int {
    TradeSum(trades, RefundOf(t))
  }

  ghost function Stake(t: Terms, trades: seq<Trade>): int {
    TradeSum(trades, StakeOf(t))
  }

  /** The cents that placing and cancelling have left locked for an order. */
  ghost function Held(o: Order, trades: seq<Trade>): int {
    OrderCollateral(o.terms, o.terms.amount) - Refunds(o.terms, trades)
    - (if o.status.Cancelled? then OrderCollateral(o.terms, o.Remaining()) else 0)
  }

  /** Settlement's refund of the unfilled part; it does not look at the status. */
  function UnfilledCents(o: Order): int {
    if o.Remaining() > 0 then OrderCollateral(o.terms, o.Remaining()) else 0
  }

  /** The cents settlement takes out of the locked balance for an order. */
  ghost function Takes(o: Order, trades: seq<Trade>): int {
    Stake(o.terms, trades) + UnfilledCents(o)
  }

  // ----- rounding drift -----

  ghost function FillCount(t: Terms): Trade -> int {
    (x: Trade) => if Involves(x, t) then 1 else 0
  }

  ghost function ImprovedCount(t: Terms): Trade -> int {
    (x: Trade) => if Involves(x, t) && x.price != t.price then 1 else 0
  }

  /** The roundings, in half cents, that can separate the two accounts of an order. */
  ghost function DriftHalfCents(t: Terms, trades: seq<Trade>): int {
    2 + TradeSum(trades, ImprovedCount(t)) + (if t.side.Buy? then 1 else 2) * TradeSum(trades, FillCount(t))
  }

  ghost predicate WholeTrades(trades: seq<Trade>) {
    forall i | 0 <= i < |trades| :: WholeShares(trades[i].shares) && WholeCents(trades[i].price)
  }

  ghost predicate WholeTerms(t: Terms) {
    WholeShares(t.amount) && WholeCents(t.price)
  }

  lemma OneFill(orders: Book, x: Trade, id: OrderId)
    requires id in orders && BookOk(orders) && TradeOk(orders, x)
    ensures var t := orders[id].terms;
            Involves(x, t) ==> (
              && ValidPrice(x.price) && Improvement(t.side, t.price, x.price) >= 0
              && StakeOf(t)(x) + RefundOf(t)(x)
                 == StakeCents(t.side, x.shares, x.price) + PriceImprovementCents(t.side, x.shares, t.price, x.price))
    ensures !Involves(x, orders[id].terms) ==> StakeOf(orders[id].terms)(x) == RefundOf(orders[id].terms)(x) == 0
  {
    assert OrderOk(orders[x.maker]);
  }

  /** Twice the drift of the fills alone, in hundredths of a millionth squared. */
  ghost function FillsError(t: Terms, trades: seq<Trade>): int {
    2 * CENT_UNIT * (Stake(t, trades) + Refunds(t, trades)) - 2 * (Matched(t, trades) * Exposure(t.side, t.price))
  }

  lemma FillsErrorAppend(t: Terms, before: seq<Trade>, x: Trade)
    ensures FillsError(t, before + [x]) == FillsError(t, before)
              + 2 * CENT_UNIT * (StakeOf(t)(x) + RefundOf(t)(x)) - 2 * (SharesOf(t)(x) * Exposure(t.side, t.price))
  {
    TradeSumAppend(before, x, StakeOf(t));
    TradeSumAppend(before, x, RefundOf(t));
    TradeSumAppend(before, x, SharesOf(t));
    Distribute(TradeSum(before, SharesOf(t)), SharesOf(t)(x), Exposure(t.side, t.price));
  }

  lemma {:induction false} FillsErrorBound(orders: Book, trades: seq<Trade>, id: OrderId)
    requires id in orders && BookOk(orders) && TradesOk(orders, trades)
    ensures var t := orders[id].terms; var halves := DriftHalfCents(t, trades) - 2;
            -halves * CENT_UNIT <= FillsError(t, trades) <= halves * CENT_UNIT
    decreases |trades|
  {
    if trades != [] {
      var t, before, x := orders[id].terms, trades[..|trades| - 1], trades[|trades| - 1];
      assert trades == before + [x];
      FillsErrorBound(orders, before, id);
      FillsErrorAppend(t, before, x);
      TradeSumAppend(before, x, FillCount(t));
      TradeSumAppend(before, x, ImprovedCount(t));
      assert TradeOk(orders, x);
      OneFillBound(orders, x, id);
    }
  }

  lemma OneFillBound(orders: Book, x: Trade, id: OrderId)
    requires id in orders && BookOk(orders) && TradeOk(orders, x)
    ensures var t := orders[id].terms;
            var halves := ImprovedCount(t)(x) + (if t.side.Buy? then 1 else 2) * FillCount(t)(x);
            var error := 2 * CENT_UNIT * (StakeOf(t)(x) + RefundOf(t)(x)) - 2 * (SharesOf(t)(x) * Exposure(t.side, t.price));
            -halves * CENT_UNIT <= error <= halves * CENT_UNIT
  {
    var t := orders[id].terms;
    OneFill(orders, x, id);
    if Involves(x, t) {
      FillErrorBound(t.side, x.shares, t.price, x.price);
    }
  }

  lemma {:induction false} FillsErrorOnGrid(orders: Book, trades: seq<Trade>, id: OrderId)
    requires id in orders && BookOk(orders) && TradesOk(orders, trades)
    requires WholeTerms(orders[id].terms) && WholeTrades(trades)
    ensures FillsError(orders[id].terms, trades) == 0
    decreases |trades|
  {
    if trades != [] {
      var t, before, x := orders[id].terms, trades[..|trades| - 1], trades[|trades| - 1];
      assert trades == before + [x];
      FillsErrorOnGrid(orders, before, id);
      FillsErrorAppend(t, before, x);
      assert TradeOk(orders, x);
      OneFill(orders, x, id);
      if Involves(x, t) {
        FillErrorOnGrid(t.side, x.shares, t.price, x.price);
      }
    }
  }

  /** For every uncancelled order of an audited book, what is locked and what settlement
      takes differ by at most half a cent per rounding. */
  lemma RoundingDrift(orders: Book, trades: seq<Trade>, id: OrderId)
    requires BookOk(orders) && Audited(orders, trades)
    requires id in orders && !orders[id].status.Cancelled?
    ensures var o := orders[id]; var drift := 2 * (Held(o, trades) - Takes(o, trades));
            -DriftHalfCents(o.terms, trades) <= drift <= DriftHalfCents(o.terms, trades)
  {
    var o := orders[id];
    var t, e := o.terms, Exposure(o.terms.side, o.terms.price);
    FillsErrorBound(orders, trades, id);
    ProductError(t.amount, e);
    ProductError(o.Remaining(), e);
    Distribute(o.filled, o.Remaining(), e);
    DriftAddsUp(OrderCollateral(t, t.amount), OrderCollateral(t, o.Remaining()), Stake(t, trades) + Refunds(t, trades),
                t.amount * e, o.Remaining() * e, o.filled * e, DriftHalfCents(t, trades) - 2);
  }

  ghost function TakenCount(t: Terms): Trade -> int {
    (x: Trade) => if x.market == t.market && x.taker == t.id then 1 else 0
  }

  /** Only the fills an order took can improve on its price: a maker trades at its own. */
  lemma {:induction false} ImprovedAreTaken(orders: Book, trades: seq<Trade>, id: OrderId)
    requires id in orders && BookOk(orders) && TradesOk(orders, trades)
    ensures TradeSum(trades, ImprovedCount(orders[id].terms)) <= TradeSum(trades, TakenCount(orders[id].terms))
    decreases |trades|
  {
    if trades != [] {
      var t, before, x := orders[id].terms, trades[..|trades| - 1], trades[|trades| - 1];
      assert trades == before + [x];
      ImprovedAreTaken(orders, before, id);
      TradeSumAppend(before, x, ImprovedCount(t));
      TradeSumAppend(before, x, TakenCount(t));
      assert TradeOk(orders, x);
    }
  }

  /** The same bound counted by fills: n in all, t of them as the taker. */
  lemma RoundingDriftByFills(orders: Book, trades: seq<Trade>, id: OrderId)
    requires BookOk(orders) && Audited(orders, trades)
    requires id in orders && !orders[id].status.Cancelled?
    ensures var o := orders[id];
            var n, t := TradeSum(trades, FillCount(o.terms)), TradeSum(trades, TakenCount(o.terms));
            var bound := if o.terms.side.Buy? then 2 + t + n else 2 + t + 2 * n;
            -bound <= 2 * (Held(o, trades) - Takes(o, trades)) <= bound
  {
    RoundingDrift(orders, trades, id);
    ImprovedAreTaken(orders, trades, id);
  }

  lemma DriftAddsUp(whole: int, rest: int, fills: int, x: int, y: int, z: int, halves: int)
    requires x == y + z
    requires -CENT_UNIT <= 2 * x - 2 * CENT_UNIT * whole <= CENT_UNIT
    requires -CENT_UNIT <= 2 * y - 2 * CENT_UNIT * rest <= CENT_UNIT
    requires -halves * CENT_UNIT <= 2 * CENT_UNIT * fills - 2 * z <= halves * CENT_UNIT
    ensures -(2 + halves) <= 2 * (whole - rest - fills) <= 2 + halves
  {
  }

  /** On the grid there is no drift: an uncancelled order has locked exactly what
      settlement takes, and a cancelled one its unfilled part less. */
  lemma NoDriftOnGrid(orders: Book, trades: seq<Trade>, id: OrderId)
    requires BookOk(orders) && Audited(orders, trades)
    requires id in orders && WholeTerms(orders[id].terms) && WholeTrades(trades) && WholeShares(orders[id].filled)
    ensures var o := orders[id];
            Held(o, trades) == Takes(o, trades) - (if o.status.Cancelled? then UnfilledCents(o) else 0)
  {
    var o := orders[id];
    var t, e := o.terms, Exposure(o.terms.side, o.terms.price);
    assert CENT_UNIT * OrderCollateral(t, t.amount) == t.amount * e by { ExactCollateral(t, t.amount); }
    assert CENT_UNIT * OrderCollateral(t, o.Remaining()) == o.Remaining() * e by { RemainingCollateral(o); }
    assert 2 * CENT_UNIT * (Stake(t, trades) + Refunds(t, trades)) == 2 * (o.filled * e) by { FillsErrorOnGrid(orders, trades, id); }
    assert t.amount * e == o.Remaining() * e + o.filled * e by { Distribute(o.filled, o.Remaining(), e); }
    assert o.Remaining() == 0 ==> OrderCollateral(t, o.Remaining()) == 0;
    ExactAddsUp(OrderCollateral(t, t.amount), OrderCollateral(t, o.Remaining()), Stake(t, trades) + Refunds(t, trades),
                t.amount * e, o.Remaining() * e, o.filled * e);
  }

  lemma ExactAddsUp(whole: int, rest: int, fills: int, x: int, y: int, z: int)
    requires CENT_UNIT * whole == x && CENT_UNIT * rest == y && 2 * CENT_UNIT * fills == 2 * z && x == y + z
    ensures whole == rest + fills
  {
  }

  lemma WholeDifference(a: int, b: int)
    requires WholeShares(a) && WholeShares(b)
    ensures WholeShares(a - b)
  {
  }

  lemma RemainingCollateral(o: Order)
    requires OrderOk(o) && WholeTerms(o.terms) && WholeShares(o.filled)
    ensures CENT_UNIT * OrderCollateral(o.terms, o.Remaining()) == o.Remaining() * Exposure(o.terms.side, o.terms.price)
    ensures OrderCollateral(o.terms, o.Remaining()) == UnfilledCents(o) >= 0
    ensures o.Remaining() > 0 ==> UnfilledCents(o) > 0
  {
    WholeDifference(o.terms.amount, o.filled);
    ExactCollateral(o.terms, o.Remaining());
  }

  lemma ExactCollateral(t: Terms, shares: int)
    requires shares >= 0 && WholeShares(shares) && WholeTerms(t) && ValidPrice(t.price)
    ensures CENT_UNIT * OrderCollateral(t, shares) == shares * Exposure(t.side, t.price)
    ensures shares > 0 ==> OrderCollateral(t, shares) > 0
    ensures shares == 0 ==> OrderCollateral(t, shares) == 0
  {
    var e := Exposure(t.side, t.price);
    GridProduct(shares, e);
    ProductExact(shares, e, (shares / SHARE_SCALE) * (e / GRID));
    MulPositive(shares, e);
  }

  lemma MulPositive(a: int, b: int)
    requires a >= 0 && b > 0
    ensures a > 0 ==> a * b > 0
    ensures a == 0 ==> a * b == 0
  {
  }

  lemma {:induction false} StakeIsNonNegative(orders: Book, trades: seq<Trade>, t: Terms)
    requires BookOk(orders) && TradesOk(orders, trades)
    ensures Stake(t, trades) >= 0
    decreases |trades|
  {
    if trades != [] {
      var before, x := trades[..|trades| - 1], trades[|trades| - 1];
      assert trades == before + [x];
      StakeIsNonNegative(orders, before, t);
      TradeSumAppend(before, x, StakeOf(t));
      assert TradeOk(orders, x);
      assert OrderOk(orders[x.maker]);
      StakeNonNegative(t.side, x.shares, x.price);
    }
  }

  lemma UnfilledNonNegative(o: Order)
    requires OrderOk(o)
    ensures 0 <= UnfilledCents(o) && (o.Remaining() >= 0 ==> OrderCollateral(o.terms, o.Remaining()) == UnfilledCents(o))
  {
    ProductError(o.Remaining(), Exposure(o.terms.side, o.terms.price));
  }

  /** On the grid every order's locked cents are non-negative, and positive for a
      cancelled remainder settlement would take a second time. */
  lemma HeldOnGrid(orders: Book, trades: seq<Trade>, id: OrderId)
    requires BookOk(orders) && Audited(orders, trades)
    requires id in orders && WholeTerms(orders[id].terms) && WholeTrades(trades) && WholeShares(orders[id].filled)
    ensures Held(orders[id], trades) >= (if orders[id].Open() then UnfilledCents(orders[id]) else 0)
    ensures UnfilledCents(orders[id]) >= 0
    ensures orders[id].status.Cancelled? ==> UnfilledCents(orders[id]) > 0
  {
    var o := orders[id];
    RemainingCollateral(o);
    assert Held(o, trades) == Takes(o, trades) - (if o.status.Cancelled? then UnfilledCents(o) else 0) by {
      NoDriftOnGrid(orders, trades, id);
    }
    assert Stake(o.terms, trades) >= 0 by { StakeIsNonNegative(orders, trades, o.terms); }
  }

  // ----- granularity is kept by matching -----

  ghost predicate Multiple(x: int, g: int)
    requires g > 0
  {
    x % g == 0
  }

  lemma MultipleTimes(a: int, g: int)
    requires g > 0 && Multiple(a, g)
    ensures a == a / g * g
  {
  }

  lemma MultipleDifference(a: int, b: int, g: int)
    requires g > 0 && Multiple(a, g) && Multiple(b, g)
    ensures Multiple(a - b, g) && Multiple(a + b, g)
  {
    MultipleTimes(a, g);
    MultipleTimes(b, g);
    var i, j := a / g, b / g;
    hide Multiple;
    Distribute(i, -j, g);
    Distribute(i, j, g);
    MultipleOf(i - j, g);
    MultipleOf(i + j, g);
  }

  lemma MulOrder(x: int, g: int)
    requires g > 0
    ensures x >= 1 ==> x * g >= g
    ensures x <= -1 ==> x * g <= -g
  {
  }

  lemma MultipleOf(k: int, g: int)
    requires g > 0
    ensures Multiple(k * g, g)
  {
    var q, r := k * g / g, k * g % g;
    assert k * g == q * g + r;
    assert (k - q) * g == r;
    MulOrder(k - q, g);
  }

  /** Every amount, fill and trade is a multiple of `g`. */
  ghost predicate Granular(orders: Book, trades: seq<Trade>, g: int)
    requires g > 0
  {
    && (forall id | id in orders :: Multiple(orders[id].terms.amount, g) && Multiple(orders[id].filled, g))
    && (forall i | 0 <= i < |trades| :: Multiple(trades[i].shares, g))
  }

  lemma FillGranular(m: Matching, taker: OrderId, maker: OrderId, g: int)
    requires g > 0 && taker in m.orders && maker in m.orders && Granular(m.orders, m.trades, g)
    requires 0 <= m.orders[taker].Remaining() && 0 <= m.orders[maker].Remaining()
    ensures Granular(Fill(m, taker, maker).orders, Fill(m, taker, maker).trades, g)
  {
    var t, k := m.orders[taker], m.orders[maker];
    MultipleDifference(t.terms.amount, t.filled, g);
    MultipleDifference(k.terms.amount, k.filled, g);
    var shares := Min(t.Remaining(), k.Remaining());
    MultipleDifference(t.filled, shares, g);
    MultipleDifference(k.filled, shares, g);
  }

  lemma {:induction false} FillAllGranular(m: Matching, taker: OrderId, makers: seq<OrderId>, g: int)
    requires g > 0 && Ready(m, taker, makers) && Granular(m.orders, m.trades, g)
    ensures Granular(FillAll(m, taker, makers).orders, FillAll(m, taker, makers).trades, g)
    decreases |makers|
  {
    if makers != [] && m.orders[taker].Remaining() != 0 {
      FillReady(m, taker, makers);
      FillGranular(m, taker, makers[0], g);
      FillAllGranular(Fill(m, taker, makers[0]), taker, makers[1..], g);
    }
  }

  /** Fills are minima of remainders, so a grid of amounts is a grid of fills. */
  lemma PlacementGranular(orders: Book, trades: seq<Trade>, terms: Terms, queue: seq<OrderId>, g: int)
    requires g > 0 && Matchable(orders, terms, queue)
    requires Granular(orders, trades, g) && Multiple(terms.amount, g)
    ensures var r := Match(orders, trades, terms, queue); Granular(r.orders, r.trades, g)
  {
    var m := Matching(Inserted(orders, terms), trades);
    QueueReady(orders, trades, terms, queue);
    assert Granular(m.orders, m.trades, g) by { MultipleOf(0, g); }
    FillAllGranular(m, terms.id, queue, g);
    FillAllTaker(m, terms.id, queue);
    RestGranular(FillAll(m, terms.id, queue).orders, FillAll(m, terms.id, queue).trades, terms.id, g);
  }

  lemma RestGranular(orders: Book, trades: seq<Trade>, id: OrderId, g: int)
    requires g > 0 && id in orders && Granular(orders, trades, g)
    requires orders[id].filled <= orders[id].terms.amount
    ensures Granular(orders[id := Rest(orders[id])], trades, g)
  {
  }
}
