/** Orders, trades, and the price-time-priority matching both order repositories run. */
module Orders {
  import opened Fixed
  import opened Sorting

  type OrderId = nat
  type MarketId = nat

  datatype TimeInForce = Gtc | Ioc

  datatype Status = Pending | Partial | Filled | Cancelled

  /** What a customer asked for; no operation of the exchange ever changes it. */
  datatype Terms = Terms(
    id: OrderId, merchant: string, user: string, market: MarketId, side: Side, option: string,
    amount: int, currency: string, price: int, tif: TimeInForce, key: string, createdAt: int)

  datatype Order = Order(terms: Terms, filled: int, status: Status) {
    function Remaining(): int { terms.amount - filled }

    predicate Open() { status.Pending? || status.Partial? }
  }

  type Book = map<OrderId, Order>

  datatype Trade = Trade(market: MarketId, maker: OrderId, taker: OrderId, shares: int, price: int)

  /** The order a validated request becomes. */
  function NewOrder(terms: Terms): Order {
    Order(terms, 0, Pending)
  }

  ghost predicate ValidTerms(t: Terms) {
    ValidShares(t.amount) && ValidPrice(t.price)
  }

  /** What every stored order satisfies between transactions. */
  ghost predicate OrderOk(o: Order) {
    && ValidTerms(o.terms)
    && 0 <= o.filled <= o.terms.amount
    && (o.status.Pending? <==> o.Open() && o.filled == 0)
    && (o.status.Filled? <==> o.filled == o.terms.amount)
  }

  ghost predicate BookOk(orders: Book) {
    forall id | id in orders :: orders[id].terms.id == id && OrderOk(orders[id])
  }

  // ----- candidates -----

  predicate SameBook(a: Terms, b: Terms) {
    a.merchant == b.merchant && a.market == b.market && a.option == b.option && a.currency == b.currency
  }

  predicate Crosses(taker: Terms, maker: Terms) {
    if taker.side.Buy? then maker.price <= taker.price else maker.price >= taker.price
  }

  /** `maker` may trade against the incoming order `taker`. */
  predicate Eligible(taker: Terms, maker: Order) {
    && maker.terms.id != taker.id
    && maker.Open()
    && SameBook(maker.terms, taker)
    && maker.terms.user != taker.user && maker.terms.side != taker.side
    && Crosses(taker, maker.terms)
  }

  /** Best price first, then earliest creation, then smallest identifier. */
  predicate HasPriority(side: Side, a: Terms, b: Terms) {
    if a.price == b.price then
      if a.createdAt == b.createdAt then a.id < b.id else a.createdAt < b.createdAt
    else if side.Buy? then a.price < b.price else a.price > b.price
  }

  function Priority(orders: Book, side: Side): (nat, nat) -> bool {
    (a: nat, b: nat) => a in orders && b in orders && HasPriority(side, orders[a].terms, orders[b].terms)
  }

  function EligibleMakers(orders: Book, taker: Terms): set<OrderId> {
    set id | id in orders && Eligible(taker, orders[id])
  }

  lemma PriorityTotal(orders: Book, side: Side)
    requires forall id | id in orders :: orders[id].terms.id == id
    ensures StrictTotal(orders.Keys, Priority(orders, side))
  {
  }

  /** The resting orders an incoming order is matched against, in matching order. */
  ghost function Candidates(orders: Book, taker: Terms): (r: seq<OrderId>)
    requires forall id | id in orders :: orders[id].terms.id == id
    ensures IsSortOf(r, EligibleMakers(orders, taker), Priority(orders, taker.side))
  {
    PriorityTotal(orders, taker.side);
    Sort(EligibleMakers(orders, taker), Priority(orders, taker.side))
  }

  // ----- matching -----

  function WithFillStatus(o: Order): Order {
    if o.filled == 0 then o.(status := Pending)
    else if o.filled < o.terms.amount then o.(status := Partial)
    else o.(filled := o.terms.amount, status := Filled)
  }

  function AddFill(o: Order, shares: int): Order {
    WithFillStatus(o.(filled := o.filled + shares))
  }

  function Min(a: int, b: int): int { if a <= b then a else b }

  /** The two tables a match writes. */
  datatype Matching = Matching(orders: Book, trades: seq<Trade>)

  /** One fill of the taker against one maker, at the maker's price. */
  function Fill(m: Matching, taker: OrderId, maker: OrderId): (r: Matching)
    requires taker in m.orders && maker in m.orders
  {
    var t, k := m.orders[taker], m.orders[maker];
    var shares := Min(t.Remaining(), k.Remaining());
    Matching(
      m.orders[maker := AddFill(k, shares)][taker := t.(filled := t.filled + shares)],
      m.trades + [Trade(t.terms.market, maker, taker, shares, k.terms.price)])
  }

  function FillAll(m: Matching, taker: OrderId, makers: seq<OrderId>): (r: Matching)
    requires taker in m.orders && forall i | 0 <= i < |makers| :: makers[i] in m.orders
    ensures r.orders.Keys == m.orders.Keys
    decreases |makers|
  {
    if makers == [] || m.orders[taker].Remaining() == 0 then m
    else FillAll(Fill(m, taker, makers[0]), taker, makers[1..])
  }

  /** The taker's own row once its makers are exhausted or it is full. */
  function Rest(o: Order): Order {
    var s := WithFillStatus(o);
    if s.terms.tif.Ioc? && s.filled < s.terms.amount then s.(status := Cancelled) else s
  }

  /** The book just after the incoming row was inserted. */
  function Inserted(orders: Book, terms: Terms): Book {
    orders[terms.id := NewOrder(terms)]
  }

  /** Inserting one new order and matching it against a queue of makers. */
  function Match(orders: Book, trades: seq<Trade>, terms: Terms, queue: seq<OrderId>): (r: Matching)
    requires forall i | 0 <= i < |queue| :: queue[i] in Inserted(orders, terms)
    ensures r.orders.Keys == orders.Keys + {terms.id}
  {
    var m := FillAll(Matching(Inserted(orders, terms), trades), terms.id, queue);
    m.(orders := m.orders[terms.id := Rest(m.orders[terms.id])])
  }

  // ----- greedy price-time priority -----

  ghost function TotalRemaining(orders: Book, makers: seq<OrderId>): int
    requires forall i | 0 <= i < |makers| :: makers[i] in orders
    decreases |makers|
  {
    if makers == [] then 0 else orders[makers[0]].Remaining() + TotalRemaining(orders, makers[1..])
  }

  ghost function Clamp(x: int, high: int): int {
    if x < 0 then 0 else Min(x, high)
  }

  ghost function FilledBy(o: Order, shares: int): Order {
    if shares == 0 then o else AddFill(o, shares)
  }

  /** A taker about to be matched against `makers` in this order. */
  ghost predicate Ready(m: Matching, taker: OrderId, makers: seq<OrderId>) {
    && taker in m.orders && 0 <= m.orders[taker].filled <= m.orders[taker].terms.amount
    && (forall i | 0 <= i < |makers| :: makers[i] in m.orders && makers[i] != taker)
    && (forall i, j | 0 <= i < j < |makers| :: makers[i] != makers[j])
    && (forall i | 0 <= i < |makers| ::
          m.orders[makers[i]].terms.id == makers[i] && OrderOk(m.orders[makers[i]])
          && Eligible(m.orders[taker].terms, m.orders[makers[i]]))
  }

  lemma {:induction false} RemainingCong(a: Book, b: Book, makers: seq<OrderId>)
    requires forall i | 0 <= i < |makers| :: makers[i] in a && makers[i] in b && a[makers[i]] == b[makers[i]]
    ensures TotalRemaining(a, makers) == TotalRemaining(b, makers)
    decreases |makers|
  {
    if makers != [] {
      RemainingCong(a, b, makers[1..]);
    }
  }

  lemma {:induction false} RemainingNonNegative(orders: Book, makers: seq<OrderId>)
    requires forall i | 0 <= i < |makers| :: makers[i] in orders && orders[makers[i]].Remaining() >= 0
    ensures TotalRemaining(orders, makers) >= 0
    decreases |makers|
  {
    if makers != [] {
      RemainingNonNegative(orders, makers[1..]);
    }
  }

  /** A fill leaves the queue behind its maker ready. */
  lemma FillReady(m: Matching, taker: OrderId, makers: seq<OrderId>)
    requires Ready(m, taker, makers) && makers != []
    ensures Ready(Fill(m, taker, makers[0]), taker, makers[1..])
  {
    var rest := makers[1..];
    assert forall i | 0 <= i < |rest| :: rest[i] == makers[i + 1];
  }

  /** What the greedy rule gives to the maker at position `i`. */
  ghost function Share(m: Matching, taker: OrderId, makers: seq<OrderId>, i: nat): int
    requires Ready(m, taker, makers) && i < |makers|
  {
    Clamp(m.orders[taker].Remaining() - TotalRemaining(m.orders, makers[..i]), m.orders[makers[i]].Remaining())
  }

  /** The share of a later maker is the same before and after the first fill. */
  lemma ShareStep(m: Matching, taker: OrderId, makers: seq<OrderId>, i: nat)
    requires Ready(m, taker, makers) && 0 < i < |makers|
    requires Ready(Fill(m, taker, makers[0]), taker, makers[1..])
    ensures Share(Fill(m, taker, makers[0]), taker, makers[1..], i - 1) == Share(m, taker, makers, i)
  {
    var n, rest := Fill(m, taker, makers[0]), makers[1..];
    assert makers[i] == rest[i - 1];
    assert makers[..i][1..] == rest[..i - 1];
    RemainingCong(m.orders, n.orders, rest[..i - 1]);
    RemainingNonNegative(m.orders, rest[..i - 1]);
  }

  ghost predicate GreedyMakers(m: Matching, taker: OrderId, makers: seq<OrderId>, r: Book)
    requires Ready(m, taker, makers)
  {
    forall i | 0 <= i < |makers| ::
      makers[i] in r && r[makers[i]] == FilledBy(m.orders[makers[i]], Share(m, taker, makers, i))
  }

  lemma GreedyMakersStep(m: Matching, taker: OrderId, makers: seq<OrderId>, r: Book)
    requires Ready(m, taker, makers) && makers != [] && m.orders[taker].Remaining() > 0
    requires var n := Fill(m, taker, makers[0]);
             Ready(n, taker, makers[1..]) && GreedyMakers(n, taker, makers[1..], r)
             && makers[0] in r && r[makers[0]] == n.orders[makers[0]]
    ensures GreedyMakers(m, taker, makers, r)
  {
    var n, rest := Fill(m, taker, makers[0]), makers[1..];
    forall i | 0 <= i < |makers|
      ensures makers[i] in r && r[makers[i]] == FilledBy(m.orders[makers[i]], Share(m, taker, makers, i))
    {
      if i > 0 {
        ShareStep(m, taker, makers, i);
        assert makers[i] == rest[i - 1];
      }
    }
  }

  lemma GreedyMakersFull(m: Matching, taker: OrderId, makers: seq<OrderId>)
    requires Ready(m, taker, makers) && m.orders[taker].Remaining() == 0
    ensures GreedyMakers(m, taker, makers, m.orders)
  {
    forall i | 0 <= i < |makers|
      ensures Share(m, taker, makers, i) == 0
    {
      RemainingNonNegative(m.orders, makers[..i]);
    }
  }

  /** The taker gets the smaller of what it asked for and what crosses. */
  lemma {:induction false} FillAllTaker(m: Matching, taker: OrderId, makers: seq<OrderId>)
    requires Ready(m, taker, makers)
    ensures FillAll(m, taker, makers).orders[taker] == m.orders[taker].(filled := m.orders[taker].filled
              + Min(m.orders[taker].Remaining(), TotalRemaining(m.orders, makers)))
    decreases |makers|
  {
    RemainingNonNegative(m.orders, makers);
    if makers != [] && m.orders[taker].Remaining() != 0 {
      var n, rest := Fill(m, taker, makers[0]), makers[1..];
      FillReady(m, taker, makers);
      FillAllTaker(n, taker, rest);
      RemainingCong(m.orders, n.orders, rest);
      RemainingNonNegative(m.orders, rest);
    }
  }

  /** Orders outside the queue keep their rows. */
  lemma {:induction false} FillAllFrame(m: Matching, taker: OrderId, makers: seq<OrderId>)
    requires taker in m.orders && forall i | 0 <= i < |makers| :: makers[i] in m.orders
    ensures forall id | id in m.orders && id != taker && id !in makers ::
              FillAll(m, taker, makers).orders[id] == m.orders[id]
    decreases |makers|
  {
    if makers != [] && m.orders[taker].Remaining() != 0 {
      var n, rest := Fill(m, taker, makers[0]), makers[1..];
      FillAllFrame(n, taker, rest);
      assert forall id | id !in makers :: id !in rest && id != makers[0];
    }
  }

  /** Matching gives every maker exactly what the makers before it left over. */
  lemma {:induction false} FillAllGreedy(m: Matching, taker: OrderId, makers: seq<OrderId>)
    requires Ready(m, taker, makers)
    ensures GreedyMakers(m, taker, makers, FillAll(m, taker, makers).orders)
    decreases |makers|
  {
    if makers == [] {
    } else if m.orders[taker].Remaining() == 0 {
      GreedyMakersFull(m, taker, makers);
    } else {
      var n, rest := Fill(m, taker, makers[0]), makers[1..];
      FillReady(m, taker, makers);
      FillAllGreedy(n, taker, rest);
      FillAllFrame(n, taker, rest);
      assert makers[0] !in rest;
      GreedyMakersStep(m, taker, makers, FillAll(n, taker, rest).orders);
    }
  }
}
