/** What matching keeps over whole runs of the book: priority, an uncrossed book, the
    order lifecycle, and a trade log that accounts for every filled share. */
module BookInvariants {
  import opened Fixed
  import opened Sorting
  import opened Sums
  import opened Orders

  // ----- one placement -----

  ghost predicate Placeable(orders: Book, terms: Terms) {
    BookOk(orders) && ValidTerms(terms) && terms.id !in orders
  }

  /** The queue holds every order that may trade against the incoming one, once, in
      price-time priority. */
  ghost predicate QueueOk(orders: Book, terms: Terms, queue: seq<OrderId>) {
    && (forall i | 0 <= i < |queue| :: queue[i] in orders && Eligible(terms, orders[queue[i]]))
    && (forall id | id in orders && Eligible(terms, orders[id]) :: id in queue)
    && (forall i, j | 0 <= i < j < |queue| ::
          queue[i] != queue[j] && HasPriority(terms.side, orders[queue[i]].terms, orders[queue[j]].terms))
  }

  ghost predicate Matchable(orders: Book, terms: Terms, queue: seq<OrderId>) {
    Placeable(orders, terms) && QueueOk(orders, terms, queue)
  }

  /** Both the SQL query and the sorted map enumeration give such a queue. */
  lemma CandidatesQueue(orders: Book, terms: Terms)
    requires Placeable(orders, terms)
    ensures BookOk(Inserted(orders, terms))
    ensures QueueOk(orders, terms, Candidates(Inserted(orders, terms), terms))
  {
    var book := Inserted(orders, terms);
    var queue := Candidates(book, terms);
    PriorityTotal(book, terms.side);
    SortedDistinct(queue, EligibleMakers(book, terms), Priority(book, terms.side));
    assert forall i | 0 <= i < |queue| :: queue[i] in EligibleMakers(book, terms);
    forall id | id in orders && Eligible(terms, orders[id]) ensures id in queue {
      assert id in Elements(queue);
    }
    forall i, j | 0 <= i < j < |queue|
      ensures queue[i] != queue[j] && HasPriority(terms.side, orders[queue[i]].terms, orders[queue[j]].terms)
    {
      assert Priority(book, terms.side)(queue[i], queue[j]);
    }
  }

  lemma OnlyCandidate(orders: Book, terms: Terms, maker: OrderId)
    requires Placeable(orders, terms) && maker in orders && Eligible(terms, orders[maker])
    requires forall id | id in orders && id != maker :: !Eligible(terms, orders[id])
    ensures Candidates(Inserted(orders, terms), terms) == [maker]
  {
    CandidatesQueue(orders, terms);
    var book := Inserted(orders, terms);
    PriorityTotal(book, terms.side);
    assert EligibleMakers(book, terms) == {maker};
    SortUnique(Candidates(book, terms), [maker], {maker}, Priority(book, terms.side));
  }

  lemma QueueReady(orders: Book, trades: seq<Trade>, terms: Terms, queue: seq<OrderId>)
    requires Matchable(orders, terms, queue)
    ensures Ready(Matching(Inserted(orders, terms), trades), terms.id, queue)
    ensures terms.id !in queue
    ensures TotalRemaining(Inserted(orders, terms), queue) >= 0
  {
    RemainingNonNegative(Inserted(orders, terms), queue);
  }

  /** Everything that crosses the incoming order. */
  ghost function Crossing(orders: Book, terms: Terms, queue: seq<OrderId>): int
    requires Matchable(orders, terms, queue)
  {
    TotalRemaining(Inserted(orders, terms), queue)
  }

  /** What price-time priority leaves for the maker at position `i` of the queue. */
  ghost function Allotment(orders: Book, terms: Terms, queue: seq<OrderId>, i: nat): int
    requires Matchable(orders, terms, queue) && i < |queue|
  {
    Clamp(terms.amount - TotalRemaining(Inserted(orders, terms), queue[..i]), orders[queue[i]].Remaining())
  }

  /** The incoming order gets the smaller of its amount and of all that crosses it. */
  lemma PlacementTaker(orders: Book, trades: seq<Trade>, terms: Terms, queue: seq<OrderId>)
    requires Matchable(orders, terms, queue)
    ensures Match(orders, trades, terms, queue).orders[terms.id]
         == Rest(NewOrder(terms).(filled := Min(terms.amount, Crossing(orders, terms, queue))))
  {
    QueueReady(orders, trades, terms, queue);
    FillAllTaker(Matching(Inserted(orders, terms), trades), terms.id, queue);
  }

  /** Each maker gets exactly what the makers before it left. */
  lemma PlacementMaker(orders: Book, trades: seq<Trade>, terms: Terms, queue: seq<OrderId>, i: nat)
    requires Matchable(orders, terms, queue) && i < |queue|
    ensures queue[i] in Match(orders, trades, terms, queue).orders
    ensures Match(orders, trades, terms, queue).orders[queue[i]]
         == FilledBy(orders[queue[i]], Allotment(orders, terms, queue, i))
  {
    var m := Matching(Inserted(orders, terms), trades);
    QueueReady(orders, trades, terms, queue);
    FillAllGreedy(m, terms.id, queue);
    assert Share(m, terms.id, queue, i) == Allotment(orders, terms, queue, i);
  }

  /** Nothing else moves. */
  lemma PlacementFrame(orders: Book, trades: seq<Trade>, terms: Terms, queue: seq<OrderId>, id: OrderId)
    requires Matchable(orders, terms, queue) && id in orders && id !in queue
    ensures Match(orders, trades, terms, queue).orders[id] == orders[id]
  {
    FillAllFrame(Matching(Inserted(orders, terms), trades), terms.id, queue);
  }

  lemma {:induction false} RemainingPrefix(orders: Book, makers: seq<OrderId>, i: nat, j: nat)
    requires i < j <= |makers|
    requires forall k | 0 <= k < |makers| :: makers[k] in orders && orders[makers[k]].Remaining() >= 0
    ensures TotalRemaining(orders, makers[..i]) + orders[makers[i]].Remaining() <= TotalRemaining(orders, makers[..j])
    decreases i
  {
    assert makers[..j][1..] == makers[1..][..j - 1];
    if i == 0 {
      RemainingNonNegative(orders, makers[1..][..j - 1]);
    } else {
      assert makers[..i][1..] == makers[1..][..i - 1];
      RemainingPrefix(orders, makers[1..], i - 1, j - 1);
    }
  }

  lemma AllotmentRange(orders: Book, terms: Terms, queue: seq<OrderId>, i: nat)
    requires Matchable(orders, terms, queue) && i < |queue|
    ensures 0 <= Allotment(orders, terms, queue, i) <= orders[queue[i]].Remaining()
    ensures Crossing(orders, terms, queue) < terms.amount
            ==> Allotment(orders, terms, queue, i) == orders[queue[i]].Remaining()
  {
    RemainingPrefix(Inserted(orders, terms), queue, i, |queue|);
    assert queue[..|queue|] == queue;
  }

  /** Price-time priority: when an order trades, every eligible order with priority over
      it has been filled. */
  lemma PriceTimePriority(orders: Book, trades: seq<Trade>, terms: Terms, queue: seq<OrderId>, first: OrderId, second: OrderId)
    requires Matchable(orders, terms, queue)
    requires first in orders && second in orders && Eligible(terms, orders[first]) && Eligible(terms, orders[second])
    requires HasPriority(terms.side, orders[first].terms, orders[second].terms)
    requires Match(orders, trades, terms, queue).orders[second] != orders[second]
    ensures Match(orders, trades, terms, queue).orders[first].status == Filled
  {
    var i :| 0 <= i < |queue| && queue[i] == first;
    var j :| 0 <= j < |queue| && queue[j] == second;
    PlacementMaker(orders, trades, terms, queue, i);
    PlacementMaker(orders, trades, terms, queue, j);
    AllotmentRange(orders, terms, queue, i);
    AllotmentRange(orders, terms, queue, j);
    assert i < j;
    RemainingPrefix(Inserted(orders, terms), queue, i, j);
  }

  // ----- lifecycle -----

  /** The only way a stored order may change: it fills further while it is open. */
  ghost predicate Advances(a: Order, b: Order) {
    && a.terms == b.terms
    && a.filled <= b.filled
    && (!a.Open() ==> a == b)
  }

  ghost predicate BookAdvances(a: Book, b: Book) {
    a.Keys <= b.Keys && forall id | id in a :: Advances(a[id], b[id])
  }

  lemma PlacementAdvancesOne(orders: Book, trades: seq<Trade>, terms: Terms, queue: seq<OrderId>, id: OrderId)
    requires Matchable(orders, terms, queue) && id in orders
    ensures var o := Match(orders, trades, terms, queue).orders[id]; OrderOk(o) && Advances(orders[id], o)
  {
    if id in queue {
      var i :| 0 <= i < |queue| && queue[i] == id;
      AllotmentRange(orders, terms, queue, i);
      PlacementMaker(orders, trades, terms, queue, i);
    } else {
      PlacementFrame(orders, trades, terms, queue, id);
    }
  }

  /** A placement keeps every stored order sound and moves the others only forward. */
  lemma PlacementAdvances(orders: Book, trades: seq<Trade>, terms: Terms, queue: seq<OrderId>)
    requires Matchable(orders, terms, queue)
    ensures BookOk(Match(orders, trades, terms, queue).orders)
    ensures BookAdvances(orders, Match(orders, trades, terms, queue).orders)
    ensures Match(orders, trades, terms, queue).orders[terms.id].terms == terms
  {
    QueueReady(orders, trades, terms, queue);
    PlacementTaker(orders, trades, terms, queue);
    forall id | id in orders
      ensures var o := Match(orders, trades, terms, queue).orders[id]; OrderOk(o) && Advances(orders[id], o)
    {
      PlacementAdvancesOne(orders, trades, terms, queue, id);
    }
  }

  function Cancel(o: Order): Order {
    o.(status := Cancelled)
  }

  lemma CancelAdvances(orders: Book, id: OrderId)
    requires BookOk(orders) && id in orders && orders[id].Open()
    ensures BookOk(orders[id := Cancel(orders[id])])
    ensures BookAdvances(orders, orders[id := Cancel(orders[id])])
  {
  }

  // ----- the book is never crossed -----

  ghost predicate Crossed(a: Order, b: Order) {
    && a.Open() && b.Open()
    && a.terms.side.Buy? && b.terms.side.Sell?
    && SameBook(a.terms, b.terms) && a.terms.user != b.terms.user
    && a.terms.price >= b.terms.price
  }

  ghost predicate Uncrossed(orders: Book) {
    forall i, j {:trigger Crossed(orders[i], orders[j])} | i in orders && j in orders :: !Crossed(orders[i], orders[j])
  }

  lemma FewerOpenUncrossed(a: Book, b: Book)
    requires Uncrossed(a) && a.Keys == b.Keys
    requires forall id | id in a :: a[id].terms == b[id].terms && (b[id].Open() ==> a[id].Open())
    ensures Uncrossed(b)
  {
    forall i, j | i in b && j in b
      ensures !Crossed(b[i], b[j])
    {
      assert !Crossed(a[i], a[j]);
    }
  }

  /** If the incoming order rests, everything that crossed it is filled. */
  lemma RestingTakerExhaustsQueue(orders: Book, trades: seq<Trade>, terms: Terms, queue: seq<OrderId>, id: OrderId)
    requires Matchable(orders, terms, queue) && id in orders && Eligible(terms, orders[id])
    requires Match(orders, trades, terms, queue).orders[terms.id].Open()
    ensures Match(orders, trades, terms, queue).orders[id].status == Filled
  {
    var i :| 0 <= i < |queue| && queue[i] == id;
    PlacementTaker(orders, trades, terms, queue);
    PlacementMaker(orders, trades, terms, queue, i);
    AllotmentRange(orders, terms, queue, i);
  }

  lemma PlacementUncrossed(orders: Book, trades: seq<Trade>, terms: Terms, queue: seq<OrderId>)
    requires Matchable(orders, terms, queue) && Uncrossed(orders)
    ensures Uncrossed(Match(orders, trades, terms, queue).orders)
  {
    var r := Match(orders, trades, terms, queue).orders;
    PlacementAdvances(orders, trades, terms, queue);
    forall i, j | i in r && j in r
      ensures !Crossed(r[i], r[j])
    {
      if i in orders && j in orders {
        assert !Crossed(orders[i], orders[j]);
      } else if r[terms.id].Open() {
        if i in orders && Eligible(terms, orders[i]) { RestingTakerExhaustsQueue(orders, trades, terms, queue, i); }
        if j in orders && Eligible(terms, orders[j]) { RestingTakerExhaustsQueue(orders, trades, terms, queue, j); }
      }
    }
  }

  // ----- sums over the trade log -----

  ghost function TradeSum(trades: seq<Trade>, f: Trade -> int): int {
    if trades == [] then 0 else TradeSum(trades[..|trades| - 1], f) + f(trades[|trades| - 1])
  }

  lemma TradeSumAppend(trades: seq<Trade>, x: Trade, f: Trade -> int)
    ensures TradeSum(trades + [x], f) == TradeSum(trades, f) + f(x)
  {
    assert (trades + [x])[..|trades|] == trades;
  }

  lemma {:induction false} TradeSumZero(trades: seq<Trade>, f: Trade -> int)
    requires forall i | 0 <= i < |trades| :: f(trades[i]) == 0
    ensures TradeSum(trades, f) == 0
  {
    if trades != [] {
      TradeSumZero(trades[..|trades| - 1], f);
    }
  }

  predicate Involves(x: Trade, t: Terms) {
    x.market == t.market && (x.maker == t.id || x.taker == t.id)
  }

  /** The shares a trade fills of the order `t`. */
  ghost function SharesOf(t: Terms): Trade -> int {
    (x: Trade) => if Involves(x, t) then x.shares else 0
  }

  // ----- the audit of the trade log -----

  /** A trade joins one buy and one sell of different users in one book, at the maker's
      price, and within the taker's limit. */
  ghost predicate TradeOk(orders: Book, x: Trade) {
    && x.shares > 0
    && x.maker in orders && x.taker in orders && x.maker != x.taker
    && var m, t := orders[x.maker].terms, orders[x.taker].terms;
       && m.id == x.maker && t.id == x.taker
       && x.market == m.market && x.price == m.price
       && SameBook(m, t) && m.side != t.side && m.user != t.user && Crosses(t, m)
  }

  ghost predicate TradesOk(orders: Book, trades: seq<Trade>) {
    forall i {:trigger TradeOk(orders, trades[i])} | 0 <= i < |trades| :: TradeOk(orders, trades[i])
  }

  /** The shares the trade log fills of the order `t`. */
  ghost function Matched(t: Terms, trades: seq<Trade>): int {
    TradeSum(trades, SharesOf(t))
  }

  ghost predicate FillsMatch(orders: Book, trades: seq<Trade>) {
    forall id {:trigger Matched(orders[id].terms, trades)} | id in orders :: orders[id].filled == Matched(orders[id].terms, trades)
  }

  /** The trade log accounts for every filled share. */
  ghost predicate Audited(orders: Book, trades: seq<Trade>) {
    TradesOk(orders, trades) && FillsMatch(orders, trades)
  }

  /** One trade of an audited log fills no more of an order than all of them. */
  lemma FillWithin(orders: Book, trades: seq<Trade>, i: nat, id: OrderId)
    requires BookOk(orders) && Audited(orders, trades) && i < |trades| && id in orders && Involves(trades[i], orders[id].terms)
    ensures 0 < trades[i].shares <= orders[id].filled <= orders[id].terms.amount
  {
    var t := orders[id].terms;
    assert TradeOk(orders, trades[i]);
    forall k | 0 <= k < |trades| ensures SharesOf(t)(trades[k]) >= 0 {
      assert TradeOk(orders, trades[k]);
    }
    TradeSumBounds(trades, SharesOf(t), i);
    assert orders[id].filled == Matched(t, trades);
  }

  lemma {:induction false} TradeSumBounds(trades: seq<Trade>, f: Trade -> int, i: nat)
    requires i < |trades| && forall k | 0 <= k < |trades| :: f(trades[k]) >= 0
    ensures 0 <= f(trades[i]) <= TradeSum(trades, f)
    decreases |trades|
  {
    var before := trades[..|trades| - 1];
    if i < |before| {
      TradeSumBounds(before, f, i);
    } else if before != [] {
      TradeSumBounds(before, f, 0);
    }
  }

  lemma TradesOkMonotone(a: Book, b: Book, trades: seq<Trade>)
    requires TradesOk(a, trades) && a.Keys <= b.Keys
    requires forall id | id in a :: a[id].terms == b[id].terms
    ensures TradesOk(b, trades)
  {
    forall i | 0 <= i < |trades| ensures TradeOk(b, trades[i]) {
      assert TradeOk(a, trades[i]);
    }
  }

  lemma FillAudited(m: Matching, taker: OrderId, makers: seq<OrderId>)
    requires Ready(m, taker, makers) && makers != [] && m.orders[taker].Remaining() > 0
    requires forall id | id in m.orders :: m.orders[id].terms.id == id
    requires Audited(m.orders, m.trades)
    ensures Audited(Fill(m, taker, makers[0]).orders, Fill(m, taker, makers[0]).trades)
  {
    var n := Fill(m, taker, makers[0]);
    var x := n.trades[|m.trades|];
    TradesOkMonotone(m.orders, n.orders, m.trades);
    assert TradeOk(n.orders, x);
    forall id | id in n.orders
      ensures n.orders[id].filled == Matched(n.orders[id].terms, n.trades)
    {
      assert m.orders[id].filled == Matched(m.orders[id].terms, m.trades);
      TradeSumAppend(m.trades, x, SharesOf(n.orders[id].terms));
    }
  }

  lemma {:induction false} FillAllAudited(m: Matching, taker: OrderId, makers: seq<OrderId>)
    requires Ready(m, taker, makers)
    requires forall id | id in m.orders :: m.orders[id].terms.id == id
    requires Audited(m.orders, m.trades)
    ensures Audited(FillAll(m, taker, makers).orders, FillAll(m, taker, makers).trades)
    decreases |makers|
  {
    if makers != [] && m.orders[taker].Remaining() != 0 {
      FillReady(m, taker, makers);
      FillAudited(m, taker, makers);
      FillAllAudited(Fill(m, taker, makers[0]), taker, makers[1..]);
    }
  }

  lemma InsertAudited(orders: Book, trades: seq<Trade>, terms: Terms)
    requires Audited(orders, trades) && terms.id !in orders
    ensures Audited(Inserted(orders, terms), trades)
  {
    TradesOkMonotone(orders, Inserted(orders, terms), trades);
    forall i | 0 <= i < |trades| ensures SharesOf(terms)(trades[i]) == 0 {
      assert TradeOk(orders, trades[i]);
    }
    TradeSumZero(trades, SharesOf(terms));
  }

  /** Matching establishes the audit that settlement later repeats. */
  lemma PlacementAudited(orders: Book, trades: seq<Trade>, terms: Terms, queue: seq<OrderId>)
    requires Matchable(orders, terms, queue) && Audited(orders, trades)
    ensures Audited(Match(orders, trades, terms, queue).orders, Match(orders, trades, terms, queue).trades)
  {
    var m := Matching(Inserted(orders, terms), trades);
    QueueReady(orders, trades, terms, queue);
    InsertAudited(orders, trades, terms);
    FillAllTaker(m, terms.id, queue);
    FillAllAudited(m, terms.id, queue);
    var f := FillAll(m, terms.id, queue);
    RestAudited(f.orders, f.trades, terms.id);
  }

  /** Closing the match only labels the incoming order. */
  lemma RestAudited(orders: Book, trades: seq<Trade>, id: OrderId)
    requires Audited(orders, trades) && id in orders && orders[id].filled <= orders[id].terms.amount
    ensures Audited(orders[id := Rest(orders[id])], trades)
  {
    TradesOkMonotone(orders, orders[id := Rest(orders[id])], trades);
  }

  /** New trades are appended, and each has the incoming order as its taker. */
  lemma {:induction false} FillAllAppends(m: Matching, taker: OrderId, makers: seq<OrderId>)
    requires taker in m.orders && forall i | 0 <= i < |makers| :: makers[i] in m.orders
    ensures m.trades <= FillAll(m, taker, makers).trades
    ensures forall i | |m.trades| <= i < |FillAll(m, taker, makers).trades| :: FillAll(m, taker, makers).trades[i].taker == taker
    decreases |makers|
  {
    if makers != [] && m.orders[taker].Remaining() != 0 {
      FillAllAppends(Fill(m, taker, makers[0]), taker, makers[1..]);
    }
  }

  // ----- per book, what was bought was sold -----

  ghost function FilledOn(orders: Book, like: Terms, side: Side): OrderId -> int {
    (id: OrderId) => if id in orders && SameBook(orders[id].terms, like) && orders[id].terms.side == side then orders[id].filled else 0
  }

  ghost function TradedIn(orders: Book, like: Terms): Trade -> int {
    (x: Trade) => if x.maker in orders && SameBook(orders[x.maker].terms, like) then x.shares else 0
  }

  /** Filled shares of one side of a book, replayed from a trade log. */
  ghost function ReplayedOn(orders: Book, trades: seq<Trade>, like: Terms, side: Side): OrderId -> int {
    (id: OrderId) => if id in orders && SameBook(orders[id].terms, like) && orders[id].terms.side == side
                     then TradeSum(trades, SharesOf(orders[id].terms)) else 0
  }

  /** Replaying one more trade moves one order of the side by the traded shares. */
  lemma ReplayStep(orders: Book, before: seq<Trade>, x: Trade, like: Terms, side: Side)
    requires TradeOk(orders, x) && forall id | id in orders :: orders[id].terms.id == id
    ensures Sum(orders.Keys, ReplayedOn(orders, before + [x], like, side))
         == Sum(orders.Keys, ReplayedOn(orders, before, like, side)) + TradedIn(orders, like)(x)
  {
    var f, g := ReplayedOn(orders, before, like, side), ReplayedOn(orders, before + [x], like, side);
    var one := if orders[x.maker].terms.side == side then x.maker else x.taker;
    forall id | id in orders
      ensures g(id) == f(id) + (if id == one then TradedIn(orders, like)(x) else 0)
    {
      TradeSumAppend(before, x, SharesOf(orders[id].terms));
    }
    SumUpdate<OrderId>(orders.Keys, f, g, one);
  }

  lemma {:induction false} ReplayBalances(orders: Book, trades: seq<Trade>, like: Terms, side: Side)
    requires TradesOk(orders, trades) && forall id | id in orders :: orders[id].terms.id == id
    ensures Sum(orders.Keys, ReplayedOn(orders, trades, like, side)) == TradeSum(trades, TradedIn(orders, like))
    decreases |trades|
  {
    if trades == [] {
      SumZero(orders.Keys, ReplayedOn(orders, trades, like, side));
    } else {
      var before, x := trades[..|trades| - 1], trades[|trades| - 1];
      assert trades == before + [x];
      ReplayBalances(orders, before, like, side);
      assert TradeOk(orders, x);
      ReplayStep(orders, before, x, like, side);
    }
  }

  /** In every audited book the shares filled on buys equal the shares filled on sells. */
  lemma BoughtEqualsSold(orders: Book, trades: seq<Trade>, like: Terms)
    requires BookOk(orders) && Audited(orders, trades)
    ensures Sum(orders.Keys, FilledOn(orders, like, Buy)) == Sum(orders.Keys, FilledOn(orders, like, Sell))
  {
    ReplayBalances(orders, trades, like, Buy);
    ReplayBalances(orders, trades, like, Sell);
    assert forall id | id in orders :: orders[id].filled == Matched(orders[id].terms, trades);
    SumCong(orders.Keys, FilledOn(orders, like, Buy), ReplayedOn(orders, trades, like, Buy));
    SumCong(orders.Keys, FilledOn(orders, like, Sell), ReplayedOn(orders, trades, like, Sell));
  }
}
