/** What matching does to the orders and trades tables, in terms of their columns alone: which
    orders trade, in what sequence, at what price, and how every row ends. */
module MatchingRules {
  import opened Fixed
  import opened Sorting
  import opened Orders
  import opened BookInvariants
  import opened Ledger

  lemma EligibleMeans(t: Terms, o: Order)
    ensures Eligible(t, o) <==>
            && o.terms.id != t.id && (o.status == Pending || o.status == Partial)
            && o.terms.merchant == t.merchant && o.terms.market == t.market
            && o.terms.option == t.option && o.terms.currency == t.currency
            && o.terms.user != t.user && o.terms.side != t.side
            && (if t.side == Buy then o.terms.price <= t.price else o.terms.price >= t.price)
  {
  }

  lemma PriorityMeans(side: Side, a: Terms, b: Terms)
    ensures HasPriority(side, a, b) <==>
            || (if side == Buy then a.price < b.price else a.price > b.price)
            || (a.price == b.price && a.createdAt < b.createdAt)
            || (a.price == b.price && a.createdAt == b.createdAt && a.id < b.id)
  {
  }

  lemma QueueOf(orders: Book, trades: seq<Trade>, terms: Terms) returns (queue: seq<OrderId>)
    requires Placeable(orders, terms)
    ensures Matchable(orders, terms, queue) && MatchIncoming(orders, trades, terms) == Match(orders, trades, terms, queue)
  {
    CandidatesQueue(orders, terms);
    queue := Candidates(Inserted(orders, terms), terms);
  }

  // ----- who comes first -----

  /** When an order trades, every open order of another user in the same book, on the same side
      and within the incoming order's limit, that has a better price, or the same price and an
      earlier creation, or both the same and a smaller identifier, has been filled. */
  lemma BestFirst(orders: Book, trades: seq<Trade>, terms: Terms, first: OrderId, second: OrderId)
    requires Placeable(orders, terms) && first in orders && second in orders
    requires MatchIncoming(orders, trades, terms).orders[second] != orders[second]
    requires var o := orders[first];
             && (o.status == Pending || o.status == Partial)
             && o.terms.merchant == terms.merchant && o.terms.market == terms.market
             && o.terms.option == terms.option && o.terms.currency == terms.currency
             && o.terms.user != terms.user && o.terms.side != terms.side
             && (if terms.side == Buy then o.terms.price <= terms.price else o.terms.price >= terms.price)
    requires var a, b := orders[first].terms, orders[second].terms;
             || (if terms.side == Buy then a.price < b.price else a.price > b.price)
             || (a.price == b.price && a.createdAt < b.createdAt)
             || (a.price == b.price && a.createdAt == b.createdAt && first < second)
    ensures var o := MatchIncoming(orders, trades, terms).orders[first]; o.status == Filled && o.filled == o.terms.amount
  {
    var queue := QueueOf(orders, trades, terms);
    EligibleMeans(terms, orders[first]);
    PriorityMeans(terms.side, orders[first].terms, orders[second].terms);
    hide Eligible, HasPriority, MatchIncoming, Candidates;
    if second !in queue { PlacementFrame(orders, trades, terms, queue, second); }
    PriceTimePriority(orders, trades, terms, queue, first, second);
    PlacementAdvancesOne(orders, trades, terms, queue, first);
  }

  // ----- the trades -----

  /** The trades of a match, one for each maker from the front of its queue. */
  ghost predicate TradesFrom(m: Matching, taker: OrderId, makers: seq<OrderId>, r: Matching) {
    && m.trades <= r.trades && |r.trades| - |m.trades| <= |makers| && taker in m.orders
    && (forall k | 0 <= k < |makers| :: makers[k] in m.orders && makers[k] in r.orders)
    && (forall k {:trigger makers[k]} | 0 <= k < |r.trades| - |m.trades| ::
          && r.trades[|m.trades| + k] == Trade(m.orders[taker].terms.market, makers[k], taker,
                                               r.orders[makers[k]].filled - m.orders[makers[k]].filled, m.orders[makers[k]].terms.price)
          && 0 < r.orders[makers[k]].filled - m.orders[makers[k]].filled <= m.orders[makers[k]].terms.amount - m.orders[makers[k]].filled)
    && (forall k {:trigger makers[k]} | |r.trades| - |m.trades| <= k < |makers| :: r.orders[makers[k]] == m.orders[makers[k]])
  }

  lemma TradesFromStep(m: Matching, taker: OrderId, makers: seq<OrderId>, r: Matching)
    requires Ready(m, taker, makers) && makers != [] && m.orders[taker].Remaining() > 0
    requires var n := Fill(m, taker, makers[0]);
             TradesFrom(n, taker, makers[1..], r) && makers[0] in r.orders && r.orders[makers[0]] == n.orders[makers[0]]
    ensures TradesFrom(m, taker, makers, r)
  {
    var n, rest := Fill(m, taker, makers[0]), makers[1..];
    assert forall k | 0 <= k < |rest| :: rest[k] == makers[k + 1];
    forall k | 0 < k < |makers| ensures makers[k] in r.orders && n.orders[makers[k]] == m.orders[makers[k]] {
      assert makers[k] == rest[k - 1];
    }
    forall k | 0 < k < |r.trades| - |m.trades|
      ensures r.trades[|m.trades| + k] == Trade(m.orders[taker].terms.market, makers[k], taker,
                                                r.orders[makers[k]].filled - m.orders[makers[k]].filled, m.orders[makers[k]].terms.price)
      ensures 0 < r.orders[makers[k]].filled - m.orders[makers[k]].filled <= m.orders[makers[k]].terms.amount - m.orders[makers[k]].filled
    {
      assert makers[k] == rest[k - 1] && r.trades[|n.trades| + (k - 1)] == r.trades[|m.trades| + k];
    }
    assert r.trades[|m.trades|] == n.trades[|m.trades|];
  }

  lemma {:induction false} FillAllTrades(m: Matching, taker: OrderId, makers: seq<OrderId>)
    requires Ready(m, taker, makers)
    ensures TradesFrom(m, taker, makers, FillAll(m, taker, makers))
    decreases |makers|
  {
    if makers != [] && m.orders[taker].Remaining() != 0 {
      var n, rest := Fill(m, taker, makers[0]), makers[1..];
      FillReady(m, taker, makers);
      FillAllTrades(n, taker, rest);
      FillAllFrame(n, taker, rest);
      assert makers[0] !in rest;
      TradesFromStep(m, taker, makers, FillAll(m, taker, makers));
    }
  }

  lemma RestKeepsTrades(m: Matching, taker: OrderId, makers: seq<OrderId>, r: Matching, row: Order)
    requires TradesFrom(m, taker, makers, r) && taker !in makers
    ensures TradesFrom(m, taker, makers, r.(orders := r.orders[taker := row]))
  {
    assert forall k | 0 <= k < |makers| :: makers[k] != taker;
  }

  lemma MatchTrades(orders: Book, trades: seq<Trade>, terms: Terms, queue: seq<OrderId>)
    requires Matchable(orders, terms, queue)
    ensures TradesFrom(Matching(Inserted(orders, terms), trades), terms.id, queue, Match(orders, trades, terms, queue))
  {
    var m := Matching(Inserted(orders, terms), trades);
    QueueReady(orders, trades, terms, queue);
    FillAllTrades(m, terms.id, queue);
    hide Matchable, FillAll, Ready, TradesFrom, Inserted, Rest;
    var f := FillAll(m, terms.id, queue);
    RestKeepsTrades(m, terms.id, queue, f, Rest(f.orders[terms.id]));
  }

  /** The trade behind position `k` of the queue. */
  lemma TradeAt(orders: Book, trades: seq<Trade>, terms: Terms, queue: seq<OrderId>, k: nat)
    requires Matchable(orders, terms, queue) && |trades| + k < |Match(orders, trades, terms, queue).trades|
    ensures var r := Match(orders, trades, terms, queue);
            && trades <= r.trades && k < |queue| && queue[k] in orders && queue[k] in r.orders && queue[k] != terms.id
            && Eligible(terms, orders[queue[k]])
            && var x, o := r.trades[|trades| + k], orders[queue[k]];
               && x == Trade(terms.market, queue[k], terms.id, r.orders[queue[k]].filled - o.filled, o.terms.price)
               && 0 < x.shares <= o.terms.amount - o.filled
  {
    MatchTrades(orders, trades, terms, queue);
    QueueReady(orders, trades, terms, queue);
    hide Match, Eligible, Ready, HasPriority;
    assert queue[k] == queue[k];
  }

  lemma InQueueOrder(orders: Book, terms: Terms, queue: seq<OrderId>, k: nat, l: nat)
    requires Matchable(orders, terms, queue) && k < l < |queue|
    ensures queue[k] in orders && queue[l] in orders && orders[queue[k]].terms.id == queue[k] && orders[queue[l]].terms.id == queue[l]
    ensures HasPriority(terms.side, orders[queue[k]].terms, orders[queue[l]].terms)
  {
  }

  lemma OrderedPair(orders: Book, trades: seq<Trade>, terms: Terms, queue: seq<OrderId>, k: nat, l: nat)
    requires Matchable(orders, terms, queue) && k < l && |trades| + l < |Match(orders, trades, terms, queue).trades|
    ensures var r := Match(orders, trades, terms, queue);
            var x, y := r.trades[|trades| + k].maker, r.trades[|trades| + l].maker;
            && x in orders && y in orders && orders[x].terms.id == x && orders[y].terms.id == y
            && HasPriority(terms.side, orders[x].terms, orders[y].terms)
  {
    hide Match, Eligible, HasPriority, Matchable;
    TradeAt(orders, trades, terms, queue, k);
    TradeAt(orders, trades, terms, queue, l);
    InQueueOrder(orders, terms, queue, k, l);
  }

  /** Each new trade is the incoming order's with an open order of another user in the same book,
      on the other side and within the limit, at that order's price and for shares it still had. */
  lemma TradesAreFair(orders: Book, trades: seq<Trade>, terms: Terms, k: nat)
    requires Placeable(orders, terms) && |trades| + k < |MatchIncoming(orders, trades, terms).trades|
    ensures var r := MatchIncoming(orders, trades, terms);
            && trades <= r.trades && r.trades[|trades| + k].maker in orders
            && var x := r.trades[|trades| + k];
               var o := orders[x.maker];
               && x.market == terms.market && x.taker == terms.id && x.price == o.terms.price
               && x.maker in r.orders && 0 < x.shares == r.orders[x.maker].filled - o.filled <= o.terms.amount - o.filled
               && (o.status == Pending || o.status == Partial)
               && o.terms.merchant == terms.merchant && o.terms.market == terms.market
               && o.terms.option == terms.option && o.terms.currency == terms.currency
               && o.terms.user != terms.user && o.terms.side != terms.side
               && (if terms.side == Buy then o.terms.price <= terms.price else o.terms.price >= terms.price)
  {
    hide MatchIncoming, Candidates, Eligible, HasPriority, Match, Matchable, Placeable;
    var queue := QueueOf(orders, trades, terms);
    TradeAt(orders, trades, terms, queue, k);
    EligibleMeans(terms, orders[queue[k]]);
  }

  /** The trades come best order first: by price, then by creation, then by identifier. */
  lemma TradesComeInOrder(orders: Book, trades: seq<Trade>, terms: Terms, k: nat, l: nat)
    requires Placeable(orders, terms) && k < l && |trades| + l < |MatchIncoming(orders, trades, terms).trades|
    ensures var r := MatchIncoming(orders, trades, terms);
            var x, y := r.trades[|trades| + k].maker, r.trades[|trades| + l].maker;
            && x in orders && y in orders
            && var a, b := orders[x].terms, orders[y].terms;
               || (if terms.side == Buy then a.price < b.price else a.price > b.price)
               || (a.price == b.price && a.createdAt < b.createdAt)
               || (a.price == b.price && a.createdAt == b.createdAt && x < y)
  {
    hide MatchIncoming, Candidates, Eligible, HasPriority, Match, Matchable, Placeable;
    var queue := QueueOf(orders, trades, terms);
    OrderedPair(orders, trades, terms, queue, k, l);
    var x, y := MatchIncoming(orders, trades, terms).trades[|trades| + k].maker, MatchIncoming(orders, trades, terms).trades[|trades| + l].maker;
    PriorityMeans(terms.side, orders[x].terms, orders[y].terms);
  }

  // ----- how the rows end -----

  /** The incoming order's row: filled, or left open, or, when it was immediate-or-cancel,
      cancelled; if it was not filled, no order it could have traded with was left open. */
  lemma IncomingEnds(orders: Book, trades: seq<Trade>, terms: Terms)
    requires Placeable(orders, terms)
    ensures var r := MatchIncoming(orders, trades, terms).orders;
            var o := r[terms.id];
            && o.terms == terms && 0 <= o.filled <= terms.amount
            && o.status == (if o.filled == terms.amount then Filled else if terms.tif == Ioc then Cancelled else if o.filled == 0 then Pending else Partial)
  {
    var queue := QueueOf(orders, trades, terms);
    PlacementTaker(orders, trades, terms, queue);
    QueueReady(orders, trades, terms, queue);
    hide MatchIncoming, Candidates, TotalRemaining;
  }

  lemma NothingLeft(orders: Book, trades: seq<Trade>, terms: Terms, id: OrderId)
    requires Placeable(orders, terms) && id in orders
    requires MatchIncoming(orders, trades, terms).orders[terms.id].filled < terms.amount
    requires var o := orders[id];
             && (o.status == Pending || o.status == Partial)
             && o.terms.merchant == terms.merchant && o.terms.market == terms.market
             && o.terms.option == terms.option && o.terms.currency == terms.currency
             && o.terms.user != terms.user && o.terms.side != terms.side
             && (if terms.side == Buy then o.terms.price <= terms.price else o.terms.price >= terms.price)
    ensures var o := MatchIncoming(orders, trades, terms).orders[id]; o.status == Filled && o.filled == o.terms.amount
  {
    var queue := QueueOf(orders, trades, terms);
    EligibleMeans(terms, orders[id]);
    hide MatchIncoming, Candidates, Eligible, HasPriority, Match;
    LeftOverFills(orders, trades, terms, queue, id);
  }

  lemma LeftOverFills(orders: Book, trades: seq<Trade>, terms: Terms, queue: seq<OrderId>, id: OrderId)
    requires Matchable(orders, terms, queue) && id in orders && Eligible(terms, orders[id])
    requires Match(orders, trades, terms, queue).orders[terms.id].filled < terms.amount
    ensures var o := Match(orders, trades, terms, queue).orders[id]; o.status == Filled && o.filled == o.terms.amount
  {
    PlacementTaker(orders, trades, terms, queue);
    var i :| 0 <= i < |queue| && queue[i] == id;
    PlacementMaker(orders, trades, terms, queue, i);
    AllotmentRange(orders, terms, queue, i);
  }

  /** A resting order keeps its row, unless it could trade and gave some of its shares. */
  lemma RestingEnds(orders: Book, trades: seq<Trade>, terms: Terms, id: OrderId)
    requires Placeable(orders, terms) && id in orders
    ensures var o, p := orders[id], MatchIncoming(orders, trades, terms).orders[id];
            p == o || (
              && p.terms == o.terms && o.filled < p.filled <= o.terms.amount
              && p.status == (if p.filled == o.terms.amount then Filled else Partial)
              && (o.status == Pending || o.status == Partial)
              && o.terms.merchant == terms.merchant && o.terms.market == terms.market
              && o.terms.option == terms.option && o.terms.currency == terms.currency
              && o.terms.user != terms.user && o.terms.side != terms.side
              && (if terms.side == Buy then o.terms.price <= terms.price else o.terms.price >= terms.price))
  {
    var queue := QueueOf(orders, trades, terms);
    EligibleMeans(terms, orders[id]);
    hide MatchIncoming, Candidates, Eligible, HasPriority;
    if id in queue {
      var i :| 0 <= i < |queue| && queue[i] == id;
      PlacementMaker(orders, trades, terms, queue, i);
      AllotmentRange(orders, terms, queue, i);
    } else {
      PlacementFrame(orders, trades, terms, queue, id);
    }
  }
}
