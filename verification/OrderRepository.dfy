/** The in-memory order repository: one map of stored orders, enumerated in no particular
    order, sorted, and updated in place. */
module OrderRepository {
  import opened Fixed
  import opened Sorting
  import opened Orders
  import opened BookInvariants
  import opened Collateral
  import opened Ledger
  import opened LedgerInvariants
  import opened LedgerRuns
  import opened Keyset

  /** The outcome of a placement on the map alone: the log of the call's own fills is all
      the improvement depends on. */
  ghost function Placement(orders: Book, terms: Terms): Matching
    requires Placeable(orders, terms)
  {
    MatchIncoming(orders, [], terms)
  }

  class MemoryRepository {
    var byID: Book

    ghost predicate Valid()
      reads this
    {
      BookOk(byID) && Uncrossed(byID) && KeysUnique(byID)
    }

    constructor ()
      ensures Valid() && byID == map[]
    {
      byID := map[];
    }

    /** Stores a new order and matches it. */
    method Place(incoming: Terms) returns (r: Result<int>)
      requires Valid() && ValidTerms(incoming)
      modifies this
      ensures Valid()
      ensures Taken(old(byID), incoming) ==> r == Failure(AlreadyExists) && byID == old(byID)
      ensures !Taken(old(byID), incoming) ==>
                var m := Placement(old(byID), incoming);
                byID == m.orders && r == Success(Refunds(incoming, m.trades))
    {
      if incoming.id in byID {
        return Failure(AlreadyExists);
      }
      if incoming.key != "" {
        var found := GetByIdempotency(incoming.merchant, incoming.key);
        if found.Success? {
          return Failure(AlreadyExists);
        }
      }
      ghost var before := byID;
      byID := byID[incoming.id := NewOrder(incoming)];
      CandidatesQueue(before, incoming);
      var candidates := MatchingCandidates(incoming);
      ghost var m := Match(before, [], incoming, candidates);
      PlacementKeeps(before, incoming);
      var priceImprovement, log := FillCandidates(incoming, candidates);
      byID := byID[incoming.id := Rest(byID[incoming.id])];
      return Success(priceImprovement);
    }

    /** Walks the candidates until the incoming order is full. */
    method FillCandidates(incoming: Terms, candidates: seq<OrderId>) returns (priceImprovement: int, ghost log: seq<Trade>)
      requires incoming.id in byID && byID[incoming.id].terms == incoming && incoming.id !in candidates
      requires forall i | 0 <= i < |candidates| :: candidates[i] in byID
      modifies this
      ensures Matching(byID, log) == old(FillAll(Matching(byID, []), incoming.id, candidates))
      ensures priceImprovement == Refunds(incoming, log)
    {
      priceImprovement, log := 0, [];
      ghost var goal := FillAll(Matching(byID, []), incoming.id, candidates);
      assert candidates[0..] == candidates;
      var i := 0;
      while i < |candidates|
        invariant 0 <= i <= |candidates|
        invariant byID.Keys == old(byID.Keys) && byID[incoming.id].terms == incoming
        invariant FillAll(Matching(byID, log), incoming.id, candidates[i..]) == goal
        invariant priceImprovement == Refunds(incoming, log)
      {
        var stored, maker := byID[incoming.id], byID[candidates[i]];
        var incomingRemaining := stored.Remaining();
        if incomingRemaining == 0 {
          break;
        }
        var fillAmount := Min(incomingRemaining, maker.Remaining());
        ghost var trade := Trade(incoming.market, candidates[i], incoming.id, fillAmount, maker.terms.price);
        TradeSumAppend(log, trade, RefundOf(incoming));
        priceImprovement := priceImprovement + PriceImprovementCents(incoming.side, fillAmount, incoming.price, maker.terms.price);
        assert candidates[i..][1..] == candidates[i + 1..] && candidates[i] in candidates;
        log := log + [trade];
        byID := byID[candidates[i] := AddFill(maker, fillAmount)];
        byID := byID[incoming.id := stored.(filled := stored.filled + fillAmount)];
        i := i + 1;
      }
    }

    /** The orders that may trade against the incoming one, best first. */
    method MatchingCandidates(incoming: Terms) returns (makers: seq<OrderId>)
      requires forall id | id in byID :: byID[id].terms.id == id
      ensures makers == Candidates(byID, incoming)
    {
      var values: seq<OrderId> := [];
      var rest := byID.Keys;
      while rest != {}
        invariant rest <= byID.Keys
        invariant forall id :: id in values <==> id in EligibleMakers(byID, incoming) - rest
        decreases |rest|
      {
        var id :| id in rest;
        rest := rest - {id};
        if Eligible(incoming, byID[id]) {
          values := values + [id];
        }
      }
      PriorityTotal(byID, incoming.side);
      makers := SortSlice(values, EligibleMakers(byID, incoming), Priority(byID, incoming.side));
    }

    method Get(orderID: OrderId) returns (r: Result<Order>)
      ensures r == if orderID in byID then Success(byID[orderID]) else Failure(NotFound)
    {
      if orderID !in byID {
        return Failure(NotFound);
      }
      return Success(byID[orderID]);
    }

    /** The stored order under a key; a reader of a valid map can find only one. */
    method GetByIdempotency(merchant: string, key: string) returns (r: Result<Order>)
      ensures match r
              case Success(o) => o.terms.merchant == merchant && o.terms.key == key && exists id | id in byID :: byID[id] == o
              case Failure(e) => e == NotFound && forall id | id in byID :: byID[id].terms.merchant != merchant || byID[id].terms.key != key
    {
      var rest := byID.Keys;
      while rest != {}
        invariant rest <= byID.Keys
        invariant forall id | id in byID && id !in rest :: byID[id].terms.merchant != merchant || byID[id].terms.key != key
        decreases |rest|
      {
        var id :| id in rest;
        if byID[id].terms.merchant == merchant && byID[id].terms.key == key {
          return Success(byID[id]);
        }
        rest := rest - {id};
      }
      return Failure(NotFound);
    }

    method Cancel(orderID: OrderId) returns (r: Result<int>)
      requires Valid()
      modifies this
      ensures Valid()
      ensures match r
              case Success(remaining) =>
                && orderID in old(byID) && old(byID)[orderID].Open()
                && byID == old(byID)[orderID := old(byID)[orderID].(status := Cancelled)]
                && remaining == old(byID)[orderID].terms.amount - old(byID)[orderID].filled > 0
              case Failure(e) =>
                && byID == old(byID)
                && if orderID !in byID then e == NotFound else e == NotCancellable && !byID[orderID].Open()
    {
      if orderID !in byID {
        return Failure(NotFound);
      }
      var value := byID[orderID];
      if !value.Open() {
        return Failure(NotCancellable);
      }
      CancellationKeeps(byID, orderID);
      byID := byID[orderID := value.(status := Cancelled)];
      return Success(value.Remaining());
    }

    /** One page more one row, newest first, behind the cursor. */
    method ListAfter(filters: ListFilters, limit: nat, cursor: Cursor) returns (ids: seq<OrderId>)
      requires KeyedById(byID)
      ensures ids == Keyset.ListAfter(byID, filters, limit, cursor)
      ensures |ids| <= limit + 1 && forall i | 0 <= i < |ids| ::
                && ids[i] in byID
                && var o := byID[ids[i]];
                   && (filters.merchant.Only? ==> o.terms.merchant == filters.merchant.value) && (filters.user.Only? ==> o.terms.user == filters.user.value)
                   && (filters.market.Only? ==> o.terms.market == filters.market.value) && (filters.status.Only? ==> o.status == filters.status.value)
                   && (cursor.After? ==> o.terms.createdAt < cursor.createdAt || (o.terms.createdAt == cursor.createdAt && ids[i] < cursor.id))
                   && forall j | i < j < |ids| ::
                        && ids[j] in byID
                        && (byID[ids[j]].terms.createdAt < o.terms.createdAt
                            || (byID[ids[j]].terms.createdAt == o.terms.createdAt && ids[j] < ids[i]))
    {
      var values: seq<OrderId> := [];
      var rest := byID.Keys;
      while rest != {}
        invariant rest <= byID.Keys
        invariant forall id :: id in values <==> id in Listed(byID, filters, cursor) - rest
        decreases |rest|
      {
        var id :| id in rest;
        rest := rest - {id};
        if MatchesFilters(byID[id], filters) && AfterCursor(byID[id].terms, cursor) {
          values := values + [id];
        }
      }
      NewestTotal(byID, Listed(byID, filters, cursor));
      ids := SortSlice(values, Listed(byID, filters, cursor), NewestFirst(byID));
      if |ids| > limit + 1 {
        ids := ids[..limit + 1];
      }
      hide MatchesFilters, AfterCursor, Listed;
      RowsAgree(byID, filters, limit, cursor);
    }
  }

  lemma PlacementKeeps(orders: Book, terms: Terms)
    requires Placeable(orders, terms) && Uncrossed(orders) && KeysUnique(orders) && !Taken(orders, terms)
    ensures var m := Placement(orders, terms); BookOk(m.orders) && Uncrossed(m.orders) && KeysUnique(m.orders)
  {
    var queue := Candidates(Inserted(orders, terms), terms);
    CandidatesQueue(orders, terms);
    PlacementAdvances(orders, [], terms, queue);
    PlacementUncrossed(orders, [], terms, queue);
    PlaceKeys(orders, Placement(orders, terms).orders, terms);
  }

  lemma CancellationKeeps(orders: Book, id: OrderId)
    requires BookOk(orders) && Uncrossed(orders) && KeysUnique(orders) && id in orders && orders[id].Open()
    ensures var r := orders[id := orders[id].(status := Cancelled)]; BookOk(r) && Uncrossed(r) && KeysUnique(r)
  {
    var r := orders[id := BookInvariants.Cancel(orders[id])];
    CancelAdvances(orders, id);
    FewerOpenUncrossed(orders, r);
    forall i, j | i in r && j in r && i != j ensures !SameKey(r[i].terms, r[j].terms) {
      assert !SameKey(orders[i].terms, orders[j].terms);
    }
  }

  // ----- the two repositories agree -----

  /** Fills do not depend on the log they are appended to. */
  lemma {:induction false} FillsIgnoreLog(orders: Book, a: seq<Trade>, b: seq<Trade>, taker: OrderId, makers: seq<OrderId>)
    requires taker in orders && forall i | 0 <= i < |makers| :: makers[i] in orders
    ensures var x, y := FillAll(Matching(orders, a + b), taker, makers), FillAll(Matching(orders, b), taker, makers);
            x.orders == y.orders && x.trades == a + y.trades
    decreases |makers|
  {
    if makers != [] && orders[taker].Remaining() != 0 {
      var x, y := Fill(Matching(orders, a + b), taker, makers[0]), Fill(Matching(orders, b), taker, makers[0]);
      assert x.trades == a + y.trades;
      FillsIgnoreLog(x.orders, a, y.trades, taker, makers[1..]);
    }
  }

  lemma {:induction false} RefundsSplit(t: Terms, a: seq<Trade>, b: seq<Trade>)
    ensures Refunds(t, a + b) == Refunds(t, a) + Refunds(t, b)
    decreases |b|
  {
    if b == [] {
      assert a + b == a;
    } else {
      var c, x := b[..|b| - 1], b[|b| - 1];
      assert a + b == a + c + [x] && b == c + [x];
      RefundsSplit(t, a, c);
      TradeSumAppend(a + c, x, RefundOf(t));
      TradeSumAppend(c, x, RefundOf(t));
    }
  }

  /** The memory repository and the database transaction leave the same orders and give
      back the same price improvement. */
  lemma RepositoriesAgree(orders: Book, trades: seq<Trade>, terms: Terms)
    requires Placeable(orders, terms) && TradesOk(orders, trades)
    ensures var memory, database := Placement(orders, terms), MatchIncoming(orders, trades, terms);
            && database.orders == memory.orders && database.trades == trades + memory.trades
            && Refunds(terms, database.trades) == Refunds(terms, memory.trades)
  {
    CandidatesQueue(orders, terms);
    var queue := Candidates(Inserted(orders, terms), terms);
    assert trades + [] == trades;
    FillsIgnoreLog(Inserted(orders, terms), trades, [], terms.id, queue);
    RefundsSplit(terms, trades, Placement(orders, terms).trades);
    RefundsNone(orders, trades, terms);
  }
}
