/** A concrete run that shows why solvency carries its condition. */
module Witnesses {
  import opened Fixed
  import opened Sorting
  import opened Sums
  import opened Orders
  import opened BookInvariants
  import opened Collateral
  import opened Ledger
  import opened LedgerInvariants
  import opened LedgerRuns
  import opened SettlementRuns
  import opened Conservation
  import opened Solvency

  const TRADER := WalletKey("m", "u", "USD")

  function Bid(id: OrderId, market: MarketId): Terms {
    Terms(id, "m", "u", market, Buy, "Yes", 1_000_000, "USD", 500_000, Gtc, "", id)
  }

  function MarketRow(e: EventId): Market {
    Market("m", e, ["Yes", "No"], Active, 0)
  }

  /** One share at half a unit needs fifty cents. */
  lemma FiftyCents(id: OrderId, market: MarketId)
    ensures OrderCollateral(Bid(id, market), 1_000_000) == 50
  {
    ProductExact(1_000_000, 500_000, 50);
  }

  function Traded(orders: Book, balance: int, locked: int): State {
    State(orders, [], map[TRADER := Wallet(balance, locked)], map[1 := MarketRow(1), 2 := MarketRow(2)], map[], map[], map[TRADER := 100])
  }

  lemma BidPlaced(orders: Book, balance: int, locked: int, id: OrderId, market: MarketId)
    requires (id == market == 1) || (id == market == 2)
    requires id !in orders && BookOk(orders) && balance >= 50 && locked >= 0
    requires forall x | x in orders :: orders[x].terms.user == "u"
    ensures Place(Traded(orders, balance, locked), Bid(id, market))
         == Success(Traded(orders[id := NewOrder(Bid(id, market))], balance - 50, locked + 50))
  {
    var st, terms := Traded(orders, balance, locked), Bid(id, market);
    FiftyCents(id, market);
    PlacementRests(orders, [], terms);
    var lockedWallets := map[TRADER := Wallet(balance - 50, locked + 50)];
    assert st.wallets[TRADER := Wallet(balance - 50, locked + 50)] == lockedWallets;
    assert LockFunds(st.wallets, KeyOf(terms), 50) == Success(lockedWallets);
    assert Refunds(terms, []) == 0;
    assert AddVolume(st.markets, market, 0) == st.markets;
    assert CommitPlacement(st, lockedWallets, terms, Matching(Inserted(orders, terms), []))
        == Success(Traded(orders[id := NewOrder(Bid(id, market))], balance - 50, locked + 50));
  }

  function CancelledBid(): Book {
    map[1 := Cancel(NewOrder(Bid(1, 1)))]
  }

  function BothBids(): Book {
    CancelledBid()[2 := NewOrder(Bid(2, 2))]
  }

  function AfterSettlement(): State {
    var c := Closeout(Cancel(NewOrder(Bid(1, 1))), 0, 50, 0);
    State(BothBids(), [], map[TRADER := Wallet(100, 0)],
          map[1 := MarketRow(1).(status := Settled), 2 := MarketRow(2)],
          map[1 := Settlement(1, "Yes")], map[1 := c], map[TRADER := 100])
  }

  lemma OnlyOrderOne()
    ensures SettlementQueue(BothBids(), 1) == [1]
  {
    var ids := SettlementQueue(BothBids(), 1);
    SortUnique(ids, [1], {1}, ById()) by {
      assert OrdersOf(BothBids(), 1) == {1};
    }
  }

  lemma CancelledCloseout()
    ensures CloseoutOf(Cancel(NewOrder(Bid(1, 1))), [], "Yes") == Closeout(Cancel(NewOrder(Bid(1, 1))), 0, 50, 0)
  {
    FiftyCents(1, 1);
    PayoutExact(0);
  }

  lemma PaysOrderOne()
    ensures var st := Traded(BothBids(), 50, 50);
            Payable(st, [1]) && ApplyAll(st, [1], "Yes")
              == Success(st.(wallets := map[TRADER := Wallet(100, 0)], closeouts := AfterSettlement().closeouts))
  {
    var st := Traded(BothBids(), 50, 50);
    var c := Closeout(Cancel(NewOrder(Bid(1, 1))), 0, 50, 0);
    CancelledCloseout();
    assert KeyOf(st.orders[1].terms) == TRADER;
    var next := ApplyCloseout(st, 1, c).value;
    assert next == st.(wallets := map[TRADER := Wallet(100, 0)], closeouts := map[1 := c]);
    assert [1][1..] == [];
  }

  lemma SettlesMarketOne()
    ensures Settle(Traded(BothBids(), 50, 50), 1, 1, "Yes") == Success(AfterSettlement())
  {
    var st := Traded(BothBids(), 50, 50);
    OnlyOrderOne();
    PaysOrderOne();
    assert AuditPasses(st.orders, st.trades, 1);
    assert Conserved(st.orders, st.trades, "Yes", [1]) by { ConservedAlone(); }
    var paid := ApplyAll(st, [1], "Yes").value;
    assert CloseMarket(paid, 1, 1, "Yes") == AfterSettlement();
  }

  lemma ConservedAlone()
    ensures Conserved(BothBids(), [], "Yes", [1])
  {
    CancelledCloseout();
    assert [1][..0] == [];
  }

  lemma FirstBid()
    ensures Place(Traded(map[], 100, 0), Bid(1, 1)) == Success(Traded(map[1 := NewOrder(Bid(1, 1))], 50, 50))
  {
    BidPlaced(map[], 100, 0, 1, 1);
    assert map[][1 := NewOrder(Bid(1, 1))] == map[1 := NewOrder(Bid(1, 1))];
  }

  lemma SecondBid()
    ensures Place(Traded(CancelledBid(), 100, 0), Bid(2, 2)) == Success(Traded(BothBids(), 50, 50))
  {
    BidPlaced(CancelledBid(), 100, 0, 2, 2);
  }

  lemma Cancels()
    ensures CancelOrder(Traded(map[1 := NewOrder(Bid(1, 1))], 50, 50), 1) == Success(Traded(CancelledBid(), 100, 0))
    ensures CancelOrder(AfterSettlement(), 2) == Failure(InsufficientLocked)
  {
    FiftyCents(1, 1);
    FiftyCents(2, 2);
    var st := Traded(map[1 := NewOrder(Bid(1, 1))], 50, 50);
    assert st.wallets[TRADER := Wallet(100, 0)] == map[TRADER := Wallet(100, 0)];
    assert UnlockFunds(st.wallets, TRADER, 50) == Success(map[TRADER := Wallet(100, 0)]);
    assert st.orders[1 := Cancel(st.orders[1])] == CancelledBid();
  }

  ghost function Opened(n: nat): State {
    EMPTY.(markets := if n == 1 then map[1 := MarketRow(1)] else map[1 := MarketRow(1), 2 := MarketRow(2)])
  }

  /** Two open markets and one funded wallet are reached from the empty tables. */
  lemma StartIsReached()
    ensures Inv(Traded(map[], 100, 0))
  {
    EmptyInv();
    NextInv(EMPTY, OpOpen(1, "m", 1, ["Yes", "No"]));
    assert Next(EMPTY, OpOpen(1, "m", 1, ["Yes", "No"])) == Opened(1);
    NextInv(Opened(1), OpOpen(2, "m", 2, ["Yes", "No"]));
    assert Next(Opened(1), OpOpen(2, "m", 2, ["Yes", "No"])) == Opened(2);
    NextInv(Opened(2), OpFund(TRADER, 100));
    assert Next(Opened(2), OpFund(TRADER, 100)) == Traded(map[], 100, 0);
  }

  /** A run of the exchange in which a cancelled remainder is refunded twice: bid in market
      1, cancel, bid in market 2, settle market 1. The settlement commits, and takes the
      collateral of the bid in market 2, which can then not be cancelled any more. */
  lemma DoubleRefundRun()
    ensures Inv(Traded(map[], 100, 0)) && WholeTerms(Bid(1, 1)) && WholeTerms(Bid(2, 2))
    ensures Place(Traded(map[], 100, 0), Bid(1, 1)) == Success(Traded(map[1 := NewOrder(Bid(1, 1))], 50, 50))
    ensures CancelOrder(Traded(map[1 := NewOrder(Bid(1, 1))], 50, 50), 1) == Success(Traded(CancelledBid(), 100, 0))
    ensures Place(Traded(CancelledBid(), 100, 0), Bid(2, 2)) == Success(Traded(BothBids(), 50, 50))
    ensures Settle(Traded(BothBids(), 50, 50), 1, 1, "Yes") == Success(AfterSettlement())
    ensures AfterSettlement().wallets[TRADER].locked == 0 && AfterSettlement().orders[2].Open()
    ensures CancelOrder(AfterSettlement(), 2) == Failure(InsufficientLocked)
  {
    StartIsReached();
    FirstBid();
    SecondBid();
    Cancels();
    SettlesMarketOne();
  }
}
