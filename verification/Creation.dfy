/** Creating and cancelling orders when the repository and the wallet service are not one
    transaction: any number of clients, each of whose calls is atomic, interleaved freely. */
module Creation {
  import opened Fixed
  import opened Sums
  import opened Orders
  import opened BookInvariants
  import opened Collateral
  import opened Ledger
  import opened LedgerInvariants
  import opened LedgerRuns
  import opened Solvency

  type ClientId = nat

  /** Where a client stands in `Create` or `Cancel`. `stranded` is what a failed unlock left
      locked behind it. */
  datatype Phase =
    | Checking(request: Terms)
    | Locking(request: Terms)
    | Placing(request: Terms)
    | Improving(placed: Order, improvement: int)
    | Releasing(placed: Order)
    | Undoing(request: Terms)
    | Rereading(request: Terms, stranded: int)
    | Created(placed: Order)
    | Existing(request: Terms, id: OrderId, stranded: int)
    | Rejected(request: Terms, error: Error, stranded: int)
    | Broken(placed: Order, error: Error, stranded: int)
    | Cancelling(id: OrderId)
    | Unlocking(cancelled: Order)
    | CancelDone(cancelled: Order)
    | CancelRefused(id: OrderId, error: Error)
    | CancelBroken(cancelled: Order, error: Error)

  type Clients = map<ClientId, Phase>

  /** `trades` and `funded` are history variables: the fills made, and deposits less withdrawals. */
  datatype World = World(orders: Book, trades: seq<Trade>, wallets: Wallets, funded: map<WalletKey, int>, clients: Clients)

  // ----- the two wallet calls, which refuse a zero amount -----

  function Lock(wallets: Wallets, key: WalletKey, cents: int): Result<Wallets> {
    if cents <= 0 then Failure(InvalidAmount) else LockFunds(wallets, key, cents)
  }

  function Unlock(wallets: Wallets, key: WalletKey, cents: int): Result<Wallets> {
    if cents <= 0 then Failure(InvalidAmount) else UnlockFunds(wallets, key, cents)
  }

  // ----- one step of one client -----

  /** The order already stored under the request's idempotency key. */
  predicate Keyed(orders: Book, t: Terms, id: OrderId) {
    id in orders && SameKey(t, orders[id].terms)
  }

  function Cents(t: Terms): int {
    OrderCollateral(t, t.amount)
  }

  function Remainder(o: Order): int {
    if o.status.Cancelled? && o.Remaining() != 0 then OrderCollateral(o.terms, o.Remaining()) else 0
  }

  function At(w: World, c: ClientId, p: Phase): World {
    w.(clients := w.clients[c := p])
  }

  ghost function Check(w: World, c: ClientId, t: Terms, marketOpen: bool): World {
    if id :| Keyed(w.orders, t, id) then At(w, c, Existing(t, id, 0))
    else if !marketOpen then At(w, c, Rejected(t, InvalidMarket, 0))
    else At(w, c, Locking(t))
  }

  function LockCollateral(w: World, c: ClientId, t: Terms): World {
    match Lock(w.wallets, KeyOf(t), Cents(t))
    case Failure(e) => At(w, c, Rejected(t, e, 0))
    case Success(wallets) => At(w.(wallets := wallets), c, Placing(t))
  }

  ghost function PlaceOrder(w: World, c: ClientId, t: Terms): World
    requires BookOk(w.orders) && ValidTerms(t)
  {
    if Taken(w.orders, t) then At(w, c, Undoing(t))
    else
      var m := MatchIncoming(w.orders, w.trades, t);
      At(w.(orders := m.orders, trades := m.trades), c, Improving(m.orders[t.id], Refunds(t, m.trades)))
  }

  function RefundImprovement(w: World, c: ClientId, o: Order, improvement: int): World {
    if improvement <= 0 then At(w, c, Releasing(o))
    else
      match Unlock(w.wallets, KeyOf(o.terms), improvement)
      case Failure(e) => At(w, c, Broken(o, e, improvement + Remainder(o)))
      case Success(wallets) => At(w.(wallets := wallets), c, Releasing(o))
  }

  function ReleaseRemainder(w: World, c: ClientId, o: Order): World {
    if !o.status.Cancelled? || o.Remaining() == 0 then At(w, c, Created(o))
    else
      match Unlock(w.wallets, KeyOf(o.terms), OrderCollateral(o.terms, o.Remaining()))
      case Failure(e) => At(w, c, Broken(o, e, Remainder(o)))
      case Success(wallets) => At(w.(wallets := wallets), c, Created(o))
  }

  /** The losing client gives its collateral back, ignoring an error. */
  function Undo(w: World, c: ClientId, t: Terms): World {
    match Unlock(w.wallets, KeyOf(t), Cents(t))
    case Failure(_) => At(w, c, Rereading(t, Cents(t)))
    case Success(wallets) => At(w.(wallets := wallets), c, Rereading(t, 0))
  }

  ghost function Reread(w: World, c: ClientId, t: Terms, stranded: int): World {
    if id :| Keyed(w.orders, t, id) then At(w, c, Existing(t, id, stranded))
    else At(w, c, Rejected(t, AlreadyExists, stranded))
  }

  function CancelStored(w: World, c: ClientId, id: OrderId): World {
    if id !in w.orders then At(w, c, CancelRefused(id, NotFound))
    else if !w.orders[id].Open() then At(w, c, CancelRefused(id, NotCancellable))
    else At(w.(orders := w.orders[id := Cancel(w.orders[id])]), c, Unlocking(Cancel(w.orders[id])))
  }

  function UnlockCancelled(w: World, c: ClientId, o: Order): World {
    if o.Remaining() == 0 then At(w, c, CancelDone(o))
    else
      match Unlock(w.wallets, KeyOf(o.terms), OrderCollateral(o.terms, o.Remaining()))
      case Failure(e) => At(w, c, CancelBroken(o, e))
      case Success(wallets) => At(w.(wallets := wallets), c, CancelDone(o))
  }

  /** The next call of client `c`; `marketOpen` is what the market service answers. */
  ghost function Advance(w: World, c: ClientId, marketOpen: bool): World
    requires c in w.clients && WorldInv(w)
  {
    assert PhaseOk(w, w.clients[c]);
    match w.clients[c]
    case Checking(t) => Check(w, c, t, marketOpen)
    case Locking(t) => LockCollateral(w, c, t)
    case Placing(t) => PlaceOrder(w, c, t)
    case Improving(o, improvement) => RefundImprovement(w, c, o, improvement)
    case Releasing(o) => ReleaseRemainder(w, c, o)
    case Undoing(t) => Undo(w, c, t)
    case Rereading(t, stranded) => Reread(w, c, t, stranded)
    case Cancelling(id) => CancelStored(w, c, id)
    case Unlocking(o) => UnlockCancelled(w, c, o)
    case _ => w
  }

  datatype Move =
    | Submit(c: ClientId, request: Terms)
    | SubmitCancel(c: ClientId, id: OrderId)
    | Run(c: ClientId, marketOpen: bool)
    | Deposit(key: WalletKey, cents: int)
    | Withdrawal(key: WalletKey, cents: int)

  function MoveFunds(w: World, key: WalletKey, cents: int): World
    requires key in w.wallets && key in w.funded
  {
    w.(wallets := w.wallets[key := w.wallets[key].(balance := w.wallets[key].balance + cents)],
       funded := w.funded[key := w.funded[key] + cents])
  }

  ghost function Moved(w: World, move: Move): World
    requires WorldInv(w)
  {
    match move
    case Submit(c, request) => if c in w.clients || !ValidTerms(request) then w else At(w, c, Checking(request))
    case SubmitCancel(c, id) => if c in w.clients then w else At(w, c, Cancelling(id))
    case Run(c, marketOpen) => if c !in w.clients then w else Advance(w, c, marketOpen)
    case Deposit(key, cents) =>
      if cents <= 0 then w
      else if key in w.wallets then MoveFunds(w, key, cents)
      else w.(wallets := w.wallets[key := Wallet(cents, 0)], funded := w.funded[key := cents])
    case Withdrawal(key, cents) =>
      if cents <= 0 || key !in w.wallets || w.wallets[key].balance < cents then w else MoveFunds(w, key, -cents)
  }

  // ----- the account of every wallet -----

  ghost function HeldAt(orders: Book, trades: seq<Trade>, key: WalletKey, id: OrderId): int {
    if id in orders && KeyOf(orders[id].terms) == key then Held(orders[id], trades) else 0
  }

  ghost function HeldFor(orders: Book, trades: seq<Trade>, key: WalletKey): OrderId -> int {
    (id: OrderId) => HeldAt(orders, trades, key, id)
  }

  ghost function HeldIn(w: World, key: WalletKey): int {
    Sum(w.orders.Keys, HeldFor(w.orders, w.trades, key))
  }

  /** Cents a client has locked that no order holds, or no longer holds. */
  function InFlight(p: Phase): int {
    match p
    case Placing(t) => Cents(t)
    case Undoing(t) => Cents(t)
    case Improving(o, improvement) => improvement + Remainder(o)
    case Releasing(o) => Remainder(o)
    case Rereading(_, stranded) => stranded
    case Existing(_, _, stranded) => stranded
    case Rejected(_, _, stranded) => stranded
    case Broken(_, _, stranded) => stranded
    case Unlocking(o) => Remainder(o)
    case CancelBroken(o, _) => Remainder(o)
    case _ => 0
  }

  predicate HasOwner(p: Phase) {
    !p.Cancelling? && !p.CancelRefused?
  }

  function OwnTerms(p: Phase): Terms
    requires HasOwner(p)
  {
    match p
    case Improving(o, _) => o.terms
    case Releasing(o) => o.terms
    case Created(o) => o.terms
    case Broken(o, _, _) => o.terms
    case Unlocking(o) => o.terms
    case CancelDone(o) => o.terms
    case CancelBroken(o, _) => o.terms
    case Checking(t) => t
    case Locking(t) => t
    case Placing(t) => t
    case Undoing(t) => t
    case Rereading(t, _) => t
    case Existing(t, _, _) => t
    case Rejected(t, _, _) => t
  }

  ghost function InFlightAt(clients: Clients, key: WalletKey, c: ClientId): int {
    if c in clients && HasOwner(clients[c]) && KeyOf(OwnTerms(clients[c])) == key then InFlight(clients[c]) else 0
  }

  ghost function InFlightFor(clients: Clients, key: WalletKey): ClientId -> int {
    (c: ClientId) => InFlightAt(clients, key, c)
  }

  ghost function InFlightIn(w: World, key: WalletKey): int {
    Sum(w.clients.Keys, InFlightFor(w.clients, key))
  }

  /** A wallet holds locked exactly what its orders hold and what its clients have pending,
      and owns exactly what was paid into it. */
  ghost predicate Accounted(w: World, key: WalletKey)
    requires key in w.wallets && key in w.funded
  {
    var x := w.wallets[key];
    && x.balance >= 0 && x.locked >= 0
    && x.balance + x.locked == w.funded[key]
    && x.locked == HeldIn(w, key) + InFlightIn(w, key)
  }

  ghost predicate Accounts(w: World) {
    && w.wallets.Keys == w.funded.Keys
    && (forall key {:trigger Accounted(w, key)} | key in w.wallets :: Accounted(w, key))
  }

  /** What a client knows of its own order or of the stored one. */
  ghost predicate PhaseOk(w: World, p: Phase) {
    && (HasOwner(p) ==> ValidTerms(OwnTerms(p)) && (InFlight(p) != 0 ==> KeyOf(OwnTerms(p)) in w.wallets))
    && (HasPlaced(p) ==> OrderOk(p.placed) && Stored(w.orders, p.placed.terms))
    && (Withdrawn(p) ==> p.cancelled.status.Cancelled? && OrderOk(p.cancelled) && IsStored(w.orders, p.cancelled))
    && (p.Existing? ==> Keyed(w.orders, p.request, p.id))
    && (p.Improving? ==> p.improvement >= 0)
    && (p.Placing? || p.Undoing? ==> Cents(p.request) > 0)
  }

  predicate HasPlaced(p: Phase) {
    p.Improving? || p.Releasing? || p.Created? || p.Broken?
  }

  predicate Withdrawn(p: Phase) {
    p.Unlocking? || p.CancelDone? || p.CancelBroken?
  }

  predicate Stored(orders: Book, t: Terms) {
    t.id in orders && orders[t.id].terms == t
  }

  predicate IsStored(orders: Book, o: Order) {
    o.terms.id in orders && orders[o.terms.id] == o
  }

  ghost predicate ClientsOk(w: World) {
    forall c {:trigger w.clients[c]} | c in w.clients :: PhaseOk(w, w.clients[c])
  }

  ghost predicate BooksOk(w: World) {
    && BookOk(w.orders) && Audited(w.orders, w.trades) && Uncrossed(w.orders) && KeysUnique(w.orders)
    && (forall id | id in w.orders :: KeyOf(w.orders[id].terms) in w.wallets)
  }

  ghost predicate WorldInv(w: World) {
    BooksOk(w) && ClientsOk(w) && Accounts(w)
  }

  // ----- sums over the clients and the orders -----

  lemma PhaseMoves(clients: Clients, c: ClientId, p: Phase, key: WalletKey)
    requires c in clients
    ensures Sum(clients[c := p].Keys, InFlightFor(clients[c := p], key))
         == Sum(clients.Keys, InFlightFor(clients, key)) + InFlightAt(clients[c := p], key, c) - InFlightAt(clients, key, c)
  {
    assert clients[c := p].Keys == clients.Keys;
    SumUpdate<ClientId>(clients.Keys, InFlightFor(clients, key), InFlightFor(clients[c := p], key), c);
  }

  lemma ClientArrives(clients: Clients, c: ClientId, p: Phase, key: WalletKey)
    requires c !in clients && InFlight(p) == 0
    ensures Sum(clients[c := p].Keys, InFlightFor(clients[c := p], key)) == Sum(clients.Keys, InFlightFor(clients, key))
  {
    assert clients[c := p].Keys == clients.Keys + {c};
    SumInserted<ClientId>(clients.Keys, InFlightFor(clients, key), InFlightFor(clients[c := p], key), c);
  }

  lemma NewOrderHeld(orders: Book, trades: seq<Trade>, terms: Terms, m: Matching, key: WalletKey)
    requires RowsAdvance(orders, terms, m) && HoldingsStay(orders, trades, m)
    ensures Sum(m.orders.Keys, HeldFor(m.orders, m.trades, key)) == Sum(orders.Keys, HeldFor(orders, trades, key))
              + HeldAt(m.orders, m.trades, key, terms.id)
  {
    forall id | id in orders ensures HeldFor(m.orders, m.trades, key)(id) == HeldFor(orders, trades, key)(id) {
      assert Advances(orders[id], m.orders[id]);
    }
    SumInserted<OrderId>(orders.Keys, HeldFor(orders, trades, key), HeldFor(m.orders, m.trades, key), terms.id);
  }

  lemma CancelledHeld(orders: Book, trades: seq<Trade>, id: OrderId, key: WalletKey)
    requires id in orders && orders[id].Open()
    ensures var r := orders[id := Cancel(orders[id])];
            Sum(r.Keys, HeldFor(r, trades, key)) == Sum(orders.Keys, HeldFor(orders, trades, key))
              - (if KeyOf(orders[id].terms) == key then OrderCollateral(orders[id].terms, orders[id].Remaining()) else 0)
  {
    var r := orders[id := Cancel(orders[id])];
    assert r.Keys == orders.Keys;
    SumUpdate<OrderId>(orders.Keys, HeldFor(orders, trades, key), HeldFor(r, trades, key), id);
  }

  // ----- every move keeps the account -----

  /** Client `c` moved from one phase to another of the same order. */
  ghost predicate SameOwner(p: Phase, q: Phase) {
    HasOwner(p) && HasOwner(q) && OwnTerms(p) == OwnTerms(q)
  }

  /** A phase change that moves no money. */
  lemma StillAccounts(w: World, c: ClientId, q: Phase)
    requires Accounts(w) && c in w.clients && InFlight(q) == InFlight(w.clients[c])
    requires SameOwner(w.clients[c], q) || InFlight(q) == 0
    ensures Accounts(At(w, c, q))
  {
    var r := At(w, c, q);
    forall key | key in r.wallets ensures Accounted(r, key) {
      assert Accounted(w, key);
      PhaseMoves(w.clients, c, q, key);
    }
  }

  /** A lock or unlock moves exactly what the client's pending cents change by. */
  lemma MoneyAccounts(w: World, c: ClientId, q: Phase, wallets: Wallets)
    requires Accounts(w) && c in w.clients && SameOwner(w.clients[c], q)
    requires var key, d := KeyOf(OwnTerms(q)), InFlight(q) - InFlight(w.clients[c]);
             && key in w.wallets && w.wallets[key].balance - d >= 0 && w.wallets[key].locked + d >= 0
             && wallets == w.wallets[key := Wallet(w.wallets[key].balance - d, w.wallets[key].locked + d)]
    ensures Accounts(At(w.(wallets := wallets), c, q))
  {
    var r := At(w.(wallets := wallets), c, q);
    forall key | key in r.wallets ensures Accounted(r, key) {
      assert Accounted(w, key);
      PhaseMoves(w.clients, c, q, key);
    }
  }

  /** What one client's step does to the tables it shares. */
  ghost predicate Stepped(w: World, c: ClientId, r: World) {
    && c in w.clients && c in r.clients && r.clients == w.clients[c := r.clients[c]]
    && BookAdvances(w.orders, r.orders) && w.wallets.Keys <= r.wallets.Keys
    && BooksOk(r) && Accounts(r) && PhaseOk(r, r.clients[c])
  }

  lemma PhaseKept(w: World, r: World, p: Phase)
    requires PhaseOk(w, p) && BookAdvances(w.orders, r.orders) && w.wallets.Keys <= r.wallets.Keys
    ensures PhaseOk(r, p)
  {
    if HasPlaced(p) { assert Advances(w.orders[p.placed.terms.id], r.orders[p.placed.terms.id]); }
    if Withdrawn(p) { assert Advances(w.orders[p.cancelled.terms.id], r.orders[p.cancelled.terms.id]); }
    if p.Existing? { assert Advances(w.orders[p.id], r.orders[p.id]); }
  }

  lemma SteppedInv(w: World, c: ClientId, r: World)
    requires WorldInv(w) && Stepped(w, c, r)
    ensures WorldInv(r)
  {
    forall d | d in r.clients ensures PhaseOk(r, r.clients[d]) {
      if d != c {
        assert r.clients[d] == w.clients[d];
        PhaseKept(w, r, w.clients[d]);
      }
    }
  }

  lemma NoAdvance(orders: Book)
    ensures BookAdvances(orders, orders)
  {
  }

  /** A client's step that writes no table. */
  lemma StillSteps(w: World, c: ClientId, q: Phase)
    requires WorldInv(w) && c in w.clients && PhaseOk(w, q) && InFlight(q) == InFlight(w.clients[c])
    requires SameOwner(w.clients[c], q) || InFlight(q) == 0
    ensures Stepped(w, c, At(w, c, q))
  {
    hide Audited, Uncrossed, KeysUnique, InFlight;
    StillAccounts(w, c, q);
    PhaseKept(w, At(w, c, q), q);
  }

  /** A client's step that only moves cents between the two parts of its wallet. */
  lemma MoneySteps(w: World, c: ClientId, q: Phase, wallets: Wallets)
    requires WorldInv(w) && c in w.clients && SameOwner(w.clients[c], q) && PhaseOk(w.(wallets := wallets), q)
    requires var key, d := KeyOf(OwnTerms(q)), InFlight(q) - InFlight(w.clients[c]);
             || (d > 0 && Lock(w.wallets, key, d) == Success(wallets))
             || (d < 0 && Unlock(w.wallets, key, -d) == Success(wallets))
    ensures Stepped(w, c, At(w.(wallets := wallets), c, q))
  {
    hide Audited, Uncrossed, KeysUnique, InFlight;
    var r := At(w.(wallets := wallets), c, q);
    assert Accounted(w, KeyOf(OwnTerms(q)));
    MoneyAccounts(w, c, q, wallets);
    PhaseKept(w.(wallets := wallets), r, q);
  }

  lemma CheckSteps(w: World, c: ClientId, t: Terms, marketOpen: bool)
    requires WorldInv(w) && c in w.clients && w.clients[c] == Checking(t)
    ensures Stepped(w, c, Check(w, c, t, marketOpen))
  {
    assert PhaseOk(w, w.clients[c]);
    hide BooksOk, Accounts, Stepped;
    StillSteps(w, c, Check(w, c, t, marketOpen).clients[c]);
  }

  lemma LockSteps(w: World, c: ClientId, t: Terms)
    requires WorldInv(w) && c in w.clients && w.clients[c] == Locking(t)
    ensures Stepped(w, c, LockCollateral(w, c, t))
  {
    assert PhaseOk(w, w.clients[c]);
    hide BooksOk, Accounts, Stepped, OrderCollateral;
    match Lock(w.wallets, KeyOf(t), Cents(t))
    case Failure(e) => StillSteps(w, c, Rejected(t, e, 0));
    case Success(wallets) => MoneySteps(w, c, Placing(t), wallets);
  }

  lemma ImproveSteps(w: World, c: ClientId, o: Order, improvement: int)
    requires WorldInv(w) && c in w.clients && w.clients[c] == Improving(o, improvement)
    ensures Stepped(w, c, RefundImprovement(w, c, o, improvement))
  {
    assert PhaseOk(w, w.clients[c]);
    hide BooksOk, Accounts, Stepped, OrderCollateral;
    if improvement <= 0 {
      StillSteps(w, c, Releasing(o));
    } else {
      match Unlock(w.wallets, KeyOf(o.terms), improvement)
      case Failure(e) => StillSteps(w, c, Broken(o, e, improvement + Remainder(o)));
      case Success(wallets) => MoneySteps(w, c, Releasing(o), wallets);
    }
  }

  lemma ReleaseSteps(w: World, c: ClientId, o: Order)
    requires WorldInv(w) && c in w.clients && w.clients[c] == Releasing(o)
    ensures Stepped(w, c, ReleaseRemainder(w, c, o))
  {
    assert PhaseOk(w, w.clients[c]);
    hide BooksOk, Accounts, Stepped, OrderCollateral;
    if !o.status.Cancelled? || o.Remaining() == 0 {
      StillSteps(w, c, Created(o));
    } else {
      match Unlock(w.wallets, KeyOf(o.terms), OrderCollateral(o.terms, o.Remaining()))
      case Failure(e) => StillSteps(w, c, Broken(o, e, Remainder(o)));
      case Success(wallets) => MoneySteps(w, c, Created(o), wallets);
    }
  }

  lemma UndoSteps(w: World, c: ClientId, t: Terms)
    requires WorldInv(w) && c in w.clients && w.clients[c] == Undoing(t)
    ensures Stepped(w, c, Undo(w, c, t))
  {
    assert PhaseOk(w, w.clients[c]);
    hide BooksOk, Accounts, Stepped, OrderCollateral;
    match Unlock(w.wallets, KeyOf(t), Cents(t))
    case Failure(_) => StillSteps(w, c, Rereading(t, Cents(t)));
    case Success(wallets) => MoneySteps(w, c, Rereading(t, 0), wallets);
  }

  lemma RereadSteps(w: World, c: ClientId, t: Terms, stranded: int)
    requires WorldInv(w) && c in w.clients && w.clients[c] == Rereading(t, stranded)
    ensures Stepped(w, c, Reread(w, c, t, stranded))
  {
    assert PhaseOk(w, w.clients[c]);
    hide BooksOk, Accounts, Stepped;
    StillSteps(w, c, Reread(w, c, t, stranded).clients[c]);
  }

  lemma UnlockSteps(w: World, c: ClientId, o: Order)
    requires WorldInv(w) && c in w.clients && w.clients[c] == Unlocking(o)
    ensures Stepped(w, c, UnlockCancelled(w, c, o))
  {
    assert PhaseOk(w, w.clients[c]);
    hide BooksOk, Accounts, Stepped, OrderCollateral;
    if o.Remaining() == 0 {
      StillSteps(w, c, CancelDone(o));
    } else {
      match Unlock(w.wallets, KeyOf(o.terms), OrderCollateral(o.terms, o.Remaining()))
      case Failure(e) => StillSteps(w, c, CancelBroken(o, e));
      case Success(wallets) => MoneySteps(w, c, CancelDone(o), wallets);
    }
  }

  lemma PlacedAccounts(w: World, c: ClientId, t: Terms, m: Matching)
    requires Accounts(w) && c in w.clients && w.clients[c] == Placing(t)
    requires RowsAdvance(w.orders, t, m) && HoldingsStay(w.orders, w.trades, m) && OrderOk(m.orders[t.id])
    ensures Accounts(At(w.(orders := m.orders, trades := m.trades), c, Improving(m.orders[t.id], Refunds(t, m.trades))))
  {
    var q := Improving(m.orders[t.id], Refunds(t, m.trades));
    var r := At(w.(orders := m.orders, trades := m.trades), c, q);
    forall key | key in r.wallets ensures Accounted(r, key) {
      assert Accounted(w, key);
      PhaseMoves(w.clients, c, q, key);
      NewOrderHeld(w.orders, w.trades, t, m, key);
    }
  }

  lemma PlacedPhase(w: World, t: Terms, m: Matching)
    requires RowsAdvance(w.orders, t, m) && BookOk(m.orders) && TradesOk(m.orders, m.trades)
    requires ValidTerms(t) && KeyOf(t) in w.wallets
    ensures PhaseOk(w.(orders := m.orders, trades := m.trades), Improving(m.orders[t.id], Refunds(t, m.trades)))
  {
    RefundsNonNegative(m.orders, m.trades, t);
  }

  lemma PlaceSteps(w: World, c: ClientId, t: Terms)
    requires WorldInv(w) && c in w.clients && w.clients[c] == Placing(t) && ValidTerms(t)
    ensures Stepped(w, c, PlaceOrder(w, c, t))
  {
    assert PhaseOk(w, w.clients[c]);
    if Taken(w.orders, t) {
      hide BooksOk, Accounts, Stepped;
      StillSteps(w, c, Undoing(t));
    } else {
      var m := MatchIncoming(w.orders, w.trades, t);
      IncomingFacts(w.orders, w.trades, t);
      PlaceKeys(w.orders, m.orders, t);
      var r := w.(orders := m.orders, trades := m.trades);
      var q := Improving(m.orders[t.id], Refunds(t, m.trades));
      PlacedPhase(w, t, m);
      PlacedBooks(w, c, t, m);
      PlacedAccounts(w, c, t, m);
      hide BooksOk, Accounts;
      PhaseKept(r, At(r, c, q), q) by { NoAdvance(r.orders); }
    }
  }

  lemma PlacedBooks(w: World, c: ClientId, t: Terms, m: Matching)
    requires BooksOk(w) && MatchFacts(w.orders, w.trades, t, m) && KeysUnique(m.orders) && KeyOf(t) in w.wallets
    ensures var r := At(w.(orders := m.orders, trades := m.trades), c, Improving(m.orders[t.id], Refunds(t, m.trades)));
            BooksOk(r)
  {
    forall id | id in m.orders ensures KeyOf(m.orders[id].terms) in w.wallets {
      assert id in w.orders ==> Advances(w.orders[id], m.orders[id]);
    }
  }

  lemma CancelSteps(w: World, c: ClientId, id: OrderId)
    requires WorldInv(w) && c in w.clients && w.clients[c] == Cancelling(id)
    ensures Stepped(w, c, CancelStored(w, c, id))
  {
    if id !in w.orders || !w.orders[id].Open() {
      hide BooksOk, Accounts, Stepped;
      StillSteps(w, c, CancelStored(w, c, id).clients[c]);
    } else {
      CancelAdvances(w.orders, id);
      CancelledAccounts(w, c, id);
      CancelledBooks(w, c, id);
    }
  }

  /** What the order no longer holds, its canceller has pending. */
  lemma CancelMoves(w: World, c: ClientId, id: OrderId, key: WalletKey)
    requires c in w.clients && w.clients[c] == Cancelling(id) && id in w.orders && w.orders[id].Open() && OrderOk(w.orders[id])
    ensures HeldIn(CancelStored(w, c, id), key) + InFlightIn(CancelStored(w, c, id), key) == HeldIn(w, key) + InFlightIn(w, key)
  {
    var q := Unlocking(Cancel(w.orders[id]));
    assert InFlight(q) == OrderCollateral(w.orders[id].terms, w.orders[id].Remaining());
    hide OrderCollateral, Held;
    PhaseMoves(w.clients, c, q, key);
    CancelledHeld(w.orders, w.trades, id, key);
  }

  lemma CancelledAccounts(w: World, c: ClientId, id: OrderId)
    requires BookOk(w.orders) && Accounts(w) && c in w.clients && w.clients[c] == Cancelling(id)
    requires id in w.orders && w.orders[id].Open()
    ensures Accounts(CancelStored(w, c, id))
  {
    var r := CancelStored(w, c, id);
    assert OrderOk(w.orders[id]);
    hide OrderOk, HeldIn, InFlightIn;
    forall key | key in r.wallets ensures Accounted(r, key) {
      assert Accounted(w, key);
      CancelMoves(w, c, id, key);
    }
  }

  lemma CancelledBooks(w: World, c: ClientId, id: OrderId)
    requires BooksOk(w) && id in w.orders && w.orders[id].Open()
    ensures BooksOk(CancelStored(w, c, id))
  {
    var r := w.orders[id := Cancel(w.orders[id])];
    CancelAdvances(w.orders, id);
    FewerOpenUncrossed(w.orders, r);
    TradesOkMonotone(w.orders, r, w.trades);
    forall i, j | i in r && j in r && i != j ensures !SameKey(r[i].terms, r[j].terms) {
      assert !SameKey(w.orders[i].terms, w.orders[j].terms);
    }
    forall x | x in r ensures r[x].filled == Matched(r[x].terms, w.trades) {
      assert w.orders[x].filled == Matched(w.orders[x].terms, w.trades);
    }
  }

  lemma AdvanceInv(w: World, c: ClientId, marketOpen: bool)
    requires WorldInv(w) && c in w.clients
    ensures WorldInv(Advance(w, c, marketOpen)) && BookAdvances(w.orders, Advance(w, c, marketOpen).orders)
  {
    assert PhaseOk(w, w.clients[c]);
    hide Check, LockCollateral, PlaceOrder, RefundImprovement, ReleaseRemainder, Undo, Reread, CancelStored, UnlockCancelled, BooksOk, Accounts;
    NoAdvance(w.orders);
    match w.clients[c]
    case Checking(t) => CheckSteps(w, c, t, marketOpen); SteppedInv(w, c, Advance(w, c, marketOpen));
    case Locking(t) => LockSteps(w, c, t); SteppedInv(w, c, Advance(w, c, marketOpen));
    case Placing(t) => PlaceSteps(w, c, t); SteppedInv(w, c, Advance(w, c, marketOpen));
    case Improving(o, improvement) => ImproveSteps(w, c, o, improvement); SteppedInv(w, c, Advance(w, c, marketOpen));
    case Releasing(o) => ReleaseSteps(w, c, o); SteppedInv(w, c, Advance(w, c, marketOpen));
    case Undoing(t) => UndoSteps(w, c, t); SteppedInv(w, c, Advance(w, c, marketOpen));
    case Rereading(t, stranded) => RereadSteps(w, c, t, stranded); SteppedInv(w, c, Advance(w, c, marketOpen));
    case Cancelling(id) => CancelSteps(w, c, id); SteppedInv(w, c, Advance(w, c, marketOpen));
    case Unlocking(o) => UnlockSteps(w, c, o); SteppedInv(w, c, Advance(w, c, marketOpen));
    case _ =>
  }

  lemma ArrivalInv(w: World, c: ClientId, p: Phase)
    requires WorldInv(w) && c !in w.clients && InFlight(p) == 0 && PhaseOk(w, p)
    ensures WorldInv(At(w, c, p))
  {
    var r := At(w, c, p);
    NoAdvance(w.orders);
    forall key | key in r.wallets ensures Accounted(r, key) {
      assert Accounted(w, key);
      ClientArrives(w.clients, c, p, key);
    }
    forall d | d in r.clients ensures PhaseOk(r, r.clients[d]) {
      PhaseKept(w, r, if d == c then p else w.clients[d]);
    }
  }

  /** Money paid in or out reaches the balance of one wallet. */
  ghost predicate Paid(w: World, r: World) {
    && r == w.(wallets := r.wallets, funded := r.funded)
    && w.wallets.Keys <= r.wallets.Keys == r.funded.Keys
    && (forall key | key in r.wallets ::
          var x := if key in w.wallets then w.wallets[key] else Wallet(0, 0);
          var f := if key in w.funded then w.funded[key] else 0;
          && r.wallets[key].locked == x.locked && r.wallets[key].balance >= 0
          && r.wallets[key].balance - x.balance == r.funded[key] - f)
  }

  /** Nothing is held or pending for a wallet that does not exist. */
  lemma NoWalletNoMoney(w: World, key: WalletKey)
    requires WorldInv(w) && key !in w.wallets
    ensures HeldIn(w, key) == 0 && InFlightIn(w, key) == 0
  {
    SumZero(w.orders.Keys, HeldFor(w.orders, w.trades, key));
    forall c | c in w.clients ensures InFlightFor(w.clients, key)(c) == 0 {
      assert PhaseOk(w, w.clients[c]);
    }
    SumZero(w.clients.Keys, InFlightFor(w.clients, key));
  }

  lemma PaidInv(w: World, r: World)
    requires WorldInv(w) && Paid(w, r)
    ensures WorldInv(r)
  {
    NoAdvance(w.orders);
    forall key | key in r.wallets ensures Accounted(r, key) {
      if key in w.wallets {
        assert Accounted(w, key);
      } else {
        NoWalletNoMoney(w, key);
      }
    }
    forall c | c in r.clients ensures PhaseOk(r, r.clients[c]) {
      PhaseKept(w, r, w.clients[c]);
    }
  }

  lemma FundingPaid(w: World, move: Move)
    requires WorldInv(w) && (move.Deposit? || move.Withdrawal?)
    ensures Paid(w, Moved(w, move))
  {
    forall key | key in w.wallets ensures w.wallets[key].balance >= 0 {
      assert Accounted(w, key);
    }
  }

  /** Every call of every client keeps the account of every wallet, at any granularity. */
  lemma MovedInv(w: World, move: Move)
    requires WorldInv(w)
    ensures WorldInv(Moved(w, move)) && BookAdvances(w.orders, Moved(w, move).orders)
  {
    NoAdvance(w.orders);
    match move
    case Submit(c, request) => if c !in w.clients && ValidTerms(request) { ArrivalInv(w, c, Checking(request)); }
    case SubmitCancel(c, id) => if c !in w.clients { ArrivalInv(w, c, Cancelling(id)); }
    case Run(c, marketOpen) => if c in w.clients { AdvanceInv(w, c, marketOpen); }
    case _ => FundingPaid(w, move); PaidInv(w, Moved(w, move));
  }
}
