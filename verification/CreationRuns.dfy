/** Whole runs of interleaved creation: one order per idempotency key, and on the grid of whole
    shares at whole-cent prices no unlock ever fails and nothing is left behind. */
module CreationRuns {
  import opened Fixed
  import opened Sums
  import opened Orders
  import opened BookInvariants
  import opened Collateral
  import opened Ledger
  import opened LedgerInvariants
  import opened Solvency
  import opened Creation

  const START := World(map[], [], map[], map[], map[])

  ghost function Interleaved(w: World, moves: seq<Move>): World
    requires WorldInv(w)
    decreases |moves|
  {
    if moves == [] then w
    else
      MovedInv(w, moves[0]);
      Interleaved(Moved(w, moves[0]), moves[1..])
  }

  lemma StartInv()
    ensures WorldInv(START) && GridWorld(START)
  {
  }

  lemma {:induction false} InterleavedInv(w: World, moves: seq<Move>)
    requires WorldInv(w)
    ensures WorldInv(Interleaved(w, moves))
    decreases |moves|
  {
    if moves != [] {
      MovedInv(w, moves[0]);
      InterleavedInv(Moved(w, moves[0]), moves[1..]);
    }
  }

  // ----- one order per key -----

  /** The client's call returned an order. */
  predicate Answered(p: Phase) {
    p.Created? || p.Existing?
  }

  function Answer(p: Phase): OrderId
    requires Answered(p)
  {
    if p.Created? then p.placed.terms.id else p.id
  }

  /** However the clients interleave, all that ask under one key get the same order. */
  lemma SameKeySameOrder(moves: seq<Move>, c: ClientId, d: ClientId)
    requires var w := Interleaved(START, moves);
             && c in w.clients && d in w.clients && Answered(w.clients[c]) && Answered(w.clients[d])
             && SameKey(OwnTerms(w.clients[c]), OwnTerms(w.clients[d]))
    ensures var w := Interleaved(START, moves); Answer(w.clients[c]) == Answer(w.clients[d])
  {
    var w := Interleaved(START, moves);
    InterleavedInv(START, moves);
    var p, q := w.clients[c], w.clients[d];
    assert PhaseOk(w, p) && PhaseOk(w, q);
    assert SameKey(w.orders[Answer(p)].terms, w.orders[Answer(q)].terms);
  }

  // ----- the grid -----

  /** What the client handles is on the grid, and nothing was left behind. */
  ghost predicate GridPhase(p: Phase) {
    && (HasOwner(p) ==> WholeTerms(OwnTerms(p)))
    && (HasPlaced(p) ==> GridOrder(p.placed) && !p.Broken?)
    && (Withdrawn(p) ==> GridOrder(p.cancelled) && !p.CancelBroken?)
    && (p.Rereading? || p.Existing? || p.Rejected? ==> p.stranded == 0)
  }

  ghost predicate GridWorld(w: World) {
    GridBook(w.orders, w.trades) && forall c {:trigger w.clients[c]} | c in w.clients :: GridPhase(w.clients[c])
  }

  ghost predicate GridMove(move: Move) {
    move.Submit? ==> WholeTerms(move.request)
  }

  lemma PendingOnGrid(w: World, p: Phase)
    requires PhaseOk(w, p) && GridPhase(p)
    ensures InFlight(p) >= 0
    ensures HasPlaced(p) ==> Remainder(p.placed) >= 0 && (p.placed.status.Cancelled? && p.placed.Remaining() != 0 ==> Remainder(p.placed) > 0)
    ensures Withdrawn(p) && p.cancelled.Remaining() != 0 ==> Remainder(p.cancelled) > 0
  {
    if HasOwner(p) { ExactCollateral(OwnTerms(p), OwnTerms(p).amount); }
    if HasPlaced(p) { RemainingCollateral(p.placed); }
    if Withdrawn(p) { RemainingCollateral(p.cancelled); }
  }

  /** The wallet covers what any one client has pending. */
  lemma PendingCovered(w: World, c: ClientId)
    requires WorldInv(w) && GridWorld(w) && c in w.clients && HasOwner(w.clients[c]) && KeyOf(OwnTerms(w.clients[c])) in w.wallets
    ensures InFlight(w.clients[c]) <= w.wallets[KeyOf(OwnTerms(w.clients[c]))].locked
  {
    var key := KeyOf(OwnTerms(w.clients[c]));
    assert Accounted(w, key);
    forall id | id in w.orders ensures HeldFor(w.orders, w.trades, key)(id) >= 0 {
      HeldOnGrid(w.orders, w.trades, id);
    }
    forall d | d in w.clients ensures InFlightFor(w.clients, key)(d) >= 0 {
      PendingOnGrid(w, w.clients[d]);
    }
    SumNonNegative<OrderId>(w.orders.Keys, HeldFor(w.orders, w.trades, key));
    SumNonNegative<ClientId>(w.clients.Keys, InFlightFor(w.clients, key));
    assert InFlightFor(w.clients, key)(c) == InFlight(w.clients[c]);
  }

  lemma PlacedOnGrid(w: World, t: Terms)
    requires WorldInv(w) && GridWorld(w) && WholeTerms(t) && ValidTerms(t) && t.id !in w.orders
    ensures var m := MatchIncoming(w.orders, w.trades, t);
            GridBook(m.orders, m.trades) && m.orders[t.id].terms == t && GridOrder(m.orders[t.id])
  {
    MatchGrid(w.orders, w.trades, t);
    IncomingFacts(w.orders, w.trades, t);
  }

  /** The unlock a client in this phase is about to ask for, if any, succeeds. */
  predicate UnlockGoesThrough(w: World, p: Phase) {
    match p
    case Improving(o, improvement) => improvement > 0 ==> Unlock(w.wallets, KeyOf(o.terms), improvement).Success?
    case Releasing(o) => o.status.Cancelled? && o.Remaining() != 0 ==>
      Unlock(w.wallets, KeyOf(o.terms), OrderCollateral(o.terms, o.Remaining())).Success?
    case Undoing(t) => Unlock(w.wallets, KeyOf(t), Cents(t)).Success?
    case Unlocking(o) => o.Remaining() != 0 ==>
      Unlock(w.wallets, KeyOf(o.terms), OrderCollateral(o.terms, o.Remaining())).Success?
    case _ => true
  }

  /** On the grid every unlock a client asks for succeeds. */
  lemma UnlocksSucceed(w: World, c: ClientId)
    requires WorldInv(w) && GridWorld(w) && c in w.clients
    ensures UnlockGoesThrough(w, w.clients[c])
  {
    var p := w.clients[c];
    assert PhaseOk(w, p) && GridPhase(p);
    PendingOnGrid(w, p);
    if HasOwner(p) && KeyOf(OwnTerms(p)) in w.wallets { PendingCovered(w, c); }
    hide WorldInv, GridWorld, OrderCollateral, PhaseOk, GridPhase;
  }

  lemma GridStep(w: World, c: ClientId, r: World)
    requires GridWorld(w) && c in w.clients && c in r.clients && r.clients == w.clients[c := r.clients[c]]
    requires GridBook(r.orders, r.trades) && GridPhase(r.clients[c])
    ensures GridWorld(r)
  {
    assert forall d | d in r.clients && d != c :: r.clients[d] == w.clients[d];
  }

  /** A step of a client that only calls the wallet or reads, and stays on the grid. */
  ghost predicate QuietStep(w: World, c: ClientId, r: World) {
    && r.orders == w.orders && r.trades == w.trades
    && c in r.clients && r.clients == w.clients[c := r.clients[c]] && GridPhase(r.clients[c])
  }

  lemma QuietCreate(w: World, c: ClientId, marketOpen: bool)
    requires c in w.clients && GridPhase(w.clients[c])
    ensures match w.clients[c]
            case Checking(t) => QuietStep(w, c, Check(w, c, t, marketOpen))
            case Locking(t) => QuietStep(w, c, LockCollateral(w, c, t))
            case Rereading(t, stranded) => QuietStep(w, c, Reread(w, c, t, stranded))
            case _ => true
  {
    hide WholeTerms, Lock;
  }

  lemma QuietRelease(w: World, c: ClientId)
    requires c in w.clients && GridPhase(w.clients[c]) && UnlockGoesThrough(w, w.clients[c])
    ensures match w.clients[c]
            case Improving(o, improvement) => QuietStep(w, c, RefundImprovement(w, c, o, improvement))
            case Releasing(o) => QuietStep(w, c, ReleaseRemainder(w, c, o))
            case Undoing(t) => QuietStep(w, c, Undo(w, c, t))
            case Unlocking(o) => QuietStep(w, c, UnlockCancelled(w, c, o))
            case _ => true
  {
    hide WholeTerms, Unlock, OrderCollateral;
  }

  lemma PhaseOnGrid(w: World, c: ClientId, marketOpen: bool)
    requires WorldInv(w) && GridWorld(w) && c in w.clients && !w.clients[c].Placing? && !w.clients[c].Cancelling?
    ensures Advance(w, c, marketOpen) == w || QuietStep(w, c, Advance(w, c, marketOpen))
  {
    UnlocksSucceed(w, c);
    QuietCreate(w, c, marketOpen) by { assert GridPhase(w.clients[c]); }
    QuietRelease(w, c) by { assert GridPhase(w.clients[c]); }
    hide WorldInv, GridWorld, QuietStep, UnlockGoesThrough, Check, LockCollateral, Reread, RefundImprovement, ReleaseRemainder, Undo, UnlockCancelled;
  }

  lemma PlaceOnGrid(w: World, c: ClientId, t: Terms)
    requires WorldInv(w) && GridWorld(w) && c in w.clients && w.clients[c] == Placing(t) && ValidTerms(t)
    ensures GridWorld(PlaceOrder(w, c, t))
  {
    assert GridPhase(w.clients[c]);
    if !Taken(w.orders, t) { PlacedOnGrid(w, t); }
    hide WorldInv, GridBook, WholeTerms;
    GridStep(w, c, PlaceOrder(w, c, t));
  }

  lemma CancelOnGrid(w: World, c: ClientId, id: OrderId)
    requires GridWorld(w) && c in w.clients && w.clients[c] == Cancelling(id)
    ensures GridWorld(CancelStored(w, c, id))
  {
    hide WholeTerms, WholeTrades;
    GridStep(w, c, CancelStored(w, c, id));
  }

  lemma AdvanceGrid(w: World, c: ClientId, marketOpen: bool)
    requires WorldInv(w) && GridWorld(w) && c in w.clients
    ensures GridWorld(Advance(w, c, marketOpen))
  {
    var p := w.clients[c];
    assert PhaseOk(w, p);
    if p.Placing? {
      PlaceOnGrid(w, c, p.request);
    } else if p.Cancelling? {
      CancelOnGrid(w, c, p.id);
    } else {
      PhaseOnGrid(w, c, marketOpen);
      hide WorldInv, PhaseOk, WholeTerms, GridPhase, Advance;
      if Advance(w, c, marketOpen) != w {
        GridStep(w, c, Advance(w, c, marketOpen));
      }
    }
  }

  /** Whatever interleaving: on the grid nothing is ever stranded. */
  lemma MovedGrid(w: World, move: Move)
    requires WorldInv(w) && GridWorld(w) && GridMove(move)
    ensures GridWorld(Moved(w, move))
  {
    if move.Run? && move.c in w.clients {
      AdvanceGrid(w, move.c, move.marketOpen);
    }
  }

  lemma {:induction false} InterleavedGrid(w: World, moves: seq<Move>)
    requires WorldInv(w) && GridWorld(w) && forall i | 0 <= i < |moves| :: GridMove(moves[i])
    ensures GridWorld(Interleaved(w, moves))
    decreases |moves|
  {
    if moves != [] {
      MovedInv(w, moves[0]);
      MovedGrid(w, moves[0]);
      InterleavedGrid(Moved(w, moves[0]), moves[1..]);
    }
  }

  /** No call is in flight. */
  predicate Finished(p: Phase) {
    Answered(p) || p.Rejected? || p.Broken? || p.CancelDone? || p.CancelRefused? || p.CancelBroken?
  }

  ghost predicate Quiet(w: World) {
    forall c {:trigger w.clients[c]} | c in w.clients :: Finished(w.clients[c])
  }

  lemma QuietWallet(w: World, key: WalletKey)
    requires WorldInv(w) && GridWorld(w) && Quiet(w) && key in w.wallets
    ensures key in w.funded && w.wallets[key] == Wallet(w.funded[key] - HeldIn(w, key), HeldIn(w, key))
  {
    assert Accounted(w, key);
    forall c | c in w.clients ensures InFlightFor(w.clients, key)(c) == 0 {
      assert GridPhase(w.clients[c]) && Finished(w.clients[c]);
    }
    SumZero(w.clients.Keys, InFlightFor(w.clients, key));
  }

  /** Once no call is in flight every wallet is what its funding and its orders make it:
      clients that lost a race, were refused or were answered with an existing order
      have left nothing behind. */
  lemma QuietWallets(moves: seq<Move>, key: WalletKey)
    requires forall i | 0 <= i < |moves| :: GridMove(moves[i])
    requires var w := Interleaved(START, moves); Quiet(w) && key in w.wallets
    ensures var w := Interleaved(START, moves);
            key in w.funded && w.wallets[key] == Wallet(w.funded[key] - HeldIn(w, key), HeldIn(w, key))
  {
    var w := Interleaved(START, moves);
    StartInv();
    InterleavedInv(START, moves);
    InterleavedGrid(START, moves);
    hide WorldInv, GridWorld, Quiet, Interleaved;
    QuietWallet(w, key);
  }
}
