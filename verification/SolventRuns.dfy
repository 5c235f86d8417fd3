/** Exact conditions for whole runs: on the grid the exchange ends solvent if and only if no
    settlement that committed ever met a cancelled order, and on whole cents of shares only a
    locked balance can stop a settlement. */
module SolventRuns {
  import opened Fixed
  import opened Orders
  import opened BookInvariants
  import opened Collateral
  import opened Ledger
  import opened LedgerInvariants
  import opened LedgerRuns
  import opened SettlementRuns
  import opened Conservation
  import opened Solvency
  import ExactlyOnce

  /** The transaction settles a market in which some order is cancelled. */
  ghost predicate TakesTwice(st: State, op: Op) {
    && op.OpSettle? && Settles(st, op.m, op.e, op.winner)
    && Settle(st, op.m, op.e, op.winner).Success? && !NoneCancelled(st, op.m)
  }

  ghost predicate NeverTakesTwice(st: State, ops: seq<Op>)
    requires Inv(st)
    decreases |ops|
  {
    ops == [] || (!TakesTwice(st, ops[0]) && (NextInv(st, ops[0]); NeverTakesTwice(Next(st, ops[0]), ops[1..])))
  }

  lemma StepClean(st: State, op: Op)
    requires Inv(st)
    ensures Clean(Next(st, op)) <==> Clean(st) && !TakesTwice(st, op)
  {
    if Clean(st) {
      if op.OpSettle? && Settles(st, op.m, op.e, op.winner) && Settle(st, op.m, op.e, op.winner).Success? {
        SettlementStaysClean(st, op.m, op.e, op.winner);
      } else if !op.OpSettle? {
        ExactlyOnce.OtherOpsSettleNothing(st, op);
      }
    } else {
      ExactlyOnce.NextKeepsSettled(st, op);
    }
  }

  lemma {:induction false} RunClean(st: State, ops: seq<Op>)
    requires Inv(st)
    ensures Clean(Run(st, ops)) <==> Clean(st) && NeverTakesTwice(st, ops)
    decreases |ops|
  {
    if ops != [] {
      NextInv(st, ops[0]);
      StepClean(st, ops[0]);
      RunClean(Next(st, ops[0]), ops[1..]);
    }
  }

  lemma {:induction false} RunGrid(st: State, ops: seq<Op>)
    requires Inv(st) && GridInv(st) && forall i | 0 <= i < |ops| :: GridOp(ops[i])
    ensures GridInv(Run(st, ops))
    decreases |ops|
  {
    if ops != [] {
      NextInv(st, ops[0]);
      NextGrid(st, ops[0]);
      RunGrid(Next(st, ops[0]), ops[1..]);
    }
  }

  /** For every run from empty tables with whole shares at whole-cent prices. */
  lemma RunSolventExactlyWhen(ops: seq<Op>)
    requires forall i | 0 <= i < |ops| :: GridOp(ops[i])
    ensures Inv(EMPTY)
    ensures Solvent(Run(EMPTY, ops)) <==> NeverTakesTwice(EMPTY, ops)
  {
    EmptyInv();
    RunClean(EMPTY, ops);
    RunGrid(EMPTY, ops);
    SolventExactlyWhenClean(Run(EMPTY, ops));
  }

  // ----- conservation over whole runs -----

  /** Fills are minima of remainders, so a granularity of the amounts is kept by every step. */
  lemma NextGranular(st: State, op: Op, g: int)
    requires g > 0 && Inv(st) && Granular(st.orders, st.trades, g) && (op.OpPlace? ==> Multiple(op.terms.amount, g))
    ensures Granular(Next(st, op).orders, Next(st, op).trades, g)
  {
    if Accepted(op) && Attempt(st, op).Success? {
      match op {
        case OpPlace(terms) => PlaceGranular(st, terms, g);
        case OpSettle(m, e, winner) => SettleGranular(st, m, e, winner, g);
        case OpCancel(id) => hide Inv; CancelsGranular(st, Next(st, op), g);
        case _ => hide Inv;
      }
    }
  }

  lemma PlaceGranular(st: State, terms: Terms, g: int)
    requires g > 0 && Inv(st) && ValidTerms(terms) && Place(st, terms).Success?
    requires Granular(st.orders, st.trades, g) && Multiple(terms.amount, g)
    ensures var r := Place(st, terms).value; Granular(r.orders, r.trades, g)
  {
    hide Granular, Multiple, MoneyInv, ClosedInv, VolumeInv;
    IncomingGranular(st.orders, st.trades, terms, g);
  }

  lemma SettleGranular(st: State, m: MarketId, e: EventId, winner: string, g: int)
    requires g > 0 && Inv(st) && Settle(st, m, e, winner).Success? && Granular(st.orders, st.trades, g)
    ensures var r := Settle(st, m, e, winner).value; Granular(r.orders, r.trades, g)
  {
    if Settles(st, m, e, winner) {
      var ids, paid := SettleEffect(st, m, e, winner);
      RowsOnlyCancel(st, ids, winner, paid);
      hide Inv, Multiple, ApplyAll, Conserved;
      CancelsGranular(st, Settle(st, m, e, winner).value, g);
    }
  }

  lemma CancelsGranular(st: State, r: State, g: int)
    requires g > 0 && Granular(st.orders, st.trades, g) && OnlyCancels(st.orders, r.orders) && r.trades == st.trades
    ensures Granular(r.orders, r.trades, g)
  {
  }

  lemma {:induction false} RunGranular(st: State, ops: seq<Op>, g: int)
    requires g > 0 && Inv(st) && Granular(st.orders, st.trades, g)
    requires forall i | 0 <= i < |ops| && ops[i].OpPlace? :: Multiple(ops[i].terms.amount, g)
    ensures Granular(Run(st, ops).orders, Run(st, ops).trades, g)
    decreases |ops|
  {
    if ops != [] {
      NextInv(st, ops[0]);
      NextGranular(st, ops[0], g);
      RunGranular(Next(st, ops[0]), ops[1..], g);
    }
  }

  /** Over every run whose amounts are whole hundredths of a share, no settlement is ever
      stopped by its audit, by a missing wallet, or by the conservation assertion. */
  lemma OnlyLockedBalanceStopsSettlement(ops: seq<Op>, m: MarketId, e: EventId, winner: string)
    requires forall i | 0 <= i < |ops| && ops[i].OpPlace? :: Multiple(ops[i].terms.amount, GRID)
    ensures Inv(EMPTY)
    ensures var st := Run(EMPTY, ops);
            Settles(st, m, e, winner) ==>
              Settle(st, m, e, winner).Success? || Settle(st, m, e, winner) == Failure(InsufficientLocked)
  {
    EmptyInv();
    RunGranular(EMPTY, ops, GRID);
    var st := Run(EMPTY, ops);
    AuditNeverRejects(st, m);
    ConservationNeverFires(st, m, winner);
    var ids := SettlementQueue(st.orders, m);
    if Settles(st, m, e, winner) { ApplyAllFailure(st, ids, winner); }
  }
}
