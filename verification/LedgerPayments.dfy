/**
 * What settlements pay and where it goes: in every run each settlement pays exactly what its outcome is
 * worth, a payment repays debt first, and a reversal takes back what is there and leaves the rest as debt.
 */
module LedgerPayments {
  import opened Common
  import opened LedgerModel
  import opened LedgerInvariant
  import opened SettlementSteps
  import opened LedgerMachine
  import opened LedgerTheorems
  import Decimal
  import Sweep

  // ---------------------------------------------------------------- what every settlement pays

  ghost predicate PaysItsOutcome(db: Db, s: Settlement) {
    s.ticket in db.tickets && s.gross == Payout(db.tickets[s.ticket], s.outcome)
  }

  ghost predicate PaymentsInv(db: Db) {
    forall s :: s in db.settlements ==> PaysItsOutcome(db, db.settlements[s])
  }

  /** A planned settlement means to pay what its outcome is worth. */
  ghost predicate Priced(db: Db, flight: Flight) {
    flight.Planned? && flight.plan.Settle? ==> PaysItsOutcome(db, RecordOf(flight.plan.settle))
  }

  ghost predicate PricedWorld(w: World) {
    PaymentsInv(w.db) && forall t :: t in w.flights ==> Priced(w.db, w.flights[t])
  }

  /** Tickets keep their stakes and odds. */
  ghost predicate BetsKept(db: Db, db': Db) {
    forall t :: t in db.tickets ==> t in db'.tickets && Sweep.SameBet(db.tickets[t], db'.tickets[t])
  }

  lemma StillPays(db: Db, db': Db, s: Settlement)
    requires PaysItsOutcome(db, s) && BetsKept(db, db')
    ensures PaysItsOutcome(db', s)
  {
    Sweep.SamePayout(db.tickets[s.ticket], db'.tickets[s.ticket], s.outcome);
    hide Payout;
  }

  lemma FlightsStillPay(w: World, w': World)
    requires PricedWorld(w) && BetsKept(w.db, w'.db)
    requires forall t :: t in w'.flights ==> t in w.flights && w'.flights[t] == w.flights[t]
    ensures forall t :: t in w'.flights ==> Priced(w'.db, w'.flights[t])
  {
    hide PaysItsOutcome, BetsKept;
    forall t | t in w'.flights && w'.flights[t].Planned? && w'.flights[t].plan.Settle?
      ensures PaysItsOutcome(w'.db, RecordOf(w'.flights[t].plan.settle))
    {
      assert Priced(w.db, w.flights[t]);
      StillPays(w.db, w'.db, RecordOf(w.flights[t].plan.settle));
    }
  }

  lemma SettlementsStillPay(db: Db, db': Db)
    requires PaymentsInv(db) && BetsKept(db, db')
    requires forall s :: s in db'.settlements ==>
               || (s in db.settlements
                   && db'.settlements[s] == db.settlements[s].(status := db'.settlements[s].status))
               || PaysItsOutcome(db, db'.settlements[s])
    ensures PaymentsInv(db')
  {
    hide BetsKept, PaysItsOutcome;
    forall s | s in db'.settlements ensures PaysItsOutcome(db', db'.settlements[s]) {
      if s in db.settlements && db'.settlements[s] == db.settlements[s].(status := db'.settlements[s].status) {
        SameButStatus(db, db.settlements[s], db'.settlements[s]);
      }
      StillPays(db, db', db'.settlements[s]);
    }
  }

  lemma SameButStatus(db: Db, s: Settlement, s': Settlement)
    requires PaysItsOutcome(db, s) && s' == s.(status := s'.status)
    ensures PaysItsOutcome(db, s')
  {
    hide Payout;
  }

  lemma SettleWritePays(db: Db, w: SettlementWrite)
    requires Inv(db) && PaymentsInv(db) && SettleReady(db, w) && PersistSettlement(db, w).Ok?
    requires PaysItsOutcome(db, RecordOf(w))
    ensures var db' := PersistSettlement(db, w).value; BetsKept(db, db') && PaymentsInv(db')
  {
    hide Inv, SettleReady, PaysItsOutcome, PaymentsInv, Sweep.SameBet, Untouched;
    Sweep.SettleLeaves(db, w);
    var db' := PersistSettlement(db, w).value;
    NewSettlement(db, w);
    hide PersistSettlement;
    SettlementsStillPay(db, db');
  }

  lemma NewSettlement(db: Db, w: SettlementWrite)
    requires PersistSettlement(db, w).Ok?
    ensures w.recordId !in db.settlements
    ensures PersistSettlement(db, w).value.settlements == db.settlements[w.recordId := RecordOf(w)]
  {
  }

  lemma ReverseWritePays(db: Db, w: ReversalWrite)
    requires Inv(db) && PaymentsInv(db) && ReverseReady(db, w) && PersistReversal(db, w).Ok?
    ensures var db' := PersistReversal(db, w).value; BetsKept(db, db') && PaymentsInv(db')
  {
    hide Inv, ReverseReady, PaysItsOutcome, PaymentsInv, Sweep.SameBet, Untouched;
    Sweep.ReverseLeaves(db, w);
    var db' := PersistReversal(db, w).value;
    OnlyStatusChanges(db, w);
    hide PersistReversal;
    SettlementsStillPay(db, db');
  }

  lemma OnlyStatusChanges(db: Db, w: ReversalWrite)
    requires PersistReversal(db, w).Ok?
    ensures var settlements' := PersistReversal(db, w).value.settlements;
            forall s :: s in settlements' ==>
              s in db.settlements && settlements'[s] == db.settlements[s].(status := settlements'[s].status)
  {
  }

  lemma WritePays(db: Db, t: TicketId, flight: Flight)
    requires Inv(db) && PaymentsInv(db) && FlightOk(db, t, flight) && flight.Planned? && Priced(db, flight)
    ensures var db' := Commit(db, ApplyPlan(db, flight.plan)); BetsKept(db, db') && PaymentsInv(db')
  {
    hide Inv, PaymentsInv, PaysItsOutcome, SettleReady, ReverseReady, PersistSettlement, PersistReversal;
    if ApplyPlan(db, flight.plan).Ok? {
      match flight.plan
      case Settle(w) => SettleWritePays(db, w);
      case Reverse(w) => ReverseWritePays(db, w);
    }
  }

  lemma ReadPrices(db: Db, t: TicketId, op: FlightOp)
    requires Inv(db) && PlanOf(db, t, op).Ok?
    ensures Priced(db, Planned(PlanOf(db, t, op).value))
  {
    hide Inv, SettlementsInv, TicketsInv, Payout, SettleReady, PlanSettle, PlanReverse;
    TicketsOf(db);
    match op
    case SettleFlight(v, outcome, recordId, entryId) =>
      if PlanSettle(db, t, v, outcome, recordId, entryId).value.Settle? {
        PlanSettleIsReady(db, t, v, outcome, recordId, entryId);
        ReadyTicket(db, PlanSettle(db, t, v, outcome, recordId, entryId).value.settle);
      }
    case ReverseFlight(_, _) =>
  }

  lemma ReadyTicket(db: Db, w: SettlementWrite)
    requires SettleReady(db, w)
    ensures w.ticket in db.tickets
  {
  }

  lemma AddedBets(db: Db, db': Db)
    requires OnlyAdds(db, db')
    ensures BetsKept(db, db')
  {
  }

  lemma StepKeepsPrices(w: World, step: Step)
    requires WorldInv(w) && PricedWorld(w)
    ensures PricedWorld(Next(w, step)) && BetsKept(w.db, Next(w, step).db)
  {
    hide Inv, FlightOk, PaymentsInv, Priced, BetsKept;
    var next := Next(w, step);
    if !IsSettlementStep(step) {
      OtherStepKeeps(w, step);
      hide Next;
      AddedBets(w.db, next.db);
      SettlementsStillPay(w.db, next.db);
      FlightsStillPay(w, next);
    } else if step.Write? && step.ticket in w.flights && w.flights[step.ticket].Planned? {
      WritePays(w.db, step.ticket, w.flights[step.ticket]);
      FlightsStillPay(w, next);
    } else {
      FlightStepKeepsPrices(w, step);
    }
  }

  lemma FlightStepKeepsPrices(w: World, step: Step)
    requires WorldInv(w) && PricedWorld(w)
    requires step.Lock? || step.Read? || step.Abandon? || (step.Write? && Next(w, step) == w)
    ensures PricedWorld(Next(w, step)) && BetsKept(w.db, Next(w, step).db)
  {
    hide Inv, FlightOk, PaymentsInv, PaysItsOutcome, PlanOf;
    if step.Read? && step.ticket in w.flights && w.flights[step.ticket].Locked? {
      var op := w.flights[step.ticket].op;
      if PlanOf(w.db, step.ticket, op).Ok? { ReadPrices(w.db, step.ticket, op); }
    }
  }

  lemma {:induction false} RunPrices(steps: seq<Step>)
    ensures PricedWorld(Run(steps))
  {
    hide WorldInv, Next, PricedWorld;
    if steps == [] {
      NothingPriced();
    } else {
      RunPrices(steps[..|steps| - 1]);
      RunKeeps(steps[..|steps| - 1]);
      StepKeepsPrices(Run(steps[..|steps| - 1]), steps[|steps| - 1]);
    }
  }

  lemma NothingPriced()
    ensures PricedWorld(Run([]))
  {
  }

  /**
   * In every run each settlement pays what its outcome is worth to its ticket: nothing for a loss, the
   * stake for a push or a cancellation, and for a win the stake times the odds, rounded half up once.
   */
  lemma EverySettlementPaysItsOutcome(steps: seq<Step>, s: SettlementId)
    requires s in Run(steps).db.settlements
    ensures var db := Run(steps).db;
            var settled := db.settlements[s];
            && settled.ticket in db.tickets
            && var row := db.tickets[settled.ticket];
               && Decimal.MatchesPattern(row.leg.odds)
               && (settled.outcome.Loss? ==> settled.gross == 0)
               && (settled.outcome.Push? || settled.outcome.Cancel? ==> settled.gross == row.stake)
               && (settled.outcome.Win? ==>
                     Decimal.IsHalfUp(row.stake * Decimal.Numerator(row.leg.odds), Decimal.Denominator(row.leg.odds),
                                      settled.gross))
  {
    hide Run, Inv, FlightOk;
    RunPrices(steps);
    RunKeeps(steps);
    var db := Run(steps).db;
    TicketsOf(db);
    assert PaysItsOutcome(db, db.settlements[s]);
    SoundOdds(db, db.settlements[s].ticket);
    hide WorldInv, PricedWorld, TicketsInv, SettlementsInv, Decimal.IsHalfUp, Decimal.MatchesPattern;
  }

  lemma SoundOdds(db: Db, t: TicketId)
    requires TicketsInv(db.accounts, db.tickets, db.settlements) && t in db.tickets
    ensures db.tickets[t].stake > 0 && Decimal.MatchesPattern(db.tickets[t].leg.odds)
  {
    assert SoundTicket(db.tickets[t]);
    Decimal.RefusedExactlyWhenNotPositive(0, db.tickets[t].leg.odds);
    hide TicketsInv;
  }

  // ---------------------------------------------------------------- debt first

  function Excess(x: int): int { if x > 0 then x else 0 }

  /** What is left of a balance that is paid a gross return for a stake it had frozen. */
  function PaidOut(balance: Points, stake: int, gross: int): Points {
    Points(balance.available + Excess(gross - balance.debt), balance.frozen - stake, Excess(balance.debt - gross))
  }

  lemma PlannedPayment(db: Db, t: TicketId, v: Version, outcome: Outcome, ids: Sweep.Ids)
    requires PlanSettle(db, t, v, outcome, ids.record, ids.settle).Ok?
    requires PlanSettle(db, t, v, outcome, ids.record, ids.settle).value.Settle?
    requires t in db.tickets && SoundTicket(db.tickets[t])
    ensures var w := PlanSettle(db, t, v, outcome, ids.record, ids.settle).value.settle;
            && w.ticket == t && w.balance == w.ledger && db.tickets[t].account in db.accounts
            && (var a := db.accounts[db.tickets[t].account];
                a.Plus(w.balance) == PaidOut(a, db.tickets[t].stake, Payout(db.tickets[t], outcome)))
  {
    GrossReturnIsPayout(db.tickets[t], outcome);
    hide Payout, GrossReturn, SoundTicket, ReadableState;
  }

  lemma WrittenPayment(db: Db, w: SettlementWrite)
    requires PersistSettlement(db, w).Ok?
    ensures w.ticket in db.tickets && db.tickets[w.ticket].account in db.accounts
    ensures var a := db.tickets[w.ticket].account;
            PersistSettlement(db, w).value.accounts == db.accounts[a := db.accounts[a].Plus(w.balance)]
  {
  }

  /**
   * A settlement that nothing interrupts repays debt first: what the outcome is worth beyond the debt
   * becomes available, what it falls short of it stays owed, and no other account changes.
   */
  lemma SettlementRepaysFirst(db: Db, t: TicketId, v: Version, outcome: Outcome, ids: Sweep.Ids)
    requires Inv(db) && Sweep.SettleNow(db, t, v, outcome, ids).Ok? && ActiveVersion(db, t) != Some(v)
    ensures t in db.tickets && db.tickets[t].account in db.accounts
    ensures var row := db.tickets[t];
            Sweep.SettleNow(db, t, v, outcome, ids).value.accounts ==
            db.accounts[row.account := PaidOut(db.accounts[row.account], row.stake, Payout(row, outcome))]
  {
    hide Inv, PlanSettle, PersistSettlement, ActiveVersion, Payout, PaidOut, SettlementsInv;
    Sweep.PlannedVersion(db, t, v, outcome, ids);
    TicketsOf(db);
    assert SoundTicket(db.tickets[t]);
    PlannedPayment(db, t, v, outcome, ids);
    WrittenPayment(db, PlanSettle(db, t, v, outcome, ids.record, ids.settle).value.settle);
  }

  /** What is left of a balance when a settlement's change is undone: points that are gone are owed. */
  function TakenBack(balance: Points, change: Points): Points {
    Points(Excess(balance.available - change.available), balance.frozen - change.frozen,
           balance.debt - change.debt + Excess(change.available - balance.available))
  }

  lemma PlannedUndoing(db: Db, t: TicketId, v: Version, ids: Sweep.Ids)
    requires PlanReverse(db, t, v, ids.reverse).Ok? && PlanReverse(db, t, v, ids.reverse).value.Reverse?
    ensures var w := PlanReverse(db, t, v, ids.reverse).value.reverse;
            && w.ticket == t && t in db.tickets && db.tickets[t].account in db.accounts
            && db.tickets[t].active.Some? && db.tickets[t].active.value in db.settlements
            && (var a := db.accounts[db.tickets[t].account];
                a.Plus(w.balance) == TakenBack(a, db.settlements[db.tickets[t].active.value].delta))
  {
    hide ReadableState;
  }

  lemma WrittenUndoing(db: Db, w: ReversalWrite)
    requires PersistReversal(db, w).Ok?
    ensures w.ticket in db.tickets && db.tickets[w.ticket].account in db.accounts
    ensures var a := db.tickets[w.ticket].account;
            PersistReversal(db, w).value.accounts == db.accounts[a := db.accounts[a].Plus(w.balance)]
  {
  }

  /**
   * A reversal that nothing interrupts takes back the points the settlement made available as far as they
   * are there, the rest becomes debt on top of the debt it had repaid, and no other account changes.
   */
  lemma ReversalReclaimsFirst(db: Db, t: TicketId, v: Version, ids: Sweep.Ids)
    requires Inv(db) && Sweep.ReverseNow(db, t, v, ids).Ok? && ActiveVersion(db, t) == Some(v)
    ensures t in db.tickets && db.tickets[t].account in db.accounts
    ensures db.tickets[t].active.Some? && db.tickets[t].active.value in db.settlements
    ensures var a, change := db.tickets[t].account, db.settlements[db.tickets[t].active.value].delta;
            Sweep.ReverseNow(db, t, v, ids).value.accounts ==
            db.accounts[a := TakenBack(db.accounts[a], change)]
  {
    hide Inv, PlanReverse, PersistReversal, ActiveVersion, TakenBack;
    Sweep.OperationsOf(db);
    Sweep.ActiveIsNotReversed(db, t, v);
    Sweep.PlannedReversal(db, t, v, ids);
    PlannedUndoing(db, t, v, ids);
    WrittenUndoing(db, PlanReverse(db, t, v, ids.reverse).value.reverse);
  }

  // ---------------------------------------------------------------- settled and reversed at once

  lemma SettledRow(db: Db, t: TicketId, v: Version, outcome: Outcome, ids: Sweep.Ids)
    requires Sweep.SettleNow(db, t, v, outcome, ids).Ok? && ActiveVersion(db, t) != Some(v)
    ensures var db' := Sweep.SettleNow(db, t, v, outcome, ids).value;
            && t in db.tickets && t in db'.tickets && db'.tickets[t].account == db.tickets[t].account
            && db.tickets[t].account in db.accounts && db'.tickets[t].active.Some?
            && db'.tickets[t].active.value in db'.settlements
            && (var a, delta := db.tickets[t].account, db'.settlements[db'.tickets[t].active.value].delta;
                db'.accounts == db.accounts[a := db.accounts[a].Plus(delta)])
  {
    hide GrossReturn, ReadableState;
  }

  lemma UndoneAtOnce(balance: Points, change: Points)
    requires balance.NonNegative()
    ensures TakenBack(balance.Plus(change), change) == balance
  {
  }

  /** Settled and reversed with nothing in between, every account holds what it held before. */
  lemma ReversingRestoresTheAccounts(db: Db, t: TicketId, v: Version, outcome: Outcome, ids: Sweep.Ids, more: Sweep.Ids)
    requires Inv(db) && Sweep.SettleNow(db, t, v, outcome, ids).Ok? && ActiveVersion(db, t) != Some(v)
    requires Sweep.ReverseNow(Sweep.SettleNow(db, t, v, outcome, ids).value, t, v, more).Ok?
    ensures Sweep.ReverseNow(Sweep.SettleNow(db, t, v, outcome, ids).value, t, v, more).value.accounts == db.accounts
  {
    hide Inv, Sweep.SettleNow, Sweep.ReverseNow, ActiveVersion, TakenBack, Sweep.OthersKept;
    SettledRow(db, t, v, outcome, ids);
    Sweep.SettleNowLeaves(db, t, v, outcome, ids);
    var mid := Sweep.SettleNow(db, t, v, outcome, ids).value;
    ReversalReclaimsFirst(mid, t, v, more);
    TicketsOf(db);
    hide TicketsInv, SettlementsInv;
    var a := db.tickets[t].account;
    UndoneAtOnce(db.accounts[a], mid.settlements[mid.tickets[t].active.value].delta);
  }
}
