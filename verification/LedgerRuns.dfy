/**
 * Three runs from the empty ledger: a settlement refused because another repaid the debt it counted on,
 * a reversal refused because a stake took the points it meant to reclaim, and a football result that
 * goes back to a version already used up.
 */
module LedgerRuns {
  import opened Common
  import opened LedgerModel
  import opened LedgerMachine
  import Decimal
  import Sweep
  import FootballSweep
  import LedgerInvariant

  const A: AccountKey := AccountKey(0, 0)
  const LEG: Leg := Leg("HOME", 1, "2")
  const FIRST: Version := Hash("a")
  const SECOND: Version := Hash("b")

  function Command(t: TicketId, entry: EntryId): FreezeCommand {
    FreezeCommand(t, A, 0, if t == 0 then "1" else "2", 100, LEG, entry)
  }

  function Row(t: TicketId, active: Option<SettlementId>): Ticket {
    Ticket(A, 0, if t == 0 then "1" else "2", 100, LEG, if active.Some? then Settled else Pending, active)
  }

  lemma TwoIsPositive()
    ensures Decimal.IsPositiveDecimal("2")
  {
    assert Decimal.Split("2") == ("2", None) by { assert "2"[1..] == ""; assert ['2'] + "" == "2"; }
    assert Decimal.WithoutZerosAndPoints("2") == "2" by { assert "2"[1..] == ""; }
  }

  /** One more step of a run whose state is known. */
  lemma OneMore(steps: seq<Step>, w: World, step: Step, w': World) returns (more: seq<Step>)
    requires Run(steps) == w && Next(w, step) == w'
    ensures Run(more) == w'
  {
    more := steps + [step];
    assert more[..|steps|] == steps;
    hide Next;
  }

  // ---------------------------------------------------------------- one step at a time

  /** No entry has this id or this key. */
  predicate IsNew(entries: seq<Entry>, id: EntryId, key: EntryKey) {
    forall i :: 0 <= i < |entries| ==> entries[i].id != id && entries[i].key != key
  }

  lemma Posted(db: Db, e: Entry, change: Points)
    requires e.account in db.accounts && db.accounts[e.account].Plus(change).NonNegative()
    requires IsNew(db.entries, e.id, e.key)
    ensures Post(db, e, change)
         == Ok(db.(accounts := db.accounts[e.account := db.accounts[e.account].Plus(change)],
                   entries := db.entries + [e]))
  {
  }

  /** A stake of a hundred is frozen for a new ticket. */
  lemma Submits(steps: seq<Step>, w: World, t: TicketId, entry: EntryId, points: Points) returns (more: seq<Step>)
    requires Run(steps) == w && A in w.db.accounts && w.db.accounts[A] == points && points.NonNegative()
    requires points.available >= 100
    requires t !in w.db.tickets
    requires (forall u :: u in w.db.tickets ==> w.db.tickets[u].requestKey != Command(t, entry).requestKey)
    requires IsNew(w.db.entries, entry, FreezeKey(t))
    ensures Run(more) == w.(db := w.db.(accounts := w.db.accounts[A := points.Plus(Points(-100, 100, 0))],
                                        entries := w.db.entries + [FreezeEntry(Command(t, entry))],
                                        tickets := w.db.tickets[t := Row(t, None)]))
  {
    hide Run;
    TwoIsPositive();
    Posted(w.db, FreezeEntry(Command(t, entry)), Points(-100, 100, 0));
    hide Post, Decimal.IsPositiveDecimal;
    assert !SubmittedBefore(w.db, Command(t, entry));
    more := OneMore(steps, w, Submit(Command(t, entry)), w.(db := SubmitTicket(w.db, Command(t, entry)).value));
  }

  lemma Locks(steps: seq<Step>, w: World, t: TicketId, op: FlightOp) returns (more: seq<Step>)
    requires Run(steps) == w && t in w.db.tickets && t !in w.flights
    ensures Run(more) == w.(flights := w.flights[t := Locked(op)])
  {
    hide Run;
    more := OneMore(steps, w, Lock(t, op), w.(flights := w.flights[t := Locked(op)]));
  }

  lemma Reads(steps: seq<Step>, w: World, t: TicketId, plan: Plan) returns (more: seq<Step>)
    requires Run(steps) == w && t in w.flights && w.flights[t].Locked?
    requires PlanOf(w.db, t, w.flights[t].op) == Ok(plan) && !plan.Replay?
    ensures Run(more) == w.(flights := w.flights[t := Planned(plan)])
  {
    hide Run, PlanOf;
    more := OneMore(steps, w, Read(t), w.(flights := w.flights[t := Planned(plan)]));
  }

  lemma Writes(steps: seq<Step>, w: World, t: TicketId, db: Db) returns (more: seq<Step>)
    requires Run(steps) == w && t in w.flights && w.flights[t].Planned? && ApplyPlan(w.db, w.flights[t].plan) == Ok(db)
    ensures Run(more) == World(db, w.flights - {t})
  {
    hide Run, ApplyPlan;
    more := OneMore(steps, w, Write(t), World(db, w.flights - {t}));
  }

  /** A transaction that nothing interrupts. */
  lemma Transacts(steps: seq<Step>, w: World, t: TicketId, op: FlightOp, plan: Plan, db: Db) returns (more: seq<Step>)
    requires Run(steps) == w && t in w.db.tickets && t !in w.flights
    requires PlanOf(w.db, t, op) == Ok(plan) && !plan.Replay? && ApplyPlan(w.db, plan) == Ok(db)
    ensures Run(more) == w.(db := db)
  {
    hide Run, PlanOf, ApplyPlan;
    more := Locks(steps, w, t, op);
    more := Reads(more, w.(flights := w.flights[t := Locked(op)]), t, plan);
    assert w.flights[t := Locked(op)][t := Planned(plan)] == w.flights[t := Planned(plan)];
    more := Writes(more, w.(flights := w.flights[t := Planned(plan)]), t, db);
    assert w.flights[t := Planned(plan)] - {t} == w.flights;
  }

  // ---------------------------------------------------------------- settled, at the first version

  const GRANTED: Db :=
    EMPTY.(accounts := EMPTY.accounts[A := Points(100, 0, 0)],
           entries := EMPTY.entries + [InitialGrantEntry(A, 100, 0)])

  const STAKED: Db :=
    GRANTED.(accounts := GRANTED.accounts[A := Points(0, 100, 0)], tickets := GRANTED.tickets[0 := Row(0, None)],
             entries := GRANTED.entries + [FreezeEntry(Command(0, 1))])

  /** A settlement as a push, part of it against the debt. */
  function PushWrite(t: TicketId, v: Version, repaid: int, record: SettlementId, entry: EntryId): SettlementWrite {
    var delta := Points(100 - repaid, -100, -repaid);
    SettlementWrite(t, v, Push, 100, record, delta, entry, delta, entry, delta)
  }

  function Record(t: TicketId, v: Version, repaid: int, entry: EntryId, status: SettlementStatus): Settlement {
    Settlement(t, v, Push, 100, Points(100 - repaid, -100, -repaid), entry, status)
  }

  function SettleKeyOf(t: TicketId, v: Version): OperationKey { OperationKey(t, v, SettleOp) }

  const SETTLED: Db :=
    STAKED.(accounts := STAKED.accounts[A := Points(100, 0, 0)], tickets := STAKED.tickets[0 := Row(0, Some(0))],
            settlements := STAKED.settlements[0 := Record(0, FIRST, 0, 2, Active)],
            entries := STAKED.entries + [SettleEntry(A, PushWrite(0, FIRST, 0, 0, 2))],
            operations := STAKED.operations[SettleKeyOf(0, FIRST) := SettledReceipt(0, FIRST, Push, 100, 2)])

  lemma NoSteps()
    ensures Run([]) == World(EMPTY, map[])
  {
  }

  lemma OpensAccount(db: Db, points: int, entry: EntryId)
    requires A !in db.accounts && points >= 0 && IsNew(db.entries, entry, InitialGrantKey(A))
    ensures OpenAccount(db, A, points, entry)
         == Ok(db.(accounts := db.accounts[A := Points(points, 0, 0)],
                   entries := db.entries + [InitialGrantEntry(A, points, entry)]))
  {
    Posted(db.(accounts := db.accounts[A := ZERO]), InitialGrantEntry(A, points, entry), Points(points, 0, 0));
    hide Post;
    assert db.accounts[A := ZERO][A := Points(points, 0, 0)] == db.accounts[A := Points(points, 0, 0)];
  }

  lemma Opens() returns (steps: seq<Step>)
    ensures Run(steps) == World(GRANTED, map[])
  {
    hide Run, OpenAccount;
    NoSteps();
    OpensAccount(EMPTY, 100, 0);
    steps := OneMore([], World(EMPTY, map[]), Step.Open(A, 100, 0), World(GRANTED, map[]));
  }

  lemma Stakes() returns (steps: seq<Step>)
    ensures Run(steps) == World(STAKED, map[])
  {
    hide Run;
    steps := Opens();
    steps := Submits(steps, World(GRANTED, map[]), 0, 1, Points(100, 0, 0));
  }

  lemma SettlesFirst() returns (steps: seq<Step>)
    ensures Run(steps) == World(SETTLED, map[])
  {
    hide Run, Next;
    steps := Stakes();
    PlansFirst();
    WritesFirst();
    hide PlanSettle, PersistSettlement;
    steps := Transacts(steps, World(STAKED, map[]), 0, SettleFlight(FIRST, Push, 0, 2),
                       Settle(PushWrite(0, FIRST, 0, 0, 2)), SETTLED);
  }

  lemma PlansFirst()
    ensures PlanSettle(STAKED, 0, FIRST, Push, 0, 2) == Ok(Settle(PushWrite(0, FIRST, 0, 0, 2)))
  {
  }

  /** A planned push is written: the account, the row, the record and the receipt. */
  lemma WritesPush(db: Db, t: TicketId, v: Version, repaid: int, record: SettlementId, entry: EntryId, points: Points)
    requires t in db.tickets && db.tickets[t] == Row(t, None) && A in db.accounts && db.accounts[A] == points
    requires points.NonNegative() && points.frozen >= 100 && 0 <= repaid <= 100 && points.debt >= repaid
    requires IsNew(db.entries, entry, SettleKey(t, v)) && record !in db.settlements
    requires !VersionTaken(db.settlements, t, v) && SettleKeyOf(t, v) !in db.operations
    ensures var w := PushWrite(t, v, repaid, record, entry);
            PersistSettlement(db, w) == Ok(db.(
              accounts := db.accounts[A := points.Plus(w.balance)], entries := db.entries + [SettleEntry(A, w)],
              settlements := db.settlements[record := Record(t, v, repaid, entry, Active)],
              tickets := db.tickets[t := Row(t, Some(record))],
              operations := db.operations[SettleKeyOf(t, v) := SettledReceipt(t, v, Push, 100, entry)]))
  {
    var w := PushWrite(t, v, repaid, record, entry);
    Posted(db, SettleEntry(A, w), w.balance);
    hide Post, VersionTaken;
  }

  lemma WritesFirst()
    ensures PersistSettlement(STAKED, PushWrite(0, FIRST, 0, 0, 2)) == Ok(SETTLED)
  {
    WritesPush(STAKED, 0, FIRST, 0, 0, 2, Points(0, 100, 0));
    hide PersistSettlement;
  }

  // ---------------------------------------------------------------- a stake before a reversal's write

  /** A reversal that takes some points back and leaves the rest as debt. */
  function Undo(reclaimed: int, entry: EntryId): ReversalWrite {
    var delta := Points(-reclaimed, 100, 100 - reclaimed);
    ReversalWrite(0, FIRST, delta, entry, delta, 2)
  }

  /** A planned reversal of the first settlement is written. */
  lemma WritesReversal(db: Db, reclaimed: int, entry: EntryId, points: Points)
    requires 0 in db.tickets && db.tickets[0] == Row(0, Some(0)) && A in db.accounts && db.accounts[A] == points
    requires 0 in db.settlements && db.settlements[0] == Record(0, FIRST, 0, 2, Active)
    requires points.NonNegative() && 0 <= reclaimed <= points.available && reclaimed <= 100
    requires IsNew(db.entries, entry, ReverseKey(0, FIRST)) && EntryIdTaken(db.entries, 2)
    requires OperationKey(0, FIRST, ReversalOp) !in db.operations
    ensures var w := Undo(reclaimed, entry);
            PersistReversal(db, w) == Ok(db.(
              accounts := db.accounts[A := points.Plus(w.balance)], entries := db.entries + [ReversalEntry(A, w)],
              settlements := db.settlements[0 := Record(0, FIRST, 0, 2, Reversed)],
              tickets := db.tickets[0 := Row(0, None)],
              operations := db.operations[OperationKey(0, FIRST, ReversalOp) := ReversedReceipt(0, FIRST, entry)]))
  {
    var w := Undo(reclaimed, entry);
    Posted(db, ReversalEntry(A, w), w.balance);
    hide Post, EntryIdTaken;
  }

  lemma PlansUndo()
    ensures PlanReverse(SETTLED, 0, FIRST, 3) == Ok(Reverse(Undo(100, 3)))
  {
  }

  /** The settled ticket's points at stake on another one. */
  function Restaked(entry: EntryId): Db {
    SETTLED.(accounts := SETTLED.accounts[A := Points(0, 100, 0)],
             entries := SETTLED.entries + [FreezeEntry(Command(1, entry))],
             tickets := SETTLED.tickets[1 := Row(1, None)])
  }

  /** A reversal planned while its points were there is refused when a stake has been frozen since. */
  lemma StakeDefeatsReversal() returns (steps: seq<Step>)
    ensures var w := Run(steps);
            && 0 in w.flights && w.flights[0].Planned? && w.flights[0].plan.Reverse?
            && ApplyPlan(w.db, w.flights[0].plan) == Err(SettlementConflict)
  {
    hide Run, Next;
    steps := SettlesFirst();
    var w := World(SETTLED, map[]);
    PlansUndo();
    hide PlanReverse;
    steps := Locks(steps, w, 0, ReverseFlight(FIRST, 3));
    steps := Reads(steps, World(SETTLED, map[0 := Locked(ReverseFlight(FIRST, 3))]), 0, Reverse(Undo(100, 3)));
    var planned := World(SETTLED, map[0 := Planned(Reverse(Undo(100, 3)))]);
    steps := Submits(steps, planned, 1, 4, Points(100, 0, 0));
    RefusesUndo();
    hide PersistReversal;
  }

  lemma RefusesUndo()
    ensures PersistReversal(Restaked(4), Undo(100, 3)) == Err(SettlementConflict)
  {
  }

  // ---------------------------------------------------------------- a debt repaid before a settlement's write

  /** Reversed after its points were staked again: they are a debt now. */
  function Indebted(): Db {
    var db := Restaked(3);
    db.(accounts := db.accounts[A := Points(0, 200, 100)], entries := db.entries + [ReversalEntry(A, Undo(0, 4))],
        settlements := db.settlements[0 := Record(0, FIRST, 0, 2, Reversed)], tickets := db.tickets[0 := Row(0, None)],
        operations := db.operations[OperationKey(0, FIRST, ReversalOp) := ReversedReceipt(0, FIRST, 4)])
  }

  lemma PlansDebt()
    ensures PlanReverse(Restaked(3), 0, FIRST, 4) == Ok(Reverse(Undo(0, 4)))
  {
  }

  lemma WritesDebt()
    ensures PersistReversal(Restaked(3), Undo(0, 4)) == Ok(Indebted())
  {
    hide PersistReversal;
    assert Restaked(3).entries[2].id == 2;
    WritesReversal(Restaked(3), 0, 4, Points(0, 100, 0));
  }

  lemma BecomesIndebted() returns (steps: seq<Step>)
    ensures Run(steps) == World(Indebted(), map[])
  {
    hide Run, Next;
    steps := SettlesFirst();
    steps := Submits(steps, World(SETTLED, map[]), 1, 3, Points(100, 0, 0));
    PlansDebt();
    WritesDebt();
    hide PlanReverse, PersistReversal;
    steps := Transacts(steps, World(Restaked(3), map[]), 0, ReverseFlight(FIRST, 4), Reverse(Undo(0, 4)), Indebted());
  }

  lemma PlansRepayment()
    ensures PlanSettle(Indebted(), 0, SECOND, Push, 1, 5) == Ok(Settle(PushWrite(0, SECOND, 100, 1, 5)))
    ensures PlanSettle(Indebted(), 1, FIRST, Push, 2, 6) == Ok(Settle(PushWrite(1, FIRST, 100, 2, 6)))
  {
  }

  /** Ticket 0 settled again, the whole debt repaid. */
  function Repaid(): Db {
    var db := Indebted();
    db.(accounts := db.accounts[A := Points(0, 100, 0)],
        entries := db.entries + [SettleEntry(A, PushWrite(0, SECOND, 100, 1, 5))],
        settlements := db.settlements[1 := Record(0, SECOND, 100, 5, Active)],
            tickets := db.tickets[0 := Row(0, Some(1))],
        operations := db.operations[SettleKeyOf(0, SECOND) := SettledReceipt(0, SECOND, Push, 100, 5)])
  }

  lemma WritesRepayment()
    ensures PersistSettlement(Indebted(), PushWrite(0, SECOND, 100, 1, 5)) == Ok(Repaid())
  {
    hide PersistSettlement;
    WritesPush(Indebted(), 0, SECOND, 100, 1, 5, Points(0, 200, 100));
  }

  lemma RefusesRepayment()
    ensures PersistSettlement(Repaid(), PushWrite(1, FIRST, 100, 2, 6)) == Err(InsufficientFrozen)
  {
  }

  /**
   * Two settlements of one account read the same debt; the one that writes first repays it, and the other
   * is refused with INSUFFICIENT_FROZEN although the frozen points of its ticket are there.
   */
  lemma RepaymentDefeatsSettlement() returns (steps: seq<Step>)
    ensures var w := Run(steps);
            && 1 in w.flights && w.flights[1].Planned? && w.flights[1].plan.Settle? && 1 in w.db.tickets
            && A in w.db.accounts
            && w.db.tickets[1].account == A && w.db.accounts[A].frozen >= w.db.tickets[1].stake
            && ApplyPlan(w.db, w.flights[1].plan) == Err(InsufficientFrozen)
  {
    hide Run, Next;
    steps := BecomesIndebted();
    PlansRepayment();
    WritesRepayment();
    RefusesRepayment();
    hide PlanSettle, PersistSettlement;
    var op, other := SettleFlight(SECOND, Push, 1, 5), SettleFlight(FIRST, Push, 2, 6);
    var plan, second := Settle(PushWrite(0, SECOND, 100, 1, 5)), Settle(PushWrite(1, FIRST, 100, 2, 6));
    steps := Locks(steps, World(Indebted(), map[]), 0, op);
    steps := Locks(steps, World(Indebted(), map[0 := Locked(op)]), 1, other);
    steps := Reads(steps, World(Indebted(), map[0 := Locked(op), 1 := Locked(other)]), 0, plan);
    steps := Reads(steps, World(Indebted(), map[0 := Planned(plan), 1 := Locked(other)]), 1, second);
    steps := Writes(steps, World(Indebted(), map[0 := Planned(plan), 1 := Planned(second)]), 0, Repaid());
  }

  // ---------------------------------------------------------------- a result that goes back

  function Undone(): Db {
    SETTLED.(accounts := SETTLED.accounts[A := Points(0, 100, 0)],
             entries := SETTLED.entries + [ReversalEntry(A, Undo(100, 3))],
             settlements := SETTLED.settlements[0 := Record(0, FIRST, 0, 2, Reversed)],
                 tickets := SETTLED.tickets[0 := Row(0, None)],
             operations := SETTLED.operations[OperationKey(0, FIRST, ReversalOp) := ReversedReceipt(0, FIRST, 3)])
  }

  function Corrected(): Db {
    var db := Undone();
    db.(accounts := db.accounts[A := Points(100, 0, 0)],
        entries := db.entries + [SettleEntry(A, PushWrite(0, SECOND, 0, 1, 4))],
        settlements := db.settlements[1 := Record(0, SECOND, 0, 4, Active)],
            tickets := db.tickets[0 := Row(0, Some(1))],
        operations := db.operations[SettleKeyOf(0, SECOND) := SettledReceipt(0, SECOND, Push, 100, 4)])
  }

  lemma WritesUndo()
    ensures PersistReversal(SETTLED, Undo(100, 3)) == Ok(Undone())
  {
    hide PersistReversal;
    assert SETTLED.entries[2].id == 2;
    WritesReversal(SETTLED, 100, 3, Points(100, 0, 0));
  }

  lemma PlansCorrection()
    ensures PlanSettle(Undone(), 0, SECOND, Push, 1, 4) == Ok(Settle(PushWrite(0, SECOND, 0, 1, 4)))
  {
  }

  lemma WritesCorrection()
    ensures PersistSettlement(Undone(), PushWrite(0, SECOND, 0, 1, 4)) == Ok(Corrected())
  {
    hide PersistSettlement;
    WritesPush(Undone(), 0, SECOND, 0, 1, 4, Points(0, 100, 0));
  }

  /** A football result whose content, and so whose version, is the first one again. */
  const BACK_AGAIN: map<FixtureId, FootballSweep.Fixture> :=
    map[0 := FootballSweep.Fixture(FootballSweep.Finished, true, Some(FIRST), Some(1), Some(0))]

  /**
   * Settled at one result, corrected to another, and then the first comes back: the ticket is a candidate
   * whose current version is used up, and processing it fails whatever ids it is given.
   */
  lemma ResultThatComesBack() returns (steps: seq<Step>)
    ensures var w := Run(steps);
            && w.flights == map[] && FootballSweep.Selected(w.db, BACK_AGAIN, 0)
            && 0 in FootballSweep.FootballTargets(w.db, BACK_AGAIN)
            && FootballSweep.FootballTargets(w.db, BACK_AGAIN)[0].version == FIRST
            && Sweep.UsedUp(w.db, 0, FIRST)
            && (forall ids :: Sweep.Process(w.db, FootballSweep.JobOf(FootballSweep.RowOf(w.db, BACK_AGAIN, 0)),
                                            ids).verdict.Failed?)
  {
    hide Run, Next, WorldInv, Sweep.Process;
    steps := SettlesFirst();
    PlansUndo();
    WritesUndo();
    PlansCorrection();
    WritesCorrection();
    hide PlanSettle, PlanReverse, PersistSettlement, PersistReversal;
    steps := Transacts(steps, World(SETTLED, map[]), 0, ReverseFlight(FIRST, 3), Reverse(Undo(100, 3)), Undone());
    steps := Transacts(steps, World(Undone(), map[]), 0, SettleFlight(SECOND, Push, 1, 4),
                       Settle(PushWrite(0, SECOND, 0, 1, 4)), Corrected());
    CorrectedIsUsedUp();
    RunKeeps(steps);
    ComesBackFailed(Run(steps));
  }

  lemma ComesBackFailed(w: World)
    requires WorldInv(w) && w.db == Corrected()
    ensures FootballSweep.Selected(w.db, BACK_AGAIN, 0)
    ensures forall ids :: Sweep.Process(w.db, FootballSweep.JobOf(FootballSweep.RowOf(w.db, BACK_AGAIN, 0)),
                                        ids).verdict.Failed?
  {
    CorrectedIsUsedUp();
    hide FlightOk, LedgerInvariant.Inv, Sweep.Process, Corrected;
    var job := FootballSweep.JobOf(FootballSweep.RowOf(w.db, BACK_AGAIN, 0));
    forall ids ensures Sweep.Process(w.db, job, ids).verdict.Failed? { Sweep.UsedUpIsRefused(w.db, job, ids); }
  }

  lemma CorrectedIsUsedUp()
    ensures FootballSweep.Selected(Corrected(), BACK_AGAIN, 0)
    ensures 0 in FootballSweep.FootballTargets(Corrected(), BACK_AGAIN)
    ensures FootballSweep.FootballTargets(Corrected(), BACK_AGAIN)[0].version == FIRST
    ensures Sweep.UsedUp(Corrected(), 0, FIRST)
  {
    hide FootballSweep.OutcomeForCandidate;
  }
}
