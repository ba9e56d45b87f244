/**
 * The ledger and the F1 results together: scans read a version, results move on, workers with
 * stale candidates settle and reverse in between. A re-settlement at the current version never
 * finds its settle key used by a settlement that has been reversed since.
 */
module F1Freshness {
  import opened Common
  import opened LedgerModel
  import opened LedgerInvariant
  import opened SettlementSteps
  import LM = LedgerMachine
  import opened LedgerTheorems
  import Sweep
  import SweepOrder
  import F1 = F1Versions
  import opened F1Sessions
  import F1Results
  import F1Import

  // ---------------------------------------------------------------- the F1 candidate query

  /** `outcomeForF1Candidate`; `selection` is the parsed leg, None when it does not parse. */
  function OutcomeForF1(s: Session, selection: Option<F1Results.Selection>): Result<Outcome, Failure> {
    if s.state.Cancelled? then Ok(Cancel)
    else if !s.state.Finished? || F1.InForce(s).None? || selection.None? then Err(ResultNotSettleable)
    else
      match F1Results.Resolve(selection.value, F1.InForce(s).value)
      case Ok(outcome) => Ok(outcome)
      case Err(_) => Err(ResultNotSettleable)
  }

  predicate HasResult(s: Session) {
    s.resultConfirmed && s.resultVersion.Some? && (s.state.Finished? || s.state.Cancelled?)
  }

  function VersionInForce(s: Session): Version { Revision(F1.VersionOf(s)) }

  /** The row of the query and the job the handler makes of it. */
  function JobOf(db: Db, s: Session, selection: Option<F1Results.Selection>, t: TicketId): Sweep.Job
    requires t in db.tickets
  {
    Sweep.Job(t, VersionInForce(s), ActiveVersion(db, t), HasResult(s), OutcomeForF1(s, selection))
  }

  // ---------------------------------------------------------------- the machine

  /** What a worker holds of a scanned row. */
  datatype Scanned = Scanned(ticket: TicketId, version: nat, active: Option<Version>)

  datatype World = World(ledger: LM.World, events: map<FixtureId, F1.World>, scanned: set<Scanned>)

  datatype Step =
    | Ledger(move: LM.Step)
    | Happen(fixture: FixtureId, step: F1.Step)
    | Scan(ticket: TicketId)
    | StartReverse(candidate: Scanned, entryId: EntryId)
    | StartSettle(candidate: Scanned, outcome: Outcome, recordId: SettlementId, entryId: EntryId)

  predicate IsF1(w: World, t: TicketId) {
    t in w.ledger.db.tickets && w.ledger.db.tickets[t].fixture in w.events
  }

  function SessionOf(w: World, t: TicketId): Session
    requires IsF1(w, t)
  {
    w.events[w.ledger.db.tickets[t].fixture].session
  }

  predicate Selected(w: World, t: TicketId) {
    && IsF1(w, t) && HasResult(SessionOf(w, t))
    && ActiveVersion(w.ledger.db, t) != Some(VersionInForce(SessionOf(w, t)))
  }

  /** Workers lock F1 tickets only for candidates they scanned, however long ago. */
  ghost function Next(w: World, step: Step): World {
    match step
    case Ledger(move) =>
      if move.Lock? && IsF1(w, move.ticket) then w else w.(ledger := LM.Next(w.ledger, move))
    case Happen(fixture, step) =>
      if fixture in w.events then w.(events := w.events[fixture := F1.Next(w.events[fixture], step)]) else w
    case Scan(t) =>
      if Selected(w, t) then
        w.(scanned := w.scanned + {Scanned(t, F1.VersionOf(SessionOf(w, t)), ActiveVersion(w.ledger.db, t))})
      else w
    case StartReverse(c, entryId) =>
      if c in w.scanned && c.active.Some?
          then w.(ledger := LM.Next(w.ledger, LM.Lock(c.ticket, LM.ReverseFlight(c.active.value, entryId)))) else w
    case StartSettle(c, outcome, recordId, entryId) =>
      if c in w.scanned then
        w.(ledger := LM.Next(w.ledger,
                             LM.Lock(c.ticket, LM.SettleFlight(Revision(c.version), outcome, recordId, entryId))))
      else w
  }

  ghost function Run(events: map<FixtureId, F1.World>, steps: seq<Step>): World {
    if steps == [] then World(LM.World(EMPTY, map[]), events, {})
    else Next(Run(events, steps[..|steps| - 1]), steps[|steps| - 1])
  }

  predicate FreshEvents(events: map<FixtureId, F1.World>) {
    forall f :: f in events ==> F1.Fresh(events[f].session) && events[f].flights == map[]
  }

  // ---------------------------------------------------------------- the invariant

  /** A version that has been in force by now, or (strictly) one that is no longer. */
  predicate Reached(v: Version, current: nat, strictly: bool) {
    v.Revision? && (if strictly then v.number < current else v.number <= current)
  }

  function Current(w: World, t: TicketId): nat
    requires IsF1(w, t)
  {
    F1.VersionOf(SessionOf(w, t))
  }

  /** Receipts: settled at versions reached, reversed at versions left behind. */
  ghost predicate ReceiptsOk(w: World) {
    forall k :: k in w.ledger.db.operations && IsF1(w, k.ticket) ==>
        Reached(k.version, Current(w, k.ticket), k.op.ReversalOp?)
  }

  predicate OpReached(op: LM.FlightOp, current: nat) {
    match op
    case SettleFlight(version, _, _, _) => Reached(version, current, false)
    case ReverseFlight(version, _) => Reached(version, current, true)
  }

  predicate FlightReached(flight: LM.Flight, current: nat) {
    match flight
    case Locked(op) => OpReached(op, current)
    case Planned(Settle(write)) => Reached(write.version, current, false)
    case Planned(Reverse(write)) => Reached(write.version, current, true)
    case Planned(Replay(_)) => true
  }

  ghost predicate FlightsReached(w: World) {
    forall t :: t in w.ledger.flights && IsF1(w, t) ==> FlightReached(w.ledger.flights[t], Current(w, t))
  }

  ghost predicate ScannedOk(w: World) {
    forall c :: c in w.scanned ==>
      && IsF1(w, c.ticket) && c.version <= Current(w, c.ticket)
      && (c.active.Some? ==> Reached(c.active.value, c.version, true))
  }

  ghost predicate EventsOk(w: World) { forall f :: f in w.events ==> F1.WorldInv(w.events[f]) }

  ghost predicate FreshInv(w: World) {
    LM.WorldInv(w.ledger) && EventsOk(w) && ReceiptsOk(w) && FlightsReached(w) && ScannedOk(w)
  }

  // ---------------------------------------------------------------- what a ledger step can do to the receipts

  /**
   * Tickets keep their fixtures, and the receipts and flights that appear carry versions of flights
   * that were there.
   */
  ghost predicate LedgerMoves(w: LM.World, w': LM.World) {
    && (forall t :: t in w.db.tickets ==> t in w'.db.tickets && w'.db.tickets[t].fixture == w.db.tickets[t].fixture)
    && (forall k :: k in w'.db.operations && k !in w.db.operations ==>
        k.ticket in w.flights && CarriedBy(w.flights[k.ticket], k))
    && (forall t :: t in w'.flights ==> t in w.flights && SameReach(w.flights[t], w'.flights[t]))
  }

  predicate CarriedBy(flight: LM.Flight, k: OperationKey) {
    match flight
    case Planned(Settle(write)) => k == OperationKey(write.ticket, write.version, SettleOp)
    case Planned(Reverse(write)) => k == OperationKey(write.ticket, write.version, ReversalOp)
    case _ => false
  }

  ghost predicate SameReach(flight: LM.Flight, flight': LM.Flight) {
    forall n :: FlightReached(flight, n) ==> FlightReached(flight', n)
  }

  lemma PersistSettlementMoves(db: Db, write: SettlementWrite)
    requires PersistSettlement(db, write).Ok?
    ensures var db' := PersistSettlement(db, write).value;
            && db'.tickets.Keys == db.tickets.Keys
            && (forall t :: t in db.tickets ==> db'.tickets[t].fixture == db.tickets[t].fixture)
            && db'.operations.Keys == db.operations.Keys + {OperationKey(write.ticket, write.version, SettleOp)}
  {
  }

  lemma PersistReversalMoves(db: Db, write: ReversalWrite)
    requires PersistReversal(db, write).Ok?
    ensures var db' := PersistReversal(db, write).value;
            && db'.tickets.Keys == db.tickets.Keys
            && (forall t :: t in db.tickets ==> db'.tickets[t].fixture == db.tickets[t].fixture)
            && db'.operations.Keys == db.operations.Keys + {OperationKey(write.ticket, write.version, ReversalOp)}
  {
  }

  lemma PlanReach(db: Db, t: TicketId, op: LM.FlightOp)
    requires LM.PlanOf(db, t, op).Ok?
    ensures forall n :: OpReached(op, n) ==> FlightReached(LM.Planned(LM.PlanOf(db, t, op).value), n)
  {
  }

  lemma WriteMoves(w: LM.World, t: TicketId)
    requires LM.WorldInv(w) && t in w.flights && w.flights[t].Planned?
    ensures LedgerMoves(w, LM.Next(w, LM.Write(t)))
  {
    hide Inv, PersistSettlement, PersistReversal, SettleReady, ReverseReady, FlightReached;
    assert LM.FlightOk(w.db, t, w.flights[t]);
    match w.flights[t].plan
    case Settle(write) => if PersistSettlement(w.db, write).Ok? { PersistSettlementMoves(w.db, write); }
    case Reverse(write) => if PersistReversal(w.db, write).Ok? { PersistReversalMoves(w.db, write); }
  }

  lemma OtherLedgerMoves(w: LM.World, step: LM.Step)
    requires LM.WorldInv(w) && !LM.IsSettlementStep(step)
    ensures LedgerMoves(w, LM.Next(w, step))
  {
    hide Inv, FlightReached, LM.Next, LM.FlightOk;
    LM.OtherStepKeeps(w, step);
  }

  lemma FlightMoves(w: LM.World, step: LM.Step)
    requires LM.WorldInv(w) && (step.Read? || step.Abandon? || (step.Write? && LM.Next(w, step) == w))
    ensures LedgerMoves(w, LM.Next(w, step))
  {
    hide Inv, FlightReached, OpReached, LM.FlightOk;
    if step.Read? && step.ticket in w.flights && w.flights[step.ticket].Locked? {
      var op := w.flights[step.ticket].op;
      var plan := LM.PlanOf(w.db, step.ticket, op);
      if plan.Ok? && !plan.value.Replay? { ReadReach(w.db, step.ticket, op); }
    }
  }

  lemma ReadReach(db: Db, t: TicketId, op: LM.FlightOp)
    requires LM.PlanOf(db, t, op).Ok?
    ensures SameReach(LM.Locked(op), LM.Planned(LM.PlanOf(db, t, op).value))
  {
    hide LM.PlanOf;
    PlanReach(db, t, op);
  }

  // ---------------------------------------------------------------- the invariant is kept

  lemma ReceiptsHaveTickets(db: Db)
    requires Inv(db)
    ensures forall k :: k in db.operations ==> k.ticket in db.tickets
  {
    hide Inv, TicketsInv;
    LM.TicketsOf(db);
    Sweep.OperationsOf(db);
  }

  /** Being an F1 ticket, and the version it is compared with, survive a ledger step. */
  lemma SameEvent(w: World, ledger: LM.World, t: TicketId)
    requires LedgerMoves(w.ledger, ledger) && t in w.ledger.db.tickets
    ensures var w' := w.(ledger := ledger);
            && (IsF1(w', t) <==> IsF1(w, t))
            && (IsF1(w, t) ==> Current(w', t) == Current(w, t))
  {
    hide SameReach, CarriedBy;
  }

  lemma FlightHasTicket(w: LM.World, t: TicketId)
    requires LM.WorldInv(w) && t in w.flights
    ensures t in w.db.tickets
    ensures forall k :: CarriedBy(w.flights[t], k) ==> k.ticket == t
  {
    hide Inv, SettleReady, ReverseReady;
    assert LM.FlightOk(w.db, t, w.flights[t]);
  }

  lemma CarriedIsReached(flight: LM.Flight, k: OperationKey, n: nat)
    requires CarriedBy(flight, k) && FlightReached(flight, n)
    ensures Reached(k.version, n, k.op.ReversalOp?)
  {
  }

  lemma MovedReceipts(w: World, ledger: LM.World)
    requires LM.WorldInv(w.ledger) && ReceiptsOk(w) && FlightsReached(w) && LedgerMoves(w.ledger, ledger)
    ensures ReceiptsOk(w.(ledger := ledger))
  {
    hide Inv, CarriedBy, FlightReached, SameReach, Reached, IsF1, Current, LM.FlightOk;
    ReceiptsHaveTickets(w.ledger.db);
    var w' := w.(ledger := ledger);
    forall k | k in ledger.db.operations && IsF1(w', k.ticket)
      ensures Reached(k.version, Current(w', k.ticket), k.op.ReversalOp?)
    {
      if k !in w.ledger.db.operations { FlightHasTicket(w.ledger, k.ticket); }
      SameEvent(w, ledger, k.ticket);
      if k !in w.ledger.db.operations { CarriedIsReached(w.ledger.flights[k.ticket], k, Current(w, k.ticket)); }
    }
  }

  lemma MovedFlights(w: World, ledger: LM.World)
    requires LM.WorldInv(w.ledger) && FlightsReached(w) && LedgerMoves(w.ledger, ledger)
    ensures FlightsReached(w.(ledger := ledger))
  {
    hide Inv, CarriedBy, FlightReached, IsF1, Current, LM.FlightOk;
    var w' := w.(ledger := ledger);
    forall t | t in ledger.flights && IsF1(w', t)
      ensures FlightReached(ledger.flights[t], Current(w', t))
    {
      FlightHasTicket(w.ledger, t);
      SameEvent(w, ledger, t);
      assert SameReach(w.ledger.flights[t], ledger.flights[t]);
    }
  }

  lemma MovedScans(w: World, ledger: LM.World)
    requires ScannedOk(w) && LedgerMoves(w.ledger, ledger)
    ensures ScannedOk(w.(ledger := ledger))
  {
    hide CarriedBy, SameReach, Reached, IsF1, Current;
    var w' := w.(ledger := ledger);
    forall c | c in w.scanned
      ensures IsF1(w', c.ticket) && Current(w', c.ticket) == Current(w, c.ticket)
    {
      InTickets(w, c.ticket);
      SameEvent(w, ledger, c.ticket);
    }
  }

  lemma InTickets(w: World, t: TicketId)
    requires IsF1(w, t)
    ensures t in w.ledger.db.tickets
  {
  }

  lemma MoveKeeps(w: World, move: LM.Step)
    requires FreshInv(w) && !(move.Lock? && IsF1(w, move.ticket))
    ensures FreshInv(w.(ledger := LM.Next(w.ledger, move)))
  {
    hide LM.WorldInv, LM.Next, ReceiptsOk, FlightsReached, ScannedOk, LedgerMoves, IsF1;
    LM.StepKeeps(w.ledger, move);
    if move.Lock? {
      LockKeeps(w, move);
    } else {
      LedgerStepMoves(w.ledger, move);
      MovedReceipts(w, LM.Next(w.ledger, move));
      MovedFlights(w, LM.Next(w.ledger, move));
      MovedScans(w, LM.Next(w.ledger, move));
      SameEvents(w, LM.Next(w.ledger, move));
    }
  }

  lemma SameEvents(w: World, ledger: LM.World)
    requires EventsOk(w)
    ensures EventsOk(w.(ledger := ledger))
  {
  }

  lemma LedgerStepMoves(w: LM.World, step: LM.Step)
    requires LM.WorldInv(w) && !step.Lock?
    ensures LedgerMoves(w, LM.Next(w, step))
  {
    hide Inv, LM.FlightOk, LedgerMoves;
    if !LM.IsSettlementStep(step) {
      OtherLedgerMoves(w, step);
    } else if step.Write? && step.ticket in w.flights && w.flights[step.ticket].Planned? {
      WriteMoves(w, step.ticket);
    } else {
      FlightMoves(w, step);
    }
  }

  /** Locking a ticket for a version already reached. */
  lemma LockKeeps(w: World, move: LM.Step)
    requires move.Lock? && LM.WorldInv(LM.Next(w.ledger, move)) && EventsOk(w) && ReceiptsOk(w) && FlightsReached(w)
    requires ScannedOk(w)
    requires IsF1(w, move.ticket) ==> OpReached(move.op, Current(w, move.ticket))
    ensures FreshInv(w.(ledger := LM.Next(w.ledger, move)))
  {
    hide LM.WorldInv, Reached, OpReached;
    var ledger := LM.Next(w.ledger, move);
    assert ledger.db == w.ledger.db;
    assert forall t :: IsF1(w.(ledger := ledger), t) <==> IsF1(w, t);
  }

  lemma ResultKeeps(w: World, f: FixtureId, step: F1.Step)
    requires FreshInv(w) && f in w.events
    ensures FreshInv(w.(events := w.events[f := F1.Next(w.events[f], step)]))
  {
    hide LM.WorldInv, F1.Next, F1.WorldInv, F1.InForce;
    F1.StepKeeps(w.events[f], step);
    F1.StepAdvances(w.events[f], step);
    var w' := w.(events := w.events[f := F1.Next(w.events[f], step)]);
    forall t | IsF1(w', t)
      ensures IsF1(w, t) && Current(w, t) <= Current(w', t)
    {
    }
    LaterVersions(w, w');
  }

  lemma ReachedLater(v: Version, n: nat, m: nat, strictly: bool)
    requires Reached(v, n, strictly) && n <= m
    ensures Reached(v, m, strictly)
  {
  }

  lemma FlightReachedLater(flight: LM.Flight, n: nat, m: nat)
    requires FlightReached(flight, n) && n <= m
    ensures FlightReached(flight, m)
  {
  }

  /** What was reached stays reached when versions grow. */
  lemma LaterVersions(w: World, w': World)
    requires ReceiptsOk(w) && FlightsReached(w) && ScannedOk(w)
    requires w'.ledger == w.ledger && w'.scanned == w.scanned && w'.events.Keys == w.events.Keys
    requires forall t :: IsF1(w', t) ==> IsF1(w, t) && Current(w, t) <= Current(w', t)
    ensures ReceiptsOk(w') && FlightsReached(w') && ScannedOk(w')
  {
    hide Reached, FlightReached, Current;
    forall k | k in w'.ledger.db.operations && IsF1(w', k.ticket)
      ensures Reached(k.version, Current(w', k.ticket), k.op.ReversalOp?)
    {
      ReachedLater(k.version, Current(w, k.ticket), Current(w', k.ticket), k.op.ReversalOp?);
    }
    forall t | t in w'.ledger.flights && IsF1(w', t)
      ensures FlightReached(w'.ledger.flights[t], Current(w', t))
    {
      FlightReachedLater(w.ledger.flights[t], Current(w, t), Current(w', t));
    }
    forall c | c in w'.scanned
      ensures IsF1(w', c.ticket)
    {
      assert IsF1(w, c.ticket);
    }
  }

  /** A scanned row was settled, if at all, at a version before the one it is to be settled at. */
  lemma ScanKeeps(w: World, t: TicketId)
    requires FreshInv(w) && Selected(w, t)
    ensures FreshInv(Next(w, Scan(t)))
  {
    hide LM.WorldInv, EventsOk, FlightsReached;
    ScannedBefore(w, t);
    var w' := Next(w, Scan(t));
    assert forall u :: IsF1(w', u) <==> IsF1(w, u);
    assert EventsOk(w') by { SameEvents2(w, w'); }
    assert FlightsReached(w') by { SameFlights(w, w'); }
  }

  lemma SameEvents2(w: World, w': World)
    requires EventsOk(w) && w'.events == w.events
    ensures EventsOk(w')
  {
  }

  lemma SameFlights(w: World, w': World)
    requires FlightsReached(w) && w'.events == w.events && w'.ledger == w.ledger
    ensures FlightsReached(w')
  {
    hide FlightReached;
    assert forall u :: IsF1(w', u) <==> IsF1(w, u);
  }

  lemma ScannedBefore(w: World, t: TicketId)
    requires LM.WorldInv(w.ledger) && ReceiptsOk(w) && Selected(w, t)
    ensures ActiveVersion(w.ledger.db, t).Some? ==> Reached(ActiveVersion(w.ledger.db, t).value, Current(w, t), true)
  {
    hide Inv, ActiveVersion, TicketsInv, OperationsInv, LM.FlightOk;
    Sweep.OperationsOf(w.ledger.db);
    if ActiveVersion(w.ledger.db, t).Some? {
      var v := ActiveVersion(w.ledger.db, t).value;
      Sweep.ActiveIsNotReversed(w.ledger.db, t, v);
      assert Reached(v, Current(w, t), false);
    }
  }

  lemma StepKeeps(w: World, step: Step)
    requires FreshInv(w)
    ensures FreshInv(Next(w, step))
  {
    hide FreshInv, LM.Next, F1.Next, IsF1, Selected;
    match step
    case Ledger(move) => if !(move.Lock? && IsF1(w, move.ticket)) { MoveKeeps(w, move); }
    case Happen(f, result) => if f in w.events { ResultKeeps(w, f, result); }
    case Scan(t) => if Selected(w, t) { ScanKeeps(w, t); }
    case StartReverse(c, entryId) =>
      if c in w.scanned && c.active.Some? { StartKeeps(w, c, LM.ReverseFlight(c.active.value, entryId)); }
    case StartSettle(c, outcome, recordId, entryId) =>
      if c in w.scanned { StartKeeps(w, c, LM.SettleFlight(Revision(c.version), outcome, recordId, entryId)); }
  }

  lemma StartKeeps(w: World, c: Scanned, op: LM.FlightOp)
    requires FreshInv(w) && c in w.scanned
    requires match op
             case SettleFlight(version, _, _, _) => version == Revision(c.version)
             case ReverseFlight(version, _) => c.active == Some(version)
    ensures FreshInv(w.(ledger := LM.Next(w.ledger, LM.Lock(c.ticket, op))))
  {
    hide LM.WorldInv, EventsOk, ReceiptsOk, FlightsReached, LM.Next;
    LM.StepKeeps(w.ledger, LM.Lock(c.ticket, op));
    LockKeeps(w, LM.Lock(c.ticket, op));
  }

  lemma {:induction false} RunKeeps(events: map<FixtureId, F1.World>, steps: seq<Step>)
    requires FreshEvents(events)
    ensures FreshInv(Run(events, steps))
  {
    hide FreshInv;
    if steps == [] {
      FirstInv(events);
    } else {
      RunKeeps(events, steps[..|steps| - 1]);
      StepKeeps(Run(events, steps[..|steps| - 1]), steps[|steps| - 1]);
    }
  }

  lemma FirstInv(events: map<FixtureId, F1.World>)
    requires FreshEvents(events)
    ensures FreshInv(Run(events, []))
  {
    hide Inv;
    EmptyInv();
    forall f | f in events ensures F1.WorldInv(events[f]) { F1.FreshInv(events[f].session); }
  }

  // ---------------------------------------------------------------- what it gives

  /** In every run, no F1 ticket's current version is used up. */
  lemma NeverUsedUp(events: map<FixtureId, F1.World>, steps: seq<Step>, t: TicketId)
    requires FreshEvents(events) && IsF1(Run(events, steps), t)
    ensures var w := Run(events, steps); !Sweep.UsedUp(w.ledger.db, t, Revision(Current(w, t)))
  {
    hide Run;
    RunKeeps(events, steps);
    CurrentNotReversed(Run(events, steps), t);
  }

  lemma CurrentNotReversed(w: World, t: TicketId)
    requires FreshInv(w) && IsF1(w, t)
    ensures !Sweep.UsedUp(w.ledger.db, t, Revision(Current(w, t)))
  {
    hide LM.WorldInv, EventsOk, FlightsReached, ScannedOk, ActiveVersion;
    LedgerInv(w.ledger);
    var v := Revision(Current(w, t));
    assert OperationKey(t, v, ReversalOp) !in w.ledger.db.operations;
    if OperationKey(t, v, SettleOp) in w.ledger.db.operations {
      SettledAndNotReversed(w.ledger.db, t, v);
    }
  }

  lemma LedgerInv(w: LM.World)
    requires LM.WorldInv(w)
    ensures Inv(w.db)
  {
  }

  /** A version settled and not reversed is the active one. */
  lemma SettledAndNotReversed(db: Db, t: TicketId, v: Version)
    requires Inv(db) && OperationKey(t, v, SettleOp) in db.operations
    requires OperationKey(t, v, ReversalOp) !in db.operations
    ensures ActiveVersion(db, t) == Some(v)
  {
    hide Inv, TicketsInv;
    LM.TicketsOf(db);
    Sweep.OperationsOf(db);
    assert VersionTaken(db.settlements, t, v);
    var s :| s in db.settlements && db.settlements[s].ticket == t && db.settlements[s].version == v;
    assert ReversedKey(db.settlements[s]) == OperationKey(t, v, ReversalOp);
  }

  /** So a current F1 candidate settles exactly when it is payable, whatever happened to results before. */
  lemma F1SettlesExactlyWhenPayable(events: map<FixtureId, F1.World>, steps: seq<Step>, t: TicketId,
                                    selection: Option<F1Results.Selection>, ids: Sweep.Ids)
    requires FreshEvents(events) && Selected(Run(events, steps), t)
    requires Sweep.FreshIds(Run(events, steps).ledger.db, ids)
    ensures var w := Run(events, steps);
            var job := JobOf(w.ledger.db, SessionOf(w, t), selection, t);
            && HasAccount(w.ledger.db, t)
            && (ActiveVersion(w.ledger.db, t).Some? ==> w.ledger.db.tickets[t].active.value in w.ledger.db.settlements)
            && (Sweep.Process(w.ledger.db, job, ids).verdict.Processed? <==> Sweep.Payable(w.ledger.db, job))
  {
    hide Run, FreshInv, ActiveVersion, Sweep.Process, Sweep.Payable, OutcomeForF1, EntryIdTaken;
    var w := Run(events, steps);
    RunKeeps(events, steps);
    FreshLedger(w);
    NeverUsedUp(events, steps, t);
    Sweep.CandidateSettlesExactlyWhen(w.ledger.db, JobOf(w.ledger.db, SessionOf(w, t), selection, t), ids);
  }

  lemma FreshLedger(w: World)
    requires FreshInv(w)
    ensures Inv(w.ledger.db)
  {
    hide Inv;
  }

  /** The classification of the row at the version in force. */
  predicate ResultStands(s: Session, c: F1Results.Classification) {
    exists i :: 0 <= i < |s.rows| && Some(s.rows[i].version) == s.resultVersion && s.rows[i].classification == c
  }

  lemma {:induction false} RowFound(rows: seq<ResultRow>, v: Option<nat>)
    ensures F1.FindRow(rows, v).Some? ==>
              exists i :: 0 <= i < |rows| && Some(rows[i].version) == v
                          && rows[i].classification == F1.FindRow(rows, v).value
  {
    if rows != [] && v != Some(rows[0].version) && F1.FindRow(rows, v).Some? {
      RowFound(rows[1..], v);
      var i :| 0 <= i < |rows[1..]| && Some(rows[1..][i].version) == v
        && rows[1..][i].classification == F1.FindRow(rows, v).value;
      assert rows[i + 1] == rows[1..][i];
    }
  }

  /**
   * In every run a session with a result refunds every ticket when it was cancelled. Otherwise an official
   * classification stands, and a ticket is an error exactly when its leg does not parse or a driver it names
   * has no line, a refund exactly when such a driver did not start, and else what the classification says.
   */
  lemma OutcomeIsTheResult(first: Session, steps: seq<F1.Step>, selection: Option<F1Results.Selection>)
    returns (c: F1Results.Classification)
    requires F1.Fresh(first) && HasResult(F1.Run(first, steps).session)
    ensures var s := F1.Run(first, steps).session;
            && (s.state.Cancelled? ==> OutcomeForF1(s, selection) == Ok(Cancel))
            && (s.state.Finished? ==>
                  && F1Results.Official(c) && ResultStands(s, c)
                  && (OutcomeForF1(s, selection).Err? <==>
                      selection.None?
                      || exists code :: code in F1Results.DriversOf(selection.value) && !F1Results.HasDriver(c, code))
                  && (OutcomeForF1(s, selection) == Ok(Cancel) <==>
                      && selection.Some?
                      && (forall code :: code in F1Results.DriversOf(selection.value) ==> F1Results.HasDriver(c, code))
                      && exists code :: code in F1Results.DriversOf(selection.value)
                                        && F1Results.DidNotStart(c, code))
                  && (OutcomeForF1(s, selection).Ok? ==>
                      F1Results.Resolve(selection.value, c) == Ok(OutcomeForF1(s, selection).value)))
  {
    hide F1.Run, F1.FindRow, F1Results.Official, F1Results.HasDriver, F1Results.DidNotStart, F1Results.Resolve,
        F1.SessionInv, F1Results.DriversOf;
    var s := F1.Run(first, steps).session;
    F1.RunKeeps(first, steps);
    c := [];
    if s.state.Finished? {
      F1.FinishedHasItsClassification(s);
      RowFound(s.rows, s.resultVersion);
      c := F1.InForce(s).value;
      if selection.Some? { F1Results.ErrorsAndRefunds(c, selection.value); }
    }
  }

  /** While a session's version stays the same over a run, so does the outcome it gives every selection. */
  lemma OutcomeFollowsVersion(first: Session, steps: seq<F1.Step>, i: nat, selection: Option<F1Results.Selection>)
    requires F1.Fresh(first) && i <= |steps|
    requires var s, s' := F1.Run(first, steps[..i]).session, F1.Run(first, steps).session;
             s.resultVersion.Some? && F1.VersionOf(s') == F1.VersionOf(s)
    ensures OutcomeForF1(F1.Run(first, steps).session, selection)
              == OutcomeForF1(F1.Run(first, steps[..i]).session, selection)
  {
    hide F1.Run, F1.InForce;
    F1.VersionsOnlyGrow(first, steps, i);
  }

  // ---------------------------------------------------------------- the F1 scan

  function SelectionOf(legs: map<Leg, F1Results.Selection>, leg: Leg): Option<F1Results.Selection> {
    if leg in legs then Some(legs[leg]) else None
  }

  predicate SelectedRow(db: Db, sessions: map<FixtureId, Session>, t: TicketId) {
    && t in db.tickets && db.tickets[t].fixture in sessions
    && var s, active := sessions[db.tickets[t].fixture], db.tickets[t].active;
       && HasResult(s)
       && (active.None? || (active.value in db.settlements
                            && db.settlements[active.value].version != VersionInForce(s)))
  }

  ghost function SelectedTickets(db: Db, sessions: map<FixtureId, Session>): set<TicketId> {
    set t | t in db.tickets && SelectedRow(db, sessions, t)
  }

  /** `scan` of the F1 repository: the first selected rows in the query's order, up to the limit. */
  ghost predicate F1Scan(db: Db, sessions: map<FixtureId, Session>, legs: map<Leg, F1Results.Selection>, limit: int,
                         order: SweepOrder.Order, jobs: seq<Sweep.Job>) {
    && (forall i :: 0 <= i < |jobs| ==>
          && SelectedRow(db, sessions, jobs[i].ticket)
          && jobs[i] == JobOf(db, sessions[db.tickets[jobs[i].ticket].fixture],
                              SelectionOf(legs, db.tickets[jobs[i].ticket].leg), jobs[i].ticket))
    && (forall i, j :: 0 <= i < j < |jobs| ==> order(jobs[i].ticket) < order(jobs[j].ticket))
    && |jobs| == Min(Sweep.SafeLimit(limit), |SelectedTickets(db, sessions)|)
    && (forall i, t :: 0 <= i < |jobs| && t in SelectedTickets(db, sessions) && !Sweep.Listed(jobs, t) ==>
          order(jobs[i].ticket) < order(t))
  }

  ghost function F1Targets(db: Db, sessions: map<FixtureId, Session>, legs: map<Leg,
                           F1Results.Selection>): map<TicketId, Sweep.Target> {
    map t | t in db.tickets && db.tickets[t].fixture in sessions && HasResult(sessions[db.tickets[t].fixture]) ::
      Sweep.Target(VersionInForce(sessions[db.tickets[t].fixture]),
                   OutcomeForF1(sessions[db.tickets[t].fixture], SelectionOf(legs, db.tickets[t].leg)))
  }

  lemma SelectedAreCandidates(db: Db, sessions: map<FixtureId, Session>, legs: map<Leg, F1Results.Selection>)
    requires TicketsInv(db.accounts, db.tickets, db.settlements)
    ensures SelectedTickets(db, sessions) == Sweep.Candidates(db, F1Targets(db, sessions, legs))
  {
    hide OutcomeForF1, SoundTicket;
  }

  /**
   * A ticket is selected exactly when its session is finished or cancelled and the version in force is not
   * the one the ticket is settled at.
   */
  lemma SelectedExactlyWhen(db: Db, sessions: map<FixtureId, Session>, t: TicketId)
    requires Inv(db) && t in db.tickets
    requires forall f :: f in sessions ==> F1.SessionInv(sessions[f])
    ensures SelectedRow(db, sessions, t) <==>
              && db.tickets[t].fixture in sessions
              && var s := sessions[db.tickets[t].fixture];
                 && (s.state.Finished? || s.state.Cancelled?)
                 && s.resultVersion.Some? && ActiveVersion(db, t) != Some(Revision(s.resultVersion.value))
  {
    hide Inv, SettlementsInv, F1.RowsOk, F1.HasConfirmedRow;
    LM.TicketsOf(db);
    if db.tickets[t].fixture in sessions { assert F1.StateOk(sessions[db.tickets[t].fixture]); }
  }

  lemma RowIsJob(db: Db, sessions: map<FixtureId, Session>, legs: map<Leg, F1Results.Selection>, t: TicketId)
    requires SelectedRow(db, sessions, t)
    ensures t in F1Targets(db, sessions, legs) && t in SelectedTickets(db, sessions)
    ensures JobOf(db, sessions[db.tickets[t].fixture], SelectionOf(legs, db.tickets[t].leg), t)
         == Sweep.JobFor(db, F1Targets(db, sessions, legs)[t], t)
  {
    hide OutcomeForF1;
  }

  /** The F1 query too returns an ordered scan of the tickets not settled at their event's current result. */
  lemma F1ScanIsScan(db: Db, sessions: map<FixtureId, Session>, legs: map<Leg, F1Results.Selection>, limit: int,
                     order: SweepOrder.Order, jobs: seq<Sweep.Job>)
    requires Inv(db) && F1Scan(db, sessions, legs, limit, order, jobs)
    ensures SweepOrder.OrderedScan(db, F1Targets(db, sessions, legs), limit, order, jobs)
  {
    hide Inv, TicketsInv, SettlementsInv, SelectedTickets, Sweep.Candidates, F1Targets, JobOf, Sweep.JobFor,
        SelectedRow;
    LM.TicketsOf(db);
    SelectedAreCandidates(db, sessions, legs);
    forall i | 0 <= i < |jobs|
      ensures jobs[i].ticket in F1Targets(db, sessions, legs)
      ensures jobs[i].ticket in Sweep.Candidates(db, F1Targets(db, sessions, legs))
      ensures jobs[i] == Sweep.JobFor(db, F1Targets(db, sessions, legs)[jobs[i].ticket], jobs[i].ticket)
    {
      RowIsJob(db, sessions, legs, jobs[i].ticket);
    }
  }
}
