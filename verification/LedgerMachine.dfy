/**
 * All writers of the ledger interleaved. A settlement transaction holds its ticket's row lock
 * from Lock to Write, but reads the account without locking it: between Read and Write any
 * other transaction may commit, on the same account too. Every other transaction holds its
 * account rows from first to last and is one step.
 */
module LedgerMachine {
  import opened Common
  import opened LedgerModel
  import opened LedgerInvariant
  import opened LedgerSteps
  import opened SettlementSteps

  datatype FlightOp =
    | SettleFlight(version: Version, outcome: Outcome, recordId: SettlementId, entryId: EntryId)
    | ReverseFlight(version: Version, entryId: EntryId)

  datatype Flight = Locked(op: FlightOp) | Planned(plan: Plan)

  datatype World = World(db: Db, flights: map<TicketId, Flight>)

  datatype Step =
    | Open(account: AccountKey, points: int, entry: EntryId)
    | Request(request: RequestId, account: AccountKey, roomActive: bool)
    | Decide(request: RequestId, decision: Decision, entry: EntryId, roomActive: bool)
    | Submit(command: FreezeCommand)
    | Subscribe(user: UserId, rows: seq<AccountKey>, tier: Tier, at: int, entryIds: seq<EntryId>)
    | Lock(ticket: TicketId, op: FlightOp)
    | Read(ticket: TicketId)
    | Write(ticket: TicketId)
    | Abandon(ticket: TicketId)

  /** A refused transaction leaves the database as it was. */
  function Commit(db: Db, result: Result<Db, Failure>): Db {
    if result.Ok? then result.value else db
  }

  function PlanOf(db: Db, t: TicketId, op: FlightOp): Result<Plan, Failure> {
    match op
    case SettleFlight(version, outcome, recordId, entryId) => PlanSettle(db, t, version, outcome, recordId, entryId)
    case ReverseFlight(version, entryId) => PlanReverse(db, t, version, entryId)
  }

  function ApplyPlan(db: Db, plan: Plan): Result<Db, Failure> {
    match plan
    case Replay(_) => Ok(db)
    case Settle(w) => PersistSettlement(db, w)
    case Reverse(w) => PersistReversal(db, w)
  }

  ghost predicate MaySubscribe(db: Db, user: UserId, rows: seq<AccountKey>, ids: seq<EntryId>) {
    ArePayers(db, user, rows) && |ids| == |rows|
  }

  /** One step. A step that is not possible in this world leaves it unchanged. */
  ghost function Next(w: World, step: Step): World {
    match step
    case Open(account, points, entry) => w.(db := Commit(w.db, OpenAccount(w.db, account, points, entry)))
    case Request(request, account, roomActive) =>
      w.(db := Commit(w.db, RequestGrant(w.db, request, account, roomActive)))
    case Decide(request, decision, entry, roomActive) =>
      w.(db := Commit(w.db, DecideGrant(w.db, request, decision, entry, roomActive)))
    case Submit(command) => w.(db := Commit(w.db, SubmitTicket(w.db, command)))
    case Subscribe(user, rows, tier, at, ids) =>
      if MaySubscribe(w.db, user, rows, ids)
      then w.(db := Commit(w.db, SubscribeWithPoints(w.db, rows, tier, at, ids)))
      else w
    case Lock(ticket, op) =>
      if ticket in w.db.tickets && ticket !in w.flights then w.(flights := w.flights[ticket := Locked(op)]) else w
    case Read(ticket) =>
      if ticket in w.flights && w.flights[ticket].Locked? then
        var plan := PlanOf(w.db, ticket, w.flights[ticket].op);
        if plan.Ok? && !plan.value.Replay? then w.(flights := w.flights[ticket := Planned(plan.value)])
        else w.(flights := w.flights - {ticket})
      else w
    case Write(ticket) =>
      if ticket in w.flights && w.flights[ticket].Planned? then
        World(Commit(w.db, ApplyPlan(w.db, w.flights[ticket].plan)), w.flights - {ticket})
      else w
    case Abandon(ticket) => w.(flights := w.flights - {ticket})
  }

  ghost function Run(steps: seq<Step>): World {
    if steps == [] then World(EMPTY, map[]) else Next(Run(steps[..|steps| - 1]), steps[|steps| - 1])
  }

  // ---------------------------------------------------------------- the world's invariant

  /** The rows a lock holder has read under its lock are still what it read. */
  ghost predicate FlightOk(db: Db, t: TicketId, flight: Flight) {
    && t in db.tickets
    && (flight.Planned? ==>
          match flight.plan
          case Replay(_) => false
          case Settle(w) => w.ticket == t && SettleReady(db, w)
          case Reverse(w) => w.ticket == t && ReverseReady(db, w))
  }

  ghost predicate WorldInv(w: World) {
    Inv(w.db) && forall t :: t in w.flights ==> FlightOk(w.db, t, w.flights[t])
  }

  /** The step left ticket t, its active settlement and its receipts alone. */
  ghost predicate Untouched(db: Db, db': Db, t: TicketId) {
    && t in db.tickets ==>
       && t in db'.tickets && db'.tickets[t] == db.tickets[t]
       && (forall v, op :: OperationKey(t, v, op) in db'.operations <==> OperationKey(t, v, op) in db.operations)
       && (db.tickets[t].active.Some? && db.tickets[t].active.value in db.settlements ==>
             && db.tickets[t].active.value in db'.settlements
             && db'.settlements[db.tickets[t].active.value] == db.settlements[db.tickets[t].active.value])
  }

  lemma UntouchedFlight(db: Db, db': Db, t: TicketId, flight: Flight)
    requires FlightOk(db, t, flight) && Untouched(db, db', t)
    ensures FlightOk(db', t, flight)
  {
    hide SoundSettlementWrite, SoundReversalWrite;
  }

  /** Transactions other than settlements add tickets and change nothing about the old ones. */
  ghost predicate OnlyAdds(db: Db, db': Db) {
    && (forall t :: t in db.tickets ==> t in db'.tickets && db'.tickets[t] == db.tickets[t])
    && db'.settlements == db.settlements && db'.operations == db.operations
  }

  lemma {:induction false} DeductOnlyAdds(db: Db, rows: seq<AccountKey>, remaining: int, tier: Tier, at: int,
                                          ids: seq<EntryId>)
    requires |ids| == |rows| && Deduct(db, rows, remaining, tier, at, ids).Ok?
    ensures OnlyAdds(db, Deduct(db, rows, remaining, tier, at, ids).value)
    decreases |rows|
  {
    if remaining > 0 && rows != [] {
      var amount := Min(db.accounts[rows[0]].available, remaining);
      var posted := Post(db, SubscriptionEntry(rows[0], tier, at, amount, ids[0]), Points(-amount, 0, 0));
      DeductOnlyAdds(posted.value, rows[1..], remaining - amount, tier, at, ids[1..]);
    }
  }

  predicate IsSettlementStep(step: Step) { step.Lock? || step.Read? || step.Write? || step.Abandon? }

  lemma OtherStepKeeps(w: World, step: Step)
    requires Inv(w.db) && !IsSettlementStep(step)
    ensures Inv(Next(w, step).db) && OnlyAdds(w.db, Next(w, step).db) && Next(w, step).flights == w.flights
  {
    hide Inv;
    match step
    case Open(account, points, entry) =>
      if OpenAccount(w.db, account, points, entry).Ok? { OpenAccountKeeps(w.db, account, points, entry); }
    case Request(request, account, roomActive) =>
      if RequestGrant(w.db, request, account, roomActive).Ok? { RequestGrantKeeps(w.db, request, account, roomActive); }
    case Decide(request, decision, entry, roomActive) =>
      if DecideGrant(w.db, request, decision, entry,
                     roomActive).Ok? { DecideGrantKeeps(w.db, request, decision, entry, roomActive); }
    case Submit(command) =>
      if SubmitTicket(w.db, command).Ok? { SubmitTicketKeeps(w.db, command); }
    case Subscribe(user, rows, tier, at, ids) =>
      if MaySubscribe(w.db, user, rows, ids) && SubscribeWithPoints(w.db, rows, tier, at, ids).Ok? {
        DeductKeeps(w.db, rows, ProPointsPrice(tier), tier, at, ids);
        DeductOnlyAdds(w.db, rows, ProPointsPrice(tier), tier, at, ids);
      }
  }

  lemma SettlementTouchesItsTicket(db: Db, w: SettlementWrite, t: TicketId)
    requires PersistSettlement(db, w).Ok? && t != w.ticket
    ensures Untouched(db, PersistSettlement(db, w).value, t)
  {
  }

  /** Another ticket's active settlement is another settlement. */
  lemma ReversalTouchesItsTicket(db: Db, w: ReversalWrite, t: TicketId)
    requires TicketsInv(db.accounts, db.tickets, db.settlements)
    requires PersistReversal(db, w).Ok? && t != w.ticket
    ensures Untouched(db, PersistReversal(db, w).value, t)
  {
    hide SoundTicket;
  }

  lemma ApplyKeeps(db: Db, t: TicketId, flight: Flight)
    requires Inv(db) && FlightOk(db, t, flight) && flight.Planned?
    ensures Inv(Commit(db, ApplyPlan(db, flight.plan)))
    ensures forall u :: u != t ==> Untouched(db, Commit(db, ApplyPlan(db, flight.plan)), u)
  {
    TicketsOf(db);
    hide Inv, SettleReady, ReverseReady, TicketsInv;
    if ApplyPlan(db, flight.plan).Ok? {
      match flight.plan
      case Settle(w) =>
        SettleKeeps(db, w);
        forall u | u != t
          ensures Untouched(db, PersistSettlement(db, w).value, u)
        {
          SettlementTouchesItsTicket(db, w, u);
        }
      case Reverse(w) =>
        ReverseKeeps(db, w);
        forall u | u != t ensures Untouched(db, PersistReversal(db, w).value, u) { ReversalTouchesItsTicket(db, w, u); }
    }
  }

  lemma TicketsOf(db: Db)
    requires Inv(db)
    ensures TicketsInv(db.accounts, db.tickets, db.settlements) && SettlementsInv(db.tickets, db.settlements)
    ensures forall a :: a in db.accounts ==> db.accounts[a].NonNegative()
  {
    hide DistinctEntries, TicketsInv, SettlementsInv, UniqueVersions, OperationsInv, EntriesInv, RequestsInv,
      FrozenInv, WorthInv, HistoryInv;
  }

  lemma ReadKeeps(db: Db, t: TicketId, op: FlightOp)
    requires Inv(db) && t in db.tickets && PlanOf(db, t, op).Ok? && !PlanOf(db, t, op).value.Replay?
    ensures FlightOk(db, t, Planned(PlanOf(db, t, op).value))
  {
    TicketsOf(db);
    hide Inv, TicketsInv, SettlementsInv, SettleReady, ReverseReady, PlanSettle, PlanReverse;
    match op
    case SettleFlight(version, outcome, recordId, entryId) =>
      PlanSettleIsReady(db, t, version, outcome, recordId, entryId);
    case ReverseFlight(version, entryId) => PlanReverseIsReady(db, t, version, entryId);
  }

  lemma FlightsKeep(w: World, db': Db, flights': map<TicketId, Flight>)
    requires forall t :: t in w.flights ==> FlightOk(w.db, t, w.flights[t])
    requires forall t :: t in flights' ==> t in w.flights && flights'[t] == w.flights[t] && Untouched(w.db, db', t)
    ensures forall t :: t in flights' ==> FlightOk(db', t, flights'[t])
  {
    hide FlightOk, Untouched;
    forall t | t in flights'
      ensures FlightOk(db', t, flights'[t])
    {
      UntouchedFlight(w.db, db', t, flights'[t]);
    }
  }

  lemma OnlyAddsTouchesNothing(db: Db, db': Db, t: TicketId)
    requires OnlyAdds(db, db')
    ensures Untouched(db, db', t)
  {
  }

  /** Each step of any transaction keeps the invariant of the whole world. */
  lemma StepKeeps(w: World, step: Step)
    requires WorldInv(w)
    ensures WorldInv(Next(w, step))
  {
    hide Inv, FlightOk, Untouched;
    var next := Next(w, step);
    if !IsSettlementStep(step) {
      OtherStepKeeps(w, step);
      forall t | t in w.flights ensures Untouched(w.db, next.db, t) { OnlyAddsTouchesNothing(w.db, next.db, t); }
      FlightsKeep(w, next.db, next.flights);
    } else if step.Write? && step.ticket in w.flights && w.flights[step.ticket].Planned? {
      ApplyKeeps(w.db, step.ticket, w.flights[step.ticket]);
      FlightsKeep(w, next.db, next.flights);
    } else {
      FlightSteps(w, step);
    }
  }

  lemma TicketOfFlight(db: Db, t: TicketId, flight: Flight)
    requires FlightOk(db, t, flight)
    ensures t in db.tickets
  {
    hide SettleReady, ReverseReady;
  }

  lemma LockedFlightOk(db: Db, t: TicketId, op: FlightOp)
    requires t in db.tickets
    ensures FlightOk(db, t, Locked(op))
  {
  }

  lemma FlightSteps(w: World, step: Step)
    requires WorldInv(w) && (step.Lock? || step.Read? || step.Abandon? || (step.Write? && Next(w, step) == w))
    ensures WorldInv(Next(w, step))
  {
    hide Inv, FlightOk;
    match step
    case Lock(t, op) => if t in w.db.tickets { LockedFlightOk(w.db, t, op); }
    case Read(t) =>
      if t in w.flights && w.flights[t].Locked? {
        TicketOfFlight(w.db, t, w.flights[t]);
        var plan := PlanOf(w.db, t, w.flights[t].op);
        if plan.Ok? && !plan.value.Replay? { ReadKeeps(w.db, t, w.flights[t].op); }
      }
    case Write(_) =>
    case Abandon(_) =>
  }

  lemma {:induction false} RunKeeps(steps: seq<Step>)
    ensures WorldInv(Run(steps))
  {
    hide Inv;
    if steps == [] {
      EmptyInv();
    } else {
      RunKeeps(steps[..|steps| - 1]);
      StepKeeps(Run(steps[..|steps| - 1]), steps[|steps| - 1]);
    }
  }
}
