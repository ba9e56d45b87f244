/**
 * The points ledger as data: every table the settlement path touches and every transaction
 * that writes it. A transaction maps a database state to a new one, or to the failure that
 * rolls it back.
 */
module LedgerModel {
  import opened Common
  import Decimal

  type UserId = nat
  type TicketId = nat
  type EntryId = nat
  type SettlementId = nat
  type RequestId = nat
  type FixtureId = nat

  const MAX_TICKET_STAKE_POINTS := 20_000
  const GRANT_MIN_POINTS := 1
  const GRANT_MAX_POINTS := 20_000

  datatype AccountKey = AccountKey(room: nat, user: UserId)

  /** A balance, or a change of one. */
  datatype Points = Points(available: int, frozen: int, debt: int) {
    function Plus(d: Points): Points {
      Points(available + d.available, frozen + d.frozen, debt + d.debt)
    }

    predicate NonNegative() { available >= 0 && frozen >= 0 && debt >= 0 }

    /** What the account is worth to its owner. */
    function Worth(): int { available + frozen - debt }

    predicate Safe() {
      && -Decimal.MAX_SAFE_INTEGER <= available <= Decimal.MAX_SAFE_INTEGER
      && -Decimal.MAX_SAFE_INTEGER <= frozen <= Decimal.MAX_SAFE_INTEGER
      && -Decimal.MAX_SAFE_INTEGER <= debt <= Decimal.MAX_SAFE_INTEGER
    }
  }

  const ZERO := Points(0, 0, 0)

  /** A football result is versioned by a content hash, an F1 result by a counter. */
  datatype Version = Hash(text: string) | Revision(number: nat)

  datatype Outcome = Win | Loss | Push | Cancel

  datatype Leg = Leg(selection: string, marketId: int, odds: string)

  datatype TicketStatus = Pending | Settled

  datatype Ticket = Ticket(account: AccountKey, fixture: FixtureId, requestKey: string, stake: int, leg: Leg,
                           status: TicketStatus, active: Option<SettlementId>)

  datatype SettlementStatus = Active | Reversed

  datatype Settlement = Settlement(ticket: TicketId, version: Version, outcome: Outcome, gross: int, delta: Points,
                                   ledgerId: EntryId, status: SettlementStatus)

  datatype EntryKind =
    | InitialGrant
    | OwnerGrant
    | PredictionFreeze
    | SettlementEntry
    | SettlementReversal
    | ProSubscription

  datatype Tier = ProMonthly | ProAnnual

  /** The idempotency key texts, one constructor for each prefix. */
  datatype EntryKey =
    | InitialGrantKey(account: AccountKey)
    | OwnerGrantKey(request: RequestId)
    | FreezeKey(ticket: TicketId)
    | SettleKey(ticket: TicketId, version: Version)
    | ReverseKey(ticket: TicketId, version: Version)
    | SubscriptionKey(user: UserId, tier: Tier, room: nat, at: int)

  datatype Entry = Entry(id: EntryId, account: AccountKey, kind: EntryKind, amount: int, delta: Points, key: EntryKey,
                         ticket: Option<TicketId>, version: Option<Version>, reverses: Option<EntryId>)

  datatype Operation = SettleOp | ReversalOp

  datatype OperationKey = OperationKey(ticket: TicketId, version: Version, op: Operation)

  datatype Receipt =
    | SettledReceipt(ticket: TicketId, version: Version, outcome: Outcome, gross: int, ledgerId: EntryId)
    | ReversedReceipt(ticket: TicketId, version: Version, ledgerId: EntryId)

  datatype RequestStatus = Open | Approved(amount: int, ledgerId: EntryId) | Denied

  datatype GrantRequest = GrantRequest(account: AccountKey, status: RequestStatus)

  datatype Db = Db(
    accounts: map<AccountKey, Points>,
    tickets: map<TicketId, Ticket>,
    settlements: map<SettlementId, Settlement>,
    entries: seq<Entry>,
    operations: map<OperationKey, Receipt>,
    requests: map<RequestId, GrantRequest>)

  const EMPTY := Db(map[], map[], map[], [], map[], map[])

  datatype Failure =
    | RoomNotFound
    | TicketNotFound
    | InvalidStake
    | DataUnavailable
    | InsufficientPoints
    | InvalidOdds
    | InsufficientFrozen
    | SettlementConflict
    | UnsafeInteger
    | GrantNotFound
    | GrantAmountInvalid
    | GrantAlreadyDecided
    | RoomNotActive
    | UniqueViolation
    | CheckViolation
    | ResultNotSettleable

  // ---------------------------------------------------------------- table constraints

  predicate EntryIdTaken(entries: seq<Entry>, id: EntryId) {
    exists i | 0 <= i < |entries| :: entries[i].id == id
  }

  predicate KeyTaken(entries: seq<Entry>, key: EntryKey) {
    exists i | 0 <= i < |entries| :: entries[i].key == key
  }

  /** UNIQUE (ticket_id, settlement_version) on prediction.settlements. */
  predicate VersionTaken(settlements: map<SettlementId, Settlement>, ticket: TicketId, version: Version) {
    exists s | s in settlements :: settlements[s].ticket == ticket && settlements[s].version == version
  }

  /** A guarded relative balance write together with its ledger entry, as one transaction. */
  function Post(db: Db, e: Entry, change: Points): Result<Db, Failure> {
    if e.account !in db.accounts then Err(RoomNotFound)
    else
      var balance := db.accounts[e.account].Plus(change);
      if !balance.NonNegative() then Err(CheckViolation)
      else if EntryIdTaken(db.entries, e.id) || KeyTaken(db.entries, e.key) then Err(UniqueViolation)
      else Ok(db.(accounts := db.accounts[e.account := balance], entries := db.entries + [e]))
  }

  // ---------------------------------------------------------------- grants

  function InitialGrantEntry(account: AccountKey, points: int, id: EntryId): Entry {
    Entry(id, account, InitialGrant, points, Points(points, 0, 0), InitialGrantKey(account), None, None, None)
  }

  /** `createRoom` / `addMember`: the account and its first entry; joining twice changes nothing. */
  function OpenAccount(db: Db, account: AccountKey, points: int, id: EntryId): Result<Db, Failure> {
    if account in db.accounts then Ok(db)
    else Post(db.(accounts := db.accounts[account := ZERO]), InitialGrantEntry(account, points, id),
              Points(points, 0, 0))
  }

  predicate HasOpenRequest(db: Db, account: AccountKey) {
    exists r | r in db.requests :: db.requests[r] == GrantRequest(account, Open)
  }

  /** `requestGrant`: one open request for each member; another one is answered with the one that stands. */
  function RequestGrant(db: Db, request: RequestId, account: AccountKey, roomActive: bool): Result<Db, Failure> {
    if account !in db.accounts then Err(RoomNotFound)
    else if !roomActive then Err(RoomNotActive)
    else if HasOpenRequest(db, account) then Ok(db)
    else if request in db.requests then Err(UniqueViolation)
    else Ok(db.(requests := db.requests[request := GrantRequest(account, Open)]))
  }

  datatype Decision = Approve(amount: int) | Deny

  function OwnerGrantEntry(request: RequestId, account: AccountKey, amount: int, id: EntryId): Entry {
    Entry(id, account, OwnerGrant, amount, Points(amount, 0, 0), OwnerGrantKey(request), None, None, None)
  }

  predicate SameDecision(status: RequestStatus, decision: Decision) {
    match decision
    case Approve(amount) => status.Approved? && status.amount == amount
    case Deny => status.Denied?
  }

  /** `decideGrant`: proceed on an open request, replay the same decision, refuse another one. */
  function DecideGrant(db: Db, request: RequestId, decision: Decision, id: EntryId, roomActive: bool): Result<Db,
      Failure> {
    if decision.Approve? && !(GRANT_MIN_POINTS <= decision.amount <= GRANT_MAX_POINTS) then Err(GrantAmountInvalid)
    else if request !in db.requests then Err(GrantNotFound)
    else
      var row := db.requests[request];
      if !row.status.Open? then
        if SameDecision(row.status, decision) then Ok(db) else Err(GrantAlreadyDecided)
      else if !roomActive then Err(RoomNotActive)
      else match decision
        case Deny => Ok(db.(requests := db.requests[request := row.(status := Denied)]))
        case Approve(amount) =>
          var posted := Post(db, OwnerGrantEntry(request, row.account, amount, id), Points(amount, 0, 0));
          if posted.Err? then posted
          else Ok(posted.value.(requests := db.requests[request := row.(status := Approved(amount, id))]))
  }

  // ---------------------------------------------------------------- ticket submission

  datatype FreezeCommand = FreezeCommand(ticket: TicketId, account: AccountKey, fixture: FixtureId, requestKey: string,
                                         stake: int, leg: Leg, entryId: EntryId)

  function FreezeEntry(c: FreezeCommand): Entry {
    Entry(c.entryId, c.account, PredictionFreeze, c.stake, Points(-c.stake, c.stake, 0), FreezeKey(c.ticket),
          Some(c.ticket), None, None)
  }

  predicate SubmittedBefore(db: Db, c: FreezeCommand) {
    exists t | t in db.tickets :: db.tickets[t].account == c.account && db.tickets[t].requestKey == c.requestKey
  }

  /** `submit` up to `persistFreeze`: replay by request key, else freeze the stake and store the ticket. */
  function SubmitTicket(db: Db, c: FreezeCommand): Result<Db, Failure> {
    if c.account !in db.accounts then Err(RoomNotFound)
    else if SubmittedBefore(db, c) then Ok(db)
    else if !(0 < c.stake <= MAX_TICKET_STAKE_POINTS) then Err(InvalidStake)
    else if !Decimal.IsPositiveDecimal(c.leg.odds) then Err(DataUnavailable)
    else if db.accounts[c.account].available < c.stake then Err(InsufficientPoints)
    else if c.ticket in db.tickets then Err(UniqueViolation)
    else
      var posted := Post(db, FreezeEntry(c), Points(-c.stake, c.stake, 0));
      if posted.Err? then posted
      else
        var row := Ticket(c.account, c.fixture, c.requestKey, c.stake, c.leg, Pending, None);
        Ok(posted.value.(tickets := db.tickets[c.ticket := row]))
  }

  // ---------------------------------------------------------------- settlement: the service

  datatype SettlementWrite = SettlementWrite(ticket: TicketId, version: Version, outcome: Outcome, gross: int,
    recordId: SettlementId, record: Points, recordLedgerId: EntryId, balance: Points, ledgerId: EntryId, ledger: Points)

  datatype ReversalWrite = ReversalWrite(ticket: TicketId, version: Version, balance: Points, ledgerId: EntryId,
    ledger: Points, reverses: EntryId)

  datatype Plan = Replay(receipt: Receipt) | Settle(settle: SettlementWrite) | Reverse(reverse: ReversalWrite)

  function Min(a: int, b: int): int { if a <= b then a else b }

  /** `grossReturn`. */
  function GrossReturn(ticket: Ticket, outcome: Outcome): Result<int, Failure> {
    match outcome
    case Loss => Ok(0)
    case Push => Ok(ticket.stake)
    case Cancel => Ok(ticket.stake)
    case Win =>
      match Decimal.MultiplyByDecimal(ticket.stake, ticket.leg.odds)
      case Ok(points) => Ok(points)
      case Err(_) => Err(InvalidOdds)
  }

  /** `getState` refuses a row whose point values do not fit a safe integer. */
  predicate ReadableState(db: Db, ticket: TicketId)
    requires ticket in db.tickets && db.tickets[ticket].account in db.accounts
  {
    var row := db.tickets[ticket];
    && db.accounts[row.account].Safe()
    && (row.active.Some? && row.active.value in db.settlements ==>
          db.settlements[row.active.value].delta.Safe()
              && db.settlements[row.active.value].gross <= Decimal.MAX_SAFE_INTEGER)
  }

  function ActiveVersion(db: Db, ticket: TicketId): Option<Version> {
    if ticket in db.tickets && db.tickets[ticket].active.Some? && db.tickets[ticket].active.value in db.settlements
    then Some(db.settlements[db.tickets[ticket].active.value].version)
    else None
  }

  /** The reading half of `settleResolved`, under the ticket lock. */
  function PlanSettle(db: Db, ticket: TicketId, version: Version, outcome: Outcome,
                      recordId: SettlementId, entryId: EntryId): (plan: Result<Plan, Failure>)
    ensures plan.Ok? ==> !plan.value.Reverse?
  {
    var key := OperationKey(ticket, version, SettleOp);
    if ticket !in db.tickets || db.tickets[ticket].account !in db.accounts then Err(TicketNotFound)
    else if !ReadableState(db, ticket) then Err(UnsafeInteger)
    else if key in db.operations then
      if !db.operations[key].SettledReceipt? || ActiveVersion(db, ticket) != Some(version) then Err(SettlementConflict)
      else Ok(Replay(db.operations[key]))
    else
      var row := db.tickets[ticket];
      var account := db.accounts[row.account];
      if row.active.Some? then Err(SettlementConflict)
      else if row.stake <= 0 || account.frozen < row.stake then Err(InsufficientFrozen)
      else
        var gross := GrossReturn(row, outcome);
        if gross.Err? then Err(gross.error)
        else
          var debtReduction := Min(account.debt, gross.value);
          var delta := Points(gross.value - debtReduction, -row.stake, -debtReduction);
          Ok(Settle(SettlementWrite(ticket, version, outcome, gross.value, recordId, delta, entryId, delta, entryId,
                                    delta)))
  }

  /** The reading half of `reverse`, under the ticket lock. */
  function PlanReverse(db: Db, ticket: TicketId, version: Version, entryId: EntryId): (plan: Result<Plan, Failure>)
    ensures plan.Ok? ==> !plan.value.Settle?
  {
    var key := OperationKey(ticket, version, ReversalOp);
    if ticket !in db.tickets then Err(TicketNotFound)
    else if key in db.operations then
      if !db.operations[key].ReversedReceipt? then Err(SettlementConflict) else Ok(Replay(db.operations[key]))
    else if db.tickets[ticket].account !in db.accounts then Err(TicketNotFound)
    else if !ReadableState(db, ticket) then Err(UnsafeInteger)
    else
      var row := db.tickets[ticket];
      if ActiveVersion(db, ticket) != Some(version) then Err(SettlementConflict)
      else
        var original := db.settlements[row.active.value];
        var reclaimed := Min(db.accounts[row.account].available, original.delta.available);
        var unrecovered := original.delta.available - reclaimed;
        var delta := Points(-reclaimed, -original.delta.frozen, -original.delta.debt + unrecovered);
        Ok(Reverse(ReversalWrite(ticket, version, delta, entryId, delta, original.ledgerId)))
  }

  // ---------------------------------------------------------------- settlement: the writes

  function SettleEntry(account: AccountKey, w: SettlementWrite): Entry {
    Entry(w.ledgerId, account, SettlementEntry, w.gross, w.ledger, SettleKey(w.ticket, w.version), Some(w.ticket),
          Some(w.version), None)
  }

  function ReversalEntry(account: AccountKey, w: ReversalWrite): Entry {
    Entry(w.ledgerId, account, SettlementReversal, 0, w.ledger, ReverseKey(w.ticket, w.version), Some(w.ticket),
          Some(w.version), Some(w.reverses))
  }

  /** `persistSettlement`: statement by statement, the first one refused rolls all of it back. */
  function PersistSettlement(db: Db, w: SettlementWrite): Result<Db, Failure> {
    if w.ticket !in db.tickets || db.tickets[w.ticket].active.Some? then Err(SettlementConflict)
    else
      var row := db.tickets[w.ticket];
      if row.account !in db.accounts
        || db.accounts[row.account].frozen < -w.balance.frozen
        || db.accounts[row.account].debt + w.balance.debt < 0 then Err(InsufficientFrozen)
      else if !db.accounts[row.account].Plus(w.balance).NonNegative() then Err(CheckViolation)
      else if w.recordId in db.settlements || VersionTaken(db.settlements, w.ticket, w.version)
          then Err(UniqueViolation)
      else
        var posted := Post(db, SettleEntry(row.account, w), w.balance);
        if posted.Err? then posted
        else if OperationKey(w.ticket, w.version, SettleOp) in db.operations then Err(UniqueViolation)
        else
          var record := Settlement(w.ticket, w.version, w.outcome, w.gross, w.record, w.recordLedgerId, Active);
          Ok(posted.value.(
             settlements := db.settlements[w.recordId := record],
             tickets := db.tickets[w.ticket := row.(status := Settled, active := Some(w.recordId))],
             operations := db.operations[OperationKey(w.ticket, w.version, SettleOp) :=
               SettledReceipt(w.ticket, w.version, w.outcome, w.gross, w.ledgerId)]))
  }

  /** `persistReversal`. */
  function PersistReversal(db: Db, w: ReversalWrite): Result<Db, Failure> {
    if w.ticket !in db.tickets || db.tickets[w.ticket].active.None? then Err(SettlementConflict)
    else
      var row := db.tickets[w.ticket];
      var id := row.active.value;
      if id !in db.settlements || db.settlements[id].ticket != w.ticket || db.settlements[id].version != w.version
        || db.settlements[id].status != Active then Err(SettlementConflict)
      else if row.account !in db.accounts
        || db.accounts[row.account].available + w.balance.available < 0
        || db.accounts[row.account].debt + w.balance.debt < 0 then Err(SettlementConflict)
      else if !EntryIdTaken(db.entries, w.reverses) then Err(CheckViolation)
      else
        var posted := Post(db, ReversalEntry(row.account, w), w.balance);
        if posted.Err? then posted
        else if OperationKey(w.ticket, w.version, ReversalOp) in db.operations then Err(UniqueViolation)
        else
          Ok(posted.value.(
             settlements := db.settlements[id := db.settlements[id].(status := Reversed)],
             tickets := db.tickets[w.ticket := row.(status := Pending, active := None)],
             operations := db.operations[OperationKey(w.ticket, w.version, ReversalOp) :=
               ReversedReceipt(w.ticket, w.version, w.ledgerId)]))
  }

  // ---------------------------------------------------------------- PRO paid with points

  function ProPointsPrice(tier: Tier): int {
    match tier
    case ProMonthly => 5_000
    case ProAnnual => 38_000
  }

  function SubscriptionEntry(account: AccountKey, tier: Tier, at: int, amount: int, id: EntryId): Entry {
    Entry(id, account, ProSubscription, amount, Points(-amount, 0, 0),
          SubscriptionKey(account.user, tier, account.room, at), None, None, None)
  }

  /** Rows a locking query may return: accounts of the user with points, once each, in some order. */
  ghost predicate ArePayers(db: Db, user: UserId, rows: seq<AccountKey>) {
    && (forall i :: 0 <= i < |rows| ==>
        rows[i] in db.accounts && rows[i].user == user && db.accounts[rows[i]].available > 0)
    && (forall i, j :: 0 <= i < j < |rows| ==> rows[i] != rows[j])
  }

  /** All of them, as the query lists them when no lock wait left one out. */
  ghost predicate IsPayerListing(db: Db, user: UserId, rows: seq<AccountKey>) {
    && ArePayers(db, user, rows)
    && (forall a :: a in db.accounts && a.user == user && db.accounts[a].available > 0 ==> a in rows)
  }

  function ListedPoints(accounts: map<AccountKey, Points>, rows: seq<AccountKey>): int
    requires forall i :: 0 <= i < |rows| ==> rows[i] in accounts
  {
    if rows == [] then 0 else accounts[rows[0]].available + ListedPoints(accounts, rows[1..])
  }

  /** The deduction loop of `subscribeWithPoints` over the listed rows. */
  function Deduct(db: Db, rows: seq<AccountKey>, remaining: int, tier: Tier, at: int, ids: seq<EntryId>): Result<Db,
      Failure>
    requires |ids| == |rows|
    decreases |rows|
  {
    if remaining <= 0 || rows == [] then Ok(db)
    else if rows[0] !in db.accounts then Err(RoomNotFound)
    else
      var amount := Min(db.accounts[rows[0]].available, remaining);
      var posted := Post(db, SubscriptionEntry(rows[0], tier, at, amount, ids[0]), Points(-amount, 0, 0));
      if posted.Err? then posted
      else Deduct(posted.value, rows[1..], remaining - amount, tier, at, ids[1..])
  }

  function SubscribeWithPoints(db: Db, rows: seq<AccountKey>, tier: Tier, at: int, ids: seq<EntryId>): Result<Db,
      Failure>
    requires |ids| == |rows|
    requires forall i :: 0 <= i < |rows| ==> rows[i] in db.accounts
  {
    if ListedPoints(db.accounts, rows) < ProPointsPrice(tier) then Err(InsufficientPoints)
    else Deduct(db, rows, ProPointsPrice(tier), tier, at, ids)
  }
}
