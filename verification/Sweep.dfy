/**
 * The settlement sweep (apps/worker/src/settlement): scan for tickets that are not settled at the
 * current result of their event, then settle or correct each of them. Football and F1 differ only
 * in how a candidate's outcome is found; from there on both are jobs.
 */
module Sweep {
  import opened Common
  import opened LedgerModel
  import opened LedgerInvariant
  import opened SettlementSteps
  import opened LedgerMachine
  import opened LedgerTheorems
  import Decimal

  // ---------------------------------------------------------------- one candidate

  /** A scanned candidate, with what its event's result says about it. */
  datatype Job = Job(ticket: TicketId, version: Version, active: Option<Version>, settleable: bool,
                     outcome: Result<Outcome, Failure>)

  /** The ids one candidate may use up. */
  datatype Ids = Ids(record: SettlementId, settle: EntryId, reverse: EntryId)

  datatype Verdict = Processed | HeldBack | Failed(failure: Failure)

  datatype After = After(db: Db, verdict: Verdict)

  /** `settleResolved` as one transaction. */
  function SettleNow(db: Db, t: TicketId, v: Version, outcome: Outcome, ids: Ids): Result<Db, Failure> {
    var plan := PlanSettle(db, t, v, outcome, ids.record, ids.settle);
    if plan.Err? then Err(plan.error) else ApplyPlan(db, plan.value)
  }

  /** `reverse` as one transaction. */
  function ReverseNow(db: Db, t: TicketId, v: Version, ids: Ids): Result<Db, Failure> {
    var plan := PlanReverse(db, t, v, ids.reverse);
    if plan.Err? then Err(plan.error) else ApplyPlan(db, plan.value)
  }

  function Verdicted(before: Db, result: Result<Db, Failure>): After {
    match result
    case Ok(db) => After(db, Processed)
    case Err(failure) => After(before, Failed(failure))
  }

  /** `processCandidate`. A correction is two transactions: the reversal stays when the settlement fails. */
  function Process(db: Db, job: Job, ids: Ids): After {
    if !job.settleable then After(db, HeldBack)
    else if job.outcome.Err? then After(db, Failed(job.outcome.error))
    else if job.active.None? then Verdicted(db, SettleNow(db, job.ticket, job.version, job.outcome.value, ids))
    else if job.active.value != job.version then
      var reversed := ReverseNow(db, job.ticket, job.active.value, ids);
      if reversed.Err? then After(db, Failed(reversed.error))
      else Verdicted(reversed.value, SettleNow(reversed.value, job.ticket, job.version, job.outcome.value, ids))
    else After(db, HeldBack)
  }

  // ---------------------------------------------------------------- what one transaction leaves

  /** Tickets come and go in status only, and the other tickets not even in that. */
  ghost predicate OthersKept(db: Db, db': Db, t: TicketId) {
    && db'.tickets.Keys == db.tickets.Keys
    && (forall u :: u in db.tickets ==> SameBet(db.tickets[u], db'.tickets[u]))
    && (forall u :: u != t ==> Untouched(db, db', u) && ActiveVersion(db', u) == ActiveVersion(db, u))
  }

  predicate SameBet(row: Ticket, row': Ticket) {
    row' == row.(status := row'.status, active := row'.active)
  }

  /** Ticket t is settled at version v, and got what that outcome pays. */
  ghost predicate PaidAt(db: Db, t: TicketId, v: Version, outcome: Outcome) {
    && t in db.tickets && db.tickets[t].status.Settled?
    && ActiveVersion(db, t) == Some(v)
    && var s := db.settlements[db.tickets[t].active.value];
       s.outcome == outcome && s.gross == Payout(db.tickets[t], outcome)
  }

  /** No receipt ever disappears. */
  ghost predicate ReceiptsKept(db: Db, db': Db) {
    forall k :: k in db.operations ==> k in db'.operations
  }

  lemma SettleWriteLeaves(db: Db, w: SettlementWrite)
    requires PersistSettlement(db, w).Ok? && SettleReady(db, w)
    ensures var db' := PersistSettlement(db, w).value;
            && db'.tickets.Keys == db.tickets.Keys
            && (forall u :: u in db.tickets ==> SameBet(db.tickets[u], db'.tickets[u]))
            && ReceiptsKept(db, db')
            && ActiveVersion(db', w.ticket) == Some(w.version)
            && db'.tickets[w.ticket].status.Settled?
            && db'.settlements[db'.tickets[w.ticket].active.value].outcome == w.outcome
            && db'.settlements[db'.tickets[w.ticket].active.value].gross == w.gross
  {
  }

  lemma UntouchedVersion(db: Db, db': Db, u: TicketId)
    requires Untouched(db, db', u) && db'.tickets.Keys == db.tickets.Keys
    requires TicketsInv(db.accounts, db.tickets, db.settlements)
    ensures ActiveVersion(db', u) == ActiveVersion(db, u)
  {
  }

  lemma SettleLeaves(db: Db, w: SettlementWrite)
    requires Inv(db) && PersistSettlement(db, w).Ok? && SettleReady(db, w)
    ensures OthersKept(db, PersistSettlement(db, w).value, w.ticket)
  {
    hide Inv, PersistSettlement, SettleReady, SameBet, Untouched, ActiveVersion, TicketsInv, SettlementsInv,
        ReceiptsKept, Points.NonNegative;
    var db' := PersistSettlement(db, w).value;
    SettleWriteLeaves(db, w);
    TicketsOf(db);
    forall u | u != w.ticket
      ensures Untouched(db, db', u) && ActiveVersion(db', u) == ActiveVersion(db, u)
    {
      SettlementTouchesItsTicket(db, w, u);
      UntouchedVersion(db, db', u);
    }
  }

  lemma ReverseWriteLeaves(db: Db, w: ReversalWrite)
    requires PersistReversal(db, w).Ok? && ReverseReady(db, w)
    ensures var db' := PersistReversal(db, w).value;
            && db'.tickets.Keys == db.tickets.Keys
            && (forall u :: u in db.tickets ==> SameBet(db.tickets[u], db'.tickets[u]))
            && ReceiptsKept(db, db')
            && (forall v :: OperationKey(w.ticket, v, SettleOp) in db'.operations ==>
                OperationKey(w.ticket, v, SettleOp) in db.operations)
            && ActiveVersion(db', w.ticket) == None
            && db'.tickets[w.ticket].active.None?
  {
  }

  lemma ReverseLeaves(db: Db, w: ReversalWrite)
    requires Inv(db) && PersistReversal(db, w).Ok? && ReverseReady(db, w)
    ensures OthersKept(db, PersistReversal(db, w).value, w.ticket)
  {
    hide Inv, PersistReversal, ReverseReady, SameBet, Untouched, ActiveVersion, TicketsInv, SettlementsInv,
        ReceiptsKept, Points.NonNegative;
    var db' := PersistReversal(db, w).value;
    ReverseWriteLeaves(db, w);
    TicketsOf(db);
    forall u | u != w.ticket
      ensures Untouched(db, db', u) && ActiveVersion(db', u) == ActiveVersion(db, u)
    {
      ReversalTouchesItsTicket(db, w, u);
      UntouchedVersion(db, db', u);
    }
  }

  lemma PlannedVersion(db: Db, t: TicketId, v: Version, outcome: Outcome, ids: Ids)
    requires PlanSettle(db, t, v, outcome, ids.record, ids.settle).Ok? && ActiveVersion(db, t) != Some(v)
    ensures var plan := PlanSettle(db, t, v, outcome, ids.record, ids.settle).value;
            plan.Settle? && plan.settle.version == v && t in db.tickets
  {
  }

  lemma SamePayout(row: Ticket, row': Ticket, outcome: Outcome)
    requires SameBet(row, row')
    ensures Payout(row', outcome) == Payout(row, outcome)
  {
  }

  /** A settlement transaction that commits leaves its ticket paid at its version, and no other ticket changed. */
  lemma SettleNowLeaves(db: Db, t: TicketId, v: Version, outcome: Outcome, ids: Ids)
    requires Inv(db) && SettleNow(db, t, v, outcome, ids).Ok? && ActiveVersion(db, t) != Some(v)
    ensures var db' := SettleNow(db, t, v, outcome, ids).value;
            Inv(db') && OthersKept(db, db', t) && PaidAt(db', t, v, outcome) && ReceiptsKept(db, db')
  {
    hide Inv, TicketsInv, SettlementsInv, SettleReady, PlanSettle, PersistSettlement, Payout, ActiveVersion;
    PlannedVersion(db, t, v, outcome, ids);
    var w := PlanSettle(db, t, v, outcome, ids.record, ids.settle).value.settle;
    TicketsOf(db);
    PlanSettleIsReady(db, t, v, outcome, ids.record, ids.settle);
    SettleKeeps(db, w);
    SettleLeaves(db, w);
    SettleWriteLeaves(db, w);
    SamePayout(db.tickets[t], PersistSettlement(db, w).value.tickets[t], outcome);
  }

  lemma ActiveIsNotReversed(db: Db, t: TicketId, v: Version)
    requires TicketsInv(db.accounts, db.tickets, db.settlements) && OperationsInv(db.settlements, db.operations)
    requires ActiveVersion(db, t) == Some(v)
    ensures OperationKey(t, v, ReversalOp) !in db.operations && OperationKey(t, v, SettleOp) in db.operations
  {
    var s := db.tickets[t].active.value;
    assert ReversedKey(db.settlements[s]) == OperationKey(t, v, ReversalOp)
        && SettledKey(db.settlements[s]) == OperationKey(t, v, SettleOp);
  }

  lemma OperationsOf(db: Db)
    requires Inv(db)
    ensures TicketsInv(db.accounts, db.tickets, db.settlements) && OperationsInv(db.settlements, db.operations)
  {
    hide MoneyInv, DistinctEntries, TicketsInv, SettlementsInv, UniqueVersions, OperationsInv, EntriesInv, RequestsInv,
      FrozenInv, WorthInv, HistoryInv;
  }

  lemma PlannedReversal(db: Db, t: TicketId, v: Version, ids: Ids)
    requires PlanReverse(db, t, v, ids.reverse).Ok? && OperationKey(t, v, ReversalOp) !in db.operations
    ensures var plan := PlanReverse(db, t, v, ids.reverse).value; plan.Reverse? && plan.reverse.ticket == t
  {
  }

  /** A reversal that commits leaves its ticket pending, and no other ticket changed. */
  lemma ReverseNowLeaves(db: Db, t: TicketId, v: Version, ids: Ids)
    requires Inv(db) && ReverseNow(db, t, v, ids).Ok? && ActiveVersion(db, t) == Some(v)
    ensures var db' := ReverseNow(db, t, v, ids).value;
            && Inv(db') && OthersKept(db, db', t) && t in db'.tickets && db'.tickets[t].active.None?
            && ReceiptsKept(db, db')
            && (forall u ::
                  OperationKey(t, u, SettleOp) in db'.operations <==> OperationKey(t, u, SettleOp) in db.operations)
  {
    hide Inv, TicketsInv, SettlementsInv, OperationsInv, ReverseReady, PlanReverse, PersistReversal, ActiveVersion;
    TicketsOf(db);
    OperationsOf(db);
    ActiveIsNotReversed(db, t, v);
    PlannedReversal(db, t, v, ids);
    var w := PlanReverse(db, t, v, ids.reverse).value.reverse;
    PlanReverseIsReady(db, t, v, ids.reverse);
    ReverseKeeps(db, w);
    ReverseLeaves(db, w);
    ReverseWriteLeaves(db, w);
  }

  // ---------------------------------------------------------------- what processing one candidate leaves

  /** A job as the scan read it: not settled at its version, and what it says of its ticket is so. */
  predicate Current(db: Db, job: Job) {
    && job.ticket in db.tickets && job.settleable
    && job.active == ActiveVersion(db, job.ticket)
    && job.active != Some(job.version)
  }

  lemma UntouchedTwice(db: Db, mid: Db, db': Db, u: TicketId)
    requires Untouched(db, mid, u) && Untouched(mid, db', u)
    ensures Untouched(db, db', u)
  {
  }

  lemma OthersKeptTwice(db: Db, mid: Db, db': Db, t: TicketId)
    requires OthersKept(db, mid, t) && OthersKept(mid, db', t)
    ensures OthersKept(db, db', t)
  {
    hide ActiveVersion, Untouched;
    forall u | u != t
      ensures Untouched(db, db', u)
    {
      UntouchedTwice(db, mid, db', u);
    }
    forall u | u in db.tickets
      ensures SameBet(db.tickets[u], db'.tickets[u])
    {
      assert SameBet(db.tickets[u], mid.tickets[u]) && SameBet(mid.tickets[u], db'.tickets[u]);
    }
  }

  lemma OthersKeptItself(db: Db, t: TicketId)
    ensures OthersKept(db, db, t)
  {
    hide ActiveVersion;
  }

  /**
   * Whatever happens to a candidate, the invariant holds and no other ticket changes. Processed, it
   * is paid at its version; failed, it is either as it was or reversed, and still a candidate.
   */
  lemma ProcessLeaves(db: Db, job: Job, ids: Ids)
    requires Inv(db) && Current(db, job)
    ensures var a := Process(db, job, ids);
            && Inv(a.db) && OthersKept(db, a.db, job.ticket) && ReceiptsKept(db, a.db)
            && !a.verdict.HeldBack?
            && (a.verdict.Processed? ==> job.outcome.Ok? && PaidAt(a.db, job.ticket, job.version, job.outcome.value))
            && (a.verdict.Failed? ==> ActiveVersion(a.db, job.ticket) in {None, ActiveVersion(db, job.ticket)})
  {
    hide Inv, SettleNow, ReverseNow, OthersKept, PaidAt, ActiveVersion;
    OthersKeptItself(db, job.ticket);
    if job.outcome.Ok? {
      if job.active.None? {
        if SettleNow(db, job.ticket, job.version, job.outcome.value, ids).Ok? {
          SettleNowLeaves(db, job.ticket, job.version, job.outcome.value, ids);
        }
      } else {
        CorrectLeaves(db, job, ids);
      }
    }
  }

  /**
   * A candidate is held back, and nothing happens to it, exactly when its event has no result to settle at,
   * or it is settled at it already and the result does give an outcome.
   */
  lemma HeldBackExactlyWhen(db: Db, job: Job, ids: Ids)
    ensures Process(db, job, ids).verdict.HeldBack?
            <==> !job.settleable || (job.outcome.Ok? && job.active == Some(job.version))
    ensures Process(db, job, ids).verdict.HeldBack? ==> Process(db, job, ids).db == db
  {
    hide SettleNow, ReverseNow;
  }

  lemma PendingHasNoVersion(db: Db, t: TicketId)
    requires t in db.tickets && db.tickets[t].active.None?
    ensures ActiveVersion(db, t) == None
  {
  }

  lemma CorrectLeaves(db: Db, job: Job, ids: Ids)
    requires Inv(db) && Current(db, job) && job.outcome.Ok? && job.active.Some?
    ensures var a := Process(db, job, ids);
            && Inv(a.db) && OthersKept(db, a.db, job.ticket) && ReceiptsKept(db, a.db)
            && (a.verdict.Processed? ==> PaidAt(a.db, job.ticket, job.version, job.outcome.value))
            && (a.verdict.Failed? ==> ActiveVersion(a.db, job.ticket) in {None, ActiveVersion(db, job.ticket)})
  {
    hide Inv, SettleNow, ReverseNow, OthersKept, PaidAt, ActiveVersion;
    OthersKeptItself(db, job.ticket);
    if ReverseNow(db, job.ticket, job.active.value, ids).Ok? {
      ReverseNowLeaves(db, job.ticket, job.active.value, ids);
      var mid := ReverseNow(db, job.ticket, job.active.value, ids).value;
      PendingHasNoVersion(mid, job.ticket);
      if SettleNow(mid, job.ticket, job.version, job.outcome.value, ids).Ok? {
        SettleNowLeaves(mid, job.ticket, job.version, job.outcome.value, ids);
        OthersKeptTwice(db, mid, SettleNow(mid, job.ticket, job.version, job.outcome.value, ids).value, job.ticket);
      }
    }
  }

  // ---------------------------------------------------------------- when a candidate settles

  /** Version v of ticket t was settled once and has been reversed since. */
  predicate UsedUp(db: Db, t: TicketId, v: Version) {
    OperationKey(t, v, SettleOp) in db.operations && ActiveVersion(db, t) != Some(v)
  }

  predicate FreshIds(db: Db, ids: Ids) {
    && ids.record !in db.settlements && ids.settle != ids.reverse
    && !EntryIdTaken(db.entries, ids.settle) && !EntryIdTaken(db.entries, ids.reverse)
  }

  /** A pending ticket settles exactly when its rows are readable, its version unused and its return priced. */
  lemma SettleNowExactlyWhen(db: Db, t: TicketId, v: Version, outcome: Outcome, ids: Ids)
    requires Inv(db) && HasAccount(db, t) && db.tickets[t].active.None?
    requires ids.record !in db.settlements && !EntryIdTaken(db.entries, ids.settle)
    ensures SettleNow(db, t, v, outcome, ids).Ok? <==>
            ReadableState(db, t) && OperationKey(t, v, SettleOp) !in db.operations
                && GrossReturn(db.tickets[t], outcome).Ok?
  {
    hide Inv, PersistSettlement, SettleReady, GrossReturn, ReadableState, EntryIdTaken, TicketsInv, SettlementsInv;
    TicketsOf(db);
    StakeIsFrozen(db, t);
    SettlePlanned(db, t, v, outcome, ids);
    if PlanSettle(db, t, v, outcome, ids.record, ids.settle).Ok? {
      var w := PlanSettle(db, t, v, outcome, ids.record, ids.settle).value.settle;
      hide PlanSettle;
      PlanSettleIsReady(db, t, v, outcome, ids.record, ids.settle);
      SettleWriteSucceedsExactlyWhen(db, w);
    }
  }

  lemma StakeIsFrozen(db: Db, t: TicketId)
    requires Inv(db) && HasAccount(db, t) && db.tickets[t].active.None?
    ensures 0 < db.tickets[t].stake <= db.accounts[db.tickets[t].account].frozen
  {
    hide Inv, Total, PendingStakes, SettlementsInv;
    TicketsOf(db);
    PendingCovered(db, t);
    assert SoundTicket(db.tickets[t]);
  }

  lemma SettlePlanned(db: Db, t: TicketId, v: Version, outcome: Outcome, ids: Ids)
    requires HasAccount(db, t) && db.tickets[t].active.None?
    requires 0 < db.tickets[t].stake <= db.accounts[db.tickets[t].account].frozen
    ensures var plan := PlanSettle(db, t, v, outcome, ids.record, ids.settle);
            && (plan.Ok? <==> ReadableState(db, t) && OperationKey(t, v, SettleOp) !in db.operations
                              && GrossReturn(db.tickets[t], outcome).Ok?)
            && (plan.Ok? ==>
                 && plan.value.Settle? && plan.value.settle.ticket == t
                 && plan.value.settle.recordId == ids.record && plan.value.settle.ledgerId == ids.settle
                 && db.accounts[db.tickets[t].account].debt + plan.value.settle.balance.debt >= 0)
  {
    hide GrossReturn, ReadableState;
  }

  /** What reversing the active settlement now would change on the account. */
  function TakenBack(db: Db, t: TicketId): Points
    requires HasAccount(db, t) && db.tickets[t].active.Some? && db.tickets[t].active.value in db.settlements
  {
    var original := db.settlements[db.tickets[t].active.value].delta;
    var reclaimed := Min(db.accounts[db.tickets[t].account].available, original.available);
    Points(-reclaimed, -original.frozen, original.available - reclaimed - original.debt)
  }

  lemma ReversePlanned(db: Db, t: TicketId, v: Version, ids: Ids)
    requires HasAccount(db, t) && ActiveVersion(db, t) == Some(v) && OperationKey(t, v, ReversalOp) !in db.operations
    requires db.accounts[db.tickets[t].account].NonNegative()
    ensures var plan := PlanReverse(db, t, v, ids.reverse);
            && (plan.Ok? <==> ReadableState(db, t))
            && (plan.Ok? ==>
                 && plan.value.Reverse? && plan.value.reverse.ticket == t && plan.value.reverse.ledgerId == ids.reverse
                 && plan.value.reverse.balance == TakenBack(db, t)
                 && db.accounts[db.tickets[t].account].available + plan.value.reverse.balance.available >= 0)
  {
    hide ReadableState;
  }

  lemma ReversalRows(db: Db, w: ReversalWrite)
    requires PersistReversal(db, w).Ok? && ReverseReady(db, w)
    ensures var db' := PersistReversal(db, w).value;
            && (var a := db.tickets[w.ticket].account;
                db'.accounts == db.accounts[a := db.accounts[a].Plus(w.balance)])
            && (exists e: Entry :: e.id == w.ledgerId && db'.entries == db.entries + [e])
            && db'.settlements.Keys == db.settlements.Keys
  {
  }

  /** A settled ticket reverses exactly when its rows are readable. */
  lemma ReverseNowExactlyWhen(db: Db, t: TicketId, v: Version, ids: Ids)
    requires Inv(db) && HasAccount(db, t) && ActiveVersion(db, t) == Some(v) && FreshIds(db, ids)
    ensures ReverseNow(db, t, v, ids).Ok? <==> ReadableState(db, t)
    ensures ReverseNow(db, t, v, ids).Ok? ==>
              var mid := ReverseNow(db, t, v, ids).value;
              && db.tickets[t].active.Some? && db.tickets[t].active.value in db.settlements
              && (var a := db.tickets[t].account;
                  mid.accounts == db.accounts[a := db.accounts[a].Plus(TakenBack(db, t))])
              && ids.record !in mid.settlements && !EntryIdTaken(mid.entries, ids.settle)
  {
    hide Inv, PersistReversal, ReverseReady, ReadableState, EntryIdTaken, TicketsInv, SettlementsInv, OperationsInv,
        PlanReverse;
    TicketsOf(db);
    OperationsOf(db);
    ActiveIsNotReversed(db, t, v);
    ReversePlanned(db, t, v, ids);
    if PlanReverse(db, t, v, ids.reverse).Ok? {
      var w := PlanReverse(db, t, v, ids.reverse).value.reverse;
      PlanReverseIsReady(db, t, v, ids.reverse);
      ReverseWriteSucceedsExactlyWhen(db, w);
      ReversalRows(db, w);
      NewId(db.entries, PersistReversal(db, w).value.entries, ids);
    }
  }

  lemma NewId(entries: seq<Entry>, entries': seq<Entry>, ids: Ids)
    requires exists e: Entry :: e.id == ids.reverse && entries' == entries + [e]
    requires !EntryIdTaken(entries, ids.settle) && ids.settle != ids.reverse
    ensures !EntryIdTaken(entries', ids.settle)
  {
  }

  /** What a candidate needs besides its version: an outcome, and a payout and balances that fit safe integers. */
  ghost predicate Payable(db: Db, job: Job)
    requires HasAccount(db, job.ticket)
    requires (ActiveVersion(db, job.ticket).Some? ==> db.tickets[job.ticket].active.value in db.settlements)
  {
    && job.outcome.Ok? && Payout(db.tickets[job.ticket], job.outcome.value) <= Decimal.MAX_SAFE_INTEGER
    && db.accounts[db.tickets[job.ticket].account].Safe()
    && (ActiveVersion(db, job.ticket).Some? ==>
          db.accounts[db.tickets[job.ticket].account].Plus(TakenBack(db, job.ticket)).Safe())
  }

  lemma TicketHasAccount(db: Db, t: TicketId)
    requires Inv(db) && t in db.tickets
    ensures HasAccount(db, t) && (db.tickets[t].active.Some? <==> ActiveVersion(db, t).Some?)
    ensures db.tickets[t].active.Some? ==> db.tickets[t].active.value in db.settlements
  {
    hide Inv, SettlementsInv;
    TicketsOf(db);
  }

  /** A ticket's rows can be read exactly when its account's balances are safe integers: its settlement's always are. */
  lemma ReadableExactlyWhenSafe(db: Db, t: TicketId)
    requires Inv(db) && HasAccount(db, t)
    ensures ReadableState(db, t) <==> db.accounts[db.tickets[t].account].Safe()
  {
    hide Inv, TicketsInv, SettlementsInv;
    TicketsOf(db);
    if db.tickets[t].active.Some? { ActiveIsSafe(db, t); }
  }

  lemma ActiveIsSafe(db: Db, t: TicketId)
    requires TicketsInv(db.accounts, db.tickets, db.settlements) && SettlementsInv(db.tickets, db.settlements)
    requires t in db.tickets && db.tickets[t].active.Some?
    ensures db.tickets[t].active.value in db.settlements
    ensures db.settlements[db.tickets[t].active.value].delta.Safe()
    ensures db.settlements[db.tickets[t].active.value].gross <= Decimal.MAX_SAFE_INTEGER
  {
    var s := db.settlements[db.tickets[t].active.value];
    assert SoundSettlement(s, db.tickets[t].stake) && SoundTicket(db.tickets[t]);
    hide TicketsInv, SettlementsInv, Decimal.IsPositiveDecimal;
  }

  lemma GrossFits(db: Db, t: TicketId, outcome: Outcome)
    requires Inv(db) && t in db.tickets
    ensures GrossReturn(db.tickets[t], outcome).Ok? <==> Payout(db.tickets[t], outcome) <= Decimal.MAX_SAFE_INTEGER
  {
    hide Inv, SettlementsInv, Payout, GrossReturn;
    TicketsOf(db);
    GrossReturnIsPayout(db.tickets[t], outcome);
  }

  /**
   * A current candidate settles exactly when it is payable and its version is not used up: in particular
   * a football result that comes back to an earlier version is refused, and nothing else about versions
   * ever refuses one.
   */
  lemma CandidateSettlesExactlyWhen(db: Db, job: Job, ids: Ids)
    requires Inv(db) && Current(db, job) && FreshIds(db, ids)
    ensures HasAccount(db, job.ticket)
    ensures (ActiveVersion(db, job.ticket).Some? ==> db.tickets[job.ticket].active.value in db.settlements)
    ensures Process(db, job, ids).verdict.Processed? <==> Payable(db, job) && !UsedUp(db, job.ticket, job.version)
  {
    hide Inv, SettleNow, ReverseNow, GrossReturn, ReadableState, ActiveVersion, EntryIdTaken, Payout;
    var t := job.ticket;
    TicketHasAccount(db, t);
    if job.outcome.Ok? {
      ReadableExactlyWhenSafe(db, t);
      GrossFits(db, t, job.outcome.value);
      if job.active.None? {
        SettleNowExactlyWhen(db, t, job.version, job.outcome.value, ids);
      } else {
        CorrectExactlyWhen(db, job, ids);
      }
    }
  }

  lemma CorrectExactlyWhen(db: Db, job: Job, ids: Ids)
    requires Inv(db) && Current(db, job) && FreshIds(db, ids) && HasAccount(db, job.ticket)
    requires job.outcome.Ok? && job.active.Some? && db.tickets[job.ticket].active.Some?
    requires db.tickets[job.ticket].active.value in db.settlements
    ensures Process(db, job, ids).verdict.Processed? <==> Payable(db, job) && !UsedUp(db, job.ticket, job.version)
  {
    hide Inv, SettleNow, ReverseNow, GrossReturn, ReadableState, ActiveVersion, EntryIdTaken, Untouched, TakenBack,
        Points.Safe, Payout;
    var t := job.ticket;
    ReadableExactlyWhenSafe(db, t);
    ReverseNowExactlyWhen(db, t, job.active.value, ids);
    if ReverseNow(db, t, job.active.value, ids).Ok? {
      ReverseNowLeaves(db, t, job.active.value, ids);
      var mid := ReverseNow(db, t, job.active.value, ids).value;
      TicketHasAccount(mid, t);
      assert SameBet(db.tickets[t], mid.tickets[t]);
      SamePayout(db.tickets[t], mid.tickets[t], job.outcome.value);
      GrossFits(mid, t, job.outcome.value);
      ReadableExactlyWhenSafe(mid, t);
      SettleNowExactlyWhen(mid, t, job.version, job.outcome.value, ids);
    }
  }

  lemma FailedVerdict(db: Db, job: Job, ids: Ids)
    requires job.settleable && job.outcome.Ok? && job.active.Some? && job.active.value != job.version
    ensures var reversed, after := ReverseNow(db, job.ticket, job.active.value, ids), Process(db, job, ids);
            && (reversed.Err? ==> after.db == db && after.verdict.Failed?)
            && (reversed.Ok? && after.verdict.Failed? ==> after.db == reversed.value)
  {
    hide ReverseNow, SettleNow;
  }

  /**
   * A correction that fails has reversed the ticket, and its points, exactly when there was an outcome and
   * the account's balances could be read; otherwise everything is as it was.
   */
  lemma FailedCorrectionStaysReversed(db: Db, job: Job, ids: Ids)
    requires Inv(db) && Current(db, job) && FreshIds(db, ids) && job.active.Some?
    requires Process(db, job, ids).verdict.Failed?
    ensures HasAccount(db, job.ticket)
    ensures var db', a := Process(db, job, ids).db, db.tickets[job.ticket].account;
            if job.outcome.Ok? && db.accounts[a].Safe()
            then
              && ActiveVersion(db', job.ticket) == None
              && ReverseNow(db, job.ticket, job.active.value, ids).Ok?
              && db' == ReverseNow(db, job.ticket, job.active.value, ids).value
            else db' == db
  {
    hide Inv, SettleNow, ReverseNow, ReadableState, ActiveVersion, EntryIdTaken, Untouched, TakenBack, Points.Safe;
    TicketHasAccount(db, job.ticket);
    ReadableExactlyWhenSafe(db, job.ticket);
    if job.outcome.Ok? {
      ReverseNowExactlyWhen(db, job.ticket, job.active.value, ids);
      FailedVerdict(db, job, ids);
      if ReverseNow(db, job.ticket, job.active.value, ids).Ok? {
        ReverseNowLeaves(db, job.ticket, job.active.value, ids);
        PendingHasNoVersion(ReverseNow(db, job.ticket, job.active.value, ids).value, job.ticket);
      }
    }
  }

  /** A result that goes from a to b and back: once the ticket is corrected to b, version a is used up. */
  lemma CorrectedVersionIsUsedUp(db: Db, job: Job, ids: Ids)
    requires Inv(db) && Current(db, job) && job.active.Some?
    requires Process(db, job, ids).verdict.Processed?
    ensures UsedUp(Process(db, job, ids).db, job.ticket, job.active.value)
  {
    hide Inv, Process, ActiveVersion, TicketsInv, OperationsInv, OthersKept, PaidAt;
    OperationsOf(db);
    ActiveIsNotReversed(db, job.ticket, job.active.value);
    ProcessLeaves(db, job, ids);
    PaidHasVersion(Process(db, job, ids).db, job);
  }

  lemma PaidHasVersion(db: Db, job: Job)
    requires job.outcome.Ok? && PaidAt(db, job.ticket, job.version, job.outcome.value)
    ensures ActiveVersion(db, job.ticket) == Some(job.version)
  {
  }

  /** A job at a used up version fails, whatever its ids, and leaves the version used up. */
  lemma UsedUpIsRefused(db: Db, job: Job, ids: Ids)
    requires Inv(db) && Current(db, job) && UsedUp(db, job.ticket, job.version)
    ensures Process(db, job, ids).verdict.Failed? && UsedUp(Process(db, job, ids).db, job.ticket, job.version)
  {
    hide Inv, OthersKept, PaidAt, ActiveVersion, SettleNow, ReverseNow;
    ProcessLeaves(db, job, ids);
    if job.outcome.Ok? {
      if job.active.None? {
        UsedUpSettle(db, job.ticket, job.version, job.outcome.value, ids);
      } else if ReverseNow(db, job.ticket, job.active.value, ids).Ok? {
        ReverseNowLeaves(db, job.ticket, job.active.value, ids);
        var mid := ReverseNow(db, job.ticket, job.active.value, ids).value;
        PendingHasNoVersion(mid, job.ticket);
        UsedUpSettle(mid, job.ticket, job.version, job.outcome.value, ids);
      }
    }
  }

  lemma UsedUpSettle(db: Db, t: TicketId, v: Version, outcome: Outcome, ids: Ids)
    requires UsedUp(db, t, v)
    ensures SettleNow(db, t, v, outcome, ids).Err?
  {
  }

  // ---------------------------------------------------------------- one scan

  datatype Report = Report(processed: nat, held: nat, failed: seq<TicketId>)

  datatype Swept = Swept(db: Db, report: Report)

  function Count(report: Report, verdict: Verdict, t: TicketId): Report {
    match verdict
    case Processed => report.(processed := report.processed + 1)
    case HeldBack => report.(held := report.held + 1)
    case Failed(_) => report.(failed := report.failed + [t])
  }

  /** The job loop over one scan's candidates, each with the ids it may use. */
  function SweepJobs(db: Db, jobs: seq<Job>, ids: seq<Ids>): Swept
    requires |ids| == |jobs|
  {
    if jobs == [] then Swept(db, Report(0, 0, []))
    else
      var n := |jobs| - 1;
      var before := SweepJobs(db, jobs[..n], ids[..n]);
      var after := Process(before.db, jobs[n], ids[n]);
      Swept(after.db, Count(before.report, after.verdict, jobs[n].ticket))
  }

  /** `scan` of the job handler: one candidate's failure never stops the others. */
  class SettlementJob {
    var db: Db

    constructor (db: Db)
      ensures this.db == db
    {
      this.db := db;
    }

    method Scan(jobs: seq<Job>, ids: seq<Ids>) returns (retry: bool, report: Report)
      requires |ids| == |jobs|
      modifies this
      ensures Swept(db, report) == SweepJobs(old(db), jobs, ids)
      ensures retry <==> report.failed != []
    {
      var processed, held, failed := 0, 0, [];
      var i := 0;
      while i < |jobs|
        invariant 0 <= i <= |jobs|
        invariant Swept(db, Report(processed, held, failed)) == SweepJobs(old(db), jobs[..i], ids[..i])
      {
        var before := db;
        var after := Process(db, jobs[i], ids[i]);
        db := after.db;
        match after.verdict {
          case Processed => processed := processed + 1;
          case HeldBack => held := held + 1;
          case Failed(_) => failed := failed + [jobs[i].ticket];
        }
        assert jobs[..i + 1][..i] == jobs[..i] && ids[..i + 1][..i] == ids[..i];
        i := i + 1;
      }
      assert jobs[..i] == jobs && ids[..i] == ids;
      retry, report := failed != [], Report(processed, held, failed);
    }
  }

  predicate Listed(jobs: seq<Job>, t: TicketId) { exists i :: 0 <= i < |jobs| && jobs[i].ticket == t }

  /** What a scan returns: each candidate once, as it stands. */
  predicate CurrentJobs(db: Db, jobs: seq<Job>) {
    && (forall i :: 0 <= i < |jobs| ==> Current(db, jobs[i]))
    && (forall i, j :: 0 <= i < j < |jobs| ==> jobs[i].ticket != jobs[j].ticket)
  }

  /** A job is either paid at its version, or reported failed and still waiting. */
  ghost predicate Handled(db: Db, job: Job, failed: seq<TicketId>) {
    if job.ticket in failed then ActiveVersion(db, job.ticket) != Some(job.version)
    else job.outcome.Ok? && PaidAt(db, job.ticket, job.version, job.outcome.value)
  }

  ghost predicate SameBets(db: Db, db': Db) {
    db'.tickets.Keys == db.tickets.Keys && forall u :: u in db.tickets ==> SameBet(db.tickets[u], db'.tickets[u])
  }

  ghost predicate RestKept(db: Db, db': Db, jobs: seq<Job>) {
    forall u :: !Listed(jobs, u) ==> Untouched(db, db', u) && ActiveVersion(db', u) == ActiveVersion(db, u)
  }

  /** Everything one scan promises. */
  ghost predicate SweptWell(db: Db, jobs: seq<Job>, s: Swept) {
    && Inv(s.db) && SameBets(db, s.db) && ReceiptsKept(db, s.db) && RestKept(db, s.db, jobs)
    && s.report.held == 0 && s.report.processed + |s.report.failed| == |jobs|
    && (forall i :: 0 <= i < |jobs| ==> Handled(s.db, jobs[i], s.report.failed))
    && (forall t :: t in s.report.failed ==> Listed(jobs, t))
    && (forall i, j :: 0 <= i < j < |s.report.failed| ==> s.report.failed[i] != s.report.failed[j])
  }

  lemma SameBetsThen(db: Db, mid: Db, db': Db, t: TicketId)
    requires SameBets(db, mid) && OthersKept(mid, db', t)
    ensures SameBets(db, db')
  {
    hide Untouched, ActiveVersion;
    forall u | u in db.tickets ensures SameBet(db.tickets[u], db'.tickets[u]) {
      assert SameBet(db.tickets[u], mid.tickets[u]) && SameBet(mid.tickets[u], db'.tickets[u]);
    }
  }

  lemma PaidStays(db: Db, db': Db, t: TicketId, v: Version, outcome: Outcome)
    requires PaidAt(db, t, v, outcome) && Untouched(db, db', t) && ActiveVersion(db', t) == ActiveVersion(db, t)
    ensures PaidAt(db', t, v, outcome)
  {
  }

  lemma HandledStays(db: Db, db': Db, job: Job, other: TicketId, failed: seq<TicketId>, failed': seq<TicketId>)
    requires Handled(db, job, failed) && OthersKept(db, db', other) && job.ticket != other
    requires job.ticket in failed <==> job.ticket in failed'
    ensures Handled(db', job, failed')
  {
    hide PaidAt, ActiveVersion, Untouched;
    if job.ticket !in failed {
      PaidStays(db, db', job.ticket, job.version, job.outcome.value);
    }
  }

  lemma RestKeptThen(db: Db, mid: Db, db': Db, jobs: seq<Job>, last: Job)
    requires RestKept(db, mid, jobs) && OthersKept(mid, db', last.ticket)
    ensures RestKept(db, db', jobs + [last])
  {
    hide ActiveVersion, Untouched;
    forall u | !Listed(jobs + [last], u)
      ensures Untouched(db, db', u) && ActiveVersion(db', u) == ActiveVersion(db, u)
    {
      NotListedBefore(jobs, last, u);
      UntouchedTwice(db, mid, db', u);
    }
  }

  lemma NotListedBefore(jobs: seq<Job>, last: Job, u: TicketId)
    requires !Listed(jobs + [last], u)
    ensures !Listed(jobs, u) && u != last.ticket
  {
    assert (jobs + [last])[|jobs|] == last;
    forall i | 0 <= i < |jobs|
      ensures jobs[i].ticket != u
    {
      assert (jobs + [last])[i] == jobs[i];
    }
  }

  lemma ReportGrows(jobs: seq<Job>, last: Job, report: Report, verdict: Verdict)
    requires report.held == 0 && report.processed + |report.failed| == |jobs| && !verdict.HeldBack?
    requires !Listed(jobs, last.ticket)
    requires forall t :: t in report.failed ==> Listed(jobs, t)
    requires forall i, j :: 0 <= i < j < |report.failed| ==> report.failed[i] != report.failed[j]
    ensures var r := Count(report, verdict, last.ticket);
            && r.held == 0 && r.processed + |r.failed| == |jobs| + 1
            && (forall t :: t in r.failed ==> Listed(jobs + [last], t))
            && (forall i, j :: 0 <= i < j < |r.failed| ==> r.failed[i] != r.failed[j])
            && (last.ticket in r.failed <==> verdict.Failed?)
            && (forall t :: t != last.ticket ==> (t in r.failed <==> t in report.failed))
  {
    var r := Count(report, verdict, last.ticket);
    forall t | t in r.failed
      ensures Listed(jobs + [last], t)
    {
      if t in report.failed {
        var i :| 0 <= i < |jobs| && jobs[i].ticket == t;
        assert (jobs + [last])[i].ticket == t;
      } else {
        assert (jobs + [last])[|jobs|].ticket == t;
      }
    }
  }

  /** One more job on top of a scan that went well so far. */
  lemma OneMoreJob(db: Db, jobs: seq<Job>, mid: Swept, last: Job, ids: Ids)
    requires SweptWell(db, jobs, mid) && Current(db, last) && !Listed(jobs, last.ticket)
    ensures var after := Process(mid.db, last, ids);
            SweptWell(db, jobs + [last], Swept(after.db, Count(mid.report, after.verdict, last.ticket)))
  {
    hide Inv, OthersKept, ActiveVersion, PaidAt, Process, Untouched, SameBet, Count;
    var after := Process(mid.db, last, ids);
    ProcessLeaves(mid.db, last, ids);
    var report := Count(mid.report, after.verdict, last.ticket);
    ReportGrows(jobs, last, mid.report, after.verdict);
    SameBetsThen(db, mid.db, after.db, last.ticket);
    RestKeptThen(db, mid.db, after.db, jobs, last);
    forall i | 0 <= i < |jobs + [last]|
      ensures Handled(after.db, (jobs + [last])[i], report.failed)
    {
      if i < |jobs| {
        assert Listed(jobs, jobs[i].ticket);
        HandledStays(mid.db, after.db, jobs[i], last.ticket, mid.report.failed, report.failed);
      }
    }
  }

  lemma {:induction false} ScanLeaves(db: Db, jobs: seq<Job>, ids: seq<Ids>)
    requires Inv(db) && CurrentJobs(db, jobs) && |ids| == |jobs|
    ensures SweptWell(db, jobs, SweepJobs(db, jobs, ids))
  {
    hide Inv, Process, ActiveVersion, PaidAt, Count, SweptWell, Current;
    if jobs == [] {
      EmptyScan(db);
    } else {
      var n := |jobs| - 1;
      assert jobs == jobs[..n] + [jobs[n]];
      ScanLeaves(db, jobs[..n], ids[..n]);
      OneMoreJob(db, jobs[..n], SweepJobs(db, jobs[..n], ids[..n]), jobs[n], ids[n]);
    }
  }

  lemma EmptyScan(db: Db)
    requires Inv(db)
    ensures SweptWell(db, [], Swept(db, Report(0, 0, [])))
  {
    hide Inv, ActiveVersion;
  }

  // ---------------------------------------------------------------- scans until nothing is left

  /** The result an event stands at: its version, and the outcome it gives a ticket. */
  datatype Target = Target(version: Version, outcome: Result<Outcome, Failure>)

  ghost function Candidates(db: Db, targets: map<TicketId, Target>): set<TicketId> {
    set t | t in targets && t in db.tickets && ActiveVersion(db, t) != Some(targets[t].version)
  }

  function JobFor(db: Db, target: Target, t: TicketId): Job {
    Job(t, target.version, ActiveVersion(db, t), true, target.outcome)
  }

  /** `Math.max(1, Math.min(500, Math.trunc(limit)))`. */
  function SafeLimit(limit: int): (n: nat)
    ensures 1 <= n <= 500
    ensures (1 <= limit <= 500 ==> n == limit) && (limit < 1 ==> n == 1) && (limit > 500 ==> n == 500)
  {
    if limit > 500 then 500 else if limit < 1 then 1 else limit
  }

  /** The rows `scan` may return: as many candidates as the limit allows, in whatever order. */
  ghost predicate IsScan(db: Db, targets: map<TicketId, Target>, limit: int, jobs: seq<Job>) {
    && (forall i :: 0 <= i < |jobs| ==>
          jobs[i].ticket in Candidates(db, targets) && jobs[i] == JobFor(db, targets[jobs[i].ticket], jobs[i].ticket))
    && (forall i, j :: 0 <= i < j < |jobs| ==> jobs[i].ticket != jobs[j].ticket)
    && |jobs| == Min(SafeLimit(limit), |Candidates(db, targets)|)
  }

  lemma ScanIsCurrent(db: Db, targets: map<TicketId, Target>, limit: int, jobs: seq<Job>)
    requires IsScan(db, targets, limit, jobs)
    ensures CurrentJobs(db, jobs)
  {
  }

  ghost function TicketsOfJobs(jobs: seq<Job>): set<TicketId> { set i | 0 <= i < |jobs| :: jobs[i].ticket }

  ghost function Members(ts: seq<TicketId>): set<TicketId> { set t | t in ts }

  lemma {:induction false} DistinctMembers(ts: seq<TicketId>)
    requires forall i, j :: 0 <= i < j < |ts| ==> ts[i] != ts[j]
    ensures |Members(ts)| == |ts|
  {
    if ts != [] {
      var n := |ts| - 1;
      DistinctMembers(ts[..n]);
      assert ts == ts[..n] + [ts[n]];
      assert Members(ts) == Members(ts[..n]) + {ts[n]};
    }
  }

  lemma {:induction false} DistinctJobs(jobs: seq<Job>)
    requires forall i, j :: 0 <= i < j < |jobs| ==> jobs[i].ticket != jobs[j].ticket
    ensures |TicketsOfJobs(jobs)| == |jobs|
  {
    if jobs != [] {
      var n := |jobs| - 1;
      DistinctJobs(jobs[..n]);
      assert TicketsOfJobs(jobs) == TicketsOfJobs(jobs[..n]) + {jobs[n].ticket};
    }
  }

  /** A scan removes from the candidates exactly those it did not report failed. */
  lemma ScanRemoves(db: Db, targets: map<TicketId, Target>, limit: int, jobs: seq<Job>, s: Swept)
    requires IsScan(db, targets, limit, jobs) && SweptWell(db, jobs, s)
    ensures Candidates(s.db, targets) == Candidates(db, targets) - (TicketsOfJobs(jobs) - Members(s.report.failed))
  {
    hide Inv, ActiveVersion, Untouched, SameBet, ReceiptsKept;
    forall t | t in targets && t in db.tickets
      ensures t in Candidates(s.db, targets)
              <==> t in Candidates(db, targets) - (TicketsOfJobs(jobs) - Members(s.report.failed))
    {
      if Listed(jobs, t) {
        var i :| 0 <= i < |jobs| && jobs[i].ticket == t;
        assert Handled(s.db, jobs[i], s.report.failed);
      }
    }
  }

  lemma ScanShrinks(db: Db, targets: map<TicketId, Target>, limit: int, jobs: seq<Job>, ids: seq<Ids>)
    requires Inv(db) && IsScan(db, targets, limit, jobs) && |ids| == |jobs|
    ensures var s := SweepJobs(db, jobs, ids);
            && SweptWell(db, jobs, s)
            && Candidates(s.db, targets) == Candidates(db, targets) - (TicketsOfJobs(jobs) - Members(s.report.failed))
            && |Candidates(s.db, targets)| == |Candidates(db, targets)| - s.report.processed
  {
    hide Inv, IsScan, SweptWell, Candidates, TicketsOfJobs, Members;
    ScanIsCurrent(db, targets, limit, jobs);
    ScanLeaves(db, jobs, ids);
    ScanRemoves(db, targets, limit, jobs, SweepJobs(db, jobs, ids));
    ScanCounts(db, targets, limit, jobs, SweepJobs(db, jobs, ids));
  }

  lemma ScanCounts(db: Db, targets: map<TicketId, Target>, limit: int, jobs: seq<Job>, s: Swept)
    requires IsScan(db, targets, limit, jobs) && SweptWell(db, jobs, s)
    ensures |Candidates(db, targets) - (TicketsOfJobs(jobs) - Members(s.report.failed))|
              == |Candidates(db, targets)| - s.report.processed
  {
    hide Inv, Candidates, ActiveVersion, SameBets, ReceiptsKept, RestKept, Handled;
    DistinctJobs(jobs);
    DistinctMembers(s.report.failed);
    assert Members(s.report.failed) <= TicketsOfJobs(jobs);
    assert TicketsOfJobs(jobs) <= Candidates(db, targets);
    var paid := TicketsOfJobs(jobs) - Members(s.report.failed);
    assert TicketsOfJobs(jobs) == paid + Members(s.report.failed);
    assert Candidates(db, targets) == (Candidates(db, targets) - paid) + paid;
  }

  /** One scan of these targets that reported no failure. */
  ghost predicate CleanScan(db: Db, db': Db, targets: map<TicketId, Target>, limit: int) {
    exists jobs: seq<Job>, ids: seq<Ids> ::
      && |ids| == |jobs| && IsScan(db, targets, limit, jobs)
      && SweepJobs(db, jobs, ids).report.failed == [] && SweepJobs(db, jobs, ids).db == db'
  }

  /** The states between one clean scan and the next. */
  ghost predicate CleanScans(dbs: seq<Db>, targets: map<TicketId, Target>, limit: int) {
    |dbs| > 0 && forall i :: 0 < i < |dbs| ==> CleanScan(dbs[i - 1], dbs[i], targets, limit)
  }

  function Left(total: nat, batch: nat, scans: nat): nat {
    if total <= scans * batch then 0 else total - scans * batch
  }

  lemma OneScanLess(total: nat, batch: nat, scans: nat)
    requires scans > 0
    ensures Left(total, batch, scans - 1) - Min(batch, Left(total, batch, scans - 1)) == Left(total, batch, scans)
  {
    assert scans * batch == (scans - 1) * batch + batch;
  }

  lemma CleanScanTakesABatch(db: Db, db': Db, targets: map<TicketId, Target>, limit: int)
    requires Inv(db) && CleanScan(db, db', targets, limit)
    ensures Inv(db') && SameBets(db, db')
    ensures |Candidates(db', targets)| == |Candidates(db, targets)| - Min(SafeLimit(limit), |Candidates(db, targets)|)
    ensures forall t :: t in Candidates(db', targets) ==> t in Candidates(db, targets)
    ensures forall t :: t in Candidates(db, targets) && t !in Candidates(db', targets) ==>
              targets[t].outcome.Ok? && PaidAt(db', t, targets[t].version, targets[t].outcome.value)
    ensures forall t :: t !in Candidates(db, targets) ==>
              Untouched(db, db', t) && ActiveVersion(db', t) == ActiveVersion(db, t)
  {
    hide Inv, IsScan, Candidates, SameBets, ReceiptsKept, ActiveVersion, PaidAt, Untouched;
    var jobs: seq<Job>, ids: seq<Ids> :|
      && |ids| == |jobs| && IsScan(db, targets, limit, jobs)
      && SweepJobs(db, jobs, ids).report.failed == [] && SweepJobs(db, jobs, ids).db == db';
    var s := SweepJobs(db, jobs, ids);
    hide SweepJobs;
    ScanShrinks(db, targets, limit, jobs, ids);
    ScanRows(db, targets, limit, jobs);
    forall t | t in Candidates(db, targets) && t !in Candidates(db', targets)
      ensures targets[t].outcome.Ok? && PaidAt(db', t, targets[t].version, targets[t].outcome.value)
    {
      assert t in TicketsOfJobs(jobs);
      var i :| 0 <= i < |jobs| && jobs[i].ticket == t;
      assert Handled(s.db, jobs[i], s.report.failed);
    }
  }

  lemma ScanRows(db: Db, targets: map<TicketId, Target>, limit: int, jobs: seq<Job>)
    requires IsScan(db, targets, limit, jobs)
    ensures |jobs| == Min(SafeLimit(limit), |Candidates(db, targets)|)
    ensures forall t :: Listed(jobs, t) ==> t in Candidates(db, targets)
    ensures forall i :: 0 <= i < |jobs| ==>
              && jobs[i].ticket in targets
              && jobs[i].version == targets[jobs[i].ticket].version
              && jobs[i].outcome == targets[jobs[i].ticket].outcome
  {
    hide ActiveVersion;
  }

  /** What the first k clean scans have done. */
  ghost predicate Drained(first: Db, db: Db, targets: map<TicketId, Target>, limit: int, k: nat) {
    && Inv(db) && SameBets(first, db)
    && |Candidates(db, targets)| == Left(|Candidates(first, targets)|, SafeLimit(limit), k)
    && Candidates(db, targets) <= Candidates(first, targets)
    && (forall t :: t in Candidates(first, targets) && t !in Candidates(db, targets) ==>
          targets[t].outcome.Ok? && PaidAt(db, t, targets[t].version, targets[t].outcome.value))
    && (forall t :: t !in Candidates(first, targets) ==>
        Untouched(first, db, t) && ActiveVersion(db, t) == ActiveVersion(first, t))
  }

  /**
   * Clean scans drain the candidates, a full batch at a time, from any state at all: one left
   * behind by a correction that stopped between its reversal and its settlement included.
   */
  lemma {:induction false} CleanScansDrain(dbs: seq<Db>, targets: map<TicketId, Target>, limit: int)
    requires CleanScans(dbs, targets, limit) && Inv(dbs[0])
    ensures Drained(dbs[0], dbs[|dbs| - 1], targets, limit, |dbs| - 1)
  {
    hide Inv, Drained, CleanScan;
    var n := |dbs| - 1;
    if n == 0 {
      NothingDrained(dbs[0], targets, limit);
    } else {
      CleanScansDrain(dbs[..n], targets, limit);
      OneMoreScan(dbs[0], dbs[n - 1], dbs[n], targets, limit, n);
    }
  }

  lemma NothingDrained(db: Db, targets: map<TicketId, Target>, limit: int)
    requires Inv(db)
    ensures Drained(db, db, targets, limit, 0)
  {
    hide Inv, Candidates, ActiveVersion, PaidAt;
  }

  lemma SameBetsTwice(db: Db, mid: Db, db': Db)
    requires SameBets(db, mid) && SameBets(mid, db')
    ensures SameBets(db, db')
  {
    forall u | u in db.tickets ensures SameBet(db.tickets[u], db'.tickets[u]) {
      assert SameBet(db.tickets[u], mid.tickets[u]) && SameBet(mid.tickets[u], db'.tickets[u]);
    }
  }

  lemma CandidatesHaveTargets(db: Db, targets: map<TicketId, Target>)
    ensures Candidates(db, targets) <= targets.Keys
  {
  }

  lemma OneMoreScan(first: Db, mid: Db, db: Db, targets: map<TicketId, Target>, limit: int, k: nat)
    requires k > 0 && Drained(first, mid, targets, limit, k - 1) && CleanScan(mid, db, targets, limit)
    ensures Drained(first, db, targets, limit, k)
  {
    hide Inv, Candidates, ActiveVersion, PaidAt, Untouched, SameBets, Left, CleanScan;
    CleanScanTakesABatch(mid, db, targets, limit);
    SameBetsTwice(first, mid, db);
    CandidatesHaveTargets(first, targets);
    OneScanLess(|Candidates(first, targets)|, SafeLimit(limit), k);
    forall t | t in Candidates(first, targets) && t !in Candidates(db, targets)
      ensures targets[t].outcome.Ok? && PaidAt(db, t, targets[t].version, targets[t].outcome.value)
    {
      if t !in Candidates(mid, targets) {
        PaidStays(mid, db, t, targets[t].version, targets[t].outcome.value);
      }
    }
    forall t | t !in Candidates(first, targets)
      ensures Untouched(first, db, t)
    {
      UntouchedTwice(first, mid, db, t);
    }
  }

  /**
   * Enough clean scans leave every ticket of a settled event at its current version; another scan then
   * changes nothing.
   */
  lemma EnoughScansSettleAll(dbs: seq<Db>, targets: map<TicketId, Target>, limit: int, jobs: seq<Job>, ids: seq<Ids>)
    requires CleanScans(dbs, targets, limit) && Inv(dbs[0])
    requires (|dbs| - 1) * SafeLimit(limit) >= |Candidates(dbs[0], targets)|
    requires |ids| == |jobs| && IsScan(dbs[|dbs| - 1], targets, limit, jobs)
    ensures forall t :: t in targets && t in dbs[0].tickets ==>
              ActiveVersion(dbs[|dbs| - 1], t) == Some(targets[t].version)
    ensures forall t :: t in Candidates(dbs[0], targets) ==>
              targets[t].outcome.Ok? && PaidAt(dbs[|dbs| - 1], t, targets[t].version, targets[t].outcome.value)
    ensures jobs == [] && SweepJobs(dbs[|dbs| - 1], jobs, ids) == Swept(dbs[|dbs| - 1], Report(0, 0, []))
  {
    hide Inv, ActiveVersion, PaidAt, Untouched, CleanScan;
    CleanScansDrain(dbs, targets, limit);
    var last := dbs[|dbs| - 1];
    assert Candidates(last, targets) == {};
    assert last.tickets.Keys == dbs[0].tickets.Keys;
    forall t | t in targets && t in last.tickets
      ensures ActiveVersion(last, t) == Some(targets[t].version)
    {
      assert t !in Candidates(last, targets);
    }
  }

  /** A correction that stopped after its reversal is a state like any other, and its ticket is still a candidate. */
  lemma StoppedCorrectionIsACandidate(db: Db, t: TicketId, v: Version, ids: Ids, targets: map<TicketId, Target>)
    requires Inv(db) && ActiveVersion(db, t) == Some(v) && ReverseNow(db, t, v, ids).Ok? && t in targets
    ensures Inv(ReverseNow(db, t, v, ids).value) && t in Candidates(ReverseNow(db, t, v, ids).value, targets)
  {
    hide Inv, ReverseNow, OthersKept;
    ReverseNowLeaves(db, t, v, ids);
  }

  /** A ticket whose current version is used up fails every scan that lists it. */
  lemma {:induction false} UsedUpFailsEveryScan(db: Db, targets: map<TicketId, Target>, limit: int, jobs: seq<Job>,
                                                ids: seq<Ids>, t: TicketId)
    requires Inv(db) && IsScan(db, targets, limit, jobs) && |ids| == |jobs| && t in targets
    requires UsedUp(db, t, targets[t].version)
    ensures var s := SweepJobs(db, jobs, ids);
            && UsedUp(s.db, t, targets[t].version)
            && (Listed(jobs, t) ==> t in s.report.failed)
  {
    hide Inv, IsScan, SweepJobs, Current, ReceiptsKept, PaidAt, ActiveVersion, Untouched, SameBets;
    ScanIsCurrent(db, targets, limit, jobs);
    ScanLeaves(db, jobs, ids);
    var s := SweepJobs(db, jobs, ids);
    StillReceipted(db, s.db, OperationKey(t, targets[t].version, SettleOp));
    if Listed(jobs, t) {
      ScanRows(db, targets, limit, jobs);
      var i :| 0 <= i < |jobs| && jobs[i].ticket == t;
      UsedUpStays(db, jobs, ids, i);
    }
  }

  lemma StillReceipted(db: Db, db': Db, k: OperationKey)
    requires ReceiptsKept(db, db') && k in db.operations
    ensures k in db'.operations
  {
  }

  lemma {:induction false} UsedUpStays(db: Db, jobs: seq<Job>, ids: seq<Ids>, i: nat)
    requires Inv(db) && CurrentJobs(db, jobs) && |ids| == |jobs| && i < |jobs|
    requires UsedUp(db, jobs[i].ticket, jobs[i].version)
    ensures jobs[i].ticket in SweepJobs(db, jobs, ids).report.failed
    ensures UsedUp(SweepJobs(db, jobs, ids).db, jobs[i].ticket, jobs[i].version)
  {
    hide Inv, Process, ActiveVersion, Current, SweptWell, UsedUp;
    var n := |jobs| - 1;
    var front, frontIds := jobs[..n], ids[..n];
    ScanLeaves(db, front, frontIds);
    var mid := SweepJobs(db, front, frontIds);
    if i == n {
      LastJob(db, jobs, mid);
      UsedUpIsRefused(mid.db, jobs[n], ids[n]);
    } else {
      UsedUpStays(db, front, frontIds, i);
      assert jobs[i].ticket != jobs[n].ticket;
      LastJobCurrent(db, jobs, mid);
      ProcessLeaves(mid.db, jobs[n], ids[n]);
      UsedUpElsewhere(mid.db, Process(mid.db, jobs[n], ids[n]).db, jobs[i].ticket, jobs[i].version, jobs[n].ticket);
    }
  }

  lemma LastJobCurrent(db: Db, jobs: seq<Job>, mid: Swept)
    requires jobs != [] && CurrentJobs(db, jobs) && SweptWell(db, jobs[..|jobs| - 1], mid)
    ensures Inv(mid.db) && Current(mid.db, jobs[|jobs| - 1])
  {
    hide Inv, ActiveVersion;
    var n := |jobs| - 1;
    forall i | 0 <= i < n ensures jobs[..n][i].ticket != jobs[n].ticket { }
    assert !Listed(jobs[..n], jobs[n].ticket);
  }

  lemma LastJob(db: Db, jobs: seq<Job>, mid: Swept)
    requires jobs != [] && CurrentJobs(db, jobs) && SweptWell(db, jobs[..|jobs| - 1], mid)
    requires UsedUp(db, jobs[|jobs| - 1].ticket, jobs[|jobs| - 1].version)
    ensures Inv(mid.db) && Current(mid.db, jobs[|jobs| - 1])
    ensures UsedUp(mid.db, jobs[|jobs| - 1].ticket, jobs[|jobs| - 1].version)
  {
    hide Inv, ActiveVersion;
    LastJobCurrent(db, jobs, mid);
  }

  lemma UsedUpElsewhere(db: Db, db': Db, t: TicketId, v: Version, other: TicketId)
    requires UsedUp(db, t, v) && OthersKept(db, db', other) && t != other && ReceiptsKept(db, db')
    ensures UsedUp(db', t, v)
  {
    hide ActiveVersion;
  }

  // ---------------------------------------------------------------- what the sweep comes to in points

  /** What a result pays a ticket beyond its stake; nothing for the tickets of other accounts. */
  ghost function ResultPays(row: Ticket, outcome: Outcome, a: AccountKey): int {
    if row.account == a then Payout(row, outcome) - row.stake else 0
  }

  ghost function ResultsPay(tickets: map<TicketId, Ticket>, targets: map<TicketId, Target>,
                            a: AccountKey): map<TicketId, int> {
    map t | t in tickets :: if t in targets && targets[t].outcome.Ok?
        then ResultPays(tickets[t], targets[t].outcome.value, a) else 0
  }

  /** The account's tickets are all settled at their results. */
  ghost predicate AllPaid(db: Db, targets: map<TicketId, Target>, a: AccountKey) {
    forall t :: t in db.tickets && db.tickets[t].account == a ==>
      t in targets && targets[t].outcome.Ok? && PaidAt(db, t, targets[t].version, targets[t].outcome.value)
  }

  /**
   * Once its tickets are settled at their results, an account is worth its grants, less its
   * spending, plus what those results pay: no settlement reversed on the way counts.
   */
  lemma AccountIsWorthItsResults(db: Db, targets: map<TicketId, Target>, a: AccountKey)
    requires Inv(db) && a in db.accounts && AllPaid(db, targets, a)
    ensures db.accounts[a].Worth() == SumAmounts(db.entries, a, GRANTS) - SumAmounts(db.entries, a, SPENDING)
                                      + Total(ResultsPay(db.tickets, targets, a))
  {
    hide Inv, PaidAt, Standing, ResultPays, TicketsInv, SettlementsInv;
    TicketsOf(db);
    forall t | t in db.tickets
      ensures Standing(db.tickets[t], db.settlements, a) == ResultsPay(db.tickets, targets, a)[t]
    {
      if db.tickets[t].account == a {
        PaidStands(db, t, targets[t], a);
      } else {
        ElsewhereNothing(db, t, targets, a);
      }
    }
    assert Standings(db.tickets, db.settlements, a) == ResultsPay(db.tickets, targets, a);
    WorthOf(db, a);
  }

  lemma PaidStands(db: Db, t: TicketId, target: Target, a: AccountKey)
    requires t in db.tickets && target.outcome.Ok? && PaidAt(db, t, target.version, target.outcome.value)
    ensures Standing(db.tickets[t], db.settlements, a) == ResultPays(db.tickets[t], target.outcome.value, a)
  {
  }

  lemma ElsewhereNothing(db: Db, t: TicketId, targets: map<TicketId, Target>, a: AccountKey)
    requires t in db.tickets && db.tickets[t].account != a
    ensures Standing(db.tickets[t], db.settlements, a) == 0 == ResultsPay(db.tickets, targets, a)[t]
  {
  }

  lemma WorthOf(db: Db, a: AccountKey)
    requires Inv(db) && a in db.accounts
    ensures db.accounts[a].Worth() == SumAmounts(db.entries, a, GRANTS) - SumAmounts(db.entries, a, SPENDING)
                                      + Total(Standings(db.tickets, db.settlements, a))
  {
    hide MoneyInv, DistinctEntries, TicketsInv, SettlementsInv, UniqueVersions, OperationsInv, EntriesInv,
        RequestsInv, FrozenInv, HistoryInv;
  }
}
