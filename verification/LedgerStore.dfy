/**
 * The repositories as they run: tables that methods change row by row inside a transaction,
 * each proved to commit exactly the transaction of LedgerModel or to leave no trace.
 */
module LedgerStore {
  import opened Common
  import opened LedgerModel
  import opened LedgerInvariant
  import opened LedgerTheorems
  import Decimal

  /** The transaction committed its new state, or failed with its error and changed nothing. */
  predicate Committed(before: Db, result: Result<Db, Failure>, after: Db, outcome: Option<Failure>) {
    match result
    case Ok(db) => outcome == None && after == db
    case Err(failure) => outcome == Some(failure) && after == before
  }

  /** One turn of the deduction loop. */
  lemma DeductNext(db: Db, rows: seq<AccountKey>, i: nat, remaining: int, tier: Tier, at: int, ids: seq<EntryId>)
    requires |ids| == |rows| && i < |rows| && remaining > 0
    ensures var rest := Deduct(db, rows[i..], remaining, tier, at, ids[i..]);
            if rows[i] !in db.accounts then rest == Err(RoomNotFound)
            else
              var amount := Min(db.accounts[rows[i]].available, remaining);
              var posted := LedgerModel.Post(db, SubscriptionEntry(rows[i], tier, at, amount, ids[i]),
                                             Points(-amount, 0, 0));
              rest == if posted.Err? then posted
                  else Deduct(posted.value, rows[i + 1..], remaining - amount, tier, at, ids[i + 1..])
  {
    assert rows[i..][1..] == rows[i + 1..] && ids[i..][1..] == ids[i + 1..];
    hide LedgerModel.Post, SubscriptionEntry;
  }

  lemma DeductDone(db: Db, rows: seq<AccountKey>, remaining: int, tier: Tier, at: int, ids: seq<EntryId>)
    requires |ids| == |rows| && (rows == [] || remaining <= 0)
    ensures Deduct(db, rows, remaining, tier, at, ids) == Ok(db)
  {
  }

  class Store {
    var accounts: map<AccountKey, Points>
    var tickets: map<TicketId, Ticket>
    var settlements: map<SettlementId, Settlement>
    var entries: seq<Entry>
    var operations: map<OperationKey, Receipt>
    var requests: map<RequestId, GrantRequest>

    function State(): Db
      reads this
    {
      Db(accounts, tickets, settlements, entries, operations, requests)
    }

    constructor ()
      ensures State() == EMPTY
    {
      accounts, tickets, settlements, entries, operations, requests := map[], map[], map[], [], map[], map[];
    }

    method Rollback(db: Db)
      modifies this
      ensures State() == db
    {
      accounts, tickets, settlements := db.accounts, db.tickets, db.settlements;
      entries, operations, requests := db.entries, db.operations, db.requests;
    }

    /** The balance write first, then the entry; either constraint undoes both. */
    method Post(e: Entry, change: Points) returns (outcome: Option<Failure>)
      modifies this`accounts, this`entries
      ensures Committed(old(State()), LedgerModel.Post(old(State()), e, change), State(), outcome)
    {
      if e.account !in accounts { return Some(RoomNotFound); }
      var before := accounts;
      accounts := accounts[e.account := accounts[e.account].Plus(change)];
      if !accounts[e.account].NonNegative() {
        accounts := before;
        return Some(CheckViolation);
      }
      if EntryIdTaken(entries, e.id) || KeyTaken(entries, e.key) {
        accounts := before;
        return Some(UniqueViolation);
      }
      entries := entries + [e];
      return None;
    }

    method OpenAccount(account: AccountKey, points: int, id: EntryId) returns (outcome: Option<Failure>)
      modifies this`accounts, this`entries
      ensures Committed(old(State()), LedgerModel.OpenAccount(old(State()), account, points, id), State(), outcome)
    {
      if account in accounts { return None; }
      var before := accounts;
      accounts := accounts[account := ZERO];
      outcome := Post(InitialGrantEntry(account, points, id), Points(points, 0, 0));
      if outcome.Some? { accounts := before; }
    }

    /** `requestGrant`; the insert is refused by an open request of the member, which then answers it. */
    method RequestGrant(request: RequestId, account: AccountKey, roomActive: bool) returns (outcome: Option<Failure>)
      modifies this`requests
      ensures Committed(old(State()), LedgerModel.RequestGrant(old(State()), request, account, roomActive), State(),
                        outcome)
    {
      if account !in accounts { return Some(RoomNotFound); }
      if !roomActive { return Some(RoomNotActive); }
      if HasOpenRequest(State(), account) { return None; }
      if request in requests { return Some(UniqueViolation); }
      requests := requests[request := GrantRequest(account, Open)];
      return None;
    }

    /** `runDecision`: the request row decides between proceeding, replaying and refusing. */
    method DecideGrant(request: RequestId, decision: Decision, id: EntryId, roomActive: bool)
      returns (outcome: Option<Failure>)
      modifies this`accounts, this`entries, this`requests
      ensures Committed(old(State()), LedgerModel.DecideGrant(old(State()), request, decision, id, roomActive),
                        State(), outcome)
    {
      if decision.Approve? && !(GRANT_MIN_POINTS <= decision.amount <= GRANT_MAX_POINTS) {
        return Some(GrantAmountInvalid);
      }
      if request !in requests { return Some(GrantNotFound); }
      var row := requests[request];
      if !row.status.Open? {
        return if SameDecision(row.status, decision) then None else Some(GrantAlreadyDecided);
      }
      if !roomActive { return Some(RoomNotActive); }
      if decision.Deny? {
        requests := requests[request := row.(status := Denied)];
        return None;
      }
      outcome := Post(OwnerGrantEntry(request, row.account, decision.amount, id), Points(decision.amount, 0, 0));
      if outcome.None? {
        requests := requests[request := row.(status := Approved(decision.amount, id))];
      }
    }

    /** `submit` and `persistFreeze`. */
    method SubmitTicket(c: FreezeCommand) returns (outcome: Option<Failure>)
      modifies this`accounts, this`entries, this`tickets
      ensures Committed(old(State()), LedgerModel.SubmitTicket(old(State()), c), State(), outcome)
    {
      if c.account !in accounts { return Some(RoomNotFound); }
      if SubmittedBefore(State(), c) { return None; }
      if !(0 < c.stake <= MAX_TICKET_STAKE_POINTS) { return Some(InvalidStake); }
      if !Decimal.IsPositiveDecimal(c.leg.odds) { return Some(DataUnavailable); }
      if accounts[c.account].available < c.stake { return Some(InsufficientPoints); }
      if c.ticket in tickets { return Some(UniqueViolation); }
      outcome := Post(FreezeEntry(c), Points(-c.stake, c.stake, 0));
      if outcome.None? {
        tickets := tickets[c.ticket := Ticket(c.account, c.fixture, c.requestKey, c.stake, c.leg, Pending, None)];
      }
    }

    /** `persistSettlement`: account, settlement, entry, ticket and receipt, in the order of the statements. */
    method PersistSettlement(w: SettlementWrite) returns (outcome: Option<Failure>)
      modifies this
      ensures Committed(old(State()), LedgerModel.PersistSettlement(old(State()), w), State(), outcome)
    {
      if w.ticket !in tickets || tickets[w.ticket].active.Some? { return Some(SettlementConflict); }
      var row := tickets[w.ticket];
      if row.account !in accounts
        || accounts[row.account].frozen < -w.balance.frozen
        || accounts[row.account].debt + w.balance.debt < 0
      {
        return Some(InsufficientFrozen);
      }
      if !accounts[row.account].Plus(w.balance).NonNegative() { return Some(CheckViolation); }
      if w.recordId in settlements || VersionTaken(settlements, w.ticket, w.version) { return Some(UniqueViolation); }
      var before := State();
      outcome := Post(SettleEntry(row.account, w), w.balance);
      if outcome.Some? { return; }
      var settled := Settlement(w.ticket, w.version, w.outcome, w.gross, w.record, w.recordLedgerId, Active);
      settlements := settlements[w.recordId := settled];
      tickets := tickets[w.ticket := row.(status := Settled, active := Some(w.recordId))];
      var key := OperationKey(w.ticket, w.version, SettleOp);
      if key in operations {
        Rollback(before);
        return Some(UniqueViolation);
      }
      operations := operations[key := SettledReceipt(w.ticket, w.version, w.outcome, w.gross, w.ledgerId)];
    }

    /** `persistReversal`: the settlement row is claimed first, then account, entry, ticket and receipt. */
    method PersistReversal(w: ReversalWrite) returns (outcome: Option<Failure>)
      modifies this
      ensures Committed(old(State()), LedgerModel.PersistReversal(old(State()), w), State(), outcome)
    {
      if w.ticket !in tickets || tickets[w.ticket].active.None? { return Some(SettlementConflict); }
      var row := tickets[w.ticket];
      var id := row.active.value;
      if id !in settlements || settlements[id].ticket != w.ticket || settlements[id].version != w.version
          || settlements[id].status != Active {
        return Some(SettlementConflict);
      }
      var before := State();
      settlements := settlements[id := settlements[id].(status := Reversed)];
      if row.account !in accounts
        || accounts[row.account].available + w.balance.available < 0
        || accounts[row.account].debt + w.balance.debt < 0
      {
        Rollback(before);
        return Some(SettlementConflict);
      }
      if !EntryIdTaken(entries, w.reverses) {
        Rollback(before);
        return Some(CheckViolation);
      }
      outcome := Post(ReversalEntry(row.account, w), w.balance);
      if outcome.Some? {
        Rollback(before);
        return;
      }
      tickets := tickets[w.ticket := row.(status := Pending, active := None)];
      var key := OperationKey(w.ticket, w.version, ReversalOp);
      if key in operations {
        Rollback(before);
        return Some(UniqueViolation);
      }
      operations := operations[key := ReversedReceipt(w.ticket, w.version, w.ledgerId)];
    }

    /** `subscribeWithPoints`: the deduction loop over the locked rows, rolled back as one. */
    method SubscribeWithPoints(rows: seq<AccountKey>, tier: Tier, at: int, ids: seq<EntryId>)
      returns (outcome: Option<Failure>)
      requires |ids| == |rows|
      requires forall i :: 0 <= i < |rows| ==> rows[i] in accounts
      modifies this
      ensures Committed(old(State()), LedgerModel.SubscribeWithPoints(old(State()), rows, tier, at, ids), State(),
                        outcome)
    {
      hide Deduct, LedgerModel.Post, ListedPoints, SubscriptionEntry;
      var before := State();
      if ListedPoints(accounts, rows) < ProPointsPrice(tier) { return Some(InsufficientPoints); }
      assert rows[0..] == rows && ids[0..] == ids;
      var remaining := ProPointsPrice(tier);
      var i := 0;
      while i < |rows| && remaining > 0
        invariant 0 <= i <= |rows|
        invariant Deduct(State(), rows[i..], remaining, tier, at, ids[i..])
                    == Deduct(before, rows, ProPointsPrice(tier), tier, at, ids)
      {
        DeductNext(State(), rows, i, remaining, tier, at, ids);
        if rows[i] !in accounts {
          Rollback(before);
          return Some(RoomNotFound);
        }
        var toDeduct := Min(accounts[rows[i]].available, remaining);
        outcome := Post(SubscriptionEntry(rows[i], tier, at, toDeduct, ids[i]), Points(-toDeduct, 0, 0));
        if outcome.Some? {
          Rollback(before);
          return;
        }
        remaining := remaining - toDeduct;
        i := i + 1;
      }
      DeductDone(State(), rows[i..], remaining, tier, at, ids[i..]);
      outcome := None;
    }

    // -------------------------------------------------------------- the audit

    /** `runAudit`: five passes, each pushing what its query selects. */
    method RunAudit() returns (discrepancies: seq<Discrepancy>)
      ensures forall d :: d in discrepancies <==> Found(State(), d)
    {
      var multiple := AuditActive();
      var links := AuditLinks();
      var balances := AuditBalances();
      var dangling := AuditReversals();
      var unmatched := AuditOperations();
      discrepancies := multiple + links + balances + dangling + unmatched;
    }

    method AuditActive() returns (found: seq<Discrepancy>)
      ensures forall d :: d in found <==> d.MultipleActive? && Found(State(), d)
    {
      found := [];
      var tickets := set s | s in settlements :: settlements[s].ticket;
      var rest := tickets;
      while rest != {}
        invariant rest <= tickets
        invariant forall d :: d in found <==> d.MultipleActive? && d.ticket in tickets - rest && Found(State(), d)
        decreases |rest|
      {
        var t :| t in rest;
        rest := rest - {t};
        if exists s, r | s in settlements && r in settlements ::
             s != r && ActiveFor(settlements, s, t) && ActiveFor(settlements, r, t) {
          found := found + [MultipleActive(t)];
        }
      }
    }

    method AuditLinks() returns (found: seq<Discrepancy>)
      ensures forall d :: d in found <==> d.InvalidLink? && Found(State(), d)
    {
      found := [];
      var rest := tickets.Keys;
      while rest != {}
        invariant rest <= tickets.Keys
        invariant forall d :: d in found <==> d.InvalidLink? && d.ticket !in rest && Found(State(), d)
        decreases |rest|
      {
        var t :| t in rest;
        rest := rest - {t};
        if BadLink(tickets[t], settlements) { found := found + [InvalidLink(t)]; }
      }
    }

    method AuditBalances() returns (found: seq<Discrepancy>)
      ensures forall d :: d in found <==> d.BalanceViolation? && Found(State(), d)
    {
      found := [];
      var rest := accounts.Keys;
      while rest != {}
        invariant rest <= accounts.Keys
        invariant forall d :: d in found <==> d.BalanceViolation? && d.account !in rest && Found(State(), d)
        decreases |rest|
      {
        var a :| a in rest;
        rest := rest - {a};
        if accounts[a] != SumDeltas(entries, a) { found := found + [BalanceViolation(a)]; }
      }
    }

    method AuditReversals() returns (found: seq<Discrepancy>)
      ensures forall d :: d in found <==> d.DanglingReversal? && Found(State(), d)
    {
      found := [];
      for i := 0 to |entries|
        invariant forall d :: d in found <==>
          d.DanglingReversal? && exists j :: 0 <= j < i && entries[j].id == d.entry && Dangles(entries[j], entries)
      {
        if Dangles(entries[i], entries) { found := found + [DanglingReversal(entries[i].id)]; }
      }
    }

    method AuditOperations() returns (found: seq<Discrepancy>)
      ensures forall d :: d in found <==> d.UnmatchedOperation? && Found(State(), d)
    {
      found := [];
      var rest := settlements.Keys;
      while rest != {}
        invariant rest <= settlements.Keys
        invariant forall d :: d in found <==> d.UnmatchedOperation? && d.settlement !in rest && Found(State(), d)
        decreases |rest|
      {
        var s :| s in rest;
        rest := rest - {s};
        if settlements[s].status.Active?
            && SettledKey(settlements[s]) !in operations { found := found + [UnmatchedOperation(s)]; }
      }
    }
  }
}
