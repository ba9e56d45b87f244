/**
 * Settling and reversing: what the plan read under the ticket lock promises about its write,
 * and that the write keeps the invariant whatever happened to the account in between.
 */
module SettlementSteps {
  import opened Common
  import opened LedgerModel
  import opened LedgerInvariant
  import opened LedgerSteps
  import Decimal

  // ---------------------------------------------------------------- what a planned write carries

  /** The three copies of the deltas agree; the stake is released and the gross return is paid. */
  predicate SoundSettlementWrite(w: SettlementWrite, stake: int) {
    && w.record == w.balance == w.ledger
    && w.recordLedgerId == w.ledgerId
    && SoundSettlement(RecordOf(w), stake)
  }

  function RecordOf(w: SettlementWrite): Settlement {
    Settlement(w.ticket, w.version, w.outcome, w.gross, w.record, w.recordLedgerId, Active)
  }

  /** The deltas agree and undo the original: the stake is frozen again, the gross return taken back. */
  predicate SoundReversalWrite(w: ReversalWrite, original: Settlement) {
    && w.balance == w.ledger
    && w.balance.frozen == -original.delta.frozen
    && w.balance.Worth() == -original.delta.Worth()
    && 0 <= -w.balance.available <= original.delta.available
    && w.version == original.version
    && w.reverses == original.ledgerId
  }

  /** What a planned settlement needs of its ticket at the moment it is written. */
  ghost predicate SettleReady(db: Db, w: SettlementWrite) {
    && w.ticket in db.tickets
    && db.tickets[w.ticket].active.None?
    && SoundSettlementWrite(w, db.tickets[w.ticket].stake)
    && OperationKey(w.ticket, w.version, SettleOp) !in db.operations
  }

  ghost predicate ReverseReady(db: Db, w: ReversalWrite) {
    && w.ticket in db.tickets
    && db.tickets[w.ticket].active.Some?
    && db.tickets[w.ticket].active.value in db.settlements
    && SoundReversalWrite(w, db.settlements[db.tickets[w.ticket].active.value])
    && OperationKey(w.ticket, w.version, ReversalOp) !in db.operations
  }

  /** What an outcome is worth to a ticket: nothing, its stake back, or stake times odds rounded half up. */
  ghost function Payout(row: Ticket, outcome: Outcome): int {
    match outcome
    case Loss => 0
    case Push => row.stake
    case Cancel => row.stake
    case Win =>
      if row.stake >= 0 && Decimal.MatchesPattern(row.leg.odds)
      then Decimal.HalfUp(row.stake * Decimal.Numerator(row.leg.odds), Decimal.Denominator(row.leg.odds))
      else 0
  }

  /** The gross return is that, or refused where it is no safe integer. */
  lemma GrossReturnIsPayout(row: Ticket, outcome: Outcome)
    requires SoundTicket(row)
    ensures Payout(row, outcome) >= 0
    ensures GrossReturn(row, outcome)
         == if Payout(row, outcome) <= Decimal.MAX_SAFE_INTEGER then Ok(Payout(row, outcome)) else Err(InvalidOdds)
  {
    if outcome.Win? {
      hide Decimal.IsHalfUp, Decimal.MultiplyByDecimal, Decimal.HalfUp;
      Decimal.RefusedExactlyWhenNotPositive(row.stake, row.leg.odds);
      Decimal.RoundsTheExactProduct(row.stake, row.leg.odds);
      var p, d := row.stake * Decimal.Numerator(row.leg.odds), Decimal.Denominator(row.leg.odds);
      var r :| Decimal.IsHalfUp(p, d, r)
        && Decimal.MultiplyByDecimal(row.stake, row.leg.odds)
             == if r > Decimal.MAX_SAFE_INTEGER then Err(Decimal.ResultOutOfRange) else Ok(r);
      Decimal.HalfUpIsUnique(p, d, r, Decimal.HalfUp(p, d));
    }
  }

  lemma PlanSettleIsReady(db: Db, t: TicketId, v: Version, outcome: Outcome, recordId: SettlementId, entryId: EntryId)
    requires TicketsInv(db.accounts, db.tickets, db.settlements)
    requires forall a :: a in db.accounts ==> db.accounts[a].NonNegative()
    requires PlanSettle(db, t, v, outcome, recordId, entryId).Ok?
             && PlanSettle(db, t, v, outcome, recordId, entryId).value.Settle?
    ensures SettleReady(db, PlanSettle(db, t, v, outcome, recordId, entryId).value.settle)
    ensures PlanSettle(db, t, v, outcome, recordId, entryId).value.settle.ticket == t
    ensures PlanSettle(db, t, v, outcome, recordId, entryId).value.settle.outcome == outcome
    ensures PlanSettle(db, t, v, outcome, recordId, entryId).value.settle.gross == Payout(db.tickets[t], outcome)
  {
    GrossReturnIsPayout(db.tickets[t], outcome);
    hide Payout;
  }

  lemma PlanReverseIsReady(db: Db, t: TicketId, v: Version, entryId: EntryId)
    requires TicketsInv(db.accounts, db.tickets, db.settlements) && SettlementsInv(db.tickets, db.settlements)
    requires forall a :: a in db.accounts ==> db.accounts[a].NonNegative()
    requires PlanReverse(db, t, v, entryId).Ok? && PlanReverse(db, t, v, entryId).value.Reverse?
    ensures ReverseReady(db, PlanReverse(db, t, v, entryId).value.reverse)
    ensures PlanReverse(db, t, v, entryId).value.reverse.ticket == t
  {
  }

  // ---------------------------------------------------------------- settling

  lemma SettledRows(accounts: map<AccountKey, Points>, tickets: map<TicketId, Ticket>, settlements: map<SettlementId,
                    Settlement>,
                    t: TicketId, id: SettlementId, record: Settlement)
    requires TicketsInv(accounts, tickets, settlements) && SettlementsInv(tickets, settlements)
    requires t in tickets && tickets[t].active.None? && id !in settlements
    requires record.ticket == t && record.status.Active? && SoundSettlement(record, tickets[t].stake)
    ensures TicketsInv(accounts, tickets[t := tickets[t].(status := Settled, active := Some(id))],
                       settlements[id := record])
    ensures SettlementsInv(tickets[t := tickets[t].(status := Settled, active := Some(id))], settlements[id := record])
  {
    assert SoundTicket(tickets[t].(status := Settled, active := Some(id)));
    hide SoundSettlement, SoundTicket;
  }

  lemma MoreClaims(settlements: map<SettlementId, Settlement>, settlements': map<SettlementId, Settlement>,
                   t: TicketId, v: Version)
    requires VersionTaken(settlements, t, v) && settlements.Keys <= settlements'.Keys
    requires forall s :: s in settlements ==> SameClaim(settlements'[s], settlements[s])
    ensures VersionTaken(settlements', t, v)
  {
    var s :| s in settlements && settlements[s].ticket == t && settlements[s].version == v;
    assert settlements'[s].ticket == t && settlements'[s].version == v;
  }

  lemma SettledClaims(settlements: map<SettlementId, Settlement>, operations: map<OperationKey, Receipt>,
                      id: SettlementId, record: Settlement, receipt: Receipt)
    requires UniqueVersions(settlements) && OperationsInv(settlements, operations)
    requires id !in settlements && record.status.Active? && receipt.SettledReceipt?
    requires !VersionTaken(settlements, record.ticket, record.version)
    ensures UniqueVersions(settlements[id := record])
    ensures OperationsInv(settlements[id := record], operations[SettledKey(record) := receipt])
  {
    var settlements', operations' := settlements[id := record], operations[SettledKey(record) := receipt];
    assert ReversedKey(record) !in operations;
    assert VersionTaken(settlements', record.ticket, record.version) by { assert settlements'[id] == record; }
    forall k | k in operations
      ensures VersionTaken(settlements', k.ticket, k.version)
    {
      MoreClaims(settlements, settlements', k.ticket, k.version);
    }
    hide VersionTaken;
  }

  /** Settling appends a settlement entry to a history that ended open. */
  lemma SettledHistory(h: seq<Entry>, e: Entry, t: TicketId, row: Ticket, settlements: map<SettlementId, Settlement>,
                       id: SettlementId, record: Settlement)
    requires GoodHistory(h, t, row, settlements) && row.active.None?
    requires e.account == row.account && e.kind.SettlementEntry? && e.amount == record.gross && e.delta == record.delta
    requires e.id == record.ledgerId && e.version == Some(record.version) && SoundSettlement(record, row.stake)
    ensures GoodHistory(h + [e], t, row.(status := Settled, active := Some(id)), settlements[id := record])
  {
    var row' := row.(status := Settled, active := Some(id));
    forall i | 0 <= i < |h + [e]|
      ensures GoodStep(h + [e], i, t, row')
    {
      if i < |h| { assert GoodStep(h, i, t, row); }
    }
  }

  lemma SettledHistories(db: Db, w: SettlementWrite)
    requires HistoryInv(db.entries, db.tickets, db.settlements) && SettleReady(db, w) && w.recordId !in db.settlements
    ensures HistoryInv(db.entries + [SettleEntry(db.tickets[w.ticket].account, w)],
                       db.tickets[w.ticket := db.tickets[w.ticket].(status := Settled, active := Some(w.recordId))],
                       db.settlements[w.recordId := RecordOf(w)])
  {
    var t, row, record := w.ticket, db.tickets[w.ticket], RecordOf(w);
    var e := SettleEntry(row.account, w);
    var tickets' := db.tickets[t := row.(status := Settled, active := Some(w.recordId))];
    SettledHistory(History(db.entries, t), e, t, row, db.settlements, w.recordId, record);
    hide GoodHistory, SoundSettlement, History;
    forall u | u in tickets'
      ensures GoodHistory(History(db.entries + [e], u), u, tickets'[u], db.settlements[w.recordId := record])
    {
      AppendHistory(db.entries, e, u);
      if u != t {
        OtherHistory(db.entries, e, u, db.tickets[u], db.settlements);
        FreshSettlement(History(db.entries + [e], u), u, db.tickets[u], db.settlements, w.recordId, record);
      }
    }
  }

  lemma FreshSettlement(h: seq<Entry>, t: TicketId, row: Ticket, settlements: map<SettlementId, Settlement>,
                        id: SettlementId, record: Settlement)
    requires GoodHistory(h, t, row, settlements) && id !in settlements
    ensures GoodHistory(h, t, row, settlements[id := record])
  {
    hide GoodStep;
  }

  lemma SettledStandings(accounts: map<AccountKey, Points>, tickets: map<TicketId, Ticket>,
                         settlements: map<SettlementId, Settlement>,
                         id: SettlementId, record: Settlement)
    requires TicketsInv(accounts, tickets, settlements) && id !in settlements
    ensures forall u, a :: u in tickets ==>
              Standing(tickets[u], settlements[id := record], a) == Standing(tickets[u], settlements, a)
  {
    hide SoundTicket;
  }

  lemma SettledBalances(db: Db, w: SettlementWrite)
    requires FrozenInv(db.accounts, db.tickets) && WorthInv(db.accounts, db.entries, db.tickets, db.settlements)
    requires TicketsInv(db.accounts, db.tickets, db.settlements) && SettleReady(db, w) && w.recordId !in db.settlements
    ensures var row := db.tickets[w.ticket];
            var tickets' := db.tickets[w.ticket := row.(status := Settled, active := Some(w.recordId))];
            var accounts' := db.accounts[row.account := db.accounts[row.account].Plus(w.balance)];
            FrozenInv(accounts', tickets')
            && WorthInv(accounts', db.entries + [SettleEntry(row.account, w)], tickets',
                        db.settlements[w.recordId := RecordOf(w)])
  {
    var row, e := db.tickets[w.ticket], SettleEntry(db.tickets[w.ticket].account, w);
    var row' := row.(status := Settled, active := Some(w.recordId));
    assert row.status.Pending? && row.account in db.accounts;
    assert w.balance.frozen == -row.stake && e.delta.Worth() == w.gross - row.stake;
    SettledStandings(db.accounts, db.tickets, db.settlements, w.recordId, RecordOf(w));
    hide TicketsInv, FrozenInv, WorthInv, SoundSettlementWrite, Total, Standings, PendingStakes;
    TicketFrozen(db.accounts, db.tickets, w.ticket, row', w.balance);
    TicketWorth(db.accounts, db.entries, e, db.tickets, db.settlements, w.ticket, row',
                db.settlements[w.recordId := RecordOf(w)]);
  }

  lemma AccountOfTicket(db: Db, t: TicketId)
    requires TicketsInv(db.accounts, db.tickets, db.settlements) && t in db.tickets
    ensures db.tickets[t].account in db.accounts
  {
  }

  /** A planned settlement, applied later to whatever the account has become, keeps the invariant. */
  lemma SettleKeeps(db: Db, w: SettlementWrite)
    requires Inv(db) && SettleReady(db, w) && PersistSettlement(db, w).Ok?
    ensures Inv(PersistSettlement(db, w).value)
  {
    hide MoneyInv, DistinctEntries, TicketsInv, SettlementsInv, UniqueVersions, OperationsInv, EntriesInv, RequestsInv,
      FrozenInv, WorthInv, HistoryInv;
    hide SoundSettlement, SoundTicket, Total, History, SumDeltas, SumAmounts;
    var row, record := db.tickets[w.ticket], RecordOf(w);
    var e := SettleEntry(row.account, w);
    var db' := PersistSettlement(db, w).value;
    AccountOfTicket(db, w.ticket);
    SettledRows(db.accounts, db.tickets, db.settlements, w.ticket, w.recordId, record);
    MoreAccounts(db.accounts, db.entries, db'.tickets, db'.settlements, db.requests, db'.accounts);
    SettledClaims(db.settlements, db.operations, w.recordId, record, db'.operations[SettledKey(record)]);
    MoreTickets(db.entries, db.tickets, db.operations, db.requests, db'.tickets, db'.operations);
    AppendEntries(db.entries, e, db'.tickets, db'.operations, db.requests);
    AppendRequests(db.entries, e, db.requests, db.accounts, db'.accounts);
    PostMoney(db.accounts, db.entries, e);
    AppendDistinct(db.entries, e);
    SettledBalances(db, w);
    SettledHistories(db, w);
  }

  // ---------------------------------------------------------------- reversing

  lemma ReversedRows(accounts: map<AccountKey, Points>, tickets: map<TicketId, Ticket>,
                     settlements: map<SettlementId, Settlement>, t: TicketId)
    requires TicketsInv(accounts, tickets, settlements) && SettlementsInv(tickets, settlements)
    requires t in tickets && tickets[t].active.Some?
    ensures var id := tickets[t].active.value;
            TicketsInv(accounts, tickets[t := tickets[t].(status := Pending, active := None)],
                       settlements[id := settlements[id].(status := Reversed)])
    ensures var id := tickets[t].active.value;
            SettlementsInv(tickets[t := tickets[t].(status := Pending, active := None)],
                           settlements[id := settlements[id].(status := Reversed)])
  {
    var id := tickets[t].active.value;
    assert SoundTicket(tickets[t].(status := Pending, active := None));
    assert SoundSettlement(settlements[id].(status := Reversed), tickets[t].stake);
    hide SoundSettlement, SoundTicket;
  }

  lemma ReversedVersions(settlements: map<SettlementId, Settlement>, id: SettlementId)
    requires UniqueVersions(settlements) && id in settlements
    ensures UniqueVersions(settlements[id := settlements[id].(status := Reversed)])
  {
    var settlements' := settlements[id := settlements[id].(status := Reversed)];
    forall s, r | s in settlements' && r in settlements' && SameClaim(settlements'[s], settlements'[r])
      ensures s == r
    {
      assert SameClaim(settlements[s], settlements[r]);
    }
  }

  lemma ReversedClaims(settlements: map<SettlementId, Settlement>, operations: map<OperationKey, Receipt>,
                       id: SettlementId, receipt: Receipt)
    requires UniqueVersions(settlements) && OperationsInv(settlements, operations)
    requires id in settlements && settlements[id].status.Active? && receipt.ReversedReceipt?
    ensures OperationsInv(settlements[id := settlements[id].(status := Reversed)],
                          operations[ReversedKey(settlements[id]) := receipt])
  {
    var settlements' := settlements[id := settlements[id].(status := Reversed)];
    var operations' := operations[ReversedKey(settlements[id]) := receipt];
    assert VersionTaken(settlements, settlements[id].ticket, settlements[id].version);
    forall k | k in operations'
      ensures VersionTaken(settlements', k.ticket, k.version)
    {
      MoreClaims(settlements, settlements', k.ticket, k.version);
    }
    hide VersionTaken;
    forall s | s in settlements'
      ensures SettledKey(settlements'[s]) in operations'
      ensures settlements'[s].status.Reversed? <==> ReversedKey(settlements'[s]) in operations'
    {
      assert SettledKey(settlements'[s]) == SettledKey(settlements[s])
          && ReversedKey(settlements'[s]) == ReversedKey(settlements[s]);
      if s != id { assert !SameClaim(settlements[s], settlements[id]); }
    }
  }

  lemma ReversedHistory(h: seq<Entry>, e: Entry, t: TicketId, row: Ticket, settlements: map<SettlementId,
                        Settlement>, settlements': map<SettlementId, Settlement>)
    requires GoodHistory(h, t, row, settlements) && row.active.Some? && row.active.value in settlements
    requires var s := settlements[row.active.value];
             && SoundSettlement(s, row.stake)
             && e.version == Some(s.version) && e.reverses == Some(s.ledgerId)
             && e.delta.frozen == -s.delta.frozen && e.delta.Worth() == -s.delta.Worth()
    requires e.account == row.account && e.kind.SettlementReversal?
    ensures GoodHistory(h + [e], t, row.(status := Pending, active := None), settlements')
  {
    var row' := row.(status := Pending, active := None);
    forall i | 0 <= i < |h + [e]|
      ensures GoodStep(h + [e], i, t, row')
    {
      if i < |h| { assert GoodStep(h, i, t, row); }
    }
  }

  lemma SameLedger(h: seq<Entry>, t: TicketId, row: Ticket, settlements: map<SettlementId, Settlement>,
                   id: SettlementId)
    requires GoodHistory(h, t, row, settlements) && id in settlements
    ensures GoodHistory(h, t, row, settlements[id := settlements[id].(status := Reversed)])
  {
    hide GoodStep;
  }

  lemma ReversedHistories(db: Db, w: ReversalWrite)
    requires HistoryInv(db.entries, db.tickets, db.settlements) && SettlementsInv(db.tickets, db.settlements)
    requires TicketsInv(db.accounts, db.tickets, db.settlements) && ReverseReady(db, w)
    ensures var id := db.tickets[w.ticket].active.value;
            HistoryInv(db.entries + [ReversalEntry(db.tickets[w.ticket].account, w)],
                       db.tickets[w.ticket := db.tickets[w.ticket].(status := Pending, active := None)],
                       db.settlements[id := db.settlements[id].(status := Reversed)])
  {
    var t, row := w.ticket, db.tickets[w.ticket];
    var id := row.active.value;
    var e := ReversalEntry(row.account, w);
    var tickets' := db.tickets[t := row.(status := Pending, active := None)];
    var settlements' := db.settlements[id := db.settlements[id].(status := Reversed)];
    assert SoundSettlement(db.settlements[id], row.stake);
    hide SoundSettlement, SoundTicket, History, TicketsInv, SettlementsInv;
    ReversedHistory(History(db.entries, t), e, t, row, db.settlements, settlements');
    hide GoodHistory;
    forall u | u in tickets'
      ensures GoodHistory(History(db.entries + [e], u), u, tickets'[u], settlements')
    {
      AppendHistory(db.entries, e, u);
      if u != t {
        OtherHistory(db.entries, e, u, db.tickets[u], db.settlements);
        SameLedger(History(db.entries + [e], u), u, db.tickets[u], db.settlements, id);
      }
    }
  }

  /** The reversal's delta against the ticket it concerns. */
  lemma ReversalDelta(db: Db, w: ReversalWrite)
    requires TicketsInv(db.accounts, db.tickets, db.settlements) && SettlementsInv(db.tickets, db.settlements)
    requires ReverseReady(db, w)
    ensures var row := db.tickets[w.ticket];
            && row.account in db.accounts && row.status.Settled?
            && w.balance == w.ledger && w.balance.frozen == row.stake
            && w.ledger.Worth() == -Standing(row, db.settlements, row.account)
  {
  }

  lemma ReversedFrozen(db: Db, w: ReversalWrite, row': Ticket)
    requires FrozenInv(db.accounts, db.tickets) && TicketsInv(db.accounts, db.tickets, db.settlements)
    requires SettlementsInv(db.tickets, db.settlements) && ReverseReady(db, w)
    requires row' == db.tickets[w.ticket].(status := Pending, active := None)
    ensures FrozenInv(db.accounts[row'.account := db.accounts[row'.account].Plus(w.balance)],
                      db.tickets[w.ticket := row'])
  {
    ReversalDelta(db, w);
    hide TicketsInv, SettlementsInv, FrozenInv, ReverseReady, Standing;
    TicketFrozen(db.accounts, db.tickets, w.ticket, row', w.balance);
  }

  lemma ReversedStandings(settlements: map<SettlementId, Settlement>, id: SettlementId)
    requires id in settlements
    ensures forall row: Ticket,
              a :: Standing(row, settlements[id := settlements[id].(status := Reversed)], a)
                   == Standing(row, settlements, a)
  {
  }

  lemma ReversedWorth(db: Db, w: ReversalWrite, row': Ticket, id: SettlementId)
    requires WorthInv(db.accounts, db.entries, db.tickets, db.settlements)
    requires TicketsInv(db.accounts, db.tickets, db.settlements)
    requires SettlementsInv(db.tickets, db.settlements) && ReverseReady(db, w)
    requires row' == db.tickets[w.ticket].(status := Pending, active := None) && db.tickets[w.ticket].active == Some(id)
    ensures WorthInv(db.accounts[row'.account := db.accounts[row'.account].Plus(w.balance)],
                     db.entries + [ReversalEntry(row'.account, w)], db.tickets[w.ticket := row'],
                     db.settlements[id := db.settlements[id].(status := Reversed)])
  {
    ReversalDelta(db, w);
    ReversedStandings(db.settlements, id);
    var settlements' := db.settlements[id := db.settlements[id].(status := Reversed)];
    assert Standing(row', settlements', row'.account) == 0;
    hide TicketsInv, SettlementsInv, WorthInv, Standing, SoundReversalWrite;
    TicketWorth(db.accounts, db.entries, ReversalEntry(row'.account, w), db.tickets, db.settlements, w.ticket, row',
                settlements');
  }

  /** A planned reversal keeps the invariant too. */
  lemma ReverseKeeps(db: Db, w: ReversalWrite)
    requires Inv(db) && ReverseReady(db, w) && PersistReversal(db, w).Ok?
    ensures Inv(PersistReversal(db, w).value)
  {
    hide MoneyInv, DistinctEntries, TicketsInv, SettlementsInv, UniqueVersions, OperationsInv, EntriesInv, RequestsInv,
      FrozenInv, WorthInv, HistoryInv;
    hide SoundSettlement, SoundTicket, Total, History, SumDeltas, SumAmounts;
    var row := db.tickets[w.ticket];
    var e := ReversalEntry(row.account, w);
    var db' := PersistReversal(db, w).value;
    AccountOfTicket(db, w.ticket);
    ReversedRows(db.accounts, db.tickets, db.settlements, w.ticket);
    MoreAccounts(db.accounts, db.entries, db'.tickets, db'.settlements, db.requests, db'.accounts);
    ReversedVersions(db.settlements, row.active.value);
    ReversedClaims(db.settlements, db.operations, row.active.value,
                   db'.operations[OperationKey(w.ticket, w.version, ReversalOp)]);
    MoreTickets(db.entries, db.tickets, db.operations, db.requests, db'.tickets, db'.operations);
    AppendEntries(db.entries, e, db'.tickets, db'.operations, db.requests);
    AppendRequests(db.entries, e, db.requests, db.accounts, db'.accounts);
    PostMoney(db.accounts, db.entries, e);
    AppendDistinct(db.entries, e);
    ReversedFrozen(db, w, db'.tickets[w.ticket]);
    ReversedWorth(db, w, db'.tickets[w.ticket], row.active.value);
    ReversalDelta(db, w);
    ReversedHistories(db, w);
  }
}
