/**
 * What a stored receipt is worth: it names the entry that was written and what it paid, and a
 * repeated request gets exactly that back.
 */
module LedgerReceipts {
  import opened Common
  import opened LedgerModel
  import opened LedgerInvariant
  import opened SettlementSteps
  import opened LedgerMachine

  ghost predicate HasEntry(entries: seq<Entry>, id: EntryId, key: EntryKey, amount: int) {
    exists i :: 0 <= i < |entries| && entries[i].id == id && entries[i].key == key && entries[i].amount == amount
  }

  /** A receipt is stored under its own key and names an entry with that key and amount. */
  ghost predicate Backed(entries: seq<Entry>, k: OperationKey, receipt: Receipt) {
    match receipt
    case SettledReceipt(t, v, _, gross, id) => k == OperationKey(t, v, SettleOp)
                                               && HasEntry(entries, id, SettleKey(t, v), gross)
    case ReversedReceipt(t, v, id) => k == OperationKey(t, v, ReversalOp) && HasEntry(entries, id, ReverseKey(t, v), 0)
  }

  function ReceiptOf(s: Settlement): Receipt { SettledReceipt(s.ticket, s.version, s.outcome, s.gross, s.ledgerId) }

  ghost predicate ReceiptsInv(db: Db) {
    && (forall k :: k in db.operations ==> Backed(db.entries, k, db.operations[k]))
    && (forall s :: s in db.settlements ==>
          SettledKey(db.settlements[s]) in db.operations
              && db.operations[SettledKey(db.settlements[s])] == ReceiptOf(db.settlements[s]))
  }

  // ---------------------------------------------------------------- receipts are kept

  lemma BackedStays(entries: seq<Entry>, entries': seq<Entry>, k: OperationKey, receipt: Receipt)
    requires Backed(entries, k, receipt) && entries <= entries'
    ensures Backed(entries', k, receipt)
  {
    var id := receipt.ledgerId;
    var key := if receipt.SettledReceipt? then SettleKey(receipt.ticket, receipt.version)
        else ReverseKey(receipt.ticket, receipt.version);
    var amount := if receipt.SettledReceipt? then receipt.gross else 0;
    var i :| 0 <= i < |entries| && entries[i].id == id && entries[i].key == key && entries[i].amount == amount;
    assert entries'[i] == entries[i];
  }

  /** Transactions that settle nothing append entries and leave settlements and receipts alone. */
  lemma AppendKeeps(db: Db, db': Db)
    requires ReceiptsInv(db) && db.entries <= db'.entries && db'.operations == db.operations
    requires db'.settlements == db.settlements
    ensures ReceiptsInv(db')
  {
    hide Backed;
    forall k | k in db.operations ensures Backed(db'.entries, k, db.operations[k]) {
      BackedStays(db.entries, db'.entries, k, db.operations[k]);
    }
  }

  lemma PersistSettlementWrites(db: Db, w: SettlementWrite)
    requires PersistSettlement(db, w).Ok?
    ensures var db' := PersistSettlement(db, w).value;
            && w.ticket in db.tickets
            && db'.entries == db.entries + [SettleEntry(db.tickets[w.ticket].account, w)]
            && db'.operations == db.operations[OperationKey(w.ticket, w.version, SettleOp) :=
                                              SettledReceipt(w.ticket, w.version, w.outcome, w.gross, w.ledgerId)]
            && OperationKey(w.ticket, w.version, SettleOp) !in db.operations
            && w.recordId !in db.settlements
            && db'.settlements == db.settlements[w.recordId :=
                 Settlement(w.ticket, w.version, w.outcome, w.gross, w.record, w.recordLedgerId, Active)]
  {
  }

  lemma SettlementBacks(db: Db, w: SettlementWrite)
    requires ReceiptsInv(db) && SettleReady(db, w) && PersistSettlement(db, w).Ok?
    ensures ReceiptsInv(PersistSettlement(db, w).value)
  {
    PersistSettlementWrites(db, w);
    hide PersistSettlement, Backed;
    var db' := PersistSettlement(db, w).value;
    var key := OperationKey(w.ticket, w.version, SettleOp);
    forall k | k in db'.operations ensures Backed(db'.entries, k, db'.operations[k]) {
      if k == key {
        NewBacked(db.entries, SettleEntry(db.tickets[w.ticket].account, w), k, db'.operations[k]);
      } else {
        BackedStays(db.entries, db'.entries, k, db.operations[k]);
      }
    }
  }

  lemma NewBacked(entries: seq<Entry>, e: Entry, k: OperationKey, receipt: Receipt)
    requires receipt.ledgerId == e.id
    requires match receipt
             case SettledReceipt(t, v, _, gross, _) =>
               k == OperationKey(t, v, SettleOp) && e.key == SettleKey(t, v) && e.amount == gross
             case ReversedReceipt(t, v, _) =>
               k == OperationKey(t, v, ReversalOp) && e.key == ReverseKey(t, v) && e.amount == 0
    ensures Backed(entries + [e], k, receipt)
  {
    assert (entries + [e])[|entries|] == e;
  }

  lemma PersistReversalWrites(db: Db, w: ReversalWrite)
    requires PersistReversal(db, w).Ok?
    ensures var db' := PersistReversal(db, w).value;
            && w.ticket in db.tickets
            && db'.entries == db.entries + [ReversalEntry(db.tickets[w.ticket].account, w)]
            && db'.operations == db.operations[OperationKey(w.ticket, w.version,
                  ReversalOp) := ReversedReceipt(w.ticket, w.version, w.ledgerId)]
            && db'.settlements.Keys == db.settlements.Keys
            && (forall s :: s in db.settlements ==>
                db'.settlements[s] == db.settlements[s].(status := db'.settlements[s].status))
  {
  }

  lemma ReversalBacks(db: Db, w: ReversalWrite)
    requires ReceiptsInv(db) && PersistReversal(db, w).Ok?
    ensures ReceiptsInv(PersistReversal(db, w).value)
  {
    PersistReversalWrites(db, w);
    hide PersistReversal, Backed;
    var db' := PersistReversal(db, w).value;
    forall k | k in db'.operations ensures Backed(db'.entries, k, db'.operations[k]) {
      if k == OperationKey(w.ticket, w.version, ReversalOp) {
        NewBacked(db.entries, ReversalEntry(db.tickets[w.ticket].account, w), k, db'.operations[k]);
      } else {
        BackedStays(db.entries, db'.entries, k, db.operations[k]);
      }
    }
  }

  lemma {:induction false} DeductAppends(db: Db, rows: seq<AccountKey>, remaining: int, tier: Tier, at: int,
                                         ids: seq<EntryId>)
    requires |ids| == |rows| && Deduct(db, rows, remaining, tier, at, ids).Ok?
    ensures db.entries <= Deduct(db, rows, remaining, tier, at, ids).value.entries
    decreases |rows|
  {
    if remaining > 0 && rows != [] {
      var amount := Min(db.accounts[rows[0]].available, remaining);
      var posted := Post(db, SubscriptionEntry(rows[0], tier, at, amount, ids[0]), Points(-amount, 0, 0));
      DeductAppends(posted.value, rows[1..], remaining - amount, tier, at, ids[1..]);
    }
  }

  lemma OtherStepAppends(w: World, step: Step)
    requires !IsSettlementStep(step)
    ensures w.db.entries <= Next(w, step).db.entries
  {
    hide Deduct;
    if step.Subscribe? && MaySubscribe(w.db, step.user, step.rows, step.entryIds)
        && SubscribeWithPoints(w.db, step.rows, step.tier, step.at, step.entryIds).Ok? {
      DeductAppends(w.db, step.rows, ProPointsPrice(step.tier), step.tier, step.at, step.entryIds);
    }
  }

  lemma StepKeepsReceipts(w: World, step: Step)
    requires WorldInv(w) && ReceiptsInv(w.db)
    ensures ReceiptsInv(Next(w, step).db)
  {
    hide Inv, ReceiptsInv, SettleReady, ReverseReady;
    if !IsSettlementStep(step) {
      OtherStepKeeps(w, step);
      OtherStepAppends(w, step);
      hide Next;
      AppendKeeps(w.db, Next(w, step).db);
    } else if step.Write? && step.ticket in w.flights && w.flights[step.ticket].Planned? {
      assert FlightOk(w.db, step.ticket, w.flights[step.ticket]);
      WriteKeepsReceipts(w.db, w.flights[step.ticket].plan);
    }
  }

  lemma WriteKeepsReceipts(db: Db, plan: Plan)
    requires ReceiptsInv(db) && (plan.Settle? ==> SettleReady(db, plan.settle))
    ensures ReceiptsInv(Commit(db, ApplyPlan(db, plan)))
  {
    hide ReceiptsInv, SettleReady, PersistSettlement, PersistReversal;
    match plan
    case Replay(_) =>
    case Settle(write) => if PersistSettlement(db, write).Ok? { SettlementBacks(db, write); }
    case Reverse(write) => if PersistReversal(db, write).Ok? { ReversalBacks(db, write); }
  }

  /** In every reachable state each receipt names its entry, and each settlement has its receipt. */
  lemma {:induction false} ReceiptsAreTrue(steps: seq<Step>)
    ensures ReceiptsInv(Run(steps).db)
  {
    hide WorldInv, Next;
    if steps != [] {
      ReceiptsAreTrue(steps[..|steps| - 1]);
      RunKeeps(steps[..|steps| - 1]);
      StepKeepsReceipts(Run(steps[..|steps| - 1]), steps[|steps| - 1]);
    }
  }

  // ---------------------------------------------------------------- repeated requests

  /** Repeating the settlement that stands, with any outcome, gets its receipt back and writes nothing. */
  lemma RepeatedSettlementReplays(steps: seq<Step>, t: TicketId, v: Version, outcome: Outcome,
                                  recordId: SettlementId, entryId: EntryId)
    requires var db := Run(steps).db; t in db.tickets && ActiveVersion(db, t) == Some(v)
                                      && db.tickets[t].account in db.accounts && ReadableState(db, t)
    ensures var db := Run(steps).db;
            PlanSettle(db, t, v, outcome, recordId, entryId)
                == Ok(Replay(ReceiptOf(db.settlements[db.tickets[t].active.value])))
  {
    hide Run, ReadableState;
    ReceiptsAreTrue(steps);
    RunKeeps(steps);
    hide WorldInv;
    LinkedTicket(Run(steps), t);
    hide ReceiptsInv;
    ReceiptOfActive(Run(steps).db, t, v);
  }

  lemma LinkedTicket(w: World, t: TicketId)
    requires WorldInv(w) && t in w.db.tickets && w.db.tickets[t].active.Some?
    ensures w.db.tickets[t].active.value in w.db.settlements
    ensures w.db.settlements[w.db.tickets[t].active.value].ticket == t
  {
    hide Inv, FlightOk, SettlementsInv;
    TicketsOf(w.db);
  }

  lemma ReceiptOfActive(db: Db, t: TicketId, v: Version)
    requires ReceiptsInv(db) && t in db.tickets && db.tickets[t].active.Some?
    requires db.tickets[t].active.value in db.settlements
    requires db.settlements[db.tickets[t].active.value].ticket == t
    requires db.settlements[db.tickets[t].active.value].version == v
    ensures var k := OperationKey(t, v, SettleOp);
            k in db.operations && db.operations[k] == ReceiptOf(db.settlements[db.tickets[t].active.value])
  {
    hide Backed;
  }

  /** Repeating a reversal gets a receipt that names the entry the reversal wrote, and writes nothing. */
  lemma RepeatedReversalReplays(steps: seq<Step>, t: TicketId, v: Version, entryId: EntryId)
    requires var db := Run(steps).db; OperationKey(t, v, ReversalOp) in db.operations && t in db.tickets
    ensures var db := Run(steps).db;
            exists id :: PlanReverse(db, t, v, entryId) == Ok(Replay(ReversedReceipt(t, v, id)))
                         && HasEntry(db.entries, id, ReverseKey(t, v), 0)
  {
    hide Run, HasEntry;
    ReceiptsAreTrue(steps);
    var db := Run(steps).db;
    var k := OperationKey(t, v, ReversalOp);
    assert Backed(db.entries, k, db.operations[k]);
    assert PlanReverse(db, t, v, entryId) == Ok(Replay(db.operations[k]));
    var id := db.operations[k].ledgerId;
    assert db.operations[k] == ReversedReceipt(t, v, id);
  }
}
