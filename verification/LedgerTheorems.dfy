/** What the invariant gives for every run of the ledger, under every interleaving. */
module LedgerTheorems {
  import opened Common
  import opened LedgerModel
  import opened LedgerInvariant
  import opened SettlementSteps
  import opened LedgerMachine

  // ---------------------------------------------------------------- entries and histories

  lemma {:induction false} HistoryMembers(entries: seq<Entry>, t: TicketId, e: Entry)
    ensures e in History(entries, t) <==> e in entries && e.ticket == Some(t)
  {
    if entries != [] {
      var last := entries[|entries| - 1];
      HistoryMembers(entries[..|entries| - 1], t, e);
      assert entries == entries[..|entries| - 1] + [last];
    }
  }

  lemma {:induction false} HistoryDistinct(entries: seq<Entry>, t: TicketId)
    requires DistinctEntries(entries)
    ensures DistinctEntries(History(entries, t))
  {
    if entries != [] {
      var front, last := entries[..|entries| - 1], entries[|entries| - 1];
      HistoryDistinct(front, t);
      var h := History(front, t);
      forall i | 0 <= i < |h|
        ensures h[i].id != last.id && h[i].key != last.key
      {
        HistoryMembers(front, t, h[i]);
        var j :| 0 <= j < |front| && front[j] == h[i];
      }
    }
  }

  // ---------------------------------------------------------------- the audit

  datatype Discrepancy =
    | MultipleActive(ticket: TicketId)
    | InvalidLink(ticket: TicketId)
    | BalanceViolation(account: AccountKey)
    | DanglingReversal(entry: EntryId)
    | UnmatchedOperation(settlement: SettlementId)

  predicate ActiveFor(settlements: map<SettlementId, Settlement>, s: SettlementId, t: TicketId) {
    s in settlements && settlements[s].ticket == t && settlements[s].status.Active?
  }

  predicate BadLink(row: Ticket, settlements: map<SettlementId, Settlement>) {
    || (row.status.Settled? && (row.active.None? || row.active.value !in settlements
                                || !settlements[row.active.value].status.Active?))
    || (row.status.Pending? && row.active.Some?)
  }

  predicate Dangles(e: Entry, entries: seq<Entry>) {
    e.kind.SettlementReversal? && (e.reverses.None? || !EntryIdTaken(entries, e.reverses.value))
  }

  /** What each of the audit's five queries selects. */
  ghost predicate Found(db: Db, d: Discrepancy) {
    match d
    case MultipleActive(t) => exists s, r :: s != r && ActiveFor(db.settlements, s, t)
                                             && ActiveFor(db.settlements, r, t)
    case InvalidLink(t) => t in db.tickets && BadLink(db.tickets[t], db.settlements)
    case BalanceViolation(a) => a in db.accounts && db.accounts[a] != SumDeltas(db.entries, a)
    case DanglingReversal(id) => exists i :: 0 <= i < |db.entries| && db.entries[i].id == id
                                             && Dangles(db.entries[i], db.entries)
    case UnmatchedOperation(s) =>
      s in db.settlements && db.settlements[s].status.Active? && SettledKey(db.settlements[s]) !in db.operations
  }

  /** What it takes to pass the audit, told from the tables: nothing less is passed over. */
  ghost predicate InOrder(db: Db) {
    && (forall s, r :: s in db.settlements && r in db.settlements && db.settlements[s].status.Active?
                       && db.settlements[r].status.Active? && db.settlements[s].ticket == db.settlements[r].ticket
          ==> s == r)
    && (forall t :: t in db.tickets ==>
          && (db.tickets[t].status.Settled? ==>
                db.tickets[t].active.Some? && db.tickets[t].active.value in db.settlements
                && db.settlements[db.tickets[t].active.value].status.Active?)
          && (db.tickets[t].status.Pending? ==> db.tickets[t].active.None?))
    && (forall a :: a in db.accounts ==> db.accounts[a] == SumDeltas(db.entries, a))
    && (forall i :: 0 <= i < |db.entries| && db.entries[i].kind.SettlementReversal? ==>
          exists j :: 0 <= j < |db.entries| && db.entries[i].reverses == Some(db.entries[j].id))
    && (forall s :: s in db.settlements && db.settlements[s].status.Active? ==>
          OperationKey(db.settlements[s].ticket, db.settlements[s].version, SettleOp) in db.operations)
  }

  /** The audit is silent exactly when every table is in order. */
  lemma AuditIsSilentExactlyWhen(db: Db)
    ensures (forall d :: !Found(db, d)) <==> InOrder(db)
  {
    if forall d :: !Found(db, d) {
      SilentMeansInOrder(db);
    }
    if InOrder(db) {
      forall d ensures !Found(db, d) { InOrderIsSilent(db, d); }
    }
  }

  lemma SilentMeansInOrder(db: Db)
    requires forall d :: !Found(db, d)
    ensures InOrder(db)
  {
    hide SumDeltas;
    forall s, r | s in db.settlements && r in db.settlements && db.settlements[s].status.Active?
                  && db.settlements[r].status.Active? && db.settlements[s].ticket == db.settlements[r].ticket
      ensures s == r
    {
      assert !Found(db, MultipleActive(db.settlements[s].ticket));
      assert ActiveFor(db.settlements, s, db.settlements[s].ticket)
          && ActiveFor(db.settlements, r, db.settlements[s].ticket);
    }
    forall t | t in db.tickets ensures !BadLink(db.tickets[t], db.settlements) {
      assert !Found(db, InvalidLink(t));
    }
    forall a | a in db.accounts ensures db.accounts[a] == SumDeltas(db.entries, a) {
      assert !Found(db, BalanceViolation(a));
    }
    forall i | 0 <= i < |db.entries| ensures !Dangles(db.entries[i], db.entries) {
      assert !Found(db, DanglingReversal(db.entries[i].id));
    }
    forall s | s in db.settlements && db.settlements[s].status.Active?
      ensures SettledKey(db.settlements[s]) in db.operations
    {
      assert !Found(db, UnmatchedOperation(s));
    }
  }

  lemma InOrderIsSilent(db: Db, d: Discrepancy)
    requires InOrder(db)
    ensures !Found(db, d)
  {
    hide SumDeltas;
  }

  lemma ReversalsPointBack(entries: seq<Entry>, tickets: map<TicketId, Ticket>, settlements: map<SettlementId,
                           Settlement>, i: nat)
    requires HistoryInv(entries, tickets, settlements) && i < |entries| && KeyShape(entries[i])
    requires entries[i].kind.SettlementReversal?
    ensures entries[i].reverses.Some? && EntryIdTaken(entries, entries[i].reverses.value)
  {
    var e, t := entries[i], entries[i].ticket.value;
    var h := History(entries, t);
    HistoryMembers(entries, t, e);
    var k :| 0 <= k < |h| && h[k] == e;
    assert GoodHistory(h, t, tickets[t], settlements) && GoodStep(h, k, t, tickets[t]);
    HistoryMembers(entries, t, h[k - 1]);
    var j :| 0 <= j < |entries| && entries[j] == h[k - 1];
  }

  lemma NoDangling(db: Db)
    requires Inv(db)
    ensures forall i :: 0 <= i < |db.entries| ==> !Dangles(db.entries[i], db.entries)
  {
    hide MoneyInv, DistinctEntries, TicketsInv, SettlementsInv, UniqueVersions, OperationsInv, RequestsInv,
      FrozenInv, WorthInv, HistoryInv;
    forall i | 0 <= i < |db.entries| && db.entries[i].kind.SettlementReversal?
      ensures !Dangles(db.entries[i], db.entries)
    {
      ReversalsPointBack(db.entries, db.tickets, db.settlements, i);
    }
  }

  lemma LinksSound(db: Db)
    requires TicketsInv(db.accounts, db.tickets, db.settlements) && SettlementsInv(db.tickets, db.settlements)
    ensures forall t :: t in db.tickets ==> !BadLink(db.tickets[t], db.settlements)
    ensures forall s, r, t :: ActiveFor(db.settlements, s, t) && ActiveFor(db.settlements, r, t) ==> s == r
  {
    hide SoundSettlement;
  }

  /** The audit finds nothing in a state that satisfies the invariant. */
  lemma InvPassesAudit(db: Db, d: Discrepancy)
    requires Inv(db)
    ensures !Found(db, d)
  {
    TicketsOf(db);
    LinksSound(db);
    NoDangling(db);
    hide DistinctEntries, TicketsInv, SettlementsInv, UniqueVersions, EntriesInv, RequestsInv, FrozenInv, WorthInv,
        HistoryInv;
  }

  /** Every reachable state passes the audit, all five checks of it. */
  lemma EveryRunPassesTheAudit(steps: seq<Step>)
    ensures forall d :: !Found(Run(steps).db, d)
  {
    hide Inv, Found;
    RunKeeps(steps);
    forall d ensures !Found(Run(steps).db, d) { InvPassesAudit(Run(steps).db, d); }
  }

  // ---------------------------------------------------------------- conservation

  /**
   * An account is worth its grants, less what it paid for PRO, plus gross return less stake of
   * the settlements that stand now. Reversed settlements have left no trace in it.
   */
  lemma AccountsAreConserved(steps: seq<Step>, a: AccountKey)
    requires a in Run(steps).db.accounts
    ensures var db := Run(steps).db;
            && db.accounts[a].NonNegative()
            && db.accounts[a].Worth() == SumAmounts(db.entries, a, GRANTS) - SumAmounts(db.entries, a, SPENDING)
                                         + Total(Standings(db.tickets, db.settlements, a))
  {
    RunKeeps(steps);
    TicketsOf(Run(steps).db);
    hide Run, MoneyInv, DistinctEntries, TicketsInv, SettlementsInv, UniqueVersions, OperationsInv, EntriesInv,
        RequestsInv, FrozenInv,
      HistoryInv, FlightOk;
  }

  /** Frozen points are the pending stakes, so each pending ticket's stake is there to be released. */
  lemma FrozenCoversPendingTickets(steps: seq<Step>, t: TicketId)
    requires t in Run(steps).db.tickets
    ensures var db := Run(steps).db;
            var a := db.tickets[t].account;
            && a in db.accounts
            && db.accounts[a].frozen == Total(PendingStakes(db.tickets, a))
            && (db.tickets[t].status.Pending? ==> db.accounts[a].frozen >= db.tickets[t].stake)
  {
    RunKeeps(steps);
    PendingCovered(Run(steps).db, t);
  }

  lemma PendingCovered(db: Db, t: TicketId)
    requires Inv(db) && t in db.tickets
    ensures var a := db.tickets[t].account;
            && a in db.accounts
            && db.accounts[a].frozen == Total(PendingStakes(db.tickets, a))
            && (db.tickets[t].status.Pending? ==> db.accounts[a].frozen >= db.tickets[t].stake)
  {
    hide MoneyInv, DistinctEntries, SettlementsInv, UniqueVersions, OperationsInv, EntriesInv, RequestsInv, WorthInv,
        HistoryInv;
    if db.tickets[t].status.Pending? { StakeInTotal(db.accounts, db.tickets, db.settlements, t); }
    PendingRow(db, t);
    hide TicketsInv;
  }

  lemma StakeInTotal(accounts: map<AccountKey, Points>, tickets: map<TicketId, Ticket>,
                     settlements: map<SettlementId, Settlement>, t: TicketId)
    requires TicketsInv(accounts, tickets, settlements) && t in tickets && tickets[t].status.Pending?
    ensures Total(PendingStakes(tickets, tickets[t].account)) >= tickets[t].stake
  {
    var stakes := PendingStakes(tickets, tickets[t].account);
    forall u | u in stakes
      ensures stakes[u] >= 0
    {
      assert SoundTicket(tickets[u]);
    }
    hide TicketsInv;
    TotalAtLeast(stakes, t);
  }

  // ---------------------------------------------------------------- when a write in flight succeeds

  lemma UnclaimedVersion(db: Db, t: TicketId, v: Version)
    requires OperationsInv(db.settlements, db.operations) && OperationKey(t, v, SettleOp) !in db.operations
    ensures !VersionTaken(db.settlements, t, v)
  {
    forall s | s in db.settlements
      ensures db.settlements[s].ticket != t || db.settlements[s].version != v
    {
      assert SettledKey(db.settlements[s]) in db.operations;
    }
  }

  lemma UnreceiptedKeysAreFree(db: Db, t: TicketId, v: Version)
    requires EntriesInv(db.entries, db.tickets, db.operations, db.requests)
    ensures OperationKey(t, v, SettleOp) !in db.operations ==> !KeyTaken(db.entries, SettleKey(t, v))
    ensures OperationKey(t, v, ReversalOp) !in db.operations ==> !KeyTaken(db.entries, ReverseKey(t, v))
  {
    if KeyTaken(db.entries, SettleKey(t, v)) {
      var i :| 0 <= i < |db.entries| && db.entries[i].key == SettleKey(t, v);
      assert Explained(db.entries[i], db.tickets, db.operations, db.requests);
    }
    if KeyTaken(db.entries, ReverseKey(t, v)) {
      var i :| 0 <= i < |db.entries| && db.entries[i].key == ReverseKey(t, v);
      assert Explained(db.entries[i], db.tickets, db.operations, db.requests);
    }
  }

  lemma SettleKeysFree(db: Db, w: SettlementWrite)
    requires Inv(db) && SettleReady(db, w)
    ensures !VersionTaken(db.settlements, w.ticket, w.version) && !KeyTaken(db.entries, SettleKey(w.ticket, w.version))
  {
    hide MoneyInv, DistinctEntries, TicketsInv, SettlementsInv, UniqueVersions, OperationsInv, EntriesInv, RequestsInv,
      FrozenInv, WorthInv, HistoryInv, VersionTaken, KeyTaken;
    UnclaimedVersion(db, w.ticket, w.version);
    UnreceiptedKeysAreFree(db, w.ticket, w.version);
  }

  lemma PendingRow(db: Db, t: TicketId)
    requires TicketsInv(db.accounts, db.tickets, db.settlements) && t in db.tickets
    ensures db.tickets[t].account in db.accounts && (db.tickets[t].active.None? <==> db.tickets[t].status.Pending?)
  {
  }

  /** The account of a ticket whose rows a lock holder has planned to write. */
  ghost predicate HasAccount(db: Db, t: TicketId) {
    t in db.tickets && db.tickets[t].account in db.accounts
  }

  /** The debt this settlement means to pay off is still there, and its fresh ids are fresh. */
  ghost predicate SettleLands(db: Db, w: SettlementWrite)
    requires HasAccount(db, w.ticket)
  {
    && db.accounts[db.tickets[w.ticket].account].debt + w.balance.debt >= 0
    && w.recordId !in db.settlements
    && !EntryIdTaken(db.entries, w.ledgerId)
  }

  /** The available points this reversal means to reclaim are still there, and its fresh id is fresh. */
  ghost predicate ReverseLands(db: Db, w: ReversalWrite)
    requires HasAccount(db, w.ticket)
  {
    && db.accounts[db.tickets[w.ticket].account].available + w.balance.available >= 0
    && !EntryIdTaken(db.entries, w.ledgerId)
  }

  /** persistSettlement, given free keys and a frozen stake, decided by what is left of its guard. */
  lemma SettleGuard(db: Db, w: SettlementWrite)
    requires SettleReady(db, w) && HasAccount(db, w.ticket) && db.accounts[db.tickets[w.ticket].account].NonNegative()
    requires db.accounts[db.tickets[w.ticket].account].frozen >= db.tickets[w.ticket].stake
    requires !VersionTaken(db.settlements, w.ticket, w.version) && !KeyTaken(db.entries, SettleKey(w.ticket, w.version))
    ensures PersistSettlement(db, w).Ok? <==> SettleLands(db, w)
    ensures db.accounts[db.tickets[w.ticket].account].debt + w.balance.debt < 0 ==>
              PersistSettlement(db, w) == Err(InsufficientFrozen)
    ensures db.accounts[db.tickets[w.ticket].account].frozen >= -w.balance.frozen
  {
    hide VersionTaken, KeyTaken, EntryIdTaken;
  }

  /**
   * A planned settlement is refused only when the debt it counted on has shrunk in the meantime
   * (or a fresh id collides): the frozen half of the guard never refuses it.
   */
  lemma SettleWriteSucceedsExactlyWhen(db: Db, w: SettlementWrite)
    requires Inv(db) && SettleReady(db, w)
    ensures HasAccount(db, w.ticket)
    ensures db.accounts[db.tickets[w.ticket].account].frozen >= -w.balance.frozen
    ensures PersistSettlement(db, w).Ok? <==> SettleLands(db, w)
    ensures db.accounts[db.tickets[w.ticket].account].debt + w.balance.debt < 0 ==>
              PersistSettlement(db, w) == Err(InsufficientFrozen)
  {
    SettleKeysFree(db, w);
    PendingCovered(db, w.ticket);
    PendingTicket(db, w);
    hide Inv, PersistSettlement, SettleReady, SettleLands, Total, PendingStakes, VersionTaken, KeyTaken;
    SettleGuard(db, w);
  }

  lemma PendingTicket(db: Db, w: SettlementWrite)
    requires Inv(db) && SettleReady(db, w)
    ensures HasAccount(db, w.ticket) && db.tickets[w.ticket].status.Pending?
    ensures db.accounts[db.tickets[w.ticket].account].NonNegative()
  {
    TicketsOf(db);
    PendingRow(db, w.ticket);
    hide Inv, TicketsInv, SettlementsInv;
  }

  lemma OriginalEntryExists(db: Db, w: ReversalWrite)
    requires HistoryInv(db.entries, db.tickets, db.settlements) && ReverseReady(db, w)
    ensures EntryIdTaken(db.entries, w.reverses)
  {
    var h := History(db.entries, w.ticket);
    assert GoodHistory(h, w.ticket, db.tickets[w.ticket], db.settlements);
    HistoryMembers(db.entries, w.ticket, h[|h| - 1]);
    var j :| 0 <= j < |db.entries| && db.entries[j] == h[|h| - 1];
  }

  lemma ReverseKeysFree(db: Db, w: ReversalWrite)
    requires Inv(db) && ReverseReady(db, w)
    ensures EntryIdTaken(db.entries, w.reverses) && !KeyTaken(db.entries, ReverseKey(w.ticket, w.version))
  {
    hide MoneyInv, DistinctEntries, TicketsInv, SettlementsInv, UniqueVersions, OperationsInv, EntriesInv, RequestsInv,
      FrozenInv, WorthInv, HistoryInv, KeyTaken, EntryIdTaken;
    UnreceiptedKeysAreFree(db, w.ticket, w.version);
    OriginalEntryExists(db, w);
  }

  /** The reversal's row, its account, and the sign of what it gives back. */
  lemma ReversalRow(db: Db, w: ReversalWrite)
    requires TicketsInv(db.accounts, db.tickets, db.settlements) && SettlementsInv(db.tickets, db.settlements)
    requires ReverseReady(db, w)
    ensures var row := db.tickets[w.ticket];
            && row.account in db.accounts && row.active.value in db.settlements
            && db.settlements[row.active.value].ticket == w.ticket
            && db.settlements[row.active.value].version == w.version
            && db.settlements[row.active.value].status.Active?
            && w.balance.frozen >= 0 && w.balance.debt >= 0
  {
  }

  lemma ReverseGuard(db: Db, w: ReversalWrite)
    requires ReverseReady(db, w) && HasAccount(db, w.ticket) && db.accounts[db.tickets[w.ticket].account].NonNegative()
    requires w.balance.frozen >= 0 && w.balance.debt >= 0
    requires var s := db.settlements[db.tickets[w.ticket].active.value];
             s.ticket == w.ticket && s.version == w.version && s.status.Active?
    requires EntryIdTaken(db.entries, w.reverses) && !KeyTaken(db.entries, ReverseKey(w.ticket, w.version))
    ensures PersistReversal(db, w).Ok? <==> ReverseLands(db, w)
    ensures db.accounts[db.tickets[w.ticket].account].available + w.balance.available < 0 ==>
              PersistReversal(db, w) == Err(SettlementConflict)
  {
    hide KeyTaken, EntryIdTaken, SoundReversalWrite;
  }

  /** A planned reversal is refused only when available points it meant to reclaim are gone. */
  lemma ReverseWriteSucceedsExactlyWhen(db: Db, w: ReversalWrite)
    requires Inv(db) && ReverseReady(db, w)
    ensures HasAccount(db, w.ticket)
    ensures PersistReversal(db, w).Ok? <==> ReverseLands(db, w)
    ensures db.accounts[db.tickets[w.ticket].account].available + w.balance.available < 0 ==>
              PersistReversal(db, w) == Err(SettlementConflict)
  {
    ReverseKeysFree(db, w);
    TicketsOf(db);
    ReversalRow(db, w);
    hide Inv, PersistReversal, ReverseLands, TicketsInv, SettlementsInv, KeyTaken, EntryIdTaken, SoundReversalWrite;
    ReverseGuard(db, w);
  }

  /** Which of the two conditions decides whether a flight's write lands. */
  ghost predicate Lands(db: Db, t: TicketId, plan: Plan) {
    HasAccount(db, t) &&
    match plan
    case Replay(_) => false
    case Settle(w) => w.ticket == t && SettleLands(db, w)
    case Reverse(w) => w.ticket == t && ReverseLands(db, w)
  }

  /** In every run, a flight's write lands exactly when the points its read relied on are still there. */
  lemma FlightsLandExactlyWhen(steps: seq<Step>, t: TicketId)
    requires t in Run(steps).flights && Run(steps).flights[t].Planned?
    ensures HasAccount(Run(steps).db, t)
    ensures ApplyPlan(Run(steps).db, Run(steps).flights[t].plan).Ok?
            <==> Lands(Run(steps).db, t, Run(steps).flights[t].plan)
  {
    RunKeeps(steps);
    var db, flight := Run(steps).db, Run(steps).flights[t];
    assert FlightOk(db, t, flight);
    hide Run, Inv, SettleReady, ReverseReady, EntryIdTaken, PersistSettlement, PersistReversal, SettleLands,
        ReverseLands;
    match flight.plan
    case Settle(w) => SettleWriteSucceedsExactlyWhen(db, w);
    case Reverse(w) => ReverseWriteSucceedsExactlyWhen(db, w);
  }

  // ---------------------------------------------------------------- a ticket's history

  /** No settlement and no reversal of a ticket happens twice at one version. */
  lemma OncePerVersion(h: seq<Entry>, i: nat, j: nat)
    requires DistinctEntries(h) && i < |h| && j < |h| && KeyShape(h[i]) && KeyShape(h[j])
    requires h[i].ticket == h[j].ticket && h[i].version == h[j].version && h[i].kind == h[j].kind
    requires h[i].kind.SettlementEntry? || h[i].kind.SettlementReversal?
    ensures i == j
  {
  }

  /**
   * A ticket's ledger is one freeze, then settlements and reversals in strict alternation, each
   * reversal undoing the settlement just before it, with at most one of each at a version; it
   * ends on a settlement exactly while the ticket is settled.
   */
  lemma HistoriesAlternate(steps: seq<Step>, t: TicketId)
    requires t in Run(steps).db.tickets
    ensures var db := Run(steps).db;
            var h := History(db.entries, t);
            && GoodHistory(h, t, db.tickets[t], db.settlements)
            && (forall i, j ::
                  (0 <= i < |h| && 0 <= j < |h| && h[i].kind == h[j].kind && h[i].version == h[j].version) ==> i == j)
  {
    RunKeeps(steps);
    var db := Run(steps).db;
    hide Run;
    HistoryOf(db, t);
  }

  lemma HistoryOf(db: Db, t: TicketId)
    requires Inv(db) && t in db.tickets
    ensures GoodHistory(History(db.entries, t), t, db.tickets[t], db.settlements)
    ensures var h := History(db.entries, t);
            forall i, j :: 0 <= i < |h| && 0 <= j < |h| && h[i].kind == h[j].kind && h[i].version == h[j].version ==>
                i == j
  {
    hide MoneyInv, DistinctEntries, TicketsInv, SettlementsInv, UniqueVersions, OperationsInv, RequestsInv,
        FrozenInv, WorthInv, GoodHistory;
    var h := History(db.entries, t);
    HistoryDistinct(db.entries, t);
    ShapesInHistory(db, t);
    hide EntriesInv;
    KindsInHistory(h, t, db.tickets[t], db.settlements);
    hide HistoryInv;
    forall i, j | 0 <= i < |h| && 0 <= j < |h| && h[i].kind == h[j].kind && h[i].version == h[j].version
      ensures i == j
    {
      if i > 0 && j > 0 { OncePerVersion(h, i, j); }
    }
  }

  predicate Shaped(h: seq<Entry>, t: TicketId) {
    forall i :: 0 <= i < |h| ==> KeyShape(h[i]) && h[i].ticket == Some(t)
  }

  lemma ShapesInHistory(db: Db, t: TicketId)
    requires EntriesInv(db.entries, db.tickets, db.operations, db.requests)
    ensures Shaped(History(db.entries, t), t)
  {
    var h := History(db.entries, t);
    forall i | 0 <= i < |h|
      ensures KeyShape(h[i]) && h[i].ticket == Some(t)
    {
      HistoryMembers(db.entries, t, h[i]);
      var j :| 0 <= j < |db.entries| && db.entries[j] == h[i];
    }
  }

  lemma KindsInHistory(h: seq<Entry>, t: TicketId, row: Ticket, settlements: map<SettlementId, Settlement>)
    requires GoodHistory(h, t, row, settlements)
    requires Shaped(h, t)
    ensures |h| >= 1 && h[0].kind.PredictionFreeze?
    ensures forall i :: 0 < i < |h| ==> h[i].kind.SettlementEntry? || h[i].kind.SettlementReversal?
  {
    assert GoodStep(h, 0, t, row);
    forall i | 0 < i < |h|
      ensures h[i].kind.SettlementEntry? || h[i].kind.SettlementReversal?
    {
      assert GoodStep(h, i, t, row);
    }
  }

  // ---------------------------------------------------------------- grants

  /** Owner grants and approved requests match one to one, in account and in amount. */
  lemma GrantsTraceToRequests(steps: seq<Step>)
    ensures var db := Run(steps).db;
            && (forall i :: 0 <= i < |db.entries| && db.entries[i].kind.OwnerGrant? ==>
                  exists r :: r in db.requests && db.entries[i].key == OwnerGrantKey(r)
                    && db.requests[r] == GrantRequest(db.entries[i].account,
                                                      Approved(db.entries[i].amount, db.entries[i].id)))
            && (forall r :: r in db.requests && db.requests[r].status.Approved? ==>
                  exists i :: 0 <= i < |db.entries| && db.entries[i].key == OwnerGrantKey(r))
            && (forall i, j :: 0 <= i < j < |db.entries| ==> db.entries[i].key != db.entries[j].key)
  {
    RunKeeps(steps);
    GrantsOf(Run(steps).db);
  }

  lemma GrantsOf(db: Db)
    requires Inv(db)
    ensures forall i :: 0 <= i < |db.entries| && db.entries[i].kind.OwnerGrant? ==>
              exists r :: r in db.requests && db.entries[i].key == OwnerGrantKey(r)
                && db.requests[r] == GrantRequest(db.entries[i].account,
                                                  Approved(db.entries[i].amount, db.entries[i].id))
    ensures forall r :: r in db.requests && db.requests[r].status.Approved? ==>
              exists i :: 0 <= i < |db.entries| && db.entries[i].key == OwnerGrantKey(r)
    ensures DistinctEntries(db.entries)
  {
    hide MoneyInv, TicketsInv, SettlementsInv, UniqueVersions, OperationsInv, FrozenInv, WorthInv, HistoryInv;
    forall i | 0 <= i < |db.entries| && db.entries[i].kind.OwnerGrant?
      ensures exists r :: r in db.requests && db.entries[i].key == OwnerGrantKey(r)
                && db.requests[r] == GrantRequest(db.entries[i].account,
                                                  Approved(db.entries[i].amount, db.entries[i].id))
    {
      assert KeyShape(db.entries[i]) && Explained(db.entries[i], db.tickets, db.operations, db.requests);
      var r := db.entries[i].key.request;
      assert db.entries[i].key == OwnerGrantKey(r);
    }
    forall r | r in db.requests && db.requests[r].status.Approved?
      ensures exists i :: 0 <= i < |db.entries| && db.entries[i].key == OwnerGrantKey(r)
    {
      assert KeyTaken(db.entries, OwnerGrantKey(r));
    }
  }
}
