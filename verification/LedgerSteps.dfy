/** Every transaction of the ledger keeps the invariant, part by part. */
module LedgerSteps {
  import opened Common
  import opened LedgerModel
  import opened LedgerInvariant
  import Decimal

  // ---------------------------------------------------------------- entries without a ticket

  lemma TotalZero<K>(m: map<K, int>)
    requires forall k :: k in m ==> m[k] == 0
    ensures Total(m) == 0
    decreases |m|
  {
    if m != map[] {
      var k :| k in m;
      TotalRemove(m, k);
      CardinalityDrops(m, k);
      TotalZero(m - {k});
    }
  }

  lemma UnticketedHistory(entries: seq<Entry>, e: Entry, tickets: map<TicketId, Ticket>,
                          settlements: map<SettlementId, Settlement>)
    requires HistoryInv(entries, tickets, settlements) && e.ticket.None?
    ensures HistoryInv(entries + [e], tickets, settlements)
  {
    forall t | t in tickets
      ensures History(entries + [e], t) == History(entries, t)
    {
      AppendHistory(entries, e, t);
    }
  }

  lemma UnticketedWorth(accounts: map<AccountKey, Points>, entries: seq<Entry>, e: Entry,
                        tickets: map<TicketId, Ticket>, settlements: map<SettlementId, Settlement>)
    requires WorthInv(accounts, entries, tickets, settlements)
    requires e.account in accounts && KeyShape(e) && e.ticket.None?
    ensures WorthInv(accounts[e.account := accounts[e.account].Plus(e.delta)], entries + [e], tickets, settlements)
  {
    forall a | a in accounts
      ensures SumAmounts(entries + [e], a, GRANTS) - SumAmounts(entries + [e], a, SPENDING)
           == SumAmounts(entries, a, GRANTS) - SumAmounts(entries, a, SPENDING)
               + (if e.account == a then e.delta.Worth() else 0)
    {
      AppendAmounts(entries, e, a, GRANTS);
      AppendAmounts(entries, e, a, SPENDING);
    }
  }

  lemma AppendEntries(entries: seq<Entry>, e: Entry, tickets: map<TicketId, Ticket>, operations: map<OperationKey,
                      Receipt>,
                      requests: map<RequestId, GrantRequest>)
    requires EntriesInv(entries, tickets, operations, requests)
    requires KeyShape(e) && Explained(e, tickets, operations, requests)
    ensures EntriesInv(entries + [e], tickets, operations, requests)
  {
  }

  lemma AppendRequests(entries: seq<Entry>, e: Entry, requests: map<RequestId, GrantRequest>,
                       accounts: map<AccountKey, Points>, accounts': map<AccountKey, Points>)
    requires RequestsInv(entries, requests, accounts) && accounts.Keys <= accounts'.Keys
    ensures RequestsInv(entries + [e], requests, accounts')
  {
    forall r | r in requests && requests[r].status.Approved?
      ensures KeyTaken(entries + [e], OwnerGrantKey(r))
    {
      KeyStaysTaken(entries, e, OwnerGrantKey(r));
    }
  }

  lemma KeyStaysTaken(entries: seq<Entry>, e: Entry, key: EntryKey)
    ensures KeyTaken(entries, key) ==> KeyTaken(entries + [e], key)
    ensures KeyTaken(entries + [e], e.key)
  {
    if KeyTaken(entries, key) {
      var i :| 0 <= i < |entries| && entries[i].key == key;
      assert (entries + [e])[i].key == key;
    }
    assert (entries + [e])[|entries|] == e;
  }

  /** A grant or a points subscription: one entry, one balance, nothing else. */
  lemma PostUnticketed(db: Db, e: Entry)
    requires Inv(db) && Post(db, e, e.delta).Ok?
    requires KeyShape(e) && e.ticket.None? && Explained(e, db.tickets, db.operations, db.requests)
    ensures Inv(Post(db, e, e.delta).value)
  {
    hide MoneyInv, DistinctEntries, TicketsInv, SettlementsInv, UniqueVersions, OperationsInv, EntriesInv, RequestsInv,
      FrozenInv, WorthInv, HistoryInv;
    PostMoney(db.accounts, db.entries, e);
    AppendDistinct(db.entries, e);
    AppendEntries(db.entries, e, db.tickets, db.operations, db.requests);
    AppendRequests(db.entries, e, db.requests, db.accounts, Post(db, e, e.delta).value.accounts);
    MoreAccounts(db.accounts, db.entries, db.tickets, db.settlements, db.requests, Post(db, e, e.delta).value.accounts);
    UnticketedFrozen(db.accounts, e, db.tickets);
    UnticketedWorth(db.accounts, db.entries, e, db.tickets, db.settlements);
    UnticketedHistory(db.entries, e, db.tickets, db.settlements);
  }

  lemma UnticketedFrozen(accounts: map<AccountKey, Points>, e: Entry, tickets: map<TicketId, Ticket>)
    requires FrozenInv(accounts, tickets) && e.account in accounts && KeyShape(e) && e.ticket.None?
    ensures FrozenInv(accounts[e.account := accounts[e.account].Plus(e.delta)], tickets)
  {
  }

  // ---------------------------------------------------------------- opening an account

  lemma StrangerHasNoTickets(accounts: map<AccountKey, Points>, tickets: map<TicketId, Ticket>,
                             settlements: map<SettlementId, Settlement>, a: AccountKey)
    requires TicketsInv(accounts, tickets, settlements) && a !in accounts
    ensures Total(PendingStakes(tickets, a)) == 0 && Total(Standings(tickets, settlements, a)) == 0
  {
    TotalZero(PendingStakes(tickets, a));
    TotalZero(Standings(tickets, settlements, a));
  }

  lemma StrangerHasNoEntries(accounts: map<AccountKey, Points>, entries: seq<Entry>, a: AccountKey)
    requires a !in accounts && MoneyInv(accounts, entries)
    ensures SumAmounts(entries, a, GRANTS) == 0 && SumAmounts(entries, a, SPENDING) == 0
  {
    NoEntriesNoSum(entries, a);
  }

  lemma NewAccountFrozen(accounts: map<AccountKey, Points>, tickets: map<TicketId, Ticket>, a: AccountKey)
    requires FrozenInv(accounts, tickets) && Total(PendingStakes(tickets, a)) == 0
    ensures FrozenInv(accounts[a := ZERO], tickets)
  {
    hide Total, PendingStakes;
  }

  lemma NewAccountWorth(accounts: map<AccountKey, Points>, entries: seq<Entry>, tickets: map<TicketId, Ticket>,
                        settlements: map<SettlementId, Settlement>, a: AccountKey)
    requires WorthInv(accounts, entries, tickets, settlements) && Total(Standings(tickets, settlements, a)) == 0
    requires SumAmounts(entries, a, GRANTS) == 0 && SumAmounts(entries, a, SPENDING) == 0
    ensures WorthInv(accounts[a := ZERO], entries, tickets, settlements)
  {
    hide Total, Standings, SumAmounts;
  }

  lemma MoreAccounts(accounts: map<AccountKey, Points>, entries: seq<Entry>, tickets: map<TicketId, Ticket>,
                     settlements: map<SettlementId, Settlement>, requests: map<RequestId, GrantRequest>,
                         accounts': map<AccountKey, Points>)
    requires accounts.Keys <= accounts'.Keys
    requires TicketsInv(accounts, tickets, settlements) && RequestsInv(entries, requests, accounts)
    ensures TicketsInv(accounts', tickets, settlements) && RequestsInv(entries, requests, accounts')
  {
  }

  lemma NewAccount(db: Db, a: AccountKey)
    requires Inv(db) && a !in db.accounts
    ensures Inv(db.(accounts := db.accounts[a := ZERO]))
  {
    hide MoneyInv, DistinctEntries, TicketsInv, SettlementsInv, UniqueVersions, OperationsInv, EntriesInv, RequestsInv,
      FrozenInv, WorthInv, HistoryInv;
    NewAccountMoney(db.accounts, db.entries, a);
    StrangerHasNoTickets(db.accounts, db.tickets, db.settlements, a);
    StrangerHasNoEntries(db.accounts, db.entries, a);
    NewAccountFrozen(db.accounts, db.tickets, a);
    NewAccountWorth(db.accounts, db.entries, db.tickets, db.settlements, a);
    MoreAccounts(db.accounts, db.entries, db.tickets, db.settlements, db.requests, db.accounts[a := ZERO]);
  }

  lemma OpenAccountKeeps(db: Db, account: AccountKey, points: int, id: EntryId)
    requires Inv(db) && OpenAccount(db, account, points, id).Ok?
    ensures Inv(OpenAccount(db, account, points, id).value)
  {
    hide Inv;
    if account !in db.accounts {
      NewAccount(db, account);
      PostUnticketed(db.(accounts := db.accounts[account := ZERO]), InitialGrantEntry(account, points, id));
    }
  }

  // ---------------------------------------------------------------- grants

  /** Entries only look at approved requests, so the others may change. */
  lemma OtherRequests(entries: seq<Entry>, tickets: map<TicketId, Ticket>, operations: map<OperationKey, Receipt>,
                      requests: map<RequestId, GrantRequest>, r: RequestId, row: GrantRequest)
    requires EntriesInv(entries, tickets, operations, requests)
    requires r in requests ==> !requests[r].status.Approved?
    ensures EntriesInv(entries, tickets, operations, requests[r := row])
  {
    forall i | 0 <= i < |entries|
      ensures Explained(entries[i], tickets, operations, requests[r := row])
    {
      assert Explained(entries[i], tickets, operations, requests);
    }
  }

  lemma RequestRows(entries: seq<Entry>, requests: map<RequestId, GrantRequest>, accounts: map<AccountKey, Points>,
                    r: RequestId, row: GrantRequest)
    requires RequestsInv(entries, requests, accounts) && row.account in accounts && !row.status.Approved?
    requires row.status.Open? ==> forall q :: q in requests ==> requests[q] != row
    ensures RequestsInv(entries, requests[r := row], accounts)
  {
  }

  lemma RequestGrantKeeps(db: Db, request: RequestId, account: AccountKey, roomActive: bool)
    requires Inv(db) && RequestGrant(db, request, account, roomActive).Ok?
    ensures Inv(RequestGrant(db, request, account, roomActive).value)
  {
    hide MoneyInv, DistinctEntries, TicketsInv, SettlementsInv, UniqueVersions, OperationsInv, EntriesInv, RequestsInv,
      FrozenInv, WorthInv, HistoryInv;
    var row := GrantRequest(account, Open);
    if HasOpenRequest(db, account) { return; }
    OtherRequests(db.entries, db.tickets, db.operations, db.requests, request, row);
    RequestRows(db.entries, db.requests, db.accounts, request, row);
  }

  lemma RequestersHaveAccounts(db: Db)
    requires Inv(db)
    ensures forall r :: r in db.requests ==> db.requests[r].account in db.accounts
  {
    hide MoneyInv, DistinctEntries, TicketsInv, SettlementsInv, UniqueVersions, OperationsInv, EntriesInv,
      FrozenInv, WorthInv, HistoryInv;
  }

  lemma DenyKeeps(db: Db, request: RequestId)
    requires Inv(db) && request in db.requests && db.requests[request].status.Open?
    ensures Inv(db.(requests := db.requests[request := db.requests[request].(status := Denied)]))
  {
    hide MoneyInv, DistinctEntries, TicketsInv, SettlementsInv, UniqueVersions, OperationsInv, EntriesInv, RequestsInv,
      FrozenInv, WorthInv, HistoryInv;
    var row := db.requests[request].(status := Denied);
    RequestersHaveAccounts(db);
    OtherRequests(db.entries, db.tickets, db.operations, db.requests, request, row);
    RequestRows(db.entries, db.requests, db.accounts, request, row);
  }

  lemma ApprovalEntries(entries: seq<Entry>, e: Entry, tickets: map<TicketId, Ticket>, operations: map<OperationKey,
                        Receipt>,
                        requests: map<RequestId, GrantRequest>, r: RequestId)
    requires EntriesInv(entries, tickets, operations, requests) && !KeyTaken(entries, OwnerGrantKey(r))
    requires r in requests && requests[r].status.Open?
    requires e == OwnerGrantEntry(r, requests[r].account, e.amount, e.id)
    ensures EntriesInv(entries + [e], tickets, operations,
                       requests[r := requests[r].(status := Approved(e.amount, e.id))])
  {
    var requests' := requests[r := requests[r].(status := Approved(e.amount, e.id))];
    forall i | 0 <= i < |entries|
      ensures Explained(entries[i], tickets, operations, requests')
    {
      assert Explained(entries[i], tickets, operations, requests);
      assert entries[i].key != OwnerGrantKey(r);
    }
    assert Explained(e, tickets, operations, requests');
  }

  lemma ApprovalRequests(entries: seq<Entry>, e: Entry, requests: map<RequestId, GrantRequest>,
                         accounts: map<AccountKey, Points>, accounts': map<AccountKey, Points>, r: RequestId)
    requires RequestsInv(entries, requests, accounts) && accounts.Keys == accounts'.Keys
    requires r in requests && e.key == OwnerGrantKey(r)
    ensures RequestsInv(entries + [e], requests[r := requests[r].(status := Approved(e.amount, e.id))], accounts')
  {
    AppendRequests(entries, e, requests, accounts, accounts');
    KeyStaysTaken(entries, e, e.key);
  }

  lemma ApproveKeeps(db: Db, r: RequestId, amount: int, id: EntryId)
    requires Inv(db) && r in db.requests && db.requests[r].status.Open?
    requires Post(db, OwnerGrantEntry(r, db.requests[r].account, amount, id), Points(amount, 0, 0)).Ok?
    ensures Inv(Post(db, OwnerGrantEntry(r, db.requests[r].account, amount, id), Points(amount, 0, 0)).value
                  .(requests := db.requests[r := db.requests[r].(status := Approved(amount, id))]))
  {
    hide MoneyInv, DistinctEntries, TicketsInv, SettlementsInv, UniqueVersions, OperationsInv, EntriesInv, RequestsInv,
      FrozenInv, WorthInv, HistoryInv;
    var e := OwnerGrantEntry(r, db.requests[r].account, amount, id);
    var accounts' := db.accounts[e.account := db.accounts[e.account].Plus(e.delta)];
    PostMoney(db.accounts, db.entries, e);
    AppendDistinct(db.entries, e);
    ApprovalEntries(db.entries, e, db.tickets, db.operations, db.requests, r);
    ApprovalRequests(db.entries, e, db.requests, db.accounts, accounts', r);
    MoreAccounts(db.accounts, db.entries, db.tickets, db.settlements, db.requests, accounts');
    UnticketedFrozen(db.accounts, e, db.tickets);
    UnticketedWorth(db.accounts, db.entries, e, db.tickets, db.settlements);
    UnticketedHistory(db.entries, e, db.tickets, db.settlements);
  }

  lemma DecideGrantKeeps(db: Db, request: RequestId, decision: Decision, id: EntryId, roomActive: bool)
    requires Inv(db) && DecideGrant(db, request, decision, id, roomActive).Ok?
    ensures Inv(DecideGrant(db, request, decision, id, roomActive).value)
  {
    hide MoneyInv, DistinctEntries, TicketsInv, SettlementsInv, UniqueVersions, OperationsInv, EntriesInv, RequestsInv,
      FrozenInv, WorthInv, HistoryInv;
    if request in db.requests && db.requests[request].status.Open? {
      match decision
      case Deny => DenyKeeps(db, request);
      case Approve(amount) => ApproveKeeps(db, request, amount, id);
    }
  }

  // ---------------------------------------------------------------- points subscriptions

  lemma {:induction false} DeductKeeps(db: Db, rows: seq<AccountKey>, remaining: int, tier: Tier, at: int,
                                       ids: seq<EntryId>)
    requires |ids| == |rows| && Inv(db) && Deduct(db, rows, remaining, tier, at, ids).Ok?
    ensures Inv(Deduct(db, rows, remaining, tier, at, ids).value)
    decreases |rows|
  {
    hide Inv;
    if remaining > 0 && rows != [] {
      var amount := Min(db.accounts[rows[0]].available, remaining);
      var e := SubscriptionEntry(rows[0], tier, at, amount, ids[0]);
      PostUnticketed(db, e);
      DeductKeeps(Post(db, e, e.delta).value, rows[1..], remaining - amount, tier, at, ids[1..]);
    }
  }

  // ---------------------------------------------------------------- freezing a stake

  lemma {:induction false} NoHistory(entries: seq<Entry>, t: TicketId)
    requires forall i :: 0 <= i < |entries| ==> entries[i].ticket != Some(t)
    ensures History(entries, t) == []
  {
    if entries != [] { NoHistory(entries[..|entries| - 1], t); }
  }

  lemma TicketUpdate(tickets: map<TicketId, Ticket>, t: TicketId, row: Ticket, a: AccountKey)
    ensures Total(PendingStakes(tickets[t := row], a))
         == Total(PendingStakes(tickets, a)) - (if t in tickets then PendingStake(tickets[t], a) else 0)
             + PendingStake(row, a)
  {
    assert PendingStakes(tickets[t := row], a) == PendingStakes(tickets, a)[t := PendingStake(row, a)];
    TotalUpdate(PendingStakes(tickets, a), t, PendingStake(row, a));
  }

  /** Changing one ticket (and settlements only that ticket looks at) moves one standing. */
  lemma StandingUpdate(tickets: map<TicketId, Ticket>, settlements: map<SettlementId, Settlement>,
                       t: TicketId, row: Ticket, settlements': map<SettlementId, Settlement>, a: AccountKey)
    requires forall u :: u in tickets && u != t ==>
               Standing(tickets[u], settlements', a) == Standing(tickets[u], settlements, a)
    ensures Total(Standings(tickets[t := row], settlements', a))
         == Total(Standings(tickets, settlements, a))
            - (if t in tickets then Standing(tickets[t], settlements, a) else 0)
            + Standing(row, settlements', a)
  {
    assert Standings(tickets[t := row], settlements', a)
        == Standings(tickets, settlements, a)[t := Standing(row, settlements', a)];
    TotalUpdate(Standings(tickets, settlements, a), t, Standing(row, settlements', a));
  }

  /** A ticket step whose delta matches the change of pending stake keeps frozen points exact. */
  lemma TicketFrozen(accounts: map<AccountKey, Points>, tickets: map<TicketId, Ticket>, t: TicketId, row: Ticket,
                     delta: Points)
    requires FrozenInv(accounts, tickets) && row.account in accounts
    requires t in tickets ==> tickets[t].account == row.account
    requires delta.frozen == PendingStake(row, row.account)
                             - (if t in tickets then PendingStake(tickets[t], row.account) else 0)
    ensures FrozenInv(accounts[row.account := accounts[row.account].Plus(delta)], tickets[t := row])
  {
    forall a | a in accounts
      ensures Total(PendingStakes(tickets[t := row], a))
           == Total(PendingStakes(tickets, a)) + (if a == row.account then delta.frozen else 0)
    {
      TicketUpdate(tickets, t, row, a);
    }
  }

  lemma TicketWorth(accounts: map<AccountKey, Points>, entries: seq<Entry>, e: Entry, tickets: map<TicketId, Ticket>,
                    settlements: map<SettlementId, Settlement>, t: TicketId, row: Ticket,
                        settlements': map<SettlementId, Settlement>)
    requires WorthInv(accounts, entries, tickets, settlements)
    requires e.account == row.account && row.account in accounts && e.kind !in GRANTS && e.kind !in SPENDING
    requires t in tickets ==> tickets[t].account == row.account
    requires forall u, a :: u in tickets && u != t ==>
               Standing(tickets[u], settlements', a) == Standing(tickets[u], settlements, a)
    requires e.delta.Worth() == Standing(row, settlements', row.account)
                                - (if t in tickets then Standing(tickets[t], settlements, row.account) else 0)
    ensures WorthInv(accounts[row.account := accounts[row.account].Plus(e.delta)], entries + [e], tickets[t := row],
                     settlements')
  {
    forall a | a in accounts
      ensures SumAmounts(entries + [e], a, GRANTS) == SumAmounts(entries, a, GRANTS)
      ensures SumAmounts(entries + [e], a, SPENDING) == SumAmounts(entries, a, SPENDING)
      ensures Total(Standings(tickets[t := row], settlements', a))
           == Total(Standings(tickets, settlements, a)) + (if a == row.account then e.delta.Worth() else 0)
    {
      AppendAmounts(entries, e, a, GRANTS);
      AppendAmounts(entries, e, a, SPENDING);
      StandingUpdate(tickets, settlements, t, row, settlements', a);
    }
  }

  /** An entry of another ticket leaves a history as it was. */
  lemma OtherHistory(entries: seq<Entry>, e: Entry, t: TicketId, row: Ticket, settlements: map<SettlementId,
                     Settlement>)
    requires GoodHistory(History(entries, t), t, row, settlements) && e.ticket != Some(t)
    ensures GoodHistory(History(entries + [e], t), t, row, settlements)
  {
    hide GoodHistory, History;
    AppendHistory(entries, e, t);
    assert History(entries + [e], t) == History(entries, t);
  }

  lemma FirstEntry(entries: seq<Entry>, e: Entry, t: TicketId, row: Ticket, settlements: map<SettlementId, Settlement>)
    requires History(entries, t) == [] && e.ticket == Some(t) && row.active.None?
    requires e.account == row.account && e.key == FreezeKey(t) && e.delta == Points(-row.stake, row.stake, 0)
    ensures GoodHistory(History(entries + [e], t), t, row, settlements)
  {
    AppendHistory(entries, e, t);
    assert GoodStep([e], 0, t, row);
  }

  lemma FreezeHistory(entries: seq<Entry>, tickets: map<TicketId, Ticket>, settlements: map<SettlementId,
                      Settlement>, c: FreezeCommand, row: Ticket)
    requires HistoryInv(entries, tickets, settlements) && c.ticket !in tickets
    requires row.account == c.account && row.stake == c.stake && row.active.None?
    ensures HistoryInv(entries + [FreezeEntry(c)], tickets[c.ticket := row], settlements)
  {
    hide GoodHistory, History;
    var e, tickets' := FreezeEntry(c), tickets[c.ticket := row];
    NoHistory(entries, c.ticket);
    FirstEntry(entries, e, c.ticket, row, settlements);
    forall t | t in tickets' && t != c.ticket
      ensures GoodHistory(History(entries + [e], t), t, tickets'[t], settlements)
    {
      OtherHistory(entries, e, t, tickets[t], settlements);
    }
  }

  lemma NewTicketRows(accounts: map<AccountKey, Points>, tickets: map<TicketId, Ticket>,
                      settlements: map<SettlementId, Settlement>,
                      t: TicketId, row: Ticket)
    requires TicketsInv(accounts, tickets, settlements) && SettlementsInv(tickets, settlements)
    requires t !in tickets && row.account in accounts && SoundTicket(row) && row.active.None?
    ensures TicketsInv(accounts, tickets[t := row], settlements) && SettlementsInv(tickets[t := row], settlements)
  {
  }

  lemma MoreTickets(entries: seq<Entry>, tickets: map<TicketId, Ticket>, operations: map<OperationKey, Receipt>,
                    requests: map<RequestId, GrantRequest>, tickets': map<TicketId, Ticket>,
                        operations': map<OperationKey, Receipt>)
    requires EntriesInv(entries, tickets, operations, requests)
    requires tickets.Keys <= tickets'.Keys && operations.Keys <= operations'.Keys
    ensures EntriesInv(entries, tickets', operations', requests)
  {
    forall i | 0 <= i < |entries|
      ensures Explained(entries[i], tickets', operations', requests)
    {
      assert Explained(entries[i], tickets, operations, requests);
    }
  }

  lemma SubmitTicketKeeps(db: Db, c: FreezeCommand)
    requires Inv(db) && SubmitTicket(db, c).Ok?
    ensures Inv(SubmitTicket(db, c).value)
  {
    hide MoneyInv, DistinctEntries, TicketsInv, SettlementsInv, UniqueVersions, OperationsInv, EntriesInv, RequestsInv,
      FrozenInv, WorthInv, HistoryInv;
    if !SubmittedBefore(db, c) {
      var e := FreezeEntry(c);
      var row := Ticket(c.account, c.fixture, c.requestKey, c.stake, c.leg, Pending, None);
      var accounts' := db.accounts[c.account := db.accounts[c.account].Plus(e.delta)];
      var tickets' := db.tickets[c.ticket := row];
      NewTicketRows(db.accounts, db.tickets, db.settlements, c.ticket, row);
      MoreAccounts(db.accounts, db.entries, tickets', db.settlements, db.requests, accounts');
      MoreTickets(db.entries, db.tickets, db.operations, db.requests, tickets', db.operations);
      AppendEntries(db.entries, e, tickets', db.operations, db.requests);
      PostMoney(db.accounts, db.entries, e);
      AppendDistinct(db.entries, e);
      AppendRequests(db.entries, e, db.requests, db.accounts, accounts');
      TicketFrozen(db.accounts, db.tickets, c.ticket, row, e.delta);
      TicketWorth(db.accounts, db.entries, e, db.tickets, db.settlements, c.ticket, row, db.settlements);
      FreezeHistory(db.entries, db.tickets, db.settlements, c, row);
    }
  }
}
