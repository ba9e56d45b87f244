/**
 * What every state of the points ledger satisfies. Each part speaks of a few tables only, so
 * that a transaction has to argue about the parts it can touch and no others.
 */
module LedgerInvariant {
  import opened Common
  import opened LedgerModel
  import Decimal

  // ---------------------------------------------------------------- sums over the ledger

  /** Sum of the deltas an account's entries carry. */
  function SumDeltas(entries: seq<Entry>, a: AccountKey): Points {
    if entries == [] then ZERO
    else
      var e := entries[|entries| - 1];
      var rest := SumDeltas(entries[..|entries| - 1], a);
      if e.account == a then rest.Plus(e.delta) else rest
  }

  /** Sum of the amounts of an account's entries of the given kinds. */
  function SumAmounts(entries: seq<Entry>, a: AccountKey, kinds: set<EntryKind>): int {
    if entries == [] then 0
    else
      var e := entries[|entries| - 1];
      SumAmounts(entries[..|entries| - 1], a, kinds) + (if e.account == a && e.kind in kinds then e.amount else 0)
  }

  /** The entries of one ticket, oldest first. */
  function History(entries: seq<Entry>, t: TicketId): seq<Entry> {
    if entries == [] then []
    else
      var e := entries[|entries| - 1];
      History(entries[..|entries| - 1], t) + (if e.ticket == Some(t) then [e] else [])
  }

  lemma AppendSums(entries: seq<Entry>, e: Entry, a: AccountKey)
    ensures SumDeltas(entries + [e], a) == if e.account == a then SumDeltas(entries, a).Plus(e.delta)
              else SumDeltas(entries, a)
  {
    assert (entries + [e])[..|entries|] == entries;
  }

  lemma AppendAmounts(entries: seq<Entry>, e: Entry, a: AccountKey, kinds: set<EntryKind>)
    ensures SumAmounts(entries + [e], a, kinds)
         == SumAmounts(entries, a, kinds) + (if e.account == a && e.kind in kinds then e.amount else 0)
  {
    assert (entries + [e])[..|entries|] == entries;
  }

  lemma AppendHistory(entries: seq<Entry>, e: Entry, t: TicketId)
    ensures History(entries + [e], t) == History(entries, t) + (if e.ticket == Some(t) then [e] else [])
  {
    assert (entries + [e])[..|entries|] == entries;
  }

  // ---------------------------------------------------------------- money

  /** Balances are the sums of the ledger and never negative. */
  ghost predicate MoneyInv(accounts: map<AccountKey, Points>, entries: seq<Entry>) {
    && (forall a :: a in accounts ==> accounts[a] == SumDeltas(entries, a) && accounts[a].NonNegative())
    && (forall i :: 0 <= i < |entries| ==> entries[i].account in accounts)
  }

  ghost predicate DistinctEntries(entries: seq<Entry>) {
    forall i, j :: 0 <= i < j < |entries| ==> entries[i].id != entries[j].id && entries[i].key != entries[j].key
  }

  lemma {:induction false} NoEntriesNoSum(entries: seq<Entry>, a: AccountKey)
    requires forall i :: 0 <= i < |entries| ==> entries[i].account != a
    ensures SumDeltas(entries, a) == ZERO && forall kinds :: SumAmounts(entries, a, kinds) == 0
  {
    if entries != [] { NoEntriesNoSum(entries[..|entries| - 1], a); }
  }

  lemma NewAccountMoney(accounts: map<AccountKey, Points>, entries: seq<Entry>, a: AccountKey)
    requires MoneyInv(accounts, entries) && a !in accounts
    ensures MoneyInv(accounts[a := ZERO], entries)
  {
    NoEntriesNoSum(entries, a);
  }

  lemma PostMoney(accounts: map<AccountKey, Points>, entries: seq<Entry>, e: Entry)
    requires MoneyInv(accounts, entries) && e.account in accounts && accounts[e.account].Plus(e.delta).NonNegative()
    ensures MoneyInv(accounts[e.account := accounts[e.account].Plus(e.delta)], entries + [e])
  {
    var after := accounts[e.account := accounts[e.account].Plus(e.delta)];
    forall a | a in after
      ensures after[a] == SumDeltas(entries + [e], a)
    {
      AppendSums(entries, e, a);
    }
  }

  lemma AppendDistinct(entries: seq<Entry>, e: Entry)
    requires DistinctEntries(entries) && !EntryIdTaken(entries, e.id) && !KeyTaken(entries, e.key)
    ensures DistinctEntries(entries + [e])
  {
  }

  // ---------------------------------------------------------------- tickets and settlements

  predicate SoundTicket(row: Ticket) {
    && 0 < row.stake <= MAX_TICKET_STAKE_POINTS
    && Decimal.IsPositiveDecimal(row.leg.odds)
    && (row.status.Settled? <==> row.active.Some?)
  }

  /** Every ticket has its account, and a settled ticket points at its own active settlement. */
  ghost predicate TicketsInv(accounts: map<AccountKey, Points>, tickets: map<TicketId, Ticket>,
                             settlements: map<SettlementId, Settlement>) {
    forall t :: t in tickets ==>
      && tickets[t].account in accounts
      && SoundTicket(tickets[t])
      && (tickets[t].active.Some? ==>
            && tickets[t].active.value in settlements
            && settlements[tickets[t].active.value].ticket == t
            && settlements[tickets[t].active.value].status.Active?)
  }

  /** A settlement releases the stake and pays the gross return, part of it against the debt. */
  predicate SoundSettlement(s: Settlement, stake: int) {
    && s.delta.frozen == -stake
    && s.delta.available - s.delta.debt == s.gross
    && s.delta.available >= 0 && s.delta.debt <= 0
    && 0 <= s.gross <= Decimal.MAX_SAFE_INTEGER
  }

  /** An active settlement is the one its ticket points at. */
  ghost predicate SettlementsInv(tickets: map<TicketId, Ticket>, settlements: map<SettlementId, Settlement>) {
    forall s :: s in settlements ==>
      && settlements[s].ticket in tickets
      && SoundSettlement(settlements[s], tickets[settlements[s].ticket].stake)
      && (settlements[s].status.Active? ==> tickets[settlements[s].ticket].active == Some(s))
  }

  predicate SameClaim(s: Settlement, r: Settlement) { s.ticket == r.ticket && s.version == r.version }

  ghost predicate UniqueVersions(settlements: map<SettlementId, Settlement>) {
    forall s, r ::
      (s in settlements && r in settlements && SameClaim(settlements[s], settlements[r])) ==> s == r
  }

  function SettledKey(s: Settlement): OperationKey { OperationKey(s.ticket, s.version, SettleOp) }

  function ReversedKey(s: Settlement): OperationKey { OperationKey(s.ticket, s.version, ReversalOp) }

  /** Receipts and settlements tell the same story. */
  ghost predicate OperationsInv(settlements: map<SettlementId, Settlement>, operations: map<OperationKey, Receipt>) {
    && (forall s :: s in settlements ==>
          && SettledKey(settlements[s]) in operations
          && (settlements[s].status.Reversed? <==> ReversedKey(settlements[s]) in operations))
    && (forall k :: k in operations ==>
          && (k.op.SettleOp? <==> operations[k].SettledReceipt?)
          && VersionTaken(settlements, k.ticket, k.version))
  }

  // ---------------------------------------------------------------- entries and their keys

  /** What an idempotency key says about the entry that carries it. */
  predicate KeyShape(e: Entry) {
    match e.key
    case InitialGrantKey(a) => e.kind.InitialGrant? && e.account == a && e.ticket.None?
                               && e.delta == Points(e.amount, 0, 0)
    case OwnerGrantKey(_) => e.kind.OwnerGrant? && e.ticket.None? && e.delta == Points(e.amount, 0, 0)
    case SubscriptionKey(user, _, room, _) =>
      e.kind.ProSubscription? && e.account == AccountKey(room, user) && e.ticket.None?
          && e.delta == Points(-e.amount, 0, 0)
    case FreezeKey(t) => e.kind.PredictionFreeze? && e.ticket == Some(t) && e.delta == Points(-e.amount, e.amount, 0)
    case SettleKey(t, v) => e.kind.SettlementEntry? && e.ticket == Some(t) && e.version == Some(v) && e.reverses.None?
    case ReverseKey(t, v) => e.kind.SettlementReversal? && e.ticket == Some(t) && e.version == Some(v)
                             && e.reverses.Some?
  }

  /** The row that explains an entry. */
  ghost predicate Explained(e: Entry, tickets: map<TicketId, Ticket>, operations: map<OperationKey, Receipt>,
                            requests: map<RequestId, GrantRequest>) {
    match e.key
    case InitialGrantKey(_) => true
    case OwnerGrantKey(r) => r in requests && requests[r] == GrantRequest(e.account, Approved(e.amount, e.id))
    case SubscriptionKey(_, _, _, _) => true
    case FreezeKey(t) => t in tickets
    case SettleKey(t, v) => OperationKey(t, v, SettleOp) in operations
    case ReverseKey(t, v) => OperationKey(t, v, ReversalOp) in operations
  }

  ghost predicate EntriesInv(entries: seq<Entry>, tickets: map<TicketId, Ticket>, operations: map<OperationKey,
                             Receipt>,
                             requests: map<RequestId, GrantRequest>) {
    forall i :: 0 <= i < |entries| ==> KeyShape(entries[i]) && Explained(entries[i], tickets, operations, requests)
  }

  /** An approved request has its ledger entry, and a member has at most one open request. */
  ghost predicate RequestsInv(entries: seq<Entry>, requests: map<RequestId, GrantRequest>, accounts: map<AccountKey,
                              Points>) {
    && (forall r :: r in requests ==> requests[r].account in accounts)
    && (forall r :: r in requests && requests[r].status.Approved? ==> KeyTaken(entries, OwnerGrantKey(r)))
    && (forall r, q :: (r in requests && q in requests && requests[r].status.Open? && requests[q] == requests[r]) ==>
        r == q)
  }

  // ---------------------------------------------------------------- frozen points and worth

  function PendingStake(row: Ticket, a: AccountKey): int {
    if row.account == a && row.status.Pending? then row.stake else 0
  }

  ghost function PendingStakes(tickets: map<TicketId, Ticket>, a: AccountKey): map<TicketId, int> {
    map t | t in tickets :: PendingStake(tickets[t], a)
  }

  /** Frozen points are the stakes of the pending tickets. */
  ghost predicate FrozenInv(accounts: map<AccountKey, Points>, tickets: map<TicketId, Ticket>) {
    forall a :: a in accounts ==> accounts[a].frozen == Total(PendingStakes(tickets, a))
  }

  /** What a ticket's active settlement adds to its account: gross return less stake. */
  function Standing(row: Ticket, settlements: map<SettlementId, Settlement>, a: AccountKey): int {
    if row.account == a && row.active.Some? && row.active.value in settlements
    then settlements[row.active.value].gross - row.stake
    else 0
  }

  ghost function Standings(tickets: map<TicketId, Ticket>, settlements: map<SettlementId, Settlement>,
                           a: AccountKey): map<TicketId, int> {
    map t | t in tickets :: Standing(tickets[t], settlements, a)
  }

  const GRANTS := {InitialGrant, OwnerGrant}
  const SPENDING := {ProSubscription}

  /** Worth = grants - spending + what the active settlements stand for. */
  ghost predicate WorthInv(accounts: map<AccountKey, Points>, entries: seq<Entry>, tickets: map<TicketId, Ticket>,
                           settlements: map<SettlementId, Settlement>) {
    forall a :: a in accounts ==>
      accounts[a].Worth() == SumAmounts(entries, a, GRANTS) - SumAmounts(entries, a, SPENDING)
                             + Total(Standings(tickets, settlements, a))
  }

  // ---------------------------------------------------------------- the history of a ticket

  /** Entry i of a ticket: the freeze, then settlements at odd places and reversals at even ones. */
  predicate GoodStep(h: seq<Entry>, i: nat, t: TicketId, row: Ticket)
    requires i < |h|
  {
    && h[i].account == row.account
    && (i == 0 ==> h[i].key == FreezeKey(t) && h[i].delta == Points(-row.stake, row.stake, 0))
    && (i % 2 == 1 ==> h[i].kind.SettlementEntry? && h[i].delta.frozen == -row.stake
                       && h[i].delta.Worth() == h[i].amount - row.stake)
    && (i > 0 && i % 2 == 0 ==>
          && h[i].kind.SettlementReversal?
          && h[i].reverses == Some(h[i - 1].id)
          && h[i].version == h[i - 1].version
          && h[i].delta.frozen == row.stake
          && h[i].delta.Worth() + h[i - 1].delta.Worth() == 0)
  }

  ghost predicate GoodHistory(h: seq<Entry>, t: TicketId, row: Ticket, settlements: map<SettlementId, Settlement>) {
    && |h| >= 1
    && (forall i :: 0 <= i < |h| ==> GoodStep(h, i, t, row))
    && (|h| % 2 == 0 <==> row.active.Some?)
    && (row.active.Some? ==> row.active.value in settlements && EndsAt(h, settlements[row.active.value]))
  }

  predicate EndsAt(h: seq<Entry>, s: Settlement)
    requires |h| >= 1
  {
    var last := h[|h| - 1];
    last.id == s.ledgerId && last.version == Some(s.version) && last.delta == s.delta
  }

  ghost predicate HistoryInv(entries: seq<Entry>, tickets: map<TicketId, Ticket>, settlements: map<SettlementId,
                             Settlement>) {
    && (forall t :: t in tickets ==> GoodHistory(History(entries, t), t, tickets[t], settlements))
    && (forall i :: 0 <= i < |entries| && entries[i].ticket.Some? ==> entries[i].ticket.value in tickets)
  }

  // ---------------------------------------------------------------- all of it

  ghost predicate Inv(db: Db) {
    && MoneyInv(db.accounts, db.entries)
    && DistinctEntries(db.entries)
    && TicketsInv(db.accounts, db.tickets, db.settlements)
    && SettlementsInv(db.tickets, db.settlements)
    && UniqueVersions(db.settlements)
    && OperationsInv(db.settlements, db.operations)
    && EntriesInv(db.entries, db.tickets, db.operations, db.requests)
    && RequestsInv(db.entries, db.requests, db.accounts)
    && FrozenInv(db.accounts, db.tickets)
    && WorthInv(db.accounts, db.entries, db.tickets, db.settlements)
    && HistoryInv(db.entries, db.tickets, db.settlements)
  }

  lemma EmptyInv()
    ensures Inv(EMPTY)
  {
  }
}
