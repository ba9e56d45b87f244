/**
 * What the requests that move points come to: when each succeeds, what it then has changed, and that a
 * request repeated at any later moment of any run is answered and changes nothing.
 */
module LedgerRequests {
  import opened Common
  import opened LedgerModel
  import opened LedgerInvariant
  import opened SettlementSteps
  import opened LedgerMachine
  import opened LedgerTheorems
  import opened LedgerPayments
  import LedgerSteps
  import Decimal
  import Sweep

  // ---------------------------------------------------------------- one ticket for each request key

  predicate SameRequest(row: Ticket, row': Ticket) {
    row.account == row'.account && row.requestKey == row'.requestKey
  }

  ghost predicate KeysInv(tickets: map<TicketId, Ticket>) {
    forall t, u :: t in tickets && u in tickets && SameRequest(tickets[t], tickets[u]) ==> t == u
  }

  /** The same tickets, in status and settlement apart. */
  ghost predicate TicketsKept(tickets: map<TicketId, Ticket>, tickets': map<TicketId, Ticket>) {
    tickets'.Keys == tickets.Keys && forall t :: t in tickets ==> Sweep.SameBet(tickets[t], tickets'[t])
  }

  lemma KeptKeys(tickets: map<TicketId, Ticket>, tickets': map<TicketId, Ticket>)
    requires KeysInv(tickets) && TicketsKept(tickets, tickets')
    ensures KeysInv(tickets')
  {
    forall t, u | t in tickets' && u in tickets' && SameRequest(tickets'[t], tickets'[u]) ensures t == u {
      assert SameRequest(tickets[t], tickets[u]);
    }
  }

  lemma SubmittedKeys(db: Db, c: FreezeCommand)
    requires KeysInv(db.tickets) && SubmitTicket(db, c).Ok?
    ensures KeysInv(SubmitTicket(db, c).value.tickets)
  {
    hide Post, Decimal.IsPositiveDecimal;
  }

  lemma {:induction false} DeductKeepsTickets(db: Db, rows: seq<AccountKey>, remaining: int, tier: Tier, at: int,
                                              ids: seq<EntryId>)
    requires |ids| == |rows| && Deduct(db, rows, remaining, tier, at, ids).Ok?
    ensures Deduct(db, rows, remaining, tier, at, ids).value.tickets == db.tickets
    ensures Deduct(db, rows, remaining, tier, at, ids).value.requests == db.requests
    decreases |rows|
  {
    if remaining > 0 && rows != [] {
      var amount := Min(db.accounts[rows[0]].available, remaining);
      var posted := Post(db, SubscriptionEntry(rows[0], tier, at, amount, ids[0]), Points(-amount, 0, 0));
      DeductKeepsTickets(posted.value, rows[1..], remaining - amount, tier, at, ids[1..]);
    }
  }

  /** A step other than a submission or a write leaves the tickets alone. */
  lemma OtherTickets(w: World, step: Step)
    requires !step.Submit? && !step.Write?
    ensures Next(w, step).db.tickets == w.db.tickets
  {
    hide Deduct, PlanOf;
    if step.Subscribe? && MaySubscribe(w.db, step.user, step.rows, step.entryIds)
        && SubscribeWithPoints(w.db, step.rows, step.tier, step.at, step.entryIds).Ok? {
      DeductKeepsTickets(w.db, step.rows, ProPointsPrice(step.tier), step.tier, step.at, step.entryIds);
    }
  }

  lemma WriteKeepsTickets(w: World, step: Step)
    requires WorldInv(w) && step.Write?
    ensures TicketsKept(w.db.tickets, Next(w, step).db.tickets)
  {
    hide Inv, PersistSettlement, PersistReversal, SettleReady, ReverseReady, Untouched;
    if step.ticket in w.flights && w.flights[step.ticket].Planned? {
      assert FlightOk(w.db, step.ticket, w.flights[step.ticket]);
      var plan := w.flights[step.ticket].plan;
      if ApplyPlan(w.db, plan).Ok? {
        match plan
        case Settle(write) => Sweep.SettleLeaves(w.db, write);
        case Reverse(write) => Sweep.ReverseLeaves(w.db, write);
      }
    }
  }

  lemma StepKeepsKeys(w: World, step: Step)
    requires WorldInv(w) && KeysInv(w.db.tickets)
    ensures KeysInv(Next(w, step).db.tickets)
  {
    hide WorldInv, KeysInv, TicketsKept, SubmitTicket;
    if step.Submit? {
      if SubmitTicket(w.db, step.command).Ok? { SubmittedKeys(w.db, step.command); }
    } else if step.Write? {
      WriteKeepsTickets(w, step);
      hide Next;
      KeptKeys(w.db.tickets, Next(w, step).db.tickets);
    } else {
      OtherTickets(w, step);
    }
  }

  /** In every run no account has two tickets of one request key. */
  lemma {:induction false} RequestKeysAreUnique(steps: seq<Step>, t: TicketId, u: TicketId)
    requires t in Run(steps).db.tickets && u in Run(steps).db.tickets
    requires SameRequest(Run(steps).db.tickets[t], Run(steps).db.tickets[u])
    ensures t == u
  {
    RunKeys(steps);
  }

  lemma {:induction false} RunKeys(steps: seq<Step>)
    ensures KeysInv(Run(steps).db.tickets)
  {
    hide WorldInv, Next, KeysInv;
    if steps == [] {
      assert KeysInv(map[]) by { NoKeys(); }
    } else {
      RunKeys(steps[..|steps| - 1]);
      RunKeeps(steps[..|steps| - 1]);
      StepKeepsKeys(Run(steps[..|steps| - 1]), steps[|steps| - 1]);
    }
  }

  lemma NoKeys()
    ensures KeysInv(map[])
  {
  }

  // ---------------------------------------------------------------- what stays for the rest of a run

  lemma RunOneMore(steps: seq<Step>, more: seq<Step>)
    requires more != []
    ensures var n := |more| - 1; Run(steps + more) == Next(Run(steps + more[..n]), more[n])
  {
    hide Run, Next;
    var n := |more| - 1;
    assert steps + more == (steps + more[..n]) + [more[n]];
    RunSnoc(steps + more[..n], more[n]);
  }

  lemma RunSnoc(steps: seq<Step>, step: Step)
    ensures Run(steps + [step]) == Next(Run(steps), step)
  {
    hide Next;
    assert (steps + [step])[..|steps|] == steps;
  }

  lemma BetsKeptTwice(db: Db, mid: Db, db': Db)
    requires BetsKept(db, mid) && BetsKept(mid, db')
    ensures BetsKept(db, db')
  {
    forall t | t in db.tickets ensures t in db'.tickets && Sweep.SameBet(db.tickets[t], db'.tickets[t]) {
      assert Sweep.SameBet(db.tickets[t], mid.tickets[t]) && Sweep.SameBet(mid.tickets[t], db'.tickets[t]);
    }
  }

  lemma BetsKeptItself(db: Db)
    ensures BetsKept(db, db)
  {
  }

  lemma {:induction false} LaterBets(steps: seq<Step>, more: seq<Step>)
    ensures BetsKept(Run(steps).db, Run(steps + more).db)
  {
    hide WorldInv, PricedWorld, BetsKept, Run, Next;
    if more == [] {
      assert steps + more == steps;
      BetsKeptItself(Run(steps).db);
    } else {
      var n := |more| - 1;
      LaterBets(steps, more[..n]);
      RunOneMore(steps, more);
      var mid := Run(steps + more[..n]);
      RunKeeps(steps + more[..n]);
      RunPrices(steps + more[..n]);
      StepKeepsPrices(mid, more[n]);
      BetsKeptTwice(Run(steps).db, mid.db, Run(steps + more).db);
    }
  }

  // ---------------------------------------------------------------- a repeated submission

  lemma Answered(db: Db, c: FreezeCommand)
    requires SubmitTicket(db, c).Ok?
    ensures SubmittedBefore(SubmitTicket(db, c).value, c)
  {
    hide Decimal.IsPositiveDecimal;
    if !SubmittedBefore(db, c) {
      var db' := SubmitTicket(db, c).value;
      assert db'.tickets[c.ticket].account == c.account && db'.tickets[c.ticket].requestKey == c.requestKey;
    }
  }

  lemma StillAnswered(db: Db, db': Db, c: FreezeCommand, c': FreezeCommand)
    requires SubmittedBefore(db, c) && BetsKept(db, db') && c'.account == c.account && c'.requestKey == c.requestKey
    ensures SubmittedBefore(db', c')
  {
    var t :| t in db.tickets && db.tickets[t].account == c.account && db.tickets[t].requestKey == c.requestKey;
    assert db'.tickets[t].account == c'.account && db'.tickets[t].requestKey == c'.requestKey;
  }

  lemma AnsweredInPlace(db: Db, c: FreezeCommand)
    requires TicketsInv(db.accounts, db.tickets, db.settlements) && SubmittedBefore(db, c)
    ensures SubmitTicket(db, c) == Ok(db)
  {
    var t :| t in db.tickets && db.tickets[t].account == c.account && db.tickets[t].requestKey == c.requestKey;
    assert c.account in db.accounts;
    hide SoundTicket, Post, Decimal.IsPositiveDecimal;
  }

  /**
   * Once a submission is accepted, any command of its account and request key, whatever else it asks for,
   * is answered at any later moment of any run and leaves everything as it is: no second stake is frozen.
   */
  lemma RepeatedSubmissionChangesNothing(steps: seq<Step>, c: FreezeCommand, more: seq<Step>, c': FreezeCommand)
    requires SubmitTicket(Run(steps).db, c).Ok? && c'.account == c.account && c'.requestKey == c.requestKey
    ensures var db := Run(steps + [Submit(c)] + more).db; SubmitTicket(db, c') == Ok(db)
  {
    hide Run, WorldInv, BetsKept, SubmitTicket, SubmittedBefore;
    RunOneMore(steps, [Submit(c)]);
    assert steps + [Submit(c)][..0] == steps;
    Answered(Run(steps).db, c);
    LaterBets(steps + [Submit(c)], more);
    StillAnswered(Run(steps + [Submit(c)]).db, Run(steps + [Submit(c)] + more).db, c, c');
    AfterRun(steps + [Submit(c)] + more);
    AnsweredInPlace(Run(steps + [Submit(c)] + more).db, c');
  }

  lemma AfterRun(steps: seq<Step>)
    ensures Inv(Run(steps).db) && TicketsInv(Run(steps).db.accounts, Run(steps).db.tickets, Run(steps).db.settlements)
  {
    hide Run, Inv, TicketsInv, SettlementsInv, FlightOk;
    RunKeeps(steps);
    TicketsOf(Run(steps).db);
  }

  // ---------------------------------------------------------------- a new submission

  lemma FreezeKeyFree(db: Db, t: TicketId)
    requires Inv(db) && t !in db.tickets
    ensures !KeyTaken(db.entries, FreezeKey(t))
  {
    hide MoneyInv, DistinctEntries, TicketsInv, SettlementsInv, UniqueVersions, OperationsInv, RequestsInv, FrozenInv,
      WorthInv, HistoryInv;
  }

  lemma AccountNotNegative(db: Db, a: AccountKey)
    requires Inv(db) && a in db.accounts
    ensures db.accounts[a].NonNegative()
  {
    hide Inv, TicketsInv, SettlementsInv;
    TicketsOf(db);
  }

  /** The ticket a submission stores. */
  predicate StoredAs(row: Ticket, c: FreezeCommand) {
    && row.account == c.account && row.fixture == c.fixture && row.requestKey == c.requestKey
    && row.stake == c.stake && row.leg == c.leg && row.status.Pending? && row.active.None?
  }

  /**
   * A request key not used before succeeds exactly when the account has the stake, the stake is within its
   * bounds and the odds are a positive decimal (and the ids are fresh). It freezes exactly that stake,
   * stores the ticket as asked for, and no other account or ticket changes.
   */
  lemma SubmissionFreezesItsStake(steps: seq<Step>, c: FreezeCommand)
    requires var tickets := Run(steps).db.tickets;
             forall t :: t in tickets ==> tickets[t].account != c.account || tickets[t].requestKey != c.requestKey
    ensures var db := Run(steps).db;
            SubmitTicket(db, c).Ok? <==>
              && c.account in db.accounts && 0 < c.stake <= 20_000 && c.stake <= db.accounts[c.account].available
              && Decimal.IsPositiveDecimal(c.leg.odds)
              && c.ticket !in db.tickets && !EntryIdTaken(db.entries, c.entryId)
    ensures SubmitTicket(Run(steps).db, c).Ok? ==>
              var db, db' := Run(steps).db, SubmitTicket(Run(steps).db, c).value;
              && c.account in db.accounts && db'.accounts.Keys == db.accounts.Keys
              && (forall a :: a in db.accounts ==>
                    db'.accounts[a].available == db.accounts[a].available - (if a == c.account then c.stake else 0)
                    && db'.accounts[a].frozen == db.accounts[a].frozen + (if a == c.account then c.stake else 0)
                    && db'.accounts[a].debt == db.accounts[a].debt)
              && db'.tickets.Keys == db.tickets.Keys + {c.ticket} && StoredAs(db'.tickets[c.ticket], c)
              && (forall t :: t in db.tickets ==> t != c.ticket && db'.tickets[t] == db.tickets[t])
              && db'.settlements == db.settlements && db'.operations == db.operations && db'.requests == db.requests
  {
    hide Run, Inv, Decimal.IsPositiveDecimal, TicketsInv;
    AfterRun(steps);
    NewSubmission(Run(steps).db, c);
  }

  lemma NewSubmission(db: Db, c: FreezeCommand)
    requires Inv(db) && !SubmittedBefore(db, c)
    ensures SubmitTicket(db, c).Ok? <==>
              && c.account in db.accounts && 0 < c.stake <= 20_000 && c.stake <= db.accounts[c.account].available
              && Decimal.IsPositiveDecimal(c.leg.odds)
              && c.ticket !in db.tickets && !EntryIdTaken(db.entries, c.entryId)
    ensures SubmitTicket(db, c).Ok? ==>
              SubmitTicket(db, c).value
                == db.(accounts := db.accounts[c.account := db.accounts[c.account].Plus(Points(-c.stake, c.stake, 0))],
                       entries := db.entries + [FreezeEntry(c)],
                       tickets := db.tickets[c.ticket := Ticket(c.account, c.fixture, c.requestKey, c.stake, c.leg,
                                                                Pending, None)])
  {
    hide Inv, Decimal.IsPositiveDecimal, SubmittedBefore, EntryIdTaken, KeyTaken;
    if c.ticket !in db.tickets { FreezeKeyFree(db, c.ticket); }
    if c.account in db.accounts { AccountNotNegative(db, c.account); }
  }

  // ---------------------------------------------------------------- decisions

  /** Decided requests stay as decided, and no request disappears. */
  ghost predicate DecisionsKept(requests: map<RequestId, GrantRequest>, requests': map<RequestId, GrantRequest>) {
    forall r :: r in requests ==>
      r in requests' && requests'[r].account == requests[r].account
      && (!requests[r].status.Open? ==> requests'[r] == requests[r])
  }

  lemma StepKeepsDecisions(w: World, step: Step)
    ensures DecisionsKept(w.db.requests, Next(w, step).db.requests)
  {
    hide Deduct, PlanOf;
    if step.Subscribe? && MaySubscribe(w.db, step.user, step.rows, step.entryIds)
        && SubscribeWithPoints(w.db, step.rows, step.tier, step.at, step.entryIds).Ok? {
      DeductKeepsTickets(w.db, step.rows, ProPointsPrice(step.tier), step.tier, step.at, step.entryIds);
    } else if step.Write? {
      WriteKeepsRequests(w, step.ticket);
    }
  }

  lemma WriteKeepsRequests(w: World, t: TicketId)
    ensures Next(w, Write(t)).db.requests == w.db.requests
  {
  }

  lemma {:induction false} LaterDecisions(steps: seq<Step>, more: seq<Step>)
    ensures DecisionsKept(Run(steps).db.requests, Run(steps + more).db.requests)
  {
    hide Run, Next;
    if more == [] {
      assert steps + more == steps;
    } else {
      var n := |more| - 1;
      LaterDecisions(steps, more[..n]);
      RunOneMore(steps, more);
      StepKeepsDecisions(Run(steps + more[..n]), more[n]);
    }
  }

  predicate AmountAllowed(d: Decision) { d.Approve? ==> 1 <= d.amount <= 20_000 }

  lemma Decided(db: Db, r: RequestId, d: Decision, id: EntryId, roomActive: bool)
    requires DecideGrant(db, r, d, id, roomActive).Ok?
    ensures var requests' := DecideGrant(db, r, d, id, roomActive).value.requests;
            r in requests' && !requests'[r].status.Open?
            && match d
               case Approve(amount) => requests'[r].status.Approved? && requests'[r].status.amount == amount
               case Deny => requests'[r].status.Denied?
  {
  }

  lemma DecidedAgain(db: Db, r: RequestId, d: Decision, d': Decision, id: EntryId, roomActive: bool)
    requires r in db.requests && !db.requests[r].status.Open?
    requires match d
             case Approve(amount) => db.requests[r].status.Approved? && db.requests[r].status.amount == amount
             case Deny => db.requests[r].status.Denied?
    ensures DecideGrant(db, r, d', id, roomActive)
         == if !AmountAllowed(d') then Err(GrantAmountInvalid)
            else if d' == d then Ok(db)
            else Err(GrantAlreadyDecided)
  {
    hide Post;
  }

  /**
   * A decision stands for the rest of every run: deciding the same again is answered and changes nothing,
   * whoever asks and however the room stands, and any other decision is refused.
   */
  lemma DecisionStands(steps: seq<Step>, r: RequestId, d: Decision, id: EntryId, roomActive: bool, more: seq<Step>,
                       d': Decision, id': EntryId, roomActive': bool)
    requires DecideGrant(Run(steps).db, r, d, id, roomActive).Ok?
    ensures var db := Run(steps + [Decide(r, d, id, roomActive)] + more).db;
            DecideGrant(db, r, d', id', roomActive') ==
            if !AmountAllowed(d') then Err(GrantAmountInvalid)
            else if d' == d then Ok(db)
            else Err(GrantAlreadyDecided)
  {
    hide Run, DecideGrant, AmountAllowed;
    var step := Decide(r, d, id, roomActive);
    RunOneMore(steps, [step]);
    assert steps + [step][..0] == steps;
    Decided(Run(steps).db, r, d, id, roomActive);
    LaterDecisions(steps + [step], more);
    DecidedAgain(Run(steps + [step] + more).db, r, d, d', id', roomActive');
  }

  lemma GrantKeyFree(db: Db, r: RequestId)
    requires Inv(db) && r in db.requests && db.requests[r].status.Open?
    ensures !KeyTaken(db.entries, OwnerGrantKey(r))
  {
    hide MoneyInv, DistinctEntries, TicketsInv, SettlementsInv, UniqueVersions, OperationsInv, RequestsInv, FrozenInv,
      WorthInv, HistoryInv;
  }

  lemma RequesterHasAccount(db: Db, r: RequestId)
    requires Inv(db) && r in db.requests
    ensures db.requests[r].account in db.accounts && db.accounts[db.requests[r].account].NonNegative()
  {
    hide DistinctEntries, TicketsInv, SettlementsInv, UniqueVersions, OperationsInv, EntriesInv, FrozenInv, WorthInv,
      HistoryInv;
  }

  /**
   * An open request is decided exactly when its room is active and an approved amount is within its bounds
   * (and the entry's id is fresh). Approved, the requester has exactly that amount more; denied, nothing
   * moves; and no other account or request changes.
   */
  lemma DecisionPaysItsAmount(steps: seq<Step>, r: RequestId, d: Decision, id: EntryId, roomActive: bool)
    requires r in Run(steps).db.requests && Run(steps).db.requests[r].status.Open?
    ensures var db := Run(steps).db;
            DecideGrant(db, r, d, id, roomActive).Ok? <==>
              roomActive && (d.Approve? ==> 1 <= d.amount <= 20_000 && !EntryIdTaken(db.entries, id))
    ensures DecideGrant(Run(steps).db, r, d, id, roomActive).Ok? ==>
              var db, db' := Run(steps).db, DecideGrant(Run(steps).db, r, d, id, roomActive).value;
              && db'.accounts.Keys == db.accounts.Keys && db'.requests.Keys == db.requests.Keys
              && (forall a :: a in db.accounts ==>
                    var paid := if d.Approve? && a == db.requests[r].account then d.amount else 0;
                    db'.accounts[a] == db.accounts[a].Plus(Points(paid, 0, 0)))
              && db'.requests[r] ==
                 GrantRequest(db.requests[r].account, if d.Approve? then Approved(d.amount, id) else Denied)
              && (forall q :: q in db.requests && q != r ==> db'.requests[q] == db.requests[q])
              && db'.tickets == db.tickets && db'.settlements == db.settlements
  {
    hide Run, Inv, TicketsInv, EntryIdTaken, KeyTaken;
    AfterRun(steps);
    GrantKeyFree(Run(steps).db, r);
    RequesterHasAccount(Run(steps).db, r);
  }

  // ---------------------------------------------------------------- requests and accounts

  /** A member's request leaves exactly one open request of that member, and an open one is left alone. */
  lemma RequestLeavesOneOpen(steps: seq<Step>, r: RequestId, a: AccountKey, roomActive: bool)
    ensures var db := Run(steps).db;
            RequestGrant(db, r, a, roomActive).Ok? <==>
              a in db.accounts && roomActive && (HasOpenRequest(db, a) || r !in db.requests)
    ensures RequestGrant(Run(steps).db, r, a, roomActive).Ok? ==>
              var db, db' := Run(steps).db, RequestGrant(Run(steps).db, r, a, roomActive).value;
              && HasOpenRequest(db', a) && (HasOpenRequest(db, a) ==> db' == db) && OneOpenRequestEach(db'.requests)
              && db' == db.(requests := db'.requests)
              && (forall q :: q in db.requests ==> q in db'.requests && db'.requests[q] == db.requests[q])
  {
    hide Run, Inv, TicketsInv, OneOpenRequestEach;
    AfterRun(steps);
    var db := Run(steps).db;
    if RequestGrant(db, r, a, roomActive).Ok? {
      var db' := RequestGrant(db, r, a, roomActive).value;
      LedgerSteps.RequestGrantKeeps(db, r, a, roomActive);
      OneOpenRequest(db');
      if !HasOpenRequest(db, a) { assert db'.requests[r] == GrantRequest(a, RequestStatus.Open); }
    }
  }

  ghost predicate OneOpenRequestEach(requests: map<RequestId, GrantRequest>) {
    forall r, q :: r in requests && q in requests && requests[r].status.Open? && requests[q] == requests[r] ==> r == q
  }

  lemma OneOpenRequest(db: Db)
    requires Inv(db)
    ensures OneOpenRequestEach(db.requests)
  {
    hide MoneyInv, DistinctEntries, TicketsInv, SettlementsInv, UniqueVersions, OperationsInv, EntriesInv, FrozenInv,
      WorthInv, HistoryInv;
  }

  lemma InitialKeyFree(db: Db, a: AccountKey)
    requires Inv(db) && a !in db.accounts
    ensures !KeyTaken(db.entries, InitialGrantKey(a))
  {
    hide DistinctEntries, TicketsInv, SettlementsInv, UniqueVersions, OperationsInv, RequestsInv, FrozenInv,
      WorthInv, HistoryInv, Explained;
  }

  /** Joining gives a new account exactly its initial points; joining again, with whatever points, nothing. */
  lemma JoiningGrantsOnce(steps: seq<Step>, a: AccountKey, points: int, id: EntryId)
    ensures var db := Run(steps).db;
            OpenAccount(db, a, points, id).Ok? <==> a in db.accounts || (points >= 0 && !EntryIdTaken(db.entries, id))
    ensures OpenAccount(Run(steps).db, a, points, id).Ok? ==>
              var db, db' := Run(steps).db, OpenAccount(Run(steps).db, a, points, id).value;
              if a in db.accounts then db' == db
              else
                && db'.accounts.Keys == db.accounts.Keys + {a} && db'.accounts[a] == Points(points, 0, 0)
                && (forall b :: b in db.accounts ==> db'.accounts[b] == db.accounts[b])
                && |db'.entries| == |db.entries| + 1 && db'.entries[..|db.entries|] == db.entries
                && db' == db.(accounts := db'.accounts, entries := db'.entries)
  {
    hide Run, Inv, TicketsInv, EntryIdTaken, KeyTaken;
    AfterRun(steps);
    if a !in Run(steps).db.accounts { InitialKeyFree(Run(steps).db, a); }
  }
}
