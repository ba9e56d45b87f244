/**
 * Which candidates repeated scans ever reach. Every scan takes the first ones in the query's order, and
 * a ticket that can never settle keeps its place among them.
 */
module SweepOrder {
  import opened Common
  import opened LedgerModel
  import opened LedgerInvariant
  import opened LedgerMachine
  import opened Sweep

  /** The place the query's ORDER BY gives a ticket; ties are broken alike in every scan. */
  type Order = TicketId -> int

  /** `ORDER BY f.updated_at,t.created_at LIMIT`: no candidate is passed over for a later one. */
  ghost predicate OrderedScan(db: Db, targets: map<TicketId, Target>, limit: int, order: Order, jobs: seq<Job>) {
    && IsScan(db, targets, limit, jobs)
    && (forall i, j :: 0 <= i < j < |jobs| ==> order(jobs[i].ticket) < order(jobs[j].ticket))
    && (forall i, t :: 0 <= i < |jobs| && t in Candidates(db, targets) && !Listed(jobs, t) ==>
        order(jobs[i].ticket) < order(t))
  }

  /** Candidates that come before a ticket. */
  ghost function Ahead(db: Db, targets: map<TicketId, Target>, order: Order, t: TicketId): set<TicketId> {
    set u | u in Candidates(db, targets) && order(u) < order(t)
  }

  /** Those of them whose current version is used up. */
  ghost function StuckAhead(db: Db, targets: map<TicketId, Target>, order: Order, t: TicketId): set<TicketId> {
    set u | u in Ahead(db, targets, order, t) && u in targets && UsedUp(db, u, targets[u].version)
  }

  // ---------------------------------------------------------------- one scan

  /** A ticket is listed only when fewer candidates than the limit come before it. */
  lemma ListedHasFewAhead(db: Db, targets: map<TicketId, Target>, limit: int, order: Order, jobs: seq<Job>, t: TicketId)
    requires OrderedScan(db, targets, limit, order, jobs) && Listed(jobs, t)
    ensures |Ahead(db, targets, order, t)| < SafeLimit(limit)
  {
    hide Candidates, JobFor;
    var i :| 0 <= i < |jobs| && jobs[i].ticket == t;
    forall u | u in Ahead(db, targets, order, t) ensures u in TicketsOfJobs(jobs) && u != t {
      assert Listed(jobs, u);
    }
    DistinctJobs(jobs);
    assert t in TicketsOfJobs(jobs);
    SubsetSize(Ahead(db, targets, order, t), TicketsOfJobs(jobs) - {t});
  }

  /** A ticket that is not listed has a full batch before it. */
  lemma UnlistedHasABatchAhead(db: Db, targets: map<TicketId, Target>, limit: int, order: Order, jobs: seq<Job>,
                               t: TicketId)
    requires OrderedScan(db, targets, limit, order, jobs) && t in Candidates(db, targets) && !Listed(jobs, t)
    ensures |TicketsOfJobs(jobs)| == SafeLimit(limit) && TicketsOfJobs(jobs) <= Ahead(db, targets, order, t)
  {
    hide Candidates, JobFor;
    DistinctJobs(jobs);
    forall u | u in TicketsOfJobs(jobs) ensures u in Ahead(db, targets, order, t) {
      var i :| 0 <= i < |jobs| && jobs[i].ticket == u;
    }
    assert t !in TicketsOfJobs(jobs);
    SubsetSize(TicketsOfJobs(jobs), Candidates(db, targets) - {t});
  }

  /** A used up version is not the one a ticket is settled at, so the ticket is a candidate. */
  lemma UsedUpIsCandidate(db: Db, targets: map<TicketId, Target>, t: TicketId)
    requires t in targets && t in db.tickets && UsedUp(db, t, targets[t].version)
    ensures t in Candidates(db, targets)
  {
  }

  lemma CandidateIsTicket(db: Db, targets: map<TicketId, Target>, t: TicketId)
    requires t in Candidates(db, targets)
    ensures t in targets && t in db.tickets
  {
  }

  lemma TicketsStay(db: Db, jobs: seq<Job>, s: Swept)
    requires SweptWell(db, jobs, s)
    ensures Inv(s.db) && s.db.tickets.Keys == db.tickets.Keys
  {
    hide Inv, ReceiptsKept, RestKept, Handled;
  }

  /** Nothing that is stuck before a ticket gets out of its way. */
  lemma StuckStays(db: Db, targets: map<TicketId, Target>, limit: int, order: Order, jobs: seq<Job>, ids: seq<Ids>,
                   t: TicketId)
    requires Inv(db) && OrderedScan(db, targets, limit, order, jobs) && |ids| == |jobs|
    ensures StuckAhead(db, targets, order, t) <= StuckAhead(SweepJobs(db, jobs, ids).db, targets, order, t)
  {
    hide Inv, IsScan, Candidates, UsedUp, SweepJobs, SweptWell;
    var s := SweepJobs(db, jobs, ids);
    ScanIsCurrent(db, targets, limit, jobs);
    ScanLeaves(db, jobs, ids);
    TicketsStay(db, jobs, s);
    forall u | u in StuckAhead(db, targets, order, t) ensures u in StuckAhead(s.db, targets, order, t) {
      CandidateIsTicket(db, targets, u);
      UsedUpFailsEveryScan(db, targets, limit, jobs, ids, u);
      UsedUpIsCandidate(s.db, targets, u);
    }
  }

  lemma UnlistedKept(db: Db, jobs: seq<Job>, s: Swept, t: TicketId)
    requires SweptWell(db, jobs, s) && !Listed(jobs, t)
    ensures Untouched(db, s.db, t) && ActiveVersion(s.db, t) == ActiveVersion(db, t)
  {
    hide Inv, ReceiptsKept, Handled, SameBets, ActiveVersion, Untouched;
  }

  lemma UnlistedStays(db: Db, targets: map<TicketId, Target>, jobs: seq<Job>, s: Swept, t: TicketId)
    requires SweptWell(db, jobs, s) && !Listed(jobs, t) && t in Candidates(db, targets)
    ensures t in Candidates(s.db, targets) && Untouched(db, s.db, t)
  {
    hide SweptWell, Untouched, ActiveVersion, Inv;
    UnlistedKept(db, jobs, s, t);
    TicketsStay(db, jobs, s);
  }

  /** With a full batch of stuck tickets before it, a ticket is passed over by every scan, whatever else happens. */
  lemma PassedOver(db: Db, targets: map<TicketId, Target>, limit: int, order: Order, jobs: seq<Job>, ids: seq<Ids>,
                   t: TicketId)
    requires Inv(db) && OrderedScan(db, targets, limit, order, jobs) && |ids| == |jobs|
    requires t in Candidates(db, targets) && |StuckAhead(db, targets, order, t)| >= SafeLimit(limit)
    ensures var db' := SweepJobs(db, jobs, ids).db;
            && Inv(db') && t in Candidates(db', targets) && Untouched(db, db', t)
            && |StuckAhead(db', targets, order, t)| >= SafeLimit(limit)
  {
    hide Inv, SweepJobs, SweptWell, Untouched, Candidates, UsedUp, IsScan;
    var s := SweepJobs(db, jobs, ids);
    SubsetSize(StuckAhead(db, targets, order, t), Ahead(db, targets, order, t));
    if Listed(jobs, t) { ListedHasFewAhead(db, targets, limit, order, jobs, t); }
    ScanIsCurrent(db, targets, limit, jobs);
    ScanLeaves(db, jobs, ids);
    TicketsStay(db, jobs, s);
    UnlistedStays(db, targets, jobs, s, t);
    StuckStays(db, targets, limit, order, jobs, ids, t);
    SubsetSize(StuckAhead(db, targets, order, t), StuckAhead(s.db, targets, order, t));
  }

  // ---------------------------------------------------------------- a ticket with less than a batch stuck before it

  /** Only tickets whose version is used up failed. */
  ghost predicate OnlyStuckFail(db: Db, targets: map<TicketId, Target>, failed: seq<TicketId>) {
    forall t :: t in failed ==> t in targets && UsedUp(db, t, targets[t].version)
  }

  /** A candidate that is not stuck leaves the candidates in the scan that lists it. */
  lemma ListedLeaves(db: Db, targets: map<TicketId, Target>, limit: int, jobs: seq<Job>, ids: seq<Ids>, t: TicketId)
    requires Inv(db) && IsScan(db, targets, limit, jobs) && |ids| == |jobs| && Listed(jobs, t)
    requires OnlyStuckFail(db, targets, SweepJobs(db, jobs, ids).report.failed)
    requires t in targets && !UsedUp(db, t, targets[t].version)
    ensures t !in Candidates(SweepJobs(db, jobs, ids).db, targets)
  {
    hide Inv, SweepJobs, SweptWell, Candidates, IsScan, UsedUp;
    ScanShrinks(db, targets, limit, jobs, ids);
    assert t in TicketsOfJobs(jobs) - Members(SweepJobs(db, jobs, ids).report.failed);
  }

  /** No ticket becomes stuck that was not. */
  lemma NoMoreStuck(db: Db, targets: map<TicketId, Target>, limit: int, order: Order, jobs: seq<Job>, ids: seq<Ids>,
                    t: TicketId)
    requires Inv(db) && OrderedScan(db, targets, limit, order, jobs) && |ids| == |jobs|
    requires OnlyStuckFail(db, targets, SweepJobs(db, jobs, ids).report.failed)
    ensures Candidates(SweepJobs(db, jobs, ids).db, targets) <= Candidates(db, targets)
    ensures forall u :: u in Candidates(SweepJobs(db, jobs, ids).db, targets) && u in targets
                        && !UsedUp(db, u, targets[u].version) ==>
              !UsedUp(SweepJobs(db, jobs, ids).db, u, targets[u].version)
    ensures StuckAhead(SweepJobs(db, jobs, ids).db, targets, order, t) <= StuckAhead(db, targets, order, t)
  {
    hide Inv, SweepJobs, SweptWell, Candidates, IsScan, UsedUp, Untouched, ActiveVersion;
    var s := SweepJobs(db, jobs, ids);
    ScanShrinks(db, targets, limit, jobs, ids);
    forall u | u in Candidates(s.db, targets) && u in targets && !UsedUp(db, u, targets[u].version)
      ensures !UsedUp(s.db, u, targets[u].version)
    {
      if Listed(jobs, u) { ListedLeaves(db, targets, limit, jobs, ids, u); }
      UnlistedKept(db, jobs, s, u);
      CandidateIsTicket(db, targets, u);
      StillUnused(db, s.db, u, targets[u].version);
    }
  }

  lemma StillUnused(db: Db, db': Db, t: TicketId, v: Version)
    requires Untouched(db, db', t) && ActiveVersion(db', t) == ActiveVersion(db, t) && t in db.tickets
    requires !UsedUp(db, t, v)
    ensures !UsedUp(db', t, v)
  {
    hide ActiveVersion;
  }

  /** A scan settles such a ticket, or one that comes before it. */
  lemma OneLessAhead(db: Db, targets: map<TicketId, Target>, limit: int, order: Order, jobs: seq<Job>, ids: seq<Ids>,
                     t: TicketId)
    requires Inv(db) && OrderedScan(db, targets, limit, order, jobs) && |ids| == |jobs|
    requires OnlyStuckFail(db, targets, SweepJobs(db, jobs, ids).report.failed)
    requires t in Candidates(db, targets) && t in targets && !UsedUp(db, t, targets[t].version)
    requires |StuckAhead(db, targets, order, t)| < SafeLimit(limit)
    ensures var db' := SweepJobs(db, jobs, ids).db;
            t !in Candidates(db', targets) || |Ahead(db', targets, order, t)| < |Ahead(db, targets, order, t)|
  {
    hide Inv, SweepJobs, SweptWell, Candidates, IsScan, UsedUp, TicketsOfJobs, OnlyStuckFail;
    var db' := SweepJobs(db, jobs, ids).db;
    if Listed(jobs, t) {
      ListedLeaves(db, targets, limit, jobs, ids, t);
    } else {
      UnlistedHasABatchAhead(db, targets, limit, order, jobs, t);
      if TicketsOfJobs(jobs) <= StuckAhead(db, targets, order, t) {
        SubsetSize(TicketsOfJobs(jobs), StuckAhead(db, targets, order, t));
      }
      var u :| u in TicketsOfJobs(jobs) && u !in StuckAhead(db, targets, order, t);
      CandidateIsTicket(db, targets, u);
      InJobs(jobs, u);
      ListedLeaves(db, targets, limit, jobs, ids, u);
      NoMoreStuck(db, targets, limit, order, jobs, ids, t);
      SubsetSize(Ahead(db', targets, order, t), Ahead(db, targets, order, t) - {u});
    }
  }

  lemma InJobs(jobs: seq<Job>, t: TicketId)
    requires t in TicketsOfJobs(jobs)
    ensures Listed(jobs, t)
  {
  }

  // ---------------------------------------------------------------- scan after scan

  /** One ordered scan, with whatever failures. */
  ghost predicate ScanStep(db: Db, db': Db, targets: map<TicketId, Target>, limit: int, order: Order) {
    exists jobs: seq<Job>, ids: seq<Ids> ::
      |ids| == |jobs| && OrderedScan(db, targets, limit, order, jobs) && SweepJobs(db, jobs, ids).db == db'
  }

  /** One ordered scan in which only used up tickets fail. */
  ghost predicate SteadyStep(db: Db, db': Db, targets: map<TicketId, Target>, limit: int, order: Order) {
    exists jobs: seq<Job>, ids: seq<Ids> ::
      && |ids| == |jobs| && OrderedScan(db, targets, limit, order, jobs) && SweepJobs(db, jobs, ids).db == db'
      && OnlyStuckFail(db, targets, SweepJobs(db, jobs, ids).report.failed)
  }

  ghost predicate ScanSteps(dbs: seq<Db>, targets: map<TicketId, Target>, limit: int, order: Order) {
    |dbs| > 0 && forall i :: 0 < i < |dbs| ==> ScanStep(dbs[i - 1], dbs[i], targets, limit, order)
  }

  ghost predicate SteadySteps(dbs: seq<Db>, targets: map<TicketId, Target>, limit: int, order: Order) {
    |dbs| > 0 && forall i :: 0 < i < |dbs| ==> SteadyStep(dbs[i - 1], dbs[i], targets, limit, order)
  }

  lemma PassedOverOnce(db: Db, db': Db, targets: map<TicketId, Target>, limit: int, order: Order, t: TicketId)
    requires Inv(db) && ScanStep(db, db', targets, limit, order)
    requires t in Candidates(db, targets) && |StuckAhead(db, targets, order, t)| >= SafeLimit(limit)
    ensures Inv(db') && t in Candidates(db', targets) && Untouched(db, db', t)
    ensures |StuckAhead(db', targets, order, t)| >= SafeLimit(limit)
  {
    hide Inv, SweepJobs, Candidates, OrderedScan, StuckAhead, Untouched;
    var jobs: seq<Job>, ids: seq<Ids> :|
      |ids| == |jobs| && OrderedScan(db, targets, limit, order, jobs) && SweepJobs(db, jobs, ids).db == db';
    PassedOver(db, targets, limit, order, jobs, ids, t);
  }

  /** A full batch of used up tickets before it starves a candidate for good: no number of scans touches it. */
  lemma {:induction false} StarvedForGood(dbs: seq<Db>, targets: map<TicketId, Target>, limit: int, order: Order,
                                          t: TicketId)
    requires ScanSteps(dbs, targets, limit, order) && Inv(dbs[0])
    requires t in Candidates(dbs[0], targets) && |StuckAhead(dbs[0], targets, order, t)| >= SafeLimit(limit)
    ensures var last := dbs[|dbs| - 1];
            && Inv(last) && t in Candidates(last, targets) && Untouched(dbs[0], last, t)
            && |StuckAhead(last, targets, order, t)| >= SafeLimit(limit)
  {
    hide Inv, ScanStep, Candidates, StuckAhead, Untouched;
    var n := |dbs| - 1;
    if n == 0 {
      UntouchedItself(dbs[0], t);
    } else {
      StarvedForGood(dbs[..n], targets, limit, order, t);
      PassedOverOnce(dbs[n - 1], dbs[n], targets, limit, order, t);
      UntouchedTwice(dbs[0], dbs[n - 1], dbs[n], t);
    }
  }

  lemma UntouchedItself(db: Db, t: TicketId)
    ensures Untouched(db, db, t)
  {
  }

  /** What steady scans have brought a ticket that has less than a batch stuck before it. */
  ghost predicate OnItsWay(first: Db, db: Db, targets: map<TicketId, Target>, limit: int, order: Order, t: TicketId,
                           k: nat) {
    && t in targets && Inv(db) && t in db.tickets
    && (t in Candidates(db, targets) ==>
          && !UsedUp(db, t, targets[t].version)
          && |StuckAhead(db, targets, order, t)| < SafeLimit(limit)
          && |Ahead(db, targets, order, t)| + k <= |Ahead(first, targets, order, t)|)
  }

  lemma OneStepOn(first: Db, db: Db, db': Db, targets: map<TicketId, Target>, limit: int, order: Order, t: TicketId,
                  k: nat)
    requires OnItsWay(first, db, targets, limit, order, t, k) && SteadyStep(db, db', targets, limit, order)
    ensures OnItsWay(first, db', targets, limit, order, t, k + 1)
  {
    hide Inv, SweepJobs, Candidates, OrderedScan, StuckAhead, Ahead, Untouched, UsedUp, OnlyStuckFail;
    var jobs: seq<Job>, ids: seq<Ids> :|
      && |ids| == |jobs| && OrderedScan(db, targets, limit, order, jobs) && SweepJobs(db, jobs, ids).db == db'
      && OnlyStuckFail(db, targets, SweepJobs(db, jobs, ids).report.failed);
    NoMoreStuck(db, targets, limit, order, jobs, ids, t);
    SubsetSize(StuckAhead(db', targets, order, t), StuckAhead(db, targets, order, t));
    if t in Candidates(db, targets) { OneLessAhead(db, targets, limit, order, jobs, ids, t); }
    ScannedState(db, targets, limit, order, jobs, ids);
  }

  lemma ScannedState(db: Db, targets: map<TicketId, Target>, limit: int, order: Order, jobs: seq<Job>, ids: seq<Ids>)
    requires Inv(db) && OrderedScan(db, targets, limit, order, jobs) && |ids| == |jobs|
    ensures Inv(SweepJobs(db, jobs, ids).db) && SweepJobs(db, jobs, ids).db.tickets.Keys == db.tickets.Keys
  {
    hide Inv, SweepJobs, SweptWell, IsScan;
    ScanIsCurrent(db, targets, limit, jobs);
    ScanLeaves(db, jobs, ids);
    TicketsStay(db, jobs, SweepJobs(db, jobs, ids));
  }

  lemma {:induction false} SteadyProgress(dbs: seq<Db>, targets: map<TicketId, Target>, limit: int, order: Order,
                                          t: TicketId)
    requires SteadySteps(dbs, targets, limit, order) && OnItsWay(dbs[0], dbs[0], targets, limit, order, t, 0)
    ensures OnItsWay(dbs[0], dbs[|dbs| - 1], targets, limit, order, t, |dbs| - 1)
  {
    hide SteadyStep, OnItsWay;
    var n := |dbs| - 1;
    if n > 0 {
      SteadyProgress(dbs[..n], targets, limit, order, t);
      OneStepOn(dbs[0], dbs[n - 1], dbs[n], targets, limit, order, t, n - 1);
    }
  }

  lemma {:induction false} StuckForGood(dbs: seq<Db>, targets: map<TicketId, Target>, limit: int, order: Order,
                                        t: TicketId)
    requires SteadySteps(dbs, targets, limit, order) && Inv(dbs[0]) && t in targets
    requires UsedUp(dbs[0], t, targets[t].version)
    ensures Inv(dbs[|dbs| - 1]) && UsedUp(dbs[|dbs| - 1], t, targets[t].version)
  {
    hide Inv, UsedUp, OrderedScan, SweepJobs, OnlyStuckFail;
    var n := |dbs| - 1;
    if n > 0 {
      StuckForGood(dbs[..n], targets, limit, order, t);
      assert SteadyStep(dbs[n - 1], dbs[n], targets, limit, order);
      StuckOnce(dbs[n - 1], dbs[n], targets, limit, order, t);
    }
  }

  lemma StuckOnce(db: Db, db': Db, targets: map<TicketId, Target>, limit: int, order: Order, t: TicketId)
    requires SteadyStep(db, db', targets, limit, order) && Inv(db) && t in targets && UsedUp(db, t, targets[t].version)
    ensures Inv(db') && UsedUp(db', t, targets[t].version)
  {
    hide Inv, UsedUp, SweepJobs, OnlyStuckFail, IsScan;
    var jobs: seq<Job>, ids: seq<Ids> :|
      && |ids| == |jobs| && OrderedScan(db, targets, limit, order, jobs) && SweepJobs(db, jobs, ids).db == db'
      && OnlyStuckFail(db, targets, SweepJobs(db, jobs, ids).report.failed);
    UsedUpFailsEveryScan(db, targets, limit, jobs, ids, t);
    ScannedState(db, targets, limit, order, jobs, ids);
  }

  lemma SteadyIsScan(dbs: seq<Db>, targets: map<TicketId, Target>, limit: int, order: Order)
    requires SteadySteps(dbs, targets, limit, order)
    ensures ScanSteps(dbs, targets, limit, order)
  {
    hide OrderedScan, SweepJobs, OnlyStuckFail;
    forall i | 0 < i < |dbs| ensures ScanStep(dbs[i - 1], dbs[i], targets, limit, order) {
      assert SteadyStep(dbs[i - 1], dbs[i], targets, limit, order);
    }
  }

  lemma FewAhead(db: Db, targets: map<TicketId, Target>, order: Order, t: TicketId)
    requires t in Candidates(db, targets)
    ensures |Ahead(db, targets, order, t)| < |Candidates(db, targets)|
  {
    hide Candidates;
    SubsetSize(Ahead(db, targets, order, t), Candidates(db, targets) - {t});
  }

  lemma SettledWhenNoCandidate(db: Db, targets: map<TicketId, Target>, t: TicketId)
    requires t in targets && t in db.tickets
    ensures t !in Candidates(db, targets) <==> ActiveVersion(db, t) == Some(targets[t].version)
  {
  }

  /**
   * When nothing fails but tickets whose version is used up, enough scans settle a candidate exactly
   * when its own version is not used up and fewer such tickets than a batch come before it.
   */
  lemma ScansReachExactly(dbs: seq<Db>, targets: map<TicketId, Target>, limit: int, order: Order, t: TicketId)
    requires SteadySteps(dbs, targets, limit, order) && Inv(dbs[0])
    requires t in targets && t in Candidates(dbs[0], targets) && |dbs| - 1 >= |Candidates(dbs[0], targets)|
    ensures ActiveVersion(dbs[|dbs| - 1], t) == Some(targets[t].version)
            <==> !UsedUp(dbs[0], t, targets[t].version) && |StuckAhead(dbs[0], targets, order, t)| < SafeLimit(limit)
  {
    hide Inv, SteadyStep, ScanStep, StuckAhead, Ahead, ActiveVersion, Candidates, Untouched;
    var last := dbs[|dbs| - 1];
    CandidateIsTicket(dbs[0], targets, t);
    if UsedUp(dbs[0], t, targets[t].version) {
      StuckForGood(dbs, targets, limit, order, t);
    } else if |StuckAhead(dbs[0], targets, order, t)| >= SafeLimit(limit) {
      SteadyIsScan(dbs, targets, limit, order);
      StarvedForGood(dbs, targets, limit, order, t);
      CandidateIsTicket(last, targets, t);
      SettledWhenNoCandidate(last, targets, t);
    } else {
      hide UsedUp;
      SteadyProgress(dbs, targets, limit, order, t);
      FewAhead(dbs[0], targets, order, t);
      SettledWhenNoCandidate(last, targets, t);
    }
  }

  /** So every candidate that can settle is settled exactly when none has a full batch of used up ones before it. */
  lemma AllReachedExactly(dbs: seq<Db>, targets: map<TicketId, Target>, limit: int, order: Order)
    requires SteadySteps(dbs, targets, limit, order) && Inv(dbs[0]) && |dbs| - 1 >= |Candidates(dbs[0], targets)|
    ensures (forall t :: t in Candidates(dbs[0], targets) && t in targets && !UsedUp(dbs[0], t, targets[t].version) ==>
               ActiveVersion(dbs[|dbs| - 1], t) == Some(targets[t].version))
            <==> (forall t :: t in Candidates(dbs[0], targets) && t in targets
                              && !UsedUp(dbs[0], t, targets[t].version) ==>
                    |StuckAhead(dbs[0], targets, order, t)| < SafeLimit(limit))
  {
    hide Inv, SteadySteps, StuckAhead, ActiveVersion, Candidates, UsedUp;
    forall t | t in Candidates(dbs[0], targets) && t in targets && !UsedUp(dbs[0], t, targets[t].version)
      ensures ActiveVersion(dbs[|dbs| - 1], t) == Some(targets[t].version)
              <==> |StuckAhead(dbs[0], targets, order, t)| < SafeLimit(limit)
    {
      SomeState(dbs, targets, limit, order);
      ScansReachExactly(dbs, targets, limit, order, t);
    }
  }

  lemma SomeState(dbs: seq<Db>, targets: map<TicketId, Target>, limit: int, order: Order)
    requires SteadySteps(dbs, targets, limit, order)
    ensures |dbs| > 0
  {
  }
}
