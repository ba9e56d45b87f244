/**
 * Football's half of the sweep: which rows the candidate query returns, and the outcome a result
 * gives a ticket (packages/db/src/settlement/repository.ts, apps/worker/src/settlement/handler.ts).
 */
module FootballSweep {
  import opened Common
  import opened LedgerModel
  import opened LedgerInvariant
  import opened LedgerMachine
  import opened LedgerTheorems
  import opened Sweep
  import opened SweepOrder
  import Markets

  datatype MatchStatus = Finished | Cancelled | Postponed | Suspended | Scheduled | Live

  datatype Fixture = Fixture(status: MatchStatus, confirmed: bool, version: Option<Version>, home: Option<int>,
                             away: Option<int>)

  datatype Candidate = Candidate(ticket: TicketId, version: Version, active: Option<Version>, status: MatchStatus,
                                 confirmed: bool,
                                 home: Option<int>, away: Option<int>, selection: string, marketId: int)

  /** `outcomeForCandidate`; a result without scores is refused. */
  function OutcomeForCandidate(c: Candidate): Result<Outcome, Failure> {
    if c.status.Cancelled? then Ok(Cancel)
    else if !c.status.Finished? || c.home.None? || c.away.None? then Err(ResultNotSettleable)
    else if c.selection == Markets.WinningSelection(Markets.MarketKindOf(c.marketId), c.home.value, c.away.value)
        then Ok(Win)
    else Ok(Loss)
  }

  /** What the handler makes of a candidate. */
  function JobOf(c: Candidate): Job {
    var settleable := c.confirmed && (c.status.Finished? || c.status.Cancelled?);
    Job(c.ticket, c.version, c.active, settleable, if settleable then OutcomeForCandidate(c)
        else Err(ResultNotSettleable))
  }

  predicate HasResult(fixtures: map<FixtureId, Fixture>, f: FixtureId) {
    f in fixtures && fixtures[f].confirmed && fixtures[f].version.Some?
        && (fixtures[f].status.Finished? || fixtures[f].status.Cancelled?)
  }

  /** The WHERE clause; the comparison with a missing settlement row is not true. */
  predicate Selected(db: Db, fixtures: map<FixtureId, Fixture>, t: TicketId) {
    && t in db.tickets && HasResult(fixtures, db.tickets[t].fixture)
    && var active := db.tickets[t].active;
       active.None? || (active.value in db.settlements
                        && Some(db.settlements[active.value].version) != fixtures[db.tickets[t].fixture].version)
  }

  /** The row the query builds for a ticket. */
  function RowOf(db: Db, fixtures: map<FixtureId, Fixture>, t: TicketId): Candidate
    requires t in db.tickets && HasResult(fixtures, db.tickets[t].fixture)
  {
    var f, leg := fixtures[db.tickets[t].fixture], db.tickets[t].leg;
    Candidate(t, f.version.value, ActiveVersion(db, t), f.status, f.confirmed, f.home, f.away, leg.selection,
              leg.marketId)
  }

  ghost function SelectedTickets(db: Db, fixtures: map<FixtureId, Fixture>): set<TicketId> {
    set t | t in db.tickets && Selected(db, fixtures, t)
  }

  predicate RowListed(rows: seq<Candidate>, t: TicketId) { exists i :: 0 <= i < |rows| && rows[i].ticket == t }

  /** `scan`: the first selected rows in the query's order, up to the limit. */
  ghost predicate FootballScan(db: Db, fixtures: map<FixtureId, Fixture>, limit: int, order: Order,
                               rows: seq<Candidate>) {
    && (forall i :: 0 <= i < |rows| ==>
        Selected(db, fixtures, rows[i].ticket) && rows[i] == RowOf(db, fixtures, rows[i].ticket))
    && (forall i, j :: 0 <= i < j < |rows| ==> order(rows[i].ticket) < order(rows[j].ticket))
    && |rows| == Min(SafeLimit(limit), |SelectedTickets(db, fixtures)|)
    && (forall i, t :: 0 <= i < |rows| && t in SelectedTickets(db, fixtures) && !RowListed(rows, t) ==>
        order(rows[i].ticket) < order(t))
  }

  /** What the confirmed results say about each ticket, whatever its standing now. */
  ghost function FootballTargets(db: Db, fixtures: map<FixtureId, Fixture>): map<TicketId, Target> {
    map t | t in db.tickets && HasResult(fixtures, db.tickets[t].fixture) ::
      Target(fixtures[db.tickets[t].fixture].version.value, OutcomeForCandidate(RowOf(db, fixtures, t)))
  }

  function Jobs(rows: seq<Candidate>): (jobs: seq<Job>)
    ensures |jobs| == |rows|
    ensures forall i :: 0 <= i < |rows| ==> jobs[i] == JobOf(rows[i])
  {
    if rows == [] then [] else [JobOf(rows[0])] + Jobs(rows[1..])
  }

  lemma SelectedAreCandidates(db: Db, fixtures: map<FixtureId, Fixture>)
    requires TicketsInv(db.accounts, db.tickets, db.settlements)
    ensures SelectedTickets(db, fixtures) == Candidates(db, FootballTargets(db, fixtures))
  {
    hide OutcomeForCandidate, SoundTicket;
  }

  lemma RowIsJob(db: Db, fixtures: map<FixtureId, Fixture>, t: TicketId)
    requires Selected(db, fixtures, t)
    ensures t in FootballTargets(db, fixtures)
    ensures JobOf(RowOf(db, fixtures, t)) == JobFor(db, FootballTargets(db, fixtures)[t], t)
  {
    hide OutcomeForCandidate;
  }

  /**
   * The football query returns an ordered scan of the tickets whose confirmed result is not the one
   * they are settled at.
   */
  lemma FootballScanIsScan(db: Db, fixtures: map<FixtureId, Fixture>, limit: int, order: Order, rows: seq<Candidate>)
    requires Inv(db) && FootballScan(db, fixtures, limit, order, rows)
    ensures OrderedScan(db, FootballTargets(db, fixtures), limit, order, Jobs(rows))
  {
    hide Inv, TicketsInv, SettlementsInv, SelectedTickets, Candidates, FootballTargets, RowOf, JobOf, JobFor, Selected;
    TicketsOf(db);
    SelectedAreCandidates(db, fixtures);
    var jobs := Jobs(rows);
    forall i | 0 <= i < |rows|
      ensures jobs[i].ticket == rows[i].ticket
      ensures rows[i].ticket in FootballTargets(db, fixtures)
      ensures rows[i].ticket in Candidates(db, FootballTargets(db, fixtures))
      ensures jobs[i] == JobFor(db, FootballTargets(db, fixtures)[rows[i].ticket], rows[i].ticket)
    {
      RowIsJob(db, fixtures, rows[i].ticket);
      JobTicket(db, FootballTargets(db, fixtures)[rows[i].ticket], rows[i].ticket);
      InSelected(db, fixtures, rows[i].ticket);
    }
    forall t | RowListed(rows, t) ensures Listed(jobs, t) {
      var i :| 0 <= i < |rows| && rows[i].ticket == t;
      assert jobs[i].ticket == t;
    }
  }

  /**
   * A ticket is selected exactly when its match has a confirmed final or cancelled result whose version is
   * not the one the ticket is settled at.
   */
  lemma SelectedExactlyWhen(db: Db, fixtures: map<FixtureId, Fixture>, t: TicketId)
    requires Inv(db) && t in db.tickets
    ensures Selected(db, fixtures, t) <==>
              && db.tickets[t].fixture in fixtures
              && var f := fixtures[db.tickets[t].fixture];
                 && f.confirmed && f.version.Some? && (f.status.Finished? || f.status.Cancelled?)
                 && ActiveVersion(db, t) != f.version
  {
    hide Inv, SettlementsInv;
    TicketsOf(db);
  }

  lemma JobTicket(db: Db, target: Target, t: TicketId)
    ensures JobFor(db, target, t).ticket == t
  {
  }

  lemma InSelected(db: Db, fixtures: map<FixtureId, Fixture>, t: TicketId)
    requires Selected(db, fixtures, t)
    ensures t in SelectedTickets(db, fixtures)
  {
  }

  /** Settling and correcting changes no leg and no fixture, so the targets stay what they were. */
  lemma TargetsStay(db: Db, db': Db, fixtures: map<FixtureId, Fixture>)
    requires SameBets(db, db')
    ensures FootballTargets(db', fixtures) == FootballTargets(db, fixtures)
  {
    hide ActiveVersion;
    forall t | t in db.tickets
      ensures db'.tickets[t].leg == db.tickets[t].leg && db'.tickets[t].fixture == db.tickets[t].fixture
    {
      assert SameBet(db.tickets[t], db'.tickets[t]);
    }
  }

  /**
   * A candidate has no outcome exactly when a score is missing. It wins the home, draw and away market
   * on the side that scored more, and the correct-score market on the listed score or on OTHER.
   */
  lemma OutcomeIsTheResult(c: Candidate)
    requires c.status.Finished? || c.status.Cancelled?
    ensures OutcomeForCandidate(c).Err? <==> c.status.Finished? && (c.home.None? || c.away.None?)
    ensures OutcomeForCandidate(c) == Ok(Cancel) <==> c.status.Cancelled?
    ensures OutcomeForCandidate(c).Ok? && c.status.Finished?
            && c.marketId != Markets.CORRECT_SCORE_SUPPLIER_MARKET_ID ==>
              (OutcomeForCandidate(c) == Ok(Win) <==>
                 || (c.selection == "HOME" && c.home.value > c.away.value)
                 || (c.selection == "DRAW" && c.home.value == c.away.value)
                 || (c.selection == "AWAY" && c.home.value < c.away.value))
    ensures OutcomeForCandidate(c).Ok? && c.status.Finished?
            && c.marketId == Markets.CORRECT_SCORE_SUPPLIER_MARKET_ID ==>
              var small := Markets.SmallScore(c.home.value) && Markets.SmallScore(c.away.value);
              (OutcomeForCandidate(c) == Ok(Win) <==>
                 c.selection == if small then Markets.ScoreText(c.home.value) + "-" + Markets.ScoreText(c.away.value)
                     else "OTHER")
  {
    if c.home.Some? && c.away.Some? {
      Markets.ListedExactlyUpToThree(c.home.value, c.away.value);
    }
  }

  /** The outcome of a candidate had it picked place i of its market. */
  function OutcomeAt(c: Candidate, i: nat): Result<Outcome, Failure>
    requires i < |Markets.MarketSelections(Markets.MarketKindOf(c.marketId))|
  {
    OutcomeForCandidate(c.(selection := Markets.MarketSelections(Markets.MarketKindOf(c.marketId))[i]))
  }

  /** In either market exactly one selection wins once the scores are in, and every other one loses. */
  lemma ExactlyOneSelectionPays(c: Candidate) returns (winner: nat)
    requires c.status.Finished? && c.home.Some? && c.away.Some?
    ensures winner < |Markets.MarketSelections(Markets.MarketKindOf(c.marketId))|
    ensures forall i :: 0 <= i < |Markets.MarketSelections(Markets.MarketKindOf(c.marketId))| ==>
              OutcomeAt(c, i) == if i == winner then Ok(Win) else Ok(Loss)
  {
    var kind := Markets.MarketKindOf(c.marketId);
    Markets.ExactlyOneSelectionWins(kind, c.home.value, c.away.value);
    hide Markets.MarketSelections, Markets.WinningSelection;
    winner :| 0 <= winner < |Markets.MarketSelections(kind)|
              && Markets.MarketSelections(kind)[winner] == Markets.WinningSelection(kind, c.home.value, c.away.value);
  }
}
