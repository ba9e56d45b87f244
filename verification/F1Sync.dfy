/**
 * The upstream sync over a season when nothing else runs (packages/db/src/f1/results-sync.ts):
 * what it publishes, and that a second sync over the same rows in any order publishes nothing.
 */
module F1Sync {
  import opened Common
  import opened F1Results
  import opened F1Import
  import opened F1Sessions
  import opened F1Versions

  /** What upstream holds for a session: its rows, under the endpoint of its kind if there is one. */
  datatype Feed = Feed(endpoint: Option<Endpoint>, rows: seq<Row>)

  function SourceOf(feed: Feed, known: set<string>): Option<Classification> {
    if feed.endpoint.None? || feed.rows == [] then None else Some(Mapped(feed.rows, feed.endpoint.value, known))
  }

  datatype Summary = Summary(imported: nat, skipped: nat, noSource: nat, notStarted: nat, cancelled: nat, invalid: nat)

  const NOTHING := Summary(0, 0, 0, 0, 0, 0)

  /** A driver's season points, as published. */
  datatype Standing = Standing(code: string, points: real)

  function Tally(s: Summary, plan: Plan): Summary {
    match plan
    case Import(_) => s.(imported := s.imported + 1)
    case SkipUnchanged => s.(skipped := s.skipped + 1)
    case NoSourceData => s.(noSource := s.noSource + 1)
    case NotStarted => s.(notStarted := s.notStarted + 1)
    case SessionCancelled => s.(cancelled := s.cancelled + 1)
    case Rejected(_) => s.(invalid := s.invalid + 1)
  }

  function PlanFor(s: Session, now: int, source: Option<Classification>): Plan {
    PlanSessionImport(s.startsAt, s.state, now, source, Existing(s))
  }

  function SyncOne(s: Session, now: int, source: Option<Classification>): Session {
    var plan := PlanFor(s, now, source);
    if plan.Import? then Publish(s, plan.classification) else s
  }

  function SyncAll(sessions: seq<Session>, clock: nat -> int, feeds: seq<Feed>, known: set<string>): (r: seq<Session>)
    requires |feeds| == |sessions|
    ensures |r| == |sessions|
    ensures forall i :: 0 <= i < |sessions| ==> r[i] == SyncOne(sessions[i], clock(i), SourceOf(feeds[i], known))
  {
    if sessions == [] then []
    else
      var n := |sessions| - 1;
      SyncAll(sessions[..n], clock, feeds[..n], known) + [SyncOne(sessions[n], clock(n), SourceOf(feeds[n], known))]
  }

  function SummaryOf(sessions: seq<Session>, clock: nat -> int, feeds: seq<Feed>, known: set<string>): Summary
    requires |feeds| == |sessions|
  {
    if sessions == [] then NOTHING
    else
      var n := |sessions| - 1;
      Tally(SummaryOf(sessions[..n], clock, feeds[..n], known),
            PlanFor(sessions[n], clock(n), SourceOf(feeds[n], known)))
  }

  lemma NoSessions(clock: nat -> int, known: set<string>)
    ensures SyncAll([], clock, [], known) == [] && SummaryOf([], clock, [], known) == NOTHING
  {
  }

  lemma NextSession(sessions: seq<Session>, clock: nat -> int, feeds: seq<Feed>, known: set<string>, i: nat)
    requires |feeds| == |sessions| && i < |sessions|
    ensures SyncAll(sessions[..i + 1], clock, feeds[..i + 1], known)
         == SyncAll(sessions[..i], clock, feeds[..i], known)
             + [SyncOne(sessions[i], clock(i), SourceOf(feeds[i], known))]
    ensures SummaryOf(sessions[..i + 1], clock, feeds[..i + 1], known)
         == Tally(SummaryOf(sessions[..i], clock, feeds[..i], known),
                  PlanFor(sessions[i], clock(i), SourceOf(feeds[i], known)))
  {
    assert sessions[..i + 1][..i] == sessions[..i] && feeds[..i + 1][..i] == feeds[..i];
  }

  lemma OneReplaced<T>(s: seq<T>, before: seq<T>, i: nat, x: T)
    requires |s| == |before| && i < |s| && s[i..] == before[i..]
    ensures s[i := x][i + 1..] == before[i + 1..] && s[i := x][..i + 1] == s[..i] + [x]
  {
    assert s[i + 1..] == s[i..][1..] && before[i + 1..] == before[i..][1..];
  }

  /** UPDATE f1.drivers ... WHERE season_points <> points, for each known driver of the standings. */
  function Ranked(points: map<string, real>, standings: seq<Standing>, known: set<string>): (map<string, real>, nat) {
    if standings == [] then (points, 0)
    else
      var (before, updated) := Ranked(points, standings[..|standings| - 1], known);
      var next := standings[|standings| - 1];
      if next.code in known && next.code in before && before[next.code] != next.points
      then (before[next.code := next.points], updated + 1)
      else (before, updated)
  }

  class Season {
    var sessions: seq<Session>
    var points: map<string, real>

    constructor (sessions: seq<Session>, points: map<string, real>)
      ensures this.sessions == sessions && this.points == points
    {
      this.sessions, this.points := sessions, points;
    }

    /** The loop over the standings. */
    method UpdateStandings(standings: seq<Standing>, known: set<string>) returns (updated: nat)
      modifies this`points
      ensures (points, updated) == Ranked(old(points), standings, known)
    {
      updated := 0;
      for i := 0 to |standings|
        invariant (points, updated) == Ranked(old(points), standings[..i], known)
      {
        assert standings[..i + 1][..i] == standings[..i];
        var next := standings[i];
        if next.code !in known { continue; }
        if next.code in points && points[next.code] != next.points {
          points := points[next.code := next.points];
          updated := updated + 1;
        }
      }
      assert standings[..|standings|] == standings;
    }

    /** `sync`, session by session. */
    method Sync(clock: nat -> int, feeds: seq<Feed>, known: set<string>) returns (summary: Summary)
      requires |feeds| == |sessions|
      modifies this`sessions
      ensures sessions == SyncAll(old(sessions), clock, feeds, known)
      ensures summary == SummaryOf(old(sessions), clock, feeds, known)
    {
      hide *;
      summary := NOTHING;
      ghost var before := sessions;
      NoSessions(clock, known);
      assert before[..0] == [] && feeds[..0] == [] && before[0..] == before;
      for i := 0 to |sessions|
        invariant |sessions| == |before|
        invariant sessions[i..] == before[i..]
        invariant sessions[..i] == SyncAll(before[..i], clock, feeds[..i], known)
        invariant summary == SummaryOf(before[..i], clock, feeds[..i], known)
      {
        NextSession(before, clock, feeds, known, i);
        assert sessions[i] == sessions[i..][0] == before[i];
        var source: Option<Classification> := None;
        if feeds[i].endpoint.Some? && feeds[i].rows != [] {
          var classification, _ := MapRows(feeds[i].rows, feeds[i].endpoint.value, known);
          source := Some(classification);
        }
        SourceIs(feeds[i], known);
        var next, plan := SyncSession(sessions[i], clock(i), source);
        summary := Tally(summary, plan);
        OneReplaced(sessions, before, i, next);
        sessions := sessions[i := next];
      }
      assert before[..|sessions|] == before && feeds[..|sessions|] == feeds && sessions[..|sessions|] == sessions;
    }

    static method SyncSession(s: Session, now: int, source: Option<Classification>) returns (next: Session, plan: Plan)
      ensures next == SyncOne(s, now, source) && plan == PlanFor(s, now, source)
    {
      plan := PlanSessionImport(s.startsAt, s.state, now, source, Existing(s));
      next := if plan.Import? then Publish(s, plan.classification) else s;
    }
  }

  lemma SourceIs(feed: Feed, known: set<string>)
    ensures SourceOf(feed, known)
         == if feed.endpoint.Some? && feed.rows != [] then Some(Mapped(feed.rows, feed.endpoint.value, known)) else None
  {
  }

  // ---------------------------------------------------------------- syncing twice

  /** The same lines, in whatever order. */
  predicate SameLines(a: Option<Classification>, b: Option<Classification>) {
    (a.None? && b.None?) || (a.Some? && b.Some? && multiset(a.value) == multiset(b.value))
  }

  lemma OfficialIsDistinct(c: Classification)
    requires Official(c)
    ensures DistinctDrivers(c)
  {
  }

  /** What equals one order of the lines equals every order of them. */
  lemma EqualInAnyOrder(existing: Classification, a: Classification, b: Classification)
    requires DistinctDrivers(existing) && multiset(a) == multiset(b)
    ensures ClassificationsEqual(existing, a) <==> ClassificationsEqual(existing, b)
  {
    EqualExactlyInAnyOrder(existing, a);
    EqualExactlyInAnyOrder(existing, b);
    CanonicalInAnyOrder(a, b);
  }

  lemma EqualToItself(c: Classification)
    ensures ClassificationsEqual(c, c)
  {
  }

  lemma PublishedIsInForce(s: Session, c: Classification)
    requires SessionInv(s) && Official(c)
    ensures Existing(Publish(s, c)) == Some(c) && Publish(s, c).state.Finished? && Publish(s, c).startsAt == s.startsAt
  {
    hide Official, Rising, RowsOk, FindRow, FindConfirmed, MaxVersion, HasConfirmedRow;
    PublishKeeps(s, c);
    FinishedHasItsClassification(Publish(s, c));
    NewRowFound(s, c);
  }

  lemma NewRowFound(s: Session, c: Classification)
    requires SessionInv(s)
    ensures FindRow(s.rows + [ResultRow(Latest(s) + 1, c, true)], Some(Latest(s) + 1)) == Some(c)
  {
    hide Official;
    FindAppend(s.rows, ResultRow(Latest(s) + 1, c, true), Some(Latest(s) + 1));
    MaxIsGreatest(s.rows);
    FindFinds(s.rows, Latest(s) + 1);
  }

  lemma ExistingIsOfficial(s: Session)
    requires SessionInv(s) && Existing(s).Some?
    ensures Official(Existing(s).value)
  {
    hide Official, Rising;
    if s.resultVersion.Some? {
      FindFinds(s.rows, s.resultVersion.value);
      FindOfficial(s.rows, s.resultVersion);
    } else {
      NoVersionNoRow(s.rows);
    }
  }

  lemma {:induction false} NoVersionNoRow(rows: seq<ResultRow>)
    ensures FindConfirmed(rows, None) == None
  {
    if rows != [] { NoVersionNoRow(rows[1..]); }
  }

  /** A session planned against the same lines again has the same plan, or skips what was just published. */
  lemma ReplanPublishesNothing(s: Session, now: int, source: Option<Classification>, now': int,
                               source': Option<Classification>)
    requires SessionInv(s) && SameLines(source, source') && (s.startsAt <= now || now' < s.startsAt)
    ensures SessionInv(SyncOne(s, now, source))
    ensures !PlanFor(SyncOne(s, now, source), now', source').Import?
  {
    hide Official, Judge, Existing, ClassificationsEqual, SessionInv, Publish;
    var plan := PlanFor(s, now, source);
    if s.startsAt <= now && !s.state.Cancelled? && source.Some? && source.value != [] {
      var c, c' := source.value, source'.value;
      SameVerdict(c, c');
      if Judge(c).Valid? {
        AcceptedExactlyWhenOfficial(c);
        PublishKeeps(s, c);
        PublishedIsInForce(s, c);
        OfficialIsDistinct(c);
        EqualToItself(c);
        EqualInAnyOrder(c, c, c');
        if Existing(s).Some? && ClassificationsEqual(Existing(s).value, c) { SkipsAgain(s, c, c'); }
      }
    } else {
      SyncOneKeepsStart(s, now, source, now', source');
    }
  }

  lemma SyncOneKeepsStart(s: Session, now: int, source: Option<Classification>, now': int,
                          source': Option<Classification>)
    requires SameLines(source, source') && (s.startsAt <= now || now' < s.startsAt)
    requires !(s.startsAt <= now && !s.state.Cancelled? && source.Some? && source.value != [])
    ensures SyncOne(s, now, source) == s && !PlanFor(s, now', source').Import?
  {
    hide Judge, Existing, ClassificationsEqual;
    if source.Some? { SameLength(source.value, source'.value); }
  }

  lemma SkipsAgain(s: Session, c: Classification, c': Classification)
    requires SessionInv(s) && Existing(s).Some? && ClassificationsEqual(Existing(s).value, c)
    requires multiset(c) == multiset(c')
    ensures ClassificationsEqual(Existing(s).value, c')
  {
    ExistingIsOfficial(s);
    OfficialIsDistinct(Existing(s).value);
    EqualInAnyOrder(Existing(s).value, c, c');
  }

  /** The verdict on a classification does not depend on the order of its lines. */
  lemma SameVerdict(a: Classification, b: Classification)
    requires multiset(a) == multiset(b)
    ensures Judge(a).Valid? <==> Judge(b).Valid?
  {
    AcceptedExactlyWhenOfficial(a);
    AcceptedExactlyWhenOfficial(b);
    if Official(a) { OfficialInAnyOrder(a, b); }
    if Official(b) { OfficialInAnyOrder(b, a); }
  }

  /** The same upstream data, each session's rows in any order. */
  predicate SameFeeds(feeds: seq<Feed>, feeds': seq<Feed>) {
    |feeds| == |feeds'| && forall i :: 0 <= i < |feeds| ==>
      feeds'[i].endpoint == feeds[i].endpoint && multiset(feeds'[i].rows) == multiset(feeds[i].rows)
  }

  lemma SameSource(feed: Feed, feed': Feed, known: set<string>)
    requires feed'.endpoint == feed.endpoint && multiset(feed'.rows) == multiset(feed.rows)
    ensures SameLines(SourceOf(feed, known), SourceOf(feed', known))
  {
    assert |multiset(feed.rows)| == |feed.rows| && |multiset(feed'.rows)| == |feed'.rows|;
    if feed.endpoint.Some? { MappedInAnyOrder(feed.rows, feed'.rows, feed.endpoint.value, known); }
  }

  lemma {:induction false} NothingImported(sessions: seq<Session>, clock: nat -> int, feeds: seq<Feed>,
                                           known: set<string>)
    requires |feeds| == |sessions|
    requires forall i :: 0 <= i < |sessions| ==> !PlanFor(sessions[i], clock(i), SourceOf(feeds[i], known)).Import?
    ensures SummaryOf(sessions, clock, feeds, known).imported == 0 && SyncAll(sessions, clock, feeds, known) == sessions
  {
    hide PlanFor, SourceOf, SyncAll, SummaryOf;
    if sessions == [] {
      NoSessions(clock, known);
    } else {
      var n := |sessions| - 1;
      NothingImported(sessions[..n], clock, feeds[..n], known);
      NextSession(sessions, clock, feeds, known, n);
      assert sessions[..n + 1] == sessions && feeds[..n + 1] == feeds;
      assert sessions == sessions[..n] + [sessions[n]];
    }
  }

  /**
   * A second sync over the same upstream rows, in any order and at any later time by which no
   * further session has started, publishes nothing and changes nothing.
   */
  lemma SecondSyncPublishesNothing(sessions: seq<Session>, clock: nat -> int, feeds: seq<Feed>, clock': nat -> int,
                                   feeds': seq<Feed>, known: set<string>)
    requires |feeds| == |sessions| && SameFeeds(feeds, feeds')
    requires forall i :: 0 <= i < |sessions| ==>
               SessionInv(sessions[i]) && (sessions[i].startsAt <= clock(i) || clock'(i) < sessions[i].startsAt)
    ensures var synced := SyncAll(sessions, clock, feeds, known);
            SyncAll(synced, clock', feeds', known) == synced && SummaryOf(synced, clock', feeds', known).imported == 0
  {
    hide SessionInv, PlanFor, SyncOne, SourceOf, SameLines;
    var synced := SyncAll(sessions, clock, feeds, known);
    forall i | 0 <= i < |synced|
      ensures !PlanFor(synced[i], clock'(i), SourceOf(feeds'[i], known)).Import?
    {
      SameSource(feeds[i], feeds'[i], known);
      ReplanPublishesNothing(sessions[i], clock(i), SourceOf(feeds[i], known), clock'(i), SourceOf(feeds'[i], known));
    }
    NothingImported(synced, clock', feeds', known);
  }

  // ---------------------------------------------------------------- what the summary says

  /** How many sessions have another confirmed version than before. */
  function Changed(before: seq<Session>, after: seq<Session>): nat
    requires |before| == |after|
  {
    if before == [] then 0
    else
      var n := |before| - 1;
      Changed(before[..n], after[..n]) + (if before[n].resultVersion != after[n].resultVersion then 1 else 0)
  }

  lemma PublishChangesVersion(s: Session, c: Classification)
    ensures Publish(s, c).resultVersion != s.resultVersion
  {
    hide MaxVersion;
  }

  /** Every session is counted once, and as imported exactly when its confirmed version changed. */
  lemma {:induction false} SummaryCountsChanges(sessions: seq<Session>, clock: nat -> int, feeds: seq<Feed>,
                                                known: set<string>)
    requires |feeds| == |sessions|
    ensures var summary := SummaryOf(sessions, clock, feeds, known);
            && summary.imported == Changed(sessions, SyncAll(sessions, clock, feeds, known))
            && summary.imported + summary.skipped + summary.noSource + summary.notStarted + summary.cancelled
                + summary.invalid == |sessions|
  {
    hide PlanFor, SourceOf, SyncAll, SummaryOf, Publish;
    if sessions == [] {
      NoSessions(clock, known);
    } else {
      var n := |sessions| - 1;
      var synced := SyncAll(sessions, clock, feeds, known);
      SummaryCountsChanges(sessions[..n], clock, feeds[..n], known);
      NextSession(sessions, clock, feeds, known, n);
      assert sessions[..n + 1] == sessions && feeds[..n + 1] == feeds;
      assert synced[..n] == SyncAll(sessions[..n], clock, feeds[..n], known);
      var plan := PlanFor(sessions[n], clock(n), SourceOf(feeds[n], known));
      if plan.Import? { PublishChangesVersion(sessions[n], plan.classification); }
    }
  }

  /** For how many sessions of a season a plan of some kind is made. */
  function HowMany(sessions: seq<Session>, clock: nat -> int, feeds: seq<Feed>, known: set<string>,
                   kind: Plan -> bool): nat
    requires |feeds| == |sessions|
  {
    if sessions == [] then 0
    else
      var n := |sessions| - 1;
      HowMany(sessions[..n], clock, feeds[..n], known, kind)
      + (if kind(PlanFor(sessions[n], clock(n), SourceOf(feeds[n], known))) then 1 else 0)
  }

  /** Each counter of the summary is the number of sessions planned so. */
  lemma {:induction false} SummaryCountsPlans(sessions: seq<Session>, clock: nat -> int, feeds: seq<Feed>,
                                              known: set<string>)
    requires |feeds| == |sessions|
    ensures var summary := SummaryOf(sessions, clock, feeds, known);
            && summary.imported == HowMany(sessions, clock, feeds, known, (plan: Plan) => plan.Import?)
            && summary.skipped == HowMany(sessions, clock, feeds, known, (plan: Plan) => plan.SkipUnchanged?)
            && summary.noSource == HowMany(sessions, clock, feeds, known, (plan: Plan) => plan.NoSourceData?)
            && summary.notStarted == HowMany(sessions, clock, feeds, known, (plan: Plan) => plan.NotStarted?)
            && summary.cancelled == HowMany(sessions, clock, feeds, known, (plan: Plan) => plan.SessionCancelled?)
            && summary.invalid == HowMany(sessions, clock, feeds, known, (plan: Plan) => plan.Rejected?)
  {
    hide PlanFor, SourceOf;
    if sessions != [] {
      var n := |sessions| - 1;
      SummaryCountsPlans(sessions[..n], clock, feeds[..n], known);
    }
  }

  // ---------------------------------------------------------------- corrections are published

  /** c is the classification of the confirmed row at the version in force. */
  predicate Stands(s: Session, c: Classification) { RowStands(s.rows, s.resultVersion, c) }

  predicate RowStands(rows: seq<ResultRow>, v: Option<nat>, c: Classification) {
    exists i :: 0 <= i < |rows| && v == Some(rows[i].version) && rows[i].confirmed && rows[i].classification == c
  }

  /** The lines as they are compared, in whatever order. */
  ghost function ComparedLines(c: Classification): multiset<Line> { multiset(CanonicalAll(c)) }

  lemma RowStandsInTail(rows: seq<ResultRow>, v: Option<nat>, c: Classification)
    requires rows != []
    ensures RowStands(rows, v, c) <==>
            (v == Some(rows[0].version) && rows[0].confirmed && rows[0].classification == c)
            || RowStands(rows[1..], v, c)
  {
    assert rows == [rows[0]] + rows[1..];
    if RowStands(rows, v, c) {
      var i :| 0 <= i < |rows| && v == Some(rows[i].version) && rows[i].confirmed && rows[i].classification == c;
      if i > 0 { assert rows[1..][i - 1] == rows[i]; }
    }
  }

  lemma {:induction false} FoundStands(rows: seq<ResultRow>, v: Option<nat>, c: Classification)
    requires Rising(rows)
    ensures FindConfirmed(rows, v) == Some(c) <==> RowStands(rows, v, c)
  {
    if rows != [] {
      RowStandsInTail(rows, v, c);
      FoundStands(rows[1..], v, c);
      assert forall i :: 0 <= i < |rows[1..]| ==> rows[1..][i].version > rows[0].version;
    }
  }

  lemma ExistingStands(s: Session, c: Classification)
    requires SessionInv(s)
    ensures Existing(s) == Some(c) <==> Stands(s, c)
  {
    hide Official;
    FoundStands(s.rows, s.resultVersion, c);
  }

  /** A session whose turn it is: started, not cancelled, and upstream holds an official classification of it. */
  ghost predicate Due(s: Session, now: int, source: Option<Classification>) {
    s.startsAt <= now && !s.state.Cancelled? && source.Some? && Official(source.value)
  }

  /** What upstream says stands, and the version has moved exactly if it did not stand before. */
  ghost predicate PublishedWhatDiffers(s: Session, s': Session, source: Classification) {
    && s'.state.Finished?
    && (exists c :: Stands(s', c))
    && (forall c :: Stands(s', c) ==> ComparedLines(c) == ComparedLines(source))
    && (s'.resultVersion == s.resultVersion <==>
        exists c :: Stands(s, c) && ComparedLines(c) == ComparedLines(source))
    && (s'.resultVersion != s.resultVersion ==> VersionOf(s') > VersionOf(s) && Stands(s', source))
    && (s'.resultVersion == s.resultVersion ==> s' == s)
  }

  /**
   * After a sync the classification in force of a session whose turn it is has exactly the lines upstream
   * has, a correction's included. Its version moves exactly when none, or another one, stood before; and a
   * session whose turn it is not is left alone.
   */
  lemma SyncPublishesExactly(s: Session, now: int, source: Option<Classification>)
    requires SessionInv(s)
    ensures if Due(s, now, source) then PublishedWhatDiffers(s, SyncOne(s, now, source), source.value)
            else SyncOne(s, now, source) == s
  {
    hide Official, Judge, Existing, ClassificationsEqual, SessionInv, Publish, Stands, ComparedLines, CanonicalAll;
    if source.Some? {
      AcceptedExactlyWhenOfficial(source.value);
      if Due(s, now, source) { DueIsPublished(s, now, source.value); }
    }
  }

  lemma DueIsPublished(s: Session, now: int, c: Classification)
    requires SessionInv(s) && Due(s, now, Some(c)) && Judge(c).Valid?
    ensures PublishedWhatDiffers(s, SyncOne(s, now, Some(c)), c)
  {
    hide Official, Judge, Existing, ClassificationsEqual, SessionInv, Publish, Stands, ComparedLines, CanonicalAll;
    NotEmptyWhenOfficial(c);
    var s' := SyncOne(s, now, Some(c));
    if Existing(s).Some? && ClassificationsEqual(Existing(s).value, c) {
      var x := Existing(s).value;
      ExistingStands(s, x);
      ComparedEqual(s, c);
      FinishedWhenExisting(s);
      forall y | Stands(s, y) ensures y == x { ExistingStands(s, y); }
    } else {
      PublishedIsInForce(s, c);
      PublishedRaises(s, c);
      PublishKeeps(s, c);
      forall y ensures Stands(s', y) <==> y == c { ExistingStands(s', y); }
      forall y | Stands(s, y) ensures ComparedLines(y) != ComparedLines(c) {
        ExistingStands(s, y);
        ComparedEqual(s, c);
      }
    }
  }

  /** When each plan is made, told from the session's row and the lines upstream has. */
  lemma PlannedExactlyWhen(s: Session, now: int, source: Option<Classification>)
    requires SessionInv(s)
    ensures var plan := PlanFor(s, now, source);
            var open := s.startsAt <= now && !s.state.Cancelled?;
            && (plan.NotStarted? <==> now < s.startsAt)
            && (plan.SessionCancelled? <==> s.startsAt <= now && s.state.Cancelled?)
            && (plan.NoSourceData? <==> open && (source.None? || source.value == []))
            && (plan.Rejected? <==> open && source.Some? && source.value != [] && !Official(source.value))
            && (plan.SkipUnchanged? <==>
                Due(s, now, source) && exists c :: Stands(s, c) && ComparedLines(c) == ComparedLines(source.value))
            && (plan.Import? ==> plan.classification == source.value)
  {
    hide Official, Judge, Existing, ClassificationsEqual, SessionInv, Stands, ComparedLines;
    if source.Some? {
      AcceptedExactlyWhenOfficial(source.value);
      if Official(source.value) { NotEmptyWhenOfficial(source.value); }
      if Existing(s).Some? {
        ComparedEqual(s, source.value);
        ExistingStands(s, Existing(s).value);
      }
      forall c | Stands(s, c) ensures Existing(s) == Some(c) { ExistingStands(s, c); }
    }
  }

  lemma NotEmptyWhenOfficial(c: Classification)
    requires Official(c)
    ensures c != []
  {
  }

  lemma ComparedEqual(s: Session, c: Classification)
    requires SessionInv(s) && Existing(s).Some?
    ensures ClassificationsEqual(Existing(s).value, c) <==> ComparedLines(Existing(s).value) == ComparedLines(c)
  {
    hide SessionInv, Existing, ClassificationsEqual;
    ExistingIsOfficial(s);
    OfficialIsDistinct(Existing(s).value);
    EqualExactlyInAnyOrder(Existing(s).value, c);
  }

  lemma FinishedWhenExisting(s: Session)
    requires SessionInv(s) && Existing(s).Some? && !s.state.Cancelled?
    ensures s.state.Finished?
  {
    hide RowsOk, HasConfirmedRow;
    if s.resultVersion.None? { NoVersionNoRow(s.rows); }
  }

  lemma PublishedRaises(s: Session, c: Classification)
    ensures VersionOf(Publish(s, c)) > VersionOf(s)
  {
    hide MaxVersion;
  }

  /** The same of every session of a season, at the time its turn comes, for the rows upstream holds of it. */
  lemma SeasonPublishesExactly(sessions: seq<Session>, clock: nat -> int, feeds: seq<Feed>, known: set<string>, i: nat)
    requires |feeds| == |sessions| && i < |sessions| && SessionInv(sessions[i])
    ensures var source, s' := SourceOf(feeds[i], known), SyncAll(sessions, clock, feeds, known)[i];
            && (source.Some? <==> feeds[i].endpoint.Some? && feeds[i].rows != [])
            && (source.Some? ==> source.value == Mapped(feeds[i].rows, feeds[i].endpoint.value, known))
            && if Due(sessions[i], clock(i), source) then PublishedWhatDiffers(sessions[i], s', source.value)
               else s' == sessions[i]
  {
    hide SessionInv, Due, PublishedWhatDiffers, Mapped, SyncOne;
    SyncPublishesExactly(sessions[i], clock(i), SourceOf(feeds[i], known));
  }

  // ---------------------------------------------------------------- the standings

  predicate DistinctCodes(standings: seq<Standing>) {
    forall i, j :: 0 <= i < j < |standings| ==> standings[i].code != standings[j].code
  }

  predicate Mentioned(standings: seq<Standing>, code: string) {
    exists i :: 0 <= i < |standings| && standings[i].code == code
  }

  /** The drivers whose points differ. */
  function Moved(points: map<string, real>, ranked: map<string, real>): set<string> {
    set code | code in points && code in ranked && points[code] != ranked[code]
  }

  /** A line that updates moves its driver's points, which no earlier line did. */
  lemma OneMoreMoved(points: map<string, real>, front: seq<Standing>, last: Standing, known: set<string>)
    requires Ranked(points, front, known).0.Keys == points.Keys
    requires last.code in points ==> Ranked(points, front, known).0[last.code] == points[last.code]
    ensures var before := Ranked(points, front, known);
            var (ranked, updated) := Ranked(points, front + [last], known);
            |Moved(points, ranked)| - |Moved(points, before.0)| == updated - before.1
  {
    hide Ranked;
    var (before, counted) := Ranked(points, front, known);
    var (ranked, updated) := Ranked(points, front + [last], known);
    LastStanding(points, front, last, known);
    if updated == counted {
      assert ranked == before;
    } else {
      assert last.code !in Moved(points, before);
      assert Moved(points, ranked) == Moved(points, before) + {last.code};
    }
  }

  lemma LastStanding(points: map<string, real>, front: seq<Standing>, last: Standing, known: set<string>)
    ensures var before := Ranked(points, front, known);
            Ranked(points, front + [last], known) ==
            if last.code in known && last.code in before.0 && before.0[last.code] != last.points
            then (before.0[last.code := last.points], before.1 + 1)
            else before
  {
    assert (front + [last])[..|front|] == front;
  }

  /** Every known driver has the points published, nobody else's change, and every change is counted. */
  lemma {:induction false} StandingsAreTaken(points: map<string, real>, standings: seq<Standing>, known: set<string>)
    requires DistinctCodes(standings)
    ensures var (ranked, updated) := Ranked(points, standings, known);
            && ranked.Keys == points.Keys && updated == |Moved(points, ranked)|
            && (forall i :: 0 <= i < |standings| && standings[i].code in known && standings[i].code in points ==>
                  ranked[standings[i].code] == standings[i].points)
            && (forall code :: code in points && (code !in known || !Mentioned(standings, code)) ==>
                ranked[code] == points[code])
  {
    if standings == [] {
      assert Moved(points, points) == {};
    } else {
      var n := |standings| - 1;
      var front, last := standings[..n], standings[n];
      StandingsAreTaken(points, front, known);
      assert standings == front + [last];
      forall code | !Mentioned(standings, code) ensures !Mentioned(front, code) && code != last.code {
        assert standings[n].code == last.code;
        forall i | 0 <= i < n ensures front[i].code != code { assert standings[i] == front[i]; }
      }
      forall i | 0 <= i < n ensures standings[i].code != last.code && standings[i] == front[i] { }
      OneMoreMoved(points, front, last, known);
    }
  }

  lemma {:induction false} TakenAlready(points: map<string, real>, standings: seq<Standing>, known: set<string>)
    requires forall i :: 0 <= i < |standings| && standings[i].code in known && standings[i].code in points ==>
               points[standings[i].code] == standings[i].points
    ensures Ranked(points, standings, known) == (points, 0)
  {
    if standings != [] {
      TakenAlready(points, standings[..|standings| - 1], known);
    }
  }

  /** The same standings a second time update nothing. */
  lemma SecondStandingsUpdateNothing(points: map<string, real>, standings: seq<Standing>, known: set<string>)
    requires DistinctCodes(standings)
    ensures var ranked := Ranked(points, standings, known).0; Ranked(ranked, standings, known) == (ranked, 0)
  {
    StandingsAreTaken(points, standings, known);
    TakenAlready(Ranked(points, standings, known).0, standings, known);
  }
}
