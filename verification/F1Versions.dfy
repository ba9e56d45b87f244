/**
 * Every interleaving of entering, confirming, cancelling, locking and syncing one session: what
 * every state satisfies, that versions only grow, and that a version settles what the result is.
 */
module F1Versions {
  import opened Common
  import opened F1Results
  import opened F1Import
  import opened F1Sessions

  // ---------------------------------------------------------------- the machine

  /** A sync between its reads: it has listed the session, or decided to publish. */
  datatype Flight = ListedAs(state: SessionState) | Importing(classification: Classification)

  datatype World = World(session: Session, flights: map<nat, Flight>)

  datatype Step =
    | Enter(now: int, classification: Classification, known: set<string>)
    | Confirm(version: nat)
    | CancelIt
    | LockIt(now: int)
    | SyncList(id: nat)
    | SyncPlan(id: nat, now: int, source: Option<Classification>)
    | SyncPublish(id: nat)

  function Committed(s: Session, result: Result<(Session, Receipt), EntryError>): Session {
    if result.Ok? then result.value.0 else s
  }

  function Next(w: World, step: Step): World {
    var s := w.session;
    match step
    case Enter(now, c, known) => w.(session := Committed(s, EnterResult(s, now, c, known)))
    case Confirm(version) => w.(session := Committed(s, ConfirmResult(s, version)))
    case CancelIt => w.(session := CancelSession(s).0)
    case LockIt(now) => w.(session := LockSession(s, now))
    case SyncList(id) => if id in w.flights then w else w.(flights := w.flights[id := ListedAs(s.state)])
    case SyncPlan(id, now, source) =>
      if id in w.flights && w.flights[id].ListedAs? then
        var plan := PlanSessionImport(s.startsAt, w.flights[id].state, now, source, Existing(s));
        if plan.Import? then w.(flights := w.flights[id := Importing(plan.classification)])
            else w.(flights := w.flights - {id})
      else w
    case SyncPublish(id) =>
      if id in w.flights && w.flights[id].Importing?
          then World(Publish(s, w.flights[id].classification), w.flights - {id}) else w
  }

  function Run(first: Session, steps: seq<Step>): World {
    if steps == [] then World(first, map[]) else Next(Run(first, steps[..|steps| - 1]), steps[|steps| - 1])
  }

  predicate Fresh(s: Session) {
    s.state.Upcoming? && s.resultVersion.None? && !s.resultConfirmed && s.rows == []
  }

  // ---------------------------------------------------------------- the invariant

  predicate Rising(rows: seq<ResultRow>) {
    && (forall i :: 0 <= i < |rows| ==> rows[i].version >= 1)
    && (forall i, j :: 0 <= i < j < |rows| ==> rows[i].version < rows[j].version)
  }

  ghost predicate RowsOk(rows: seq<ResultRow>, inForce: Option<nat>) {
    && Rising(rows)
    && (forall i :: 0 <= i < |rows| ==> Official(rows[i].classification))
    && (forall i :: 0 <= i < |rows| && rows[i].confirmed ==> inForce.Some? && rows[i].version <= inForce.value)
  }

  predicate HasRow(rows: seq<ResultRow>, v: nat) { exists i :: 0 <= i < |rows| && rows[i].version == v }

  predicate HasConfirmedRow(rows: seq<ResultRow>, v: nat) {
    exists i :: 0 <= i < |rows| && rows[i].version == v && rows[i].confirmed
  }

  /** The state says what stands behind the version in force. */
  predicate StateOk(s: Session) {
    && s.resultConfirmed == s.resultVersion.Some?
    && match s.state
       case Upcoming => s.resultVersion.None?
       case Locked => s.resultVersion.None?
       case Finished => s.resultVersion.Some? && HasConfirmedRow(s.rows, s.resultVersion.value)
       case Cancelled => s.resultVersion.Some? && s.resultVersion.value > MaxVersion(s.rows)
  }

  /** Once the session has left UPCOMING nobody can predict on it any more. */
  predicate MarketsOk(s: Session) {
    !s.state.Upcoming? ==> forall i :: 0 <= i < |s.markets| ==> !s.markets[i].MarketOpen?
  }

  ghost predicate SessionInv(s: Session) { RowsOk(s.rows, s.resultVersion) && StateOk(s) && MarketsOk(s) }

  ghost predicate WorldInv(w: World) {
    && SessionInv(w.session)
    && (forall id :: id in w.flights && w.flights[id].Importing? ==> Official(w.flights[id].classification))
  }

  lemma {:induction false} MaxIsGreatest(rows: seq<ResultRow>)
    ensures forall i :: 0 <= i < |rows| ==> rows[i].version <= MaxVersion(rows)
    ensures rows != [] ==> HasRow(rows, MaxVersion(rows))
  {
    if rows != [] {
      var n := |rows| - 1;
      MaxIsGreatest(rows[..n]);
      if n > 0 {
        var i :| 0 <= i < n && rows[..n][i].version == MaxVersion(rows[..n]);
        assert rows[i].version == MaxVersion(rows[..n]);
      }
      assert rows[n].version == MaxVersion(rows) || MaxVersion(rows) == MaxVersion(rows[..n]);
      forall i | 0 <= i < n
        ensures rows[i].version <= MaxVersion(rows)
      {
        assert rows[..n][i].version == rows[i].version;
      }
    }
  }

  /** A new row above everything so far keeps the rows in order. */
  lemma AppendRow(rows: seq<ResultRow>, row: ResultRow, inForce: Option<nat>, inForce': Option<nat>)
    requires RowsOk(rows, inForce) && row.version > MaxVersion(rows) && Official(row.classification)
    requires inForce.Some? ==> inForce'.Some? && inForce.value <= inForce'.value
    requires row.confirmed ==> inForce' == Some(row.version)
    ensures RowsOk(rows + [row], inForce')
  {
    hide Official;
    MaxIsGreatest(rows);
  }

  lemma ConfirmKeepsRows(rows: seq<ResultRow>, v: nat, inForce: Option<nat>)
    requires RowsOk(rows, inForce) && HasRow(rows, v) && (inForce.Some? ==> inForce.value <= v)
    ensures RowsOk(ConfirmRows(rows, v), Some(v)) && HasConfirmedRow(ConfirmRows(rows, v), v)
  {
    hide Official;
    var i :| 0 <= i < |rows| && rows[i].version == v;
    assert ConfirmRows(rows, v)[i].version == v && ConfirmRows(rows, v)[i].confirmed;
  }

  lemma EnterKeeps(s: Session, now: int, c: Classification, known: set<string>)
    requires SessionInv(s) && EnterResult(s, now, c, known).Ok?
    ensures SessionInv(EnterResult(s, now, c, known).value.0)
  {
    hide Official, Judge, UnknownIn;
    AcceptedExactlyWhenOfficial(c);
    var row := ResultRow(Latest(s) + 1, c, false);
    AppendRow(s.rows, row, s.resultVersion, s.resultVersion);
    if s.state.Finished? {
      var i :| 0 <= i < |s.rows| && s.rows[i].version == s.resultVersion.value && s.rows[i].confirmed;
      assert (s.rows + [row])[i] == s.rows[i];
    }
  }

  /** The row `confirmResult` marks exists: outside CANCELLED the latest version is a row's. */
  lemma LatestIsARow(s: Session)
    requires SessionInv(s) && !s.state.Cancelled? && Latest(s) > 0
    ensures HasRow(s.rows, Latest(s)) && MaxVersion(s.rows) == Latest(s) && Else(s.resultVersion, 0) <= Latest(s)
  {
    hide Official;
    MaxIsGreatest(s.rows);
  }

  lemma Confirmed(s: Session, version: nat)
    requires SessionInv(s) && !s.state.Cancelled?
    requires RowsOk(ConfirmRows(s.rows, version), Some(version))
    requires HasConfirmedRow(ConfirmRows(s.rows, version), version)
    ensures SessionInv(MarkConfirmed(s, version))
  {
    hide RowsOk, HasConfirmedRow;
  }

  lemma ConfirmKeeps(s: Session, version: nat)
    requires SessionInv(s) && ConfirmResult(s, version).Ok?
    ensures SessionInv(ConfirmResult(s, version).value.0)
  {
    hide Official, Latest, MaxVersion, HasRow, HasConfirmedRow, RowsOk;
    LatestIsARow(s);
    ConfirmKeepsRows(s.rows, version, s.resultVersion);
    if s.resultVersion != Some(version) { Confirmed(s, version); }
  }

  lemma PublishKeeps(s: Session, c: Classification)
    requires SessionInv(s) && Official(c)
    ensures SessionInv(Publish(s, c))
  {
    hide Official, MaxVersion, RowsOk;
    var row := ResultRow(Latest(s) + 1, c, true);
    AppendRow(s.rows, row, s.resultVersion, Some(row.version));
    assert (s.rows + [row])[|s.rows|] == row;
  }

  lemma CancelKeeps(s: Session)
    requires SessionInv(s)
    ensures SessionInv(CancelSession(s).0)
  {
    hide Official;
  }

  lemma LockKeeps(s: Session, now: int)
    requires SessionInv(s)
    ensures SessionInv(LockSession(s, now))
  {
    hide Official;
  }

  lemma PlannedIsOfficial(startsAt: int, state: SessionState, now: int, source: Option<Classification>,
                          existing: Option<Classification>)
    requires PlanSessionImport(startsAt, state, now, source, existing).Import?
    ensures Official(PlanSessionImport(startsAt, state, now, source, existing).classification)
  {
    hide Official, Judge;
    AcceptedExactlyWhenOfficial(source.value);
  }

  /** Each step of any actor keeps the invariant. */
  lemma StepKeeps(w: World, step: Step)
    requires WorldInv(w)
    ensures WorldInv(Next(w, step))
  {
    hide SessionInv, Official, EnterResult, ConfirmResult, CancelSession, LockSession, Publish, PlanSessionImport;
    var s := w.session;
    match step
    case Enter(now, c, known) => if EnterResult(s, now, c, known).Ok? { EnterKeeps(s, now, c, known); }
    case Confirm(version) => if ConfirmResult(s, version).Ok? { ConfirmKeeps(s, version); }
    case CancelIt => CancelKeeps(s);
    case LockIt(now) => LockKeeps(s, now);
    case SyncList(_) =>
    case SyncPlan(id, now, source) =>
      if id in w.flights && w.flights[id].ListedAs? {
        if PlanSessionImport(s.startsAt, w.flights[id].state, now, source, Existing(s)).Import? {
          PlannedIsOfficial(s.startsAt, w.flights[id].state, now, source, Existing(s));
        }
      }
    case SyncPublish(id) =>
      if id in w.flights && w.flights[id].Importing? { PublishKeeps(s, w.flights[id].classification); }
  }

  lemma {:induction false} RunKeeps(first: Session, steps: seq<Step>)
    requires Fresh(first)
    ensures WorldInv(Run(first, steps))
  {
    hide SessionInv;
    if steps == [] {
      FreshInv(first);
    } else {
      RunKeeps(first, steps[..|steps| - 1]);
      StepKeeps(Run(first, steps[..|steps| - 1]), steps[|steps| - 1]);
    }
  }

  lemma FreshInv(s: Session)
    requires Fresh(s)
    ensures SessionInv(s)
  {
  }

  // ---------------------------------------------------------------- versions only grow

  function VersionOf(s: Session): nat { Else(s.resultVersion, 0) }

  function FindRow(rows: seq<ResultRow>, version: Option<nat>): Option<Classification> {
    if rows == [] then None
    else if version == Some(rows[0].version) then Some(rows[0].classification)
    else FindRow(rows[1..], version)
  }

  /** The classification the settlement scan joins to the version in force. */
  function InForce(s: Session): Option<Classification> { FindRow(s.rows, s.resultVersion) }

  lemma {:induction false} FindAppend(rows: seq<ResultRow>, row: ResultRow, v: Option<nat>)
    ensures FindRow(rows + [row], v) == if FindRow(rows, v).Some? || v != Some(row.version) then FindRow(rows, v)
              else Some(row.classification)
  {
    if rows == [] {
      assert rows + [row] == [row] && [row][1..] == [];
    } else {
      FindAppend(rows[1..], row, v);
      assert (rows + [row])[1..] == rows[1..] + [row];
    }
  }

  lemma {:induction false} FindFinds(rows: seq<ResultRow>, v: nat)
    requires Rising(rows)
    ensures FindRow(rows, Some(v)).Some? <==> HasRow(rows, v)
    ensures FindConfirmed(rows, Some(v)).Some? <==> HasConfirmedRow(rows, v)
    ensures FindConfirmed(rows, Some(v)).Some? ==> FindConfirmed(rows, Some(v)) == FindRow(rows, Some(v))
  {
    if rows != [] {
      FindFinds(rows[1..], v);
      RowInTail(rows, v);
      hide HasRow, HasConfirmedRow;
      if rows[0].version == v { NoRowAgain(rows, v); }
    }
  }

  lemma NoRowAgain(rows: seq<ResultRow>, v: nat)
    requires Rising(rows) && rows != [] && rows[0].version == v
    ensures !HasConfirmedRow(rows[1..], v)
  {
  }

  lemma RowInTail(rows: seq<ResultRow>, v: nat)
    requires rows != []
    ensures HasRow(rows, v) <==> rows[0].version == v || HasRow(rows[1..], v)
    ensures HasConfirmedRow(rows, v) <==> (rows[0].version == v && rows[0].confirmed) || HasConfirmedRow(rows[1..], v)
  {
    assert rows == [rows[0]] + rows[1..];
    if HasRow(rows, v) && rows[0].version != v {
      var i :| 0 <= i < |rows| && rows[i].version == v;
      assert rows[1..][i - 1].version == v;
    }
    if HasConfirmedRow(rows, v) && !(rows[0].version == v && rows[0].confirmed) {
      var i :| 0 <= i < |rows| && rows[i].version == v && rows[i].confirmed;
      assert rows[1..][i - 1].version == v && rows[1..][i - 1].confirmed;
    }
  }

  lemma {:induction false} FindOfficial(rows: seq<ResultRow>, v: Option<nat>)
    requires forall i :: 0 <= i < |rows| ==> Official(rows[i].classification)
    ensures FindRow(rows, v).Some? ==> Official(FindRow(rows, v).value)
  {
    hide Official;
    if rows != [] { FindOfficial(rows[1..], v); }
  }

  /**
   * A finished session has an official classification in force, the same whether asked for confirmed
   * rows or for any.
   */
  lemma FinishedHasItsClassification(s: Session)
    requires SessionInv(s) && s.state.Finished?
    ensures InForce(s).Some? && Existing(s) == InForce(s) && Official(InForce(s).value)
  {
    hide Official, Rising;
    FindFinds(s.rows, s.resultVersion.value);
    FindOfficial(s.rows, s.resultVersion);
  }

  /** From one state to a later one the version grows, or it and all it stands for are the same. */
  predicate Advances(s: Session, s': Session) {
    || VersionOf(s) < VersionOf(s')
    || (s'.resultVersion == s.resultVersion
        && (s.resultVersion.Some? ==> s'.state == s.state && InForce(s') == InForce(s)))
  }

  lemma EnterAdvances(s: Session, now: int, c: Classification, known: set<string>)
    requires SessionInv(s) && EnterResult(s, now, c, known).Ok?
    ensures Advances(s, EnterResult(s, now, c, known).value.0)
  {
    hide Judge, UnknownIn, Official;
    FindAppend(s.rows, ResultRow(Latest(s) + 1, c, false), s.resultVersion);
  }

  lemma OtherAdvances(s: Session, c: Classification, version: nat, now: int)
    requires SessionInv(s)
    ensures Advances(s, Publish(s, c)) && Advances(s, CancelSession(s).0) && Advances(s, LockSession(s, now))
    ensures ConfirmResult(s, version).Ok? ==> Advances(s, ConfirmResult(s, version).value.0)
  {
    hide RowsOk, MarketsOk, FindRow;
  }

  lemma StepAdvances(w: World, step: Step)
    requires WorldInv(w)
    ensures Advances(w.session, Next(w, step).session)
  {
    hide SessionInv, Official, EnterResult, ConfirmResult, CancelSession, LockSession, Publish, PlanSessionImport,
        InForce;
    var s := w.session;
    match step
    case Enter(now, c, known) => if EnterResult(s, now, c, known).Ok? { EnterAdvances(s, now, c, known); }
    case Confirm(version) => OtherAdvances(s, [], version, 0);
    case CancelIt => OtherAdvances(s, [], 0, 0);
    case LockIt(now) => OtherAdvances(s, [], 0, now);
    case SyncList(_) =>
    case SyncPlan(_, _, _) =>
    case SyncPublish(id) => if id in w.flights
                            && w.flights[id].Importing? { OtherAdvances(s, w.flights[id].classification, 0, 0); }
  }

  /**
   * Over any run, between any two moments: the confirmed version never falls, and while it stays
   * the same so does everything a settlement reads from it.
   */
  lemma {:induction false} VersionsOnlyGrow(first: Session, steps: seq<Step>, i: nat)
    requires Fresh(first) && i <= |steps|
    ensures Advances(Run(first, steps[..i]).session, Run(first, steps).session)
    decreases |steps|
  {
    hide SessionInv, Next, InForce;
    if i < |steps| {
      var n := |steps| - 1;
      VersionsOnlyGrow(first, steps[..n], i);
      assert steps[..n][..i] == steps[..i];
      RunKeeps(first, steps[..n]);
      StepAdvances(Run(first, steps[..n]), steps[n]);
    } else {
      assert steps[..i] == steps;
    }
  }

  /** A confirmation that takes effect confirms a row that was entered, and that row is then in force. */
  lemma ConfirmFindsItsRow(first: Session, steps: seq<Step>, version: nat)
    requires Fresh(first)
    requires ConfirmResult(Run(first, steps).session, version).Ok?
    ensures var s := Run(first, steps).session;
            var confirmed := ConfirmResult(s, version).value.0;
            && HasRow(s.rows, version) && confirmed.state.Finished? && confirmed.resultVersion == Some(version)
            && Existing(confirmed) == FindRow(s.rows, Some(version)) && Existing(confirmed).Some?
  {
    hide Run;
    RunKeeps(first, steps);
    ConfirmedRow(Run(first, steps).session, version);
  }

  lemma {:induction false} ConfirmSameRow(rows: seq<ResultRow>, v: nat)
    ensures FindRow(ConfirmRows(rows, v), Some(v)) == FindRow(rows, Some(v))
  {
    if rows != [] {
      ConfirmSameRow(rows[1..], v);
      assert ConfirmRows(rows, v)[1..] == ConfirmRows(rows[1..], v);
    }
  }

  lemma ConfirmedRow(s: Session, version: nat)
    requires SessionInv(s) && ConfirmResult(s, version).Ok?
    ensures var confirmed := ConfirmResult(s, version).value.0;
            && HasRow(s.rows, version) && confirmed.state.Finished? && confirmed.resultVersion == Some(version)
            && Existing(confirmed) == FindRow(s.rows, Some(version)) && Existing(confirmed).Some?
  {
    hide Official, RowsOk, HasRow, FindRow, FindConfirmed, Latest, MaxVersion, HasConfirmedRow, MarketsOk;
    LatestIsARow(s);
    ConfirmKeeps(s, version);
    var confirmed := ConfirmResult(s, version).value.0;
    FinishedHasItsClassification(confirmed);
    ConfirmSameRow(s.rows, version);
  }

  // ---------------------------------------------------------------- CANCELLED is not terminal

  /** Only a publication planned earlier takes a session out of CANCELLED. */
  lemma OnlyPublishingRevives(w: World, step: Step)
    requires w.session.state.Cancelled?
    ensures !Next(w, step).session.state.Cancelled? <==>
            step.SyncPublish? && step.id in w.flights && w.flights[step.id].Importing?
  {
    hide Judge, UnknownIn, PlanSessionImport;
  }

  /** And it does happen: listed and planned before the cancellation, published after it. */
  lemma CancelledIsNotTerminal(first: Session, now: int, c: Classification)
    requires Fresh(first) && first.startsAt <= now && Official(c)
    ensures var steps := [SyncList(0), SyncPlan(0, now, Some(c)), CancelIt, SyncPublish(0)];
            && Run(first, steps[..3]).session.state.Cancelled?
            && Run(first, steps).session.state.Finished?
            && InForce(Run(first, steps).session) == Some(c)
            && (forall m :: m in Run(first, steps).session.markets ==> m.MarketCancelled?)
  {
    hide Official, Next, CancelSession, Publish;
    var steps := [SyncList(0), SyncPlan(0, now, Some(c)), CancelIt, SyncPublish(0)];
    RunFour(first, SyncList(0), SyncPlan(0, now, Some(c)), CancelIt, SyncPublish(0));
    PlannedWorld(first, now, c);
    assert steps[..3] == [SyncList(0), SyncPlan(0, now, Some(c)), CancelIt];
    hide Run, InForce;
    CancelThenPublish(first, c);
  }

  lemma CancelThenPublish(first: Session, c: Classification)
    requires Fresh(first)
    ensures var cancelled := Next(World(first, map[0 := Importing(c)]), CancelIt);
            var s := Next(cancelled, SyncPublish(0)).session;
            && cancelled.session.state.Cancelled? && s.state.Finished? && InForce(s) == Some(c)
            && (forall m :: m in s.markets ==> m.MarketCancelled?)
  {
    CancelPublish(first, c);
    hide InForce, CancelSession, Publish;
    CancelCancels(first);
  }

  lemma CancelCancels(s: Session)
    ensures CancelSession(s).0.state.Cancelled?
  {
  }

  lemma RunSnoc(first: Session, steps: seq<Step>, last: Step)
    ensures Run(first, steps + [last]) == Next(Run(first, steps), last)
  {
    hide Next;
    assert (steps + [last])[..|steps|] == steps;
  }

  lemma RunFour(first: Session, a: Step, b: Step, c: Step, d: Step)
    ensures Run(first, [a, b, c]) == Next(Next(Next(World(first, map[]), a), b), c)
    ensures Run(first, [a, b, c, d]) == Next(Run(first, [a, b, c]), d)
  {
    hide Next;
    RunSnoc(first, [], a);
    RunSnoc(first, [a], b);
    RunSnoc(first, [a, b], c);
    RunSnoc(first, [a, b, c], d);
    assert [] + [a] == [a] && [a] + [b] == [a, b] && [a, b] + [c] == [a, b, c] && [a, b, c] + [d] == [a, b, c, d];
  }

  lemma PlannedWorld(first: Session, now: int, c: Classification)
    requires Fresh(first) && first.startsAt <= now && Official(c)
    ensures Next(Next(World(first, map[]), SyncList(0)), SyncPlan(0, now, Some(c)))
              == World(first, map[0 := Importing(c)])
  {
    hide Official, Judge;
    AcceptedExactlyWhenOfficial(c);
    NotEmpty(c);
    assert FindConfirmed(first.rows, first.resultVersion) == None;
    var listed := Next(World(first, map[]), SyncList(0));
    assert listed == World(first, map[0 := ListedAs(Upcoming)]);
    assert PlanSessionImport(first.startsAt, Upcoming, now, Some(c), Existing(first)) == Import(c);
  }

  lemma NotEmpty(c: Classification)
    requires Official(c)
    ensures c != []
  {
  }

  lemma CancelPublish(s: Session, c: Classification)
    requires Fresh(s)
    ensures var s' := Publish(CancelSession(s).0, c);
            && s'.state.Finished? && InForce(s') == Some(c) && |s'.markets| == |s.markets|
            && (forall m :: m in s'.markets ==> m.MarketCancelled?)
  {
    FindAppend([], ResultRow(Latest(CancelSession(s).0) + 1, c, true), Some(Latest(CancelSession(s).0) + 1));
  }
}
