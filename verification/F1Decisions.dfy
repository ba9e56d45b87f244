/**
 * When administrators' decisions on a session and its lock at the start take effect, and what they then
 * leave: told from the rows, not from how the transactions go about it.
 */
module F1Decisions {
  import opened Common
  import opened F1Results
  import opened F1Import
  import opened F1Sessions
  import opened F1Versions

  /** v is the greatest version entered or in force, 0 when there is none. */
  ghost predicate Greatest(s: Session, v: nat) {
    && (forall i :: 0 <= i < |s.rows| ==> s.rows[i].version <= v)
    && (s.resultVersion.Some? ==> s.resultVersion.value <= v)
    && (v == 0 || HasRow(s.rows, v) || s.resultVersion == Some(v))
  }

  lemma LatestIsGreatest(s: Session, v: nat)
    ensures v == Latest(s) <==> Greatest(s, v)
  {
    MaxIsGreatest(s.rows);
    if Greatest(s, v) && HasRow(s.rows, v) {
      var i :| 0 <= i < |s.rows| && s.rows[i].version == v;
    }
    if s.rows != [] {
      var j :| 0 <= j < |s.rows| && s.rows[j].version == MaxVersion(s.rows);
    }
  }

  lemma {:induction false} UnknownIsReal(c: Classification, known: set<string>)
    ensures UnknownIn(c, known).None? <==> forall i :: 0 <= i < |c| ==> c[i].driver in known
    ensures UnknownIn(c, known).Some? ==>
              exists i :: 0 <= i < |c| && c[i].driver == UnknownIn(c, known).value && c[i].driver !in known
                          && forall j :: 0 <= j < i ==> c[j].driver in known
  {
    if c != [] {
      UnknownIsReal(c[1..], known);
      assert c == [c[0]] + c[1..];
      if c[0].driver in known && UnknownIn(c, known).Some? {
        var i :| 0 <= i < |c[1..]| && c[1..][i].driver == UnknownIn(c, known).value && c[1..][i].driver !in known
          && forall j :: 0 <= j < i ==> c[1..][j].driver in known;
        forall j | 0 <= j < i + 1 ensures c[j].driver in known { if j > 0 { assert c[1..][j - 1] == c[j]; } }
        assert c[i + 1].driver == UnknownIn(c, known).value;
      }
    }
  }

  /**
   * A result is accepted exactly for a session that has started and is not cancelled, when it is official
   * and of known drivers. It becomes a draft above every version so far, and nothing in force changes.
   */
  lemma EnteringAddsADraft(s: Session, now: int, c: Classification, known: set<string>)
    ensures EnterResult(s, now, c, known).Ok? <==>
              && !s.state.Cancelled? && s.startsAt <= now && Official(c)
              && (forall i :: 0 <= i < |c| ==> c[i].driver in known)
    ensures EnterResult(s, now, c, known).Ok? ==>
              var (s', receipt) := EnterResult(s, now, c, known).value;
              && receipt.version > 0 && Greatest(s, receipt.version - 1) && !receipt.alreadyApplied
              && s' == s.(rows := s'.rows) && |s'.rows| == |s.rows| + 1 && s'.rows[..|s.rows|] == s.rows
              && s'.rows[|s.rows|] == ResultRow(receipt.version, c, false)
  {
    hide Official, Judge, UnknownIn, Latest;
    AcceptedExactlyWhenOfficial(c);
    UnknownIsReal(c, known);
    LatestIsGreatest(s, Latest(s));
  }

  /** A refusal to enter says what is so: the session's state, the first fault, or the first unknown driver. */
  lemma EntryRefusalsAreTrue(s: Session, now: int, c: Classification, known: set<string>)
    requires EnterResult(s, now, c, known).Err?
    ensures match EnterResult(s, now, c, known).error
            case CancelledSession => s.state.Cancelled?
            case SessionNotStarted => !s.state.Cancelled? && now < s.startsAt
            case InvalidResult(reason) => ReasonHolds(c, reason)
            case UnknownDriverIn(code) =>
              Official(c) && exists i :: 0 <= i < |c| && c[i].driver == code && code !in known
            case VersionConflict(_) => false
  {
    hide Official, ReasonHolds, Judge, UnknownIn;
    AcceptedExactlyWhenOfficial(c);
    if Judge(c).Invalid? { RefusalsAreTrue(c); }
    UnknownIsReal(c, known);
  }

  /** Open markets are closed and the others stay as they are. */
  predicate OpenOnesClosed(markets: seq<MarketStatus>, markets': seq<MarketStatus>) {
    && |markets'| == |markets|
    && forall i :: 0 <= i < |markets| ==>
         markets'[i] == if markets[i].MarketOpen? then MarketClosed else markets[i]
  }

  /** Row by row the same, with those of one version confirmed. */
  predicate OnlyConfirms(rows: seq<ResultRow>, rows': seq<ResultRow>, v: nat) {
    && |rows'| == |rows|
    && forall i :: 0 <= i < |rows| ==>
         rows'[i] == rows[i].(confirmed := rows[i].confirmed || rows[i].version == v)
  }

  /**
   * A version is confirmed exactly when the session is not cancelled and it is the greatest there is. A
   * version in force already is answered so and changes nothing; another one is then in force, its row
   * confirmed, the session finished and its open markets closed.
   */
  lemma ConfirmingPutsInForce(s: Session, version: nat)
    ensures ConfirmResult(s, version).Ok? <==> !s.state.Cancelled? && version > 0 && Greatest(s, version)
    ensures ConfirmResult(s, version).Ok? ==>
              var (s', receipt) := ConfirmResult(s, version).value;
              && receipt.version == version
              && (receipt.alreadyApplied <==> s.resultConfirmed && s.resultVersion == Some(version))
              && (if receipt.alreadyApplied then s' == s
                  else
                    && s'.startsAt == s.startsAt && s'.state.Finished? && s'.resultVersion == Some(version)
                    && s'.resultConfirmed
                    && OnlyConfirms(s.rows, s'.rows, version) && OpenOnesClosed(s.markets, s'.markets))
    ensures ConfirmResult(s, version).Err? && !s.state.Cancelled? ==>
              ConfirmResult(s, version).error.VersionConflict? && Greatest(s, ConfirmResult(s, version).error.latest)
  {
    hide Latest, Greatest;
    LatestIsGreatest(s, version);
    LatestIsGreatest(s, Latest(s));
  }

  /** The sync's publication is a confirmed row above every version so far, in force at once. */
  lemma PublishingPutsInForce(s: Session, c: Classification)
    ensures var s' := Publish(s, c);
            && s'.resultVersion.Some? && s'.resultVersion.value > 0 && Greatest(s, s'.resultVersion.value - 1)
            && s'.resultConfirmed && s'.state.Finished? && s'.startsAt == s.startsAt
            && |s'.rows| == |s.rows| + 1 && s'.rows[..|s.rows|] == s.rows
            && s'.rows[|s.rows|] == ResultRow(s'.resultVersion.value, c, true)
            && OpenOnesClosed(s.markets, s'.markets)
  {
    hide Latest, Greatest;
    LatestIsGreatest(s, Latest(s));
  }

  /**
   * Cancelling voids a session under a version of its own and cancels every market; done before, it
   * changes nothing.
   */
  lemma CancellingVoids(s: Session)
    ensures var (s', receipt) := CancelSession(s);
            && s'.state.Cancelled? && (receipt.alreadyApplied <==> s.state.Cancelled?)
            && (if s.state.Cancelled? then s' == s
                else
                  && receipt.version > 0 && Greatest(s, receipt.version - 1)
                  && s'.resultVersion == Some(receipt.version) && s'.resultConfirmed
                  && s'.rows == s.rows && s'.startsAt == s.startsAt
                  && |s'.markets| == |s.markets|
                  && forall i :: 0 <= i < |s'.markets| ==> s'.markets[i].MarketCancelled?)
  {
    hide Latest, Greatest;
    LatestIsGreatest(s, Latest(s));
  }

  /** A due session is locked and its open markets are closed; any other is left alone. */
  lemma LockingCloses(s: Session, now: int)
    ensures var s' := LockSession(s, now);
            if s.state.Upcoming? && s.startsAt <= now
            then s' == s.(state := Locked, markets := s'.markets) && OpenOnesClosed(s.markets, s'.markets)
            else s' == s
  {
  }

  /** After the lock sweep has passed a session that has started, nobody can predict on it for the rest of any run. */
  lemma NobodyPredictsAfterTheStart(first: Session, steps: seq<Step>, now: int, more: seq<Step>)
    requires Fresh(first) && first.startsAt <= now
    ensures var s := Run(first, steps + [LockIt(now)] + more).session;
            forall i :: 0 <= i < |s.markets| ==> !s.markets[i].MarketOpen?
  {
    hide Run, Next, SessionInv, Fresh;
    RunSnoc(first, steps, LockIt(now));
    StartStays(first, steps);
    LocksUpcoming(Run(first, steps), now);
    LeftUpcoming(first, steps + [LockIt(now)], more);
    RunKeeps(first, steps + [LockIt(now)] + more);
    MarketsShut(Run(first, steps + [LockIt(now)] + more).session);
  }

  lemma MarketsShut(s: Session)
    requires SessionInv(s) && !s.state.Upcoming?
    ensures forall i :: 0 <= i < |s.markets| ==> !s.markets[i].MarketOpen?
  {
    hide RowsOk, StateOk;
  }

  lemma LocksUpcoming(w: World, now: int)
    requires w.session.startsAt <= now
    ensures !Next(w, LockIt(now)).session.state.Upcoming?
  {
  }

  lemma StepFrame(w: World, step: Step)
    ensures Next(w, step).session.startsAt == w.session.startsAt
    ensures !w.session.state.Upcoming? ==> !Next(w, step).session.state.Upcoming?
  {
    hide Judge, UnknownIn, PlanSessionImport, Latest;
  }

  lemma {:induction false} StartStays(first: Session, steps: seq<Step>)
    ensures Run(first, steps).session.startsAt == first.startsAt
  {
    hide Next;
    if steps != [] {
      StartStays(first, steps[..|steps| - 1]);
      StepFrame(Run(first, steps[..|steps| - 1]), steps[|steps| - 1]);
    }
  }

  lemma {:induction false} LeftUpcoming(first: Session, steps: seq<Step>, more: seq<Step>)
    requires !Run(first, steps).session.state.Upcoming?
    ensures !Run(first, steps + more).session.state.Upcoming?
  {
    hide Run, Next;
    if more == [] {
      assert steps + more == steps;
    } else {
      var n := |more| - 1;
      LeftUpcoming(first, steps, more[..n]);
      assert steps + more == (steps + more[..n]) + [more[n]];
      RunSnoc(first, steps + more[..n], more[n]);
      StepFrame(Run(first, steps + more[..n]), more[n]);
    }
  }
}
