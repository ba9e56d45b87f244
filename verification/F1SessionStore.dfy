/** The session row as the port updates it, each method proved to be the transaction of F1Sessions. */
module F1SessionStore {
  import opened Common
  import opened F1Results
  import opened F1Import
  import opened F1Sessions

  class SessionStore {
    var startsAt: int
    var state: SessionState
    var resultVersion: Option<nat>
    var resultConfirmed: bool
    var rows: seq<ResultRow>
    var markets: seq<MarketStatus>

    function Row(): Session
      reads this
    {
      Session(startsAt, state, resultVersion, resultConfirmed, rows, markets)
    }

    constructor (startsAt: int, markets: seq<MarketStatus>)
      ensures Row() == Session(startsAt, Upcoming, None, false, [], markets)
    {
      this.startsAt, this.state, this.resultVersion, this.resultConfirmed := startsAt, Upcoming, None, false;
      this.rows, this.markets := [], markets;
    }

    method LatestResultVersion() returns (latest: nat)
      ensures latest == Latest(Row())
    {
      latest := 0;
      for i := 0 to |rows|
        invariant latest == MaxVersion(rows[..i])
      {
        assert rows[..i + 1][..i] == rows[..i];
        if rows[i].version > latest { latest := rows[i].version; }
      }
      assert rows[..|rows|] == rows;
      if resultVersion.Some? && resultVersion.value > latest { latest := resultVersion.value; }
    }

    method CloseOpenMarkets()
      modifies this`markets
      ensures markets == CloseOpen(old(markets))
    {
      var closed := [];
      for i := 0 to |markets|
        invariant markets == old(markets) && |closed| == i
        invariant forall j :: 0 <= j < i ==> closed[j] == if markets[j].MarketOpen? then MarketClosed else markets[j]
      {
        closed := closed + [if markets[i].MarketOpen? then MarketClosed else markets[i]];
      }
      markets := closed;
      assert markets == CloseOpen(old(markets));
    }

    /** The check of every line against the entry list. */
    static method FirstUnknown(c: Classification, known: set<string>) returns (unknown: Option<string>)
      ensures unknown == UnknownIn(c, known)
    {
      for i := 0 to |c|
        invariant UnknownIn(c, known) == UnknownIn(c[i..], known)
      {
        assert c[i..][1..] == c[i + 1..];
        if c[i].driver !in known { return Some(c[i].driver); }
      }
      return None;
    }

    /** `enterResult`. */
    method EnterResult(now: int, c: Classification, known: set<string>) returns (outcome: Result<Receipt, EntryError>)
      modifies this`rows
      ensures match F1Sessions.EnterResult(old(Row()), now, c, known)
              case Ok(next) => outcome == Ok(next.1) && Row() == next.0
              case Err(e) => outcome == Err(e) && Row() == old(Row())
    {
      hide UnknownIn, Judge, Latest;
      if state.Cancelled? { return Err(CancelledSession); }
      if now < startsAt { return Err(SessionNotStarted); }
      var validation := ValidateF1Classification(c);
      if validation.Invalid? { return Err(InvalidResult(validation.reason)); }
      var unknown := FirstUnknown(c, known);
      if unknown.Some? { return Err(UnknownDriverIn(unknown.value)); }
      var latest := LatestResultVersion();
      rows := rows + [ResultRow(latest + 1, c, false)];
      return Ok(Receipt(latest + 1, false));
    }

    /** `confirmResult`. */
    method ConfirmResult(version: nat) returns (outcome: Result<Receipt, EntryError>)
      modifies this
      ensures match F1Sessions.ConfirmResult(old(Row()), version)
              case Ok(next) => outcome == Ok(next.1) && Row() == next.0
              case Err(e) => outcome == Err(e) && Row() == old(Row())
    {
      if state.Cancelled? { return Err(CancelledSession); }
      var latest := LatestResultVersion();
      if version != latest || latest == 0 { return Err(VersionConflict(latest)); }
      if resultConfirmed && resultVersion == Some(version) { return Ok(Receipt(version, true)); }
      rows := ConfirmRows(rows, version);
      resultVersion, resultConfirmed, state := Some(version), true, Finished;
      CloseOpenMarkets();
      return Ok(Receipt(version, false));
    }

    /** `cancelSession`. */
    method CancelSession() returns (receipt: Receipt)
      modifies this
      ensures (Row(), receipt) == F1Sessions.CancelSession(old(Row()))
    {
      if state.Cancelled? { return Receipt(Else(resultVersion, 0), true); }
      var latest := LatestResultVersion();
      state, resultVersion, resultConfirmed := Cancelled, Some(latest + 1), true;
      markets := CancelAll(markets);
      return Receipt(latest + 1, false);
    }

    /** `lockSession`. */
    method LockSession(now: int) returns (locked: bool)
      modifies this`state, this`markets
      ensures Row() == F1Sessions.LockSession(old(Row()), now)
      ensures locked <==> old(state).Upcoming? && startsAt <= now
    {
      if !state.Upcoming? || startsAt > now { return false; }
      state := Locked;
      CloseOpenMarkets();
      return true;
    }

    /** The sync's publishing transaction. */
    method Publish(c: Classification)
      modifies this
      ensures Row() == F1Sessions.Publish(old(Row()), c)
    {
      var latest := LatestResultVersion();
      rows := rows + [ResultRow(latest + 1, c, true)];
      resultVersion, resultConfirmed, state := Some(latest + 1), true, Finished;
      CloseOpenMarkets();
    }
  }
}
