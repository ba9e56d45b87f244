/**
 * The life of one F1 session under administrators, the lock sweep and the upstream sync
 * (result-entry.ts, db f1/settlement.ts, session-lock.ts, results-sync.ts). Every one of them
 * works under the session's row lock, except that the sync reads and plans before taking it.
 */
module F1Sessions {
  import opened Common
  import opened F1Results
  import opened F1Import

  datatype MarketStatus = MarketOpen | MarketClosed | MarketCancelled

  datatype ResultRow = ResultRow(version: nat, classification: Classification, confirmed: bool)

  /** A session row with its result rows, in order of entry, and its markets. */
  datatype Session = Session(startsAt: int, state: SessionState, resultVersion: Option<nat>, resultConfirmed: bool,
                             rows: seq<ResultRow>, markets: seq<MarketStatus>)

  datatype EntryError =
    | CancelledSession
    | SessionNotStarted
    | InvalidResult(reason: Reason)
    | UnknownDriverIn(code: string)
    | VersionConflict(latest: nat)

  datatype Receipt = Receipt(version: nat, alreadyApplied: bool)

  function Max(a: nat, b: nat): nat { if a >= b then a else b }

  function MaxVersion(rows: seq<ResultRow>): nat {
    if rows == [] then 0 else Max(MaxVersion(rows[..|rows| - 1]), rows[|rows| - 1].version)
  }

  /** `latestResultVersion`: the greatest version entered or in force; 0 when there is none. */
  function Latest(s: Session): nat { Max(MaxVersion(s.rows), Else(s.resultVersion, 0)) }

  /** UPDATE ... WHERE version = v. */
  function ConfirmRows(rows: seq<ResultRow>, v: nat): (r: seq<ResultRow>)
    ensures |r| == |rows|
    ensures forall i :: 0 <= i < |rows| ==> r[i] == if rows[i].version == v then rows[i].(confirmed := true)
              else rows[i]
  {
    if rows == [] then []
    else
      var last := rows[|rows| - 1];
      ConfirmRows(rows[..|rows| - 1], v) + [if last.version == v then last.(confirmed := true) else last]
  }

  /** UPDATE ... SET status = 'CLOSED' WHERE status = 'OPEN'. */
  function CloseOpen(markets: seq<MarketStatus>): (r: seq<MarketStatus>)
    ensures |r| == |markets|
    ensures forall i :: 0 <= i < |markets| ==> r[i] == if markets[i].MarketOpen? then MarketClosed else markets[i]
  {
    if markets == [] then []
        else [if markets[0].MarketOpen? then MarketClosed else markets[0]] + CloseOpen(markets[1..])
  }

  function CancelAll(markets: seq<MarketStatus>): (r: seq<MarketStatus>)
    ensures |r| == |markets| && forall i :: 0 <= i < |markets| ==> r[i].MarketCancelled?
  {
    if markets == [] then [] else [MarketCancelled] + CancelAll(markets[1..])
  }

  /** The first line whose driver is not on the entry list. */
  function UnknownIn(c: Classification, known: set<string>): Option<string> {
    if c == [] then None else if c[0].driver !in known then Some(c[0].driver) else UnknownIn(c[1..], known)
  }

  // ---------------------------------------------------------------- the transactions

  function EnterResult(s: Session, now: int, c: Classification, known: set<string>): Result<(Session, Receipt),
      EntryError> {
    if s.state.Cancelled? then Err(CancelledSession)
    else if now < s.startsAt then Err(SessionNotStarted)
    else if Judge(c).Invalid? then Err(InvalidResult(Judge(c).reason))
    else if UnknownIn(c, known).Some? then Err(UnknownDriverIn(UnknownIn(c, known).value))
    else
      var version := Latest(s) + 1;
      Ok((s.(rows := s.rows + [ResultRow(version, c, false)]), Receipt(version, false)))
  }

  function MarkConfirmed(s: Session, version: nat): Session {
    s.(rows := ConfirmRows(s.rows, version), resultVersion := Some(version), resultConfirmed := true, state := Finished,
       markets := CloseOpen(s.markets))
  }

  function ConfirmResult(s: Session, version: nat): Result<(Session, Receipt), EntryError> {
    if s.state.Cancelled? then Err(CancelledSession)
    else if version != Latest(s) || Latest(s) == 0 then Err(VersionConflict(Latest(s)))
    else if s.resultConfirmed && s.resultVersion == Some(version) then Ok((s, Receipt(version, true)))
    else Ok((MarkConfirmed(s, version), Receipt(version, false)))
  }

  function CancelSession(s: Session): (Session, Receipt) {
    if s.state.Cancelled? then (s, Receipt(Else(s.resultVersion, 0), true))
    else
      var version := Latest(s) + 1;
      (s.(state := Cancelled, resultVersion := Some(version), resultConfirmed := true, markets := CancelAll(s.markets)),
       Receipt(version, false))
  }

  /** `lockSession`; the row must be upcoming and due. */
  function LockSession(s: Session, now: int): Session {
    if s.state.Upcoming? && s.startsAt <= now then s.(state := Locked, markets := CloseOpen(s.markets)) else s
  }

  /** The sync's transaction: whatever the state has become, the planned classification is published. */
  function Publish(s: Session, c: Classification): Session {
    var version := Latest(s) + 1;
    s.(rows := s.rows + [ResultRow(version, c, true)], resultVersion := Some(version), resultConfirmed := true,
       state := Finished,
       markets := CloseOpen(s.markets))
  }

  function FindConfirmed(rows: seq<ResultRow>, version: Option<nat>): Option<Classification> {
    if rows == [] then None
    else if rows[0].confirmed && version == Some(rows[0].version) then Some(rows[0].classification)
    else FindConfirmed(rows[1..], version)
  }

  /** The confirmed classification in force, as the sync reads it. */
  function Existing(s: Session): Option<Classification> { FindConfirmed(s.rows, s.resultVersion) }
}
