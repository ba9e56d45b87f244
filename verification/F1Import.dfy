/**
 * Importing a published classification: mapping its rows, comparing it with the confirmed one in
 * any order, and deciding whether to publish (packages/domain/src/f1/ergast-import.ts).
 */
module F1Import {
  import opened Common
  import opened F1Results
  import LedgerModel
  import Decimal

  // ---------------------------------------------------------------- the upstream rows

  /** A row as received; `points` is the number its text denotes, if it denotes one. */
  datatype Row = Row(code: Option<string>, driverId: Option<string>, positionText: Option<string>,
                     position: Option<string>,
                     laps: Option<string>, status: Option<string>, points: Option<real>, grid: Option<string>,
                     fastestLapRank: Option<string>, time: Option<string>, q1: Option<string>, q2: Option<string>,
                         q3: Option<string>)

  function Or<T>(first: Option<T>, second: Option<T>): Option<T> { if first.Some? then first else second }

  function Else<T>(value: Option<T>, otherwise: T): T { if value.Some? then value.value else otherwise }

  /** `^\d+$`. */
  predicate IsNumeral(s: string) { s != "" && Decimal.AllDigits(s) }

  function LowerCase(c: char): char { if 'A' <= c <= 'Z' then 'a' + (c - 'A') else c }

  predicate StartsWith(s: string, word: string) {
    |word| <= |s| && forall i :: 0 <= i < |word| ==> LowerCase(s[i]) == word[i]
  }

  /** Whether a lower-case word occurs in s, letter case aside. */
  predicate Mentions(s: string, word: string) {
    exists i :: 0 <= i <= |s| && StartsWith(s[i..], word)
  }

  /** `ergastStatusOf`. */
  function StatusOf(row: Row): Status {
    var text := Else(Or(row.positionText, row.position), "");
    if IsNumeral(text) then FINISHED
    else if text == "D" || text == "E" then DSQ
    else if text == "W" then DNS
    else if Mentions(Else(row.status, ""), "did not start") || Mentions(Else(row.status, ""), "withdr") then DNS
    else DNF
  }

  function IntOrNone(value: Option<string>): Option<int> {
    if value.Some? && IsNumeral(value.value) then Some(Decimal.ParseDigits(value.value)) else None
  }

  function AsReal(value: Option<int>): Option<real> { if value.Some? then Some(value.value as real) else None }

  /** `entryFromRow`; an absent or empty code gives no entry. */
  function LineOfRow(row: Row, timeText: Option<string>): Option<Line> {
    if row.code.None? || row.code.value == "" then None
    else
      var status := StatusOf(row);
      Some(Line(row.code.value,
                if status.FINISHED? then AsReal(IntOrNone(Or(row.positionText, row.position))) else None,
                status,
                Else(IntOrNone(row.laps), 0) as real,
                row.points, timeText,
                if row.fastestLapRank == Some("1") then Some(true) else None,
                IntOrNone(row.grid)))
  }

  datatype Endpoint = Results | Qualifying | Sprint

  /** The display time: the finishing time of a race, the best segment of a qualifying. */
  function TimeOf(row: Row, endpoint: Endpoint): Option<string> {
    if endpoint.Qualifying? then Or(row.q3, Or(row.q2, row.q1)) else row.time
  }

  datatype Issue = MissingDriverCode(driverRef: string) | UnknownDriverCode(driverRef: string)

  function LinesOf(row: Row, endpoint: Endpoint, known: set<string>): Classification {
    var line := LineOfRow(row, TimeOf(row, endpoint));
    if line.Some? && line.value.driver in known then [line.value] else []
  }

  function IssuesOf(row: Row, endpoint: Endpoint, known: set<string>): seq<Issue> {
    var line := LineOfRow(row, TimeOf(row, endpoint));
    if line.None? then [MissingDriverCode(Else(row.driverId, "(unknown)"))]
    else if line.value.driver !in known then [UnknownDriverCode(line.value.driver)]
    else []
  }

  /** The lines of the rows with a known driver, in row order. */
  function Mapped(rows: seq<Row>, endpoint: Endpoint, known: set<string>): Classification {
    if rows == [] then [] else Mapped(rows[..|rows| - 1], endpoint, known) + LinesOf(rows[|rows| - 1], endpoint, known)
  }

  function Issues(rows: seq<Row>, endpoint: Endpoint, known: set<string>): seq<Issue> {
    if rows == [] then [] else Issues(rows[..|rows| - 1], endpoint, known) + IssuesOf(rows[|rows| - 1], endpoint, known)
  }

  /** `mapRows`. */
  method MapRows(rows: seq<Row>, endpoint: Endpoint, known: set<string>)
    returns (classification: Classification, issues: seq<Issue>)
    ensures classification == Mapped(rows, endpoint, known) && issues == Issues(rows, endpoint, known)
    ensures |classification| + |issues| == |rows|
  {
    classification, issues := [], [];
    hide LineOfRow, TimeOf;
    for i := 0 to |rows|
      invariant classification == Mapped(rows[..i], endpoint, known) && issues == Issues(rows[..i], endpoint, known)
      invariant |classification| + |issues| == i
    {
      assert rows[..i + 1][..i] == rows[..i];
      var line := LineOfRow(rows[i], TimeOf(rows[i], endpoint));
      if line.None? {
        issues := issues + [MissingDriverCode(Else(rows[i].driverId, "(unknown)"))];
        continue;
      }
      if line.value.driver !in known {
        issues := issues + [UnknownDriverCode(line.value.driver)];
        continue;
      }
      classification := classification + [line.value];
    }
    assert rows[..|rows|] == rows;
  }

  /** The time shown is the finishing time, or of a qualifying the latest segment that has one. */
  lemma TimeShown(row: Row, endpoint: Endpoint)
    ensures !endpoint.Qualifying? ==> TimeOf(row, endpoint) == row.time
    ensures endpoint.Qualifying? && row.q3.Some? ==> TimeOf(row, endpoint) == row.q3
    ensures endpoint.Qualifying? && row.q3.None? && row.q2.Some? ==> TimeOf(row, endpoint) == row.q2
    ensures endpoint.Qualifying? && row.q3.None? && row.q2.None? ==> TimeOf(row, endpoint) == row.q1
  {
  }

  /** A row without a line has an issue that says why: no code, or one nobody knows. */
  lemma IssueSaysWhy(row: Row, endpoint: Endpoint, known: set<string>)
    ensures LinesOf(row, endpoint, known) != [] <==> row.code.Some? && row.code.value != "" && row.code.value in known
    ensures LinesOf(row, endpoint, known) != [] ==> IssuesOf(row, endpoint, known) == []
    ensures LinesOf(row, endpoint, known) == [] ==>
              IssuesOf(row, endpoint, known) ==
              if row.code.Some? && row.code.value != "" then [UnknownDriverCode(row.code.value)]
              else [MissingDriverCode(if row.driverId.Some? then row.driverId.value else "(unknown)")]
  {
    hide StatusOf, IsNumeral;
  }

  /** A mapped line has a position exactly when it finished, and never fails the laps check. */
  lemma MappedLineShape(row: Row, timeText: Option<string>)
    requires LineOfRow(row, timeText).Some?
    ensures var line := LineOfRow(row, timeText).value;
            && (line.position.Some? <==> line.status.FINISHED?)
            && LapsOk(line)
            && (line.status.FINISHED? ==> IsInteger(line.position.value) && line.position.value >= 0.0)
  {
    WholeLaps(Else(IntOrNone(row.laps), 0));
    if StatusOf(row).FINISHED? { WholeLaps(IntOrNone(Or(row.positionText, row.position)).value); }
  }

  lemma WholeLaps(n: int)
    requires n >= 0
    ensures IsInteger(n as real) && n as real >= 0.0
  {
  }

  /** A text denotes a number when it is a numeral, and an absent text or any other none. */
  predicate Denotes(text: Option<string>, n: Option<int>) {
    if text.Some? && IsNumeral(text.value) then n == Some(Decimal.ParseDigits(text.value)) else n == None
  }

  /** The place a row gives its driver: the position text, else the position. */
  function PlaceOf(row: Row): string {
    if row.positionText.Some? then row.positionText.value else if row.position.Some? then row.position.value else ""
  }

  /** A row whose driver withdrew or did not start. */
  predicate NoStart(row: Row) {
    && !IsNumeral(PlaceOf(row)) && PlaceOf(row) != "D" && PlaceOf(row) != "E"
    && (PlaceOf(row) == "W"
        || (row.status.Some? && (Mentions(row.status.value, "did not start") || Mentions(row.status.value, "withdr"))))
  }

  /** Nothing but the empty word is mentioned in an empty text. */
  lemma NothingMentioned(word: string)
    requires word != ""
    ensures !Mentions("", word)
  {
  }

  /** Numerals finished, D and E were disqualified, withdrawn and non-starting drivers did not start. */
  lemma StatusOfPlace(row: Row)
    ensures StatusOf(row).FINISHED? <==> IsNumeral(PlaceOf(row))
    ensures StatusOf(row).DSQ? <==> PlaceOf(row) == "D" || PlaceOf(row) == "E"
    ensures StatusOf(row).DNS? <==> NoStart(row)
  {
    hide Mentions;
    NothingMentioned("did not start");
    NothingMentioned("withdr");
    assert !IsNumeral("D") && !IsNumeral("E") && !IsNumeral("W") by {
      assert !Decimal.IsDigit("D"[0]) && !Decimal.IsDigit("E"[0]) && !Decimal.IsDigit("W"[0]);
    }
  }

  /** Every other field of a mapped line comes from its own column. */
  lemma MappedLineFields(row: Row, timeText: Option<string>)
    ensures LineOfRow(row, timeText).None? <==> row.code.None? || row.code.value == ""
    ensures LineOfRow(row, timeText).Some? ==>
              var line := LineOfRow(row, timeText).value;
              && row.code == Some(line.driver) && line.points == row.points && line.timeText == timeText
              && Denotes(row.grid, line.grid)
              && (line.fastestLap == Some(true) <==> row.fastestLapRank == Some("1"))
              && (exists laps :: Denotes(row.laps, laps) && line.laps == (if laps.Some? then laps.value else 0) as real)
              && (line.status.FINISHED? ==> line.position == Some(Decimal.ParseDigits(PlaceOf(row)) as real))
  {
    hide Mentions;
    StatusOfPlace(row);
    assert Denotes(row.laps, IntOrNone(row.laps));
  }

  lemma {:induction false} MappedMember(rows: seq<Row>, endpoint: Endpoint, known: set<string>, line: Line)
    ensures line in Mapped(rows, endpoint, known)
            <==> exists i :: 0 <= i < |rows| && LinesOf(rows[i], endpoint, known) == [line]
  {
    hide LinesOf;
    if rows != [] {
      var n := |rows| - 1;
      MappedMember(rows[..n], endpoint, known, line);
      AtMostOneLine(rows[n], endpoint, known);
      if exists i :: 0 <= i < |rows| && LinesOf(rows[i], endpoint, known) == [line] {
        var i :| 0 <= i < |rows| && LinesOf(rows[i], endpoint, known) == [line];
        if i < n { assert LinesOf(rows[..n][i], endpoint, known) == [line]; }
      }
    }
  }

  lemma AtMostOneLine(row: Row, endpoint: Endpoint, known: set<string>)
    ensures |LinesOf(row, endpoint, known)| <= 1
  {
  }

  /** Row i is about a known driver of this code. */
  predicate RowAbout(rows: seq<Row>, i: int, known: set<string>, code: string) {
    0 <= i < |rows| && rows[i].code == Some(code) && code != "" && code in known
  }

  /** A row that says its driver finished at this position. */
  predicate Finish(row: Row, position: real) {
    IsNumeral(PlaceOf(row)) && position == Decimal.ParseDigits(PlaceOf(row)) as real
  }

  /** A line has the driver of a row, and the status and position the row says. */
  ghost predicate Tells(row: Row, line: Line) {
    && row.code == Some(line.driver)
    && (line.status.DNS? <==> NoStart(row))
    && (forall p :: line.status.FINISHED? && line.position == Some(p) <==> Finish(row, p))
  }

  lemma LineAbout(row: Row, endpoint: Endpoint, known: set<string>, code: string)
    requires row.code == Some(code) && code != "" && code in known
    ensures |LinesOf(row, endpoint, known)| == 1 && Tells(row, LinesOf(row, endpoint, known)[0])
  {
    hide StatusOf, NoStart, PlaceOf;
    StatusOfPlace(row);
    MappedLineFields(row, TimeOf(row, endpoint));
    MappedLineShape(row, TimeOf(row, endpoint));
  }

  lemma NoOtherLines(row: Row, endpoint: Endpoint, known: set<string>)
    requires |LinesOf(row, endpoint, known)| == 1
    ensures var code := LinesOf(row, endpoint, known)[0].driver; row.code == Some(code) && code != "" && code in known
  {
    hide StatusOf;
  }

  lemma RowOfLine(rows: seq<Row>, endpoint: Endpoint, known: set<string>, k: nat) returns (i: nat)
    requires k < |Mapped(rows, endpoint, known)|
    ensures i < |rows| && LinesOf(rows[i], endpoint, known) == [Mapped(rows, endpoint, known)[k]]
  {
    hide Mapped, LinesOf;
    MappedMember(rows, endpoint, known, Mapped(rows, endpoint, known)[k]);
    i :| 0 <= i < |rows| && LinesOf(rows[i], endpoint, known) == [Mapped(rows, endpoint, known)[k]];
  }

  lemma LineOfRowAt(rows: seq<Row>, endpoint: Endpoint, known: set<string>, i: nat) returns (k: nat)
    requires i < |rows| && |LinesOf(rows[i], endpoint, known)| == 1
    ensures k < |Mapped(rows, endpoint, known)|
    ensures Mapped(rows, endpoint, known)[k] == LinesOf(rows[i], endpoint, known)[0]
  {
    hide Mapped, LinesOf;
    var line := LinesOf(rows[i], endpoint, known)[0];
    MappedMember(rows, endpoint, known, line);
    k :| 0 <= k < |Mapped(rows, endpoint, known)| && Mapped(rows, endpoint, known)[k] == line;
  }

  /**
   * What upstream says of a driver is what bets on him are settled by: he is covered exactly when a row is
   * about him, refunded exactly when such a row says that he did not start, and finished where it says.
   */
  lemma RowsDecide(rows: seq<Row>, endpoint: Endpoint, known: set<string>, code: string)
    ensures var c := Mapped(rows, endpoint, known);
            && (HasDriver(c, code) <==> exists i :: RowAbout(rows, i, known, code))
            && (DidNotStart(c, code) <==> exists i :: RowAbout(rows, i, known, code) && NoStart(rows[i]))
            && (forall p :: FinishedAt(c, code, p)
                            <==> exists i :: RowAbout(rows, i, known, code) && Finish(rows[i], p))
  {
    hide *;
    LinesHaveRows(rows, endpoint, known, code);
    RowsHaveLines(rows, endpoint, known, code);
    RowsToLines(rows, known, code, Mapped(rows, endpoint, known));
  }

  lemma LinesHaveRows(rows: seq<Row>, endpoint: Endpoint, known: set<string>, code: string)
    ensures LinesTold(rows, known, code, Mapped(rows, endpoint, known))
  {
    hide Mapped, Tells;
    var c := Mapped(rows, endpoint, known);
    forall k | 0 <= k < |c| && c[k].driver == code ensures LineTold(rows, known, code, c[k]) {
      var i := RowBehind(rows, endpoint, known, k);
    }
  }

  lemma RowsHaveLines(rows: seq<Row>, endpoint: Endpoint, known: set<string>, code: string)
    ensures RowsTold(rows, known, code, Mapped(rows, endpoint, known))
  {
    hide Mapped, Tells;
    var c := Mapped(rows, endpoint, known);
    forall i | RowAbout(rows, i, known, code) ensures RowTold(rows[i], code, c) {
      var k := LineBehind(rows, endpoint, known, code, i);
    }
  }

  ghost predicate LineTold(rows: seq<Row>, known: set<string>, code: string, line: Line) {
    exists i :: RowAbout(rows, i, known, code) && Tells(rows[i], line)
  }

  ghost predicate RowTold(row: Row, code: string, c: Classification) {
    exists k :: 0 <= k < |c| && c[k].driver == code && Tells(row, c[k])
  }

  ghost predicate LinesTold(rows: seq<Row>, known: set<string>, code: string, c: Classification) {
    forall k :: 0 <= k < |c| && c[k].driver == code ==> LineTold(rows, known, code, c[k])
  }

  ghost predicate RowsTold(rows: seq<Row>, known: set<string>, code: string, c: Classification) {
    forall i :: RowAbout(rows, i, known, code) ==> RowTold(rows[i], code, c)
  }

  lemma RowBehind(rows: seq<Row>, endpoint: Endpoint, known: set<string>, k: nat) returns (i: nat)
    requires k < |Mapped(rows, endpoint, known)|
    ensures var line := Mapped(rows, endpoint, known)[k];
            RowAbout(rows, i, known, line.driver) && Tells(rows[i], line)
  {
    hide Mapped, LinesOf, Tells;
    i := RowOfLine(rows, endpoint, known, k);
    NoOtherLines(rows[i], endpoint, known);
    LineAbout(rows[i], endpoint, known, Mapped(rows, endpoint, known)[k].driver);
  }

  lemma LineBehind(rows: seq<Row>, endpoint: Endpoint, known: set<string>, code: string, i: nat) returns (k: nat)
    requires RowAbout(rows, i, known, code)
    ensures k < |Mapped(rows, endpoint, known)|
    ensures var line := Mapped(rows, endpoint, known)[k]; line.driver == code && Tells(rows[i], line)
  {
    hide Mapped, LinesOf, Tells;
    LineAbout(rows[i], endpoint, known, code);
    k := LineOfRowAt(rows, endpoint, known, i);
    SameDriver(rows[i], Mapped(rows, endpoint, known)[k], code);
  }

  lemma SameDriver(row: Row, line: Line, code: string)
    requires Tells(row, line) && row.code == Some(code)
    ensures line.driver == code
  {
  }

  lemma RowsToLines(rows: seq<Row>, known: set<string>, code: string, c: Classification)
    requires LinesTold(rows, known, code, c) && RowsTold(rows, known, code, c)
    ensures HasDriver(c, code) <==> exists i :: RowAbout(rows, i, known, code)
    ensures DidNotStart(c, code) <==> exists i :: RowAbout(rows, i, known, code) && NoStart(rows[i])
    ensures forall p :: FinishedAt(c, code, p) <==> exists i :: RowAbout(rows, i, known, code) && Finish(rows[i], p)
  {
    hide NoStart, Finish;
  }

  /** A bet is refunded exactly when upstream has rows about all drivers it names, and one says he did not start. */
  lemma RowsDecideRefunds(rows: seq<Row>, endpoint: Endpoint, known: set<string>, selection: Selection)
    requires Official(Mapped(rows, endpoint, known))
    ensures Resolve(selection, Mapped(rows, endpoint, known)) == Ok(LedgerModel.Cancel) <==>
              && (forall code :: code in DriversOf(selection) ==> exists i :: RowAbout(rows, i, known, code))
              && exists code, i :: code in DriversOf(selection) && RowAbout(rows, i, known, code) && NoStart(rows[i])
  {
    hide Mapped, Official, NoStart, Resolve, DriversOf, HasDriver, DidNotStart, FinishedAt, Finish;
    ErrorsAndRefunds(Mapped(rows, endpoint, known), selection);
    forall code
      ensures HasDriver(Mapped(rows, endpoint, known), code) <==> exists i :: RowAbout(rows, i, known, code)
      ensures DidNotStart(Mapped(rows, endpoint, known), code)
              <==> exists i :: RowAbout(rows, i, known, code) && NoStart(rows[i])
    {
      RowsDecide(rows, endpoint, known, code);
    }
  }

  /** Rows in another order map to the same lines in another order. */
  lemma {:induction false} MappedMultiset(rows: seq<Row>, endpoint: Endpoint, known: set<string>, row: Row)
    requires row in rows
    ensures multiset(Mapped(rows, endpoint, known))
         == multiset(Mapped(Without(rows, row), endpoint, known)) + multiset(LinesOf(row, endpoint, known))
  {
    hide Mapped, LinesOf;
    var front, last := rows[..|rows| - 1], rows[|rows| - 1];
    assert rows == front + [last];
    MappedAppend(front, last, endpoint, known);
    if last != row {
      MappedMultiset(front, endpoint, known, row);
      MappedAppend(Without(front, row), last, endpoint, known);
    }
  }

  lemma MappedAppend(rows: seq<Row>, row: Row, endpoint: Endpoint, known: set<string>)
    ensures multiset(Mapped(rows + [row], endpoint, known))
         == multiset(Mapped(rows, endpoint, known)) + multiset(LinesOf(row, endpoint, known))
  {
    assert (rows + [row])[..|rows|] == rows;
  }

  /** The rows less the last occurrence of one. */
  function Without(rows: seq<Row>, row: Row): (r: seq<Row>)
    requires row in rows
    ensures |r| == |rows| - 1 && multiset(r) == multiset(rows) - multiset{row}
  {
    var n := |rows| - 1;
    assert rows == rows[..n] + [rows[n]];
    if rows[n] == row then rows[..n] else Without(rows[..n], row) + [rows[n]]
  }

  lemma {:induction false} MappedInAnyOrder(rows: seq<Row>, rows': seq<Row>, endpoint: Endpoint, known: set<string>)
    requires multiset(rows) == multiset(rows')
    ensures multiset(Mapped(rows, endpoint, known)) == multiset(Mapped(rows', endpoint, known))
  {
    assert |multiset(rows)| == |rows| && |multiset(rows')| == |rows'|;
    if rows != [] {
      var n := |rows| - 1;
      var last := rows[n];
      assert rows == rows[..n] + [last];
      assert last in multiset(rows');
      MappedMultiset(rows', endpoint, known, last);
      assert multiset(rows[..n]) == multiset(Without(rows', last));
      MappedInAnyOrder(rows[..n], Without(rows', last), endpoint, known);
    }
  }

  // ---------------------------------------------------------------- equality in any order

  /** The order of driver codes: letter by letter, a prefix first. */
  predicate Before(a: string, b: string) {
    b != "" && (a == "" || a[0] < b[0] || (a[0] == b[0] && Before(a[1..], b[1..])))
  }

  lemma {:induction false} BeforeIsTotal(a: string, b: string)
    ensures a == b || Before(a, b) || Before(b, a)
    ensures !(Before(a, b) && Before(b, a)) && !Before(a, a)
  {
    if a != "" && b != "" {
      BeforeIsTotal(a[1..], b[1..]);
      assert a == [a[0]] + a[1..] && b == [b[0]] + b[1..];
    }
    if a != "" { BeforeIsTotal(a[1..], a[1..]); }
  }

  lemma {:induction false} BeforeIsTransitive(a: string, b: string, c: string)
    requires Before(a, b) && Before(b, c)
    ensures Before(a, c)
  {
    if a != "" && a[0] == b[0] == c[0] { BeforeIsTransitive(a[1..], b[1..], c[1..]); }
  }

  /** Insertion behind the lines with the same driver, as a stable sort keeps them. */
  function InsertLine(c: Classification, line: Line): (r: Classification)
    ensures multiset(r) == multiset(c) + multiset{line}
  {
    if c == [] then [line]
    else if Before(line.driver, c[|c| - 1].driver) then
      assert c == c[..|c| - 1] + [c[|c| - 1]];
      InsertLine(c[..|c| - 1], line) + [c[|c| - 1]]
    else c + [line]
  }

  /** `[...entries].sort(by driver code)`. */
  function ByDriver(c: Classification): (r: Classification)
    ensures multiset(r) == multiset(c)
  {
    if c == [] then []
    else
      assert c == c[..|c| - 1] + [c[|c| - 1]];
      InsertLine(ByDriver(c[..|c| - 1]), c[|c| - 1])
  }

  /** What `canonicalEntry` writes: an absent fastest lap reads as false. */
  function Canonical(line: Line): Line { line.(fastestLap := Some(line.fastestLap == Some(true))) }

  /** Two lines are the same as compared exactly when they differ in nothing but how no fastest lap is written. */
  lemma ComparedFields(x: Line, y: Line)
    ensures Canonical(x) == Canonical(y) <==>
            && x.driver == y.driver && x.position == y.position && x.status == y.status && x.laps == y.laps
            && x.points == y.points && x.timeText == y.timeText && x.grid == y.grid
            && (x.fastestLap == Some(true) <==> y.fastestLap == Some(true))
  {
  }

  function CanonicalAll(c: Classification): (r: Classification)
    ensures |r| == |c| && forall i :: 0 <= i < |c| ==> r[i] == Canonical(c[i])
  {
    if c == [] then [] else CanonicalAll(c[..|c| - 1]) + [Canonical(c[|c| - 1])]
  }

  /** `classificationsEqual`. */
  predicate ClassificationsEqual(a: Classification, b: Classification) {
    |a| == |b| && CanonicalAll(ByDriver(a)) == CanonicalAll(ByDriver(b))
  }

  predicate Ordered(c: Classification) { forall i, j :: 0 <= i < j < |c| ==> !Before(c[j].driver, c[i].driver) }

  predicate Strict(c: Classification) { forall i, j :: 0 <= i < j < |c| ==> Before(c[i].driver, c[j].driver) }

  lemma NotBeforeChain(a: string, b: string, c: string)
    requires !Before(b, a) && !Before(c, b)
    ensures !Before(c, a)
  {
    BeforeIsTotal(a, b);
    BeforeIsTotal(b, c);
    BeforeIsTotal(a, c);
    if Before(a, b) && Before(b, c) { BeforeIsTransitive(a, b, c); }
  }

  lemma {:induction false} InsertOrdered(c: Classification, line: Line)
    requires Ordered(c)
    ensures Ordered(InsertLine(c, line))
  {
    if c != [] {
      var n := |c| - 1;
      var r := InsertLine(c, line);
      if Before(line.driver, c[n].driver) {
        InsertOrdered(c[..n], line);
        var front := InsertLine(c[..n], line);
        BeforeIsTotal(line.driver, c[n].driver);
        forall i | 0 <= i < |front| ensures !Before(c[n].driver, front[i].driver) {
          assert front[i] in multiset(front);
          assert front[i] == line || front[i] in c[..n];
        }
      } else {
        forall i | 0 <= i < |c| ensures !Before(line.driver, c[i].driver) {
          if i < n { NotBeforeChain(c[i].driver, c[n].driver, line.driver); }
        }
      }
    }
  }

  lemma {:induction false} ByDriverOrdered(c: Classification)
    ensures Ordered(ByDriver(c))
  {
    if c != [] {
      ByDriverOrdered(c[..|c| - 1]);
      InsertOrdered(ByDriver(c[..|c| - 1]), c[|c| - 1]);
    }
  }

  /** Distinct drivers, told from the lines as a multiset: at most one line for each driver. */
  ghost predicate OneLineEach(m: multiset<Line>) {
    forall x, y :: x in m && y in m && x.driver == y.driver ==> x == y && m[x] == 1
  }

  lemma {:induction false} TwiceInSequence(c: Classification, i: nat, j: nat)
    requires i < j < |c| && c[i] == c[j]
    ensures multiset(c)[c[i]] >= 2
  {
    assert c == c[..j] + c[j..];
    assert c[..j][i] in multiset(c[..j]) && c[j..][0] in multiset(c[j..]);
  }

  lemma DistinctMeansOneLineEach(c: Classification)
    ensures DistinctDrivers(c) <==> OneLineEach(multiset(c))
  {
    if OneLineEach(multiset(c)) {
      forall i, j | 0 <= i < j < |c|
        ensures c[i].driver != c[j].driver
      {
        assert c[i] in multiset(c) && c[j] in multiset(c);
        if c[i].driver == c[j].driver { TwiceInSequence(c, i, j); }
      }
    }
    if DistinctDrivers(c) {
      forall x, y | x in multiset(c) && y in multiset(c) && x.driver == y.driver
        ensures x == y && multiset(c)[x] == 1
      {
        OccursOnce(c, x);
      }
    }
  }

  lemma {:induction false} OccursOnce(c: Classification, x: Line)
    requires DistinctDrivers(c) && x in c
    ensures multiset(c)[x] == 1
  {
    var n := |c| - 1;
    assert c == c[..n] + [c[n]];
    if x in c[..n] {
      OccursOnce(c[..n], x);
    }
  }

  /** In any order the same drivers stay distinct. */
  lemma DistinctInAnyOrder(a: Classification, b: Classification)
    requires multiset(a) == multiset(b) && DistinctDrivers(a)
    ensures DistinctDrivers(b)
  {
    DistinctMeansOneLineEach(a);
    DistinctMeansOneLineEach(b);
  }

  lemma OrderedIsStrict(c: Classification)
    requires Ordered(c) && DistinctDrivers(c)
    ensures Strict(c)
  {
    forall i, j | 0 <= i < j < |c| ensures Before(c[i].driver, c[j].driver) {
      BeforeIsTotal(c[i].driver, c[j].driver);
    }
  }

  lemma {:induction false} CanonicalCount(c: Classification, x: Line)
    requires x in c
    ensures multiset(CanonicalAll(c)) == multiset(CanonicalAll(Less(c, x))) + multiset{Canonical(x)}
  {
    var n := |c| - 1;
    if c[n] != x {
      assert x in c[..n] by { assert c == c[..n] + [c[n]]; }
      CanonicalCount(c[..n], x);
      assert Less(c, x)[..n - 1] == Less(c[..n], x);
      assert multiset(CanonicalAll(Less(c, x))) == multiset(CanonicalAll(Less(c[..n], x))) + multiset{Canonical(c[n])};
    }
  }

  /** The lines less the last occurrence of one. */
  function Less(c: Classification, x: Line): (r: Classification)
    requires x in c
    ensures |r| == |c| - 1 && multiset(r) == multiset(c) - multiset{x}
  {
    var n := |c| - 1;
    assert c == c[..n] + [c[n]];
    if c[n] == x then c[..n] else Less(c[..n], x) + [c[n]]
  }

  lemma {:induction false} CanonicalInAnyOrder(a: Classification, b: Classification)
    requires multiset(a) == multiset(b)
    ensures multiset(CanonicalAll(a)) == multiset(CanonicalAll(b))
  {
    assert |multiset(a)| == |a| && |multiset(b)| == |b|;
    if a != [] {
      var n := |a| - 1;
      assert a == a[..n] + [a[n]];
      assert a[n] in multiset(b);
      CanonicalCount(b, a[n]);
      assert multiset(a[..n]) == multiset(Less(b, a[n]));
      CanonicalInAnyOrder(a[..n], Less(b, a[n]));
    }
  }

  lemma StrictHead(a: Classification, b: Classification)
    requires Strict(a) && Strict(b) && multiset(a) == multiset(b) && a != []
    ensures b != [] && a[0] == b[0]
  {
    assert |multiset(a)| == |a| && |multiset(b)| == |b|;
    assert a[0] in multiset(b) && b[0] in multiset(a);
    var i :| 0 <= i < |b| && b[i] == a[0];
    var j :| 0 <= j < |a| && a[j] == b[0];
    BeforeIsTotal(a[0].driver, b[0].driver);
  }

  lemma TailLines(c: Classification)
    requires c != []
    ensures multiset(c[1..]) == multiset(c) - multiset{c[0]}
  {
    assert c == [c[0]] + c[1..];
  }

  /** Strictly ordered lines are determined by which lines they are. */
  lemma {:induction false} StrictUnique(a: Classification, b: Classification)
    requires Strict(a) && Strict(b) && multiset(a) == multiset(b)
    ensures a == b
  {
    assert |multiset(a)| == |a| && |multiset(b)| == |b|;
    if a != [] {
      StrictHead(a, b);
      TailLines(a);
      TailLines(b);
      assert Strict(a[1..]) && Strict(b[1..]);
      hide Strict;
      StrictUnique(a[1..], b[1..]);
      assert a == [a[0]] + a[1..] && b == [b[0]] + b[1..];
    }
  }

  lemma CanonicalDrivers(c: Classification)
    ensures DistinctDrivers(CanonicalAll(c)) <==> DistinctDrivers(c)
    ensures Ordered(CanonicalAll(c)) <==> Ordered(c)
  {
    assert forall i :: 0 <= i < |c| ==> CanonicalAll(c)[i].driver == c[i].driver;
  }

  lemma SortedCanonical(c: Classification)
    ensures Ordered(CanonicalAll(ByDriver(c)))
    ensures multiset(CanonicalAll(ByDriver(c))) == multiset(CanonicalAll(c))
  {
    ByDriverOrdered(c);
    CanonicalDrivers(ByDriver(c));
    CanonicalInAnyOrder(c, ByDriver(c));
  }

  /** For distinct drivers, equality is being the same lines in any order. */
  lemma EqualExactlyInAnyOrder(a: Classification, b: Classification)
    requires DistinctDrivers(a)
    ensures ClassificationsEqual(a, b) <==> multiset(CanonicalAll(a)) == multiset(CanonicalAll(b))
  {
    SortedCanonical(a);
    SortedCanonical(b);
    CanonicalDrivers(a);
    var l, r := CanonicalAll(ByDriver(a)), CanonicalAll(ByDriver(b));
    if multiset(CanonicalAll(a)) == multiset(CanonicalAll(b)) {
      SameLength(CanonicalAll(a), CanonicalAll(b));
      DistinctInAnyOrder(CanonicalAll(a), l);
      DistinctInAnyOrder(CanonicalAll(a), r);
      OrderedIsStrict(l);
      OrderedIsStrict(r);
      StrictUnique(l, r);
    }
  }

  lemma SameLength(a: Classification, b: Classification)
    requires multiset(a) == multiset(b)
    ensures |a| == |b|
  {
    assert |multiset(a)| == |a| && |multiset(b)| == |b|;
  }

  // ---------------------------------------------------------------- when order is ignored

  /** The lines of one driver, in their order. */
  function LinesFor(c: Classification, driver: string): Classification {
    if c == [] then []
    else
      var last := c[|c| - 1];
      LinesFor(c[..|c| - 1], driver) + (if last.driver == driver then [last] else [])
  }

  lemma LinesForAppend(c: Classification, line: Line, driver: string)
    ensures LinesFor(c + [line], driver) == LinesFor(c, driver) + (if line.driver == driver then [line] else [])
  {
    assert (c + [line])[..|c|] == c;
  }

  /** The sort puts a line behind the other lines of its driver. */
  lemma {:induction false} InsertBehind(c: Classification, line: Line, driver: string)
    ensures LinesFor(InsertLine(c, line), driver)
              == LinesFor(c, driver) + (if line.driver == driver then [line] else [])
  {
    hide LinesFor;
    if c == [] {
      LinesForAppend([], line, driver);
      assert [] + [line] == [line];
    } else {
      var front, last := c[..|c| - 1], c[|c| - 1];
      assert c == front + [last];
      LinesForAppend(front, last, driver);
      if Before(line.driver, last.driver) {
        BeforeIsTotal(line.driver, line.driver);
        InsertBehind(front, line, driver);
        LinesForAppend(InsertLine(front, line), last, driver);
      } else {
        LinesForAppend(c, line, driver);
      }
    }
  }

  /** The sort is stable: it keeps each driver's lines in their order. */
  lemma {:induction false} SortIsStable(c: Classification, driver: string)
    ensures LinesFor(ByDriver(c), driver) == LinesFor(c, driver)
  {
    if c != [] {
      SortIsStable(c[..|c| - 1], driver);
      InsertBehind(ByDriver(c[..|c| - 1]), c[|c| - 1], driver);
    }
  }

  lemma {:induction false} CanonicalLinesFor(c: Classification, driver: string)
    ensures LinesFor(CanonicalAll(c), driver) == CanonicalAll(LinesFor(c, driver))
  {
    if c != [] {
      var front, last := c[..|c| - 1], c[|c| - 1];
      CanonicalLinesFor(front, driver);
      assert CanonicalAll(c)[..|c| - 1] == CanonicalAll(front);
      if last.driver == driver { CanonicalAppend(LinesFor(front, driver), last); }
    }
  }

  lemma CanonicalAppend(c: Classification, line: Line)
    ensures CanonicalAll(c + [line]) == CanonicalAll(c) + [Canonical(line)]
  {
    assert (c + [line])[..|c|] == c;
  }

  /** Equal classifications have the same canonical lines for each driver, in the same order. */
  lemma EqualLinesFor(a: Classification, b: Classification, driver: string)
    requires CanonicalAll(ByDriver(a)) == CanonicalAll(ByDriver(b))
    ensures CanonicalAll(LinesFor(a, driver)) == CanonicalAll(LinesFor(b, driver))
  {
    hide CanonicalAll, LinesFor, ByDriver;
    SortIsStable(a, driver);
    SortIsStable(b, driver);
    CanonicalLinesFor(ByDriver(a), driver);
    CanonicalLinesFor(ByDriver(b), driver);
  }

  lemma {:induction false} FirstLineFor(x: Line, rest: Classification)
    ensures |LinesFor([x] + rest, x.driver)| > 0 && LinesFor([x] + rest, x.driver)[0] == x
  {
    if rest == [] {
      assert [x] + rest == [] + [x];
      LinesForAppend([], x, x.driver);
    } else {
      var front, last := rest[..|rest| - 1], rest[|rest| - 1];
      FirstLineFor(x, front);
      assert [x] + rest == ([x] + front) + [last];
      LinesForAppend([x] + front, last, x.driver);
    }
  }

  /** A classification with one of its lines moved to the front. */
  function Fronted(a: Classification, i: nat): (b: Classification)
    requires i < |a|
    ensures multiset(b) == multiset(a)
  {
    assert a == a[..i] + [a[i]] + a[i + 1..];
    [a[i]] + (a[..i] + a[i + 1..])
  }

  /** Lines of one driver are all the same, as far as they are compared. */
  predicate SameForDriver(a: Classification) {
    forall i, j :: 0 <= i < j < |a| && a[i].driver == a[j].driver ==> Canonical(a[i]) == Canonical(a[j])
  }

  ghost predicate IgnoresOrder(a: Classification) {
    forall b: Classification :: multiset(b) == multiset(a) ==> ClassificationsEqual(a, b)
  }

  /** If every order compares equal, two lines of a driver compare equal: put the one or the other first. */
  lemma OrderTellsLines(a: Classification, i: nat, j: nat)
    requires IgnoresOrder(a) && i < j < |a| && a[i].driver == a[j].driver
    ensures Canonical(a[i]) == Canonical(a[j])
  {
    var b, c, driver := Fronted(a, i), Fronted(a, j), a[i].driver;
    assert ClassificationsEqual(a, b) && ClassificationsEqual(a, c);
    hide ClassificationsEqual, LinesFor, ByDriver, CanonicalAll, Canonical;
    EqualOrders(a, b, c);
    HeadsTell(b, c, a[i], a[..i] + a[i + 1..], a[j], a[..j] + a[j + 1..]);
  }

  lemma EqualOrders(a: Classification, b: Classification, c: Classification)
    requires ClassificationsEqual(a, b) && ClassificationsEqual(a, c)
    ensures CanonicalAll(ByDriver(b)) == CanonicalAll(ByDriver(c))
  {
  }

  /** Classifications that compare equal start with the same line of a driver they start with. */
  lemma HeadsTell(b: Classification, c: Classification, x: Line, rest: Classification, y: Line, rest': Classification)
    requires b == [x] + rest && c == [y] + rest' && x.driver == y.driver
    requires CanonicalAll(ByDriver(b)) == CanonicalAll(ByDriver(c))
    ensures Canonical(x) == Canonical(y)
  {
    hide LinesFor, ByDriver, CanonicalAll, Canonical;
    EqualLinesFor(b, c, x.driver);
    FirstLineFor(x, rest);
    FirstLineFor(y, rest');
    CanonicalHead(LinesFor(b, x.driver));
    CanonicalHead(LinesFor(c, x.driver));
  }

  lemma OrderedTail(c: Classification)
    requires Ordered(c) && OneLineForDriver(multiset(c)) && c != []
    ensures Ordered(c[1..]) && OneLineForDriver(multiset(c[1..]))
    ensures multiset(c[1..]) == multiset(c) - multiset{c[0]}
  {
    TailLines(c);
    forall x: Line, y: Line | x in multiset(c[1..]) && y in multiset(c[1..]) && x.driver == y.driver
      ensures x == y
    {
      assert x in multiset(c) && y in multiset(c);
    }
  }

  /** Ordered lines of which those of one driver are the same are determined by which lines they are. */
  lemma {:induction false} OrderedUnique(a: Classification, b: Classification)
    requires Ordered(a) && Ordered(b) && multiset(a) == multiset(b) && OneLineForDriver(multiset(a))
    ensures a == b
  {
    hide Ordered, OneLineForDriver;
    SameLength(a, b);
    if a != [] {
      OrderedTails(a, b);
      OrderedUnique(a[1..], b[1..]);
      assert a == [a[0]] + a[1..] && b == [b[0]] + b[1..];
    }
  }

  lemma OrderedTails(a: Classification, b: Classification)
    requires Ordered(a) && Ordered(b) && multiset(a) == multiset(b) && OneLineForDriver(multiset(a)) && a != []
    ensures b != [] && a[0] == b[0] && Ordered(a[1..]) && Ordered(b[1..])
    ensures multiset(a[1..]) == multiset(b[1..]) && OneLineForDriver(multiset(a[1..]))
  {
    hide Ordered, OneLineForDriver;
    OrderedHead(a, b);
    OrderedTail(a);
    OrderedTail(b);
  }

  ghost predicate OneLineForDriver(m: multiset<Line>) {
    forall x, y :: x in m && y in m && x.driver == y.driver ==> x == y
  }

  lemma OrderedHead(a: Classification, b: Classification)
    requires Ordered(a) && Ordered(b) && multiset(a) == multiset(b) && OneLineForDriver(multiset(a)) && a != []
    ensures b != [] && a[0] == b[0]
  {
    SameLength(a, b);
    assert a[0] in multiset(b) && b[0] in multiset(a);
    var i :| 0 <= i < |b| && b[i] == a[0];
    var j :| 0 <= j < |a| && a[j] == b[0];
    BeforeIsTotal(a[0].driver, b[0].driver);
    assert a[0].driver == b[0].driver;
    assert a[0] in multiset(a);
  }

  lemma SameForDriverCanonical(a: Classification)
    requires SameForDriver(a)
    ensures OneLineForDriver(multiset(CanonicalAll(a)))
  {
    var c := CanonicalAll(a);
    assert |c| == |a| && forall i :: 0 <= i < |a| ==> c[i] == Canonical(a[i]) && c[i].driver == a[i].driver;
    hide CanonicalAll, Canonical;
    forall x: Line, y: Line | x in multiset(c) && y in multiset(c) && x.driver == y.driver
      ensures x == y
    {
      var i :| 0 <= i < |c| && c[i] == x;
      var j :| 0 <= j < |c| && c[j] == y;
      if i < j { assert a[i].driver == a[j].driver; } else if j < i { assert a[j].driver == a[i].driver; }
    }
  }

  lemma SameForDriverIgnoresOrder(a: Classification, b: Classification)
    requires SameForDriver(a) && multiset(b) == multiset(a)
    ensures ClassificationsEqual(a, b)
  {
    SameLength(a, b);
    SortedCanonical(a);
    SortedCanonical(b);
    CanonicalInAnyOrder(a, b);
    SameForDriverCanonical(a);
    OrderedUnique(CanonicalAll(ByDriver(a)), CanonicalAll(ByDriver(b)));
  }

  /**
   * The comparison ignores the order of a classification's lines exactly when lines of the same driver,
   * if there are any, are the same as far as they are compared.
   */
  lemma OrderIgnoredExactly(a: Classification)
    ensures IgnoresOrder(a) <==> SameForDriver(a)
  {
    hide ClassificationsEqual;
    if IgnoresOrder(a) {
      forall i, j | 0 <= i < j < |a| && a[i].driver == a[j].driver
        ensures Canonical(a[i]) == Canonical(a[j])
      {
        OrderTellsLines(a, i, j);
      }
    }
    if SameForDriver(a) {
      forall b: Classification | multiset(b) == multiset(a)
        ensures ClassificationsEqual(a, b)
      {
        SameForDriverIgnoresOrder(a, b);
      }
    }
  }

  /** Two different lines of a driver, in the other order, are taken for another classification. */
  lemma DuplicateDriversBreakEquality(x: Line, y: Line)
    requires x.driver == y.driver && Canonical(x) != Canonical(y)
    ensures multiset([x, y]) == multiset([y, x]) && !ClassificationsEqual([x, y], [y, x])
  {
    hide LinesFor, ByDriver, CanonicalAll, Canonical;
    assert [x, y] == [x] + [y] && [y, x] == [y] + [x];
    if ClassificationsEqual([x, y], [y, x]) { HeadsTell([x, y], [y, x], x, [y], y, [x]); }
  }

  lemma CanonicalHead(c: Classification)
    requires c != []
    ensures CanonicalAll(c) != [] && CanonicalAll(c)[0] == Canonical(c[0])
  {
  }

  // ---------------------------------------------------------------- the plan

  datatype SessionState = Upcoming | Locked | Finished | Cancelled

  datatype Plan =
    | Import(classification: Classification)
    | SkipUnchanged
    | NotStarted
    | SessionCancelled
    | NoSourceData
    | Rejected(reason: Reason)

  /** `planSessionImport`. */
  function PlanSessionImport(startsAt: int, state: SessionState, now: int, source: Option<Classification>,
                             existing: Option<Classification>): Plan {
    if startsAt > now then NotStarted
    else if state.Cancelled? then SessionCancelled
    else if source.None? || source.value == [] then NoSourceData
    else
      match Judge(source.value)
      case Invalid(reason) => Rejected(reason)
      case Valid =>
        if existing.Some? && ClassificationsEqual(existing.value, source.value) then SkipUnchanged
            else Import(source.value)
  }

  /** Being official does not depend on the order of the lines. */
  lemma OfficialInAnyOrder(a: Classification, b: Classification)
    requires Official(a) && multiset(a) == multiset(b)
    ensures Official(b)
  {
    SameLength(a, b);
    DistinctInAnyOrder(a, b);
    PositionsInAnyOrder(a, b);
    SamePositionCount(a, b);
    hide DistinctDrivers, PositionOk, LapsOk, Positions;
    forall i | 0 <= i < |b| ensures PositionOk(b[i]) && LapsOk(b[i]) {
      assert b[i] in multiset(a);
      var j :| 0 <= j < |a| && a[j] == b[i];
    }
  }

  lemma SamePositionCount(a: Classification, b: Classification)
    requires multiset(Positions(a)) == multiset(Positions(b))
    ensures |Positions(a)| == |Positions(b)|
  {
    assert |multiset(Positions(a))| == |Positions(a)| && |multiset(Positions(b))| == |Positions(b)|;
  }

  lemma {:induction false} PositionsCount(c: Classification, x: Line)
    requires x in c
    ensures multiset(Positions(c)) == multiset(Positions(Less(c, x))) + multiset(PositionOf(x))
  {
    var n := |c| - 1;
    if c[n] != x {
      assert x in c[..n] by { assert c == c[..n] + [c[n]]; }
      PositionsCount(c[..n], x);
      assert Less(c, x)[..n - 1] == Less(c[..n], x);
    }
  }

  lemma {:induction false} PositionsInAnyOrder(a: Classification, b: Classification)
    requires multiset(a) == multiset(b)
    ensures multiset(Positions(a)) == multiset(Positions(b))
  {
    SameLength(a, b);
    if a != [] {
      var n := |a| - 1;
      assert a == a[..n] + [a[n]];
      assert a[n] in multiset(b);
      PositionsCount(b, a[n]);
      assert multiset(a[..n]) == multiset(Less(b, a[n]));
      PositionsInAnyOrder(a[..n], Less(b, a[n]));
    }
  }
}
