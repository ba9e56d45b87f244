/**
 * Official F1 classifications: which are accepted, and how a selection resolves against one
 * (packages/domain/src/f1/results.ts).
 */
module F1Results {
  import opened Common
  import opened LedgerModel

  datatype Status = FINISHED | DNF | DNS | DSQ

  /** Numbers are exact, and may be whole or not: the validation asks. */
  datatype Line = Line(driver: string, position: Option<real>, status: Status, laps: real,
                       points: Option<real>, timeText: Option<string>, fastestLap: Option<bool>, grid: Option<int>)

  type Classification = seq<Line>

  predicate IsInteger(x: real) { x.Floor as real == x }

  // ---------------------------------------------------------------- validation

  datatype Reason =
    | Empty
    | DuplicateDriver(code: string)
    | InvalidPosition(code: string)
    | InvalidLaps(code: string)
    | PositionGap

  predicate HasDriver(c: Classification, code: string) { exists i :: 0 <= i < |c| && c[i].driver == code }

  predicate PositionOk(line: Line) {
    line.status.FINISHED? ==> line.position.Some? && IsInteger(line.position.value) && line.position.value >= 1.0
  }

  predicate LapsOk(line: Line) { IsInteger(line.laps) && line.laps >= 0.0 }

  /** What the loop finds wrong with a line, given the lines before it. */
  function LineFault(before: Classification, line: Line): Option<Reason> {
    if HasDriver(before, line.driver) then Some(DuplicateDriver(line.driver))
    else if !PositionOk(line) then Some(InvalidPosition(line.driver))
    else if !LapsOk(line) then Some(InvalidLaps(line.driver))
    else None
  }

  /** The first fault among the lines from the front, in loop order. */
  function FirstFault(c: Classification): Option<Reason> {
    if c == [] then None
    else
      var front := c[..|c| - 1];
      var fault := FirstFault(front);
      if fault.Some? then fault else LineFault(front, c[|c| - 1])
  }

  function PositionOf(line: Line): seq<real> {
    if line.status.FINISHED? && line.position.Some? then [line.position.value] else []
  }

  /** The positions of the finishers, in the order of the lines. */
  function Positions(c: Classification): seq<real> {
    if c == [] then [] else Positions(c[..|c| - 1]) + PositionOf(c[|c| - 1])
  }

  function Insert(s: seq<real>, x: real): (r: seq<real>)
    ensures multiset(r) == multiset(s) + multiset{x}
  {
    if s == [] then [x]
    else if x <= s[0] then [x] + s
    else
      var r := [s[0]] + Insert(s[1..], x);
      assert s == [s[0]] + s[1..];
      r
  }

  /** `sort((a, b) => a - b)`: the ascending rearrangement. */
  function Sorted(s: seq<real>): (r: seq<real>)
    ensures multiset(r) == multiset(s)
  {
    if s == [] then []
    else
      assert s == s[..|s| - 1] + [s[|s| - 1]];
      Insert(Sorted(s[..|s| - 1]), s[|s| - 1])
  }

  predicate Ascending(s: seq<real>) { forall i, j :: 0 <= i < j < |s| ==> s[i] <= s[j] }

  predicate NoGap(s: seq<real>) { forall i :: 0 <= i < |s| ==> s[i] == (i + 1) as real }

  datatype Validation = Valid | Invalid(reason: Reason)

  /** What `validateF1Classification` answers. */
  function Judge(c: Classification): Validation {
    if c == [] then Invalid(Empty)
    else if FirstFault(c).Some? then Invalid(FirstFault(c).value)
    else if NoGap(Sorted(Positions(c))) then Valid
    else Invalid(PositionGap)
  }

  /** `validateF1Classification` as it runs: a set of codes, a list of positions, a sort and a gap check. */
  method ValidateF1Classification(c: Classification) returns (v: Validation)
    ensures v == Judge(c)
  {
    hide FirstFault, Positions, HasDriver, Sorted, IsInteger;
    if |c| == 0 { return Invalid(Empty); }
    var codes: set<string>, positions: seq<real> := {}, [];
    NoLines();
    assert c[..0] == [];
    for i := 0 to |c|
      invariant FirstFault(c[..i]) == None
      invariant forall code :: code in codes <==> HasDriver(c[..i], code)
      invariant positions == Positions(c[..i])
    {
      var line := c[i];
      NextLine(c, i);
      if line.driver in codes { return Invalid(DuplicateDriver(line.driver)); }
      codes := codes + {line.driver};
      if line.status.FINISHED? {
        if line.position.None? || !IsInteger(line.position.value) || line.position.value < 1.0 {
          return Invalid(InvalidPosition(line.driver));
        }
        positions := positions + [line.position.value];
      }
      if !IsInteger(line.laps) || line.laps < 0.0 { return Invalid(InvalidLaps(line.driver)); }
    }
    assert c[..|c|] == c;
    positions := Sorted(positions);
    for index := 0 to |positions|
      invariant forall i :: 0 <= i < index ==> positions[i] == (i + 1) as real
    {
      if positions[index] != (index + 1) as real { return Invalid(PositionGap); }
    }
    return Valid;
  }

  lemma NoLines()
    ensures FirstFault([]) == None && Positions([]) == [] && forall code :: !HasDriver([], code)
  {
  }

  /** What reading one more line does to the set, the list and the verdict. */
  lemma NextLine(c: Classification, i: nat)
    requires i < |c| && FirstFault(c[..i]) == None
    ensures forall code :: HasDriver(c[..i + 1], code) <==> HasDriver(c[..i], code) || code == c[i].driver
    ensures Positions(c[..i + 1]) == Positions(c[..i]) + PositionOf(c[i])
    ensures FirstFault(c[..i + 1]) == LineFault(c[..i], c[i])
    ensures LineFault(c[..i], c[i]).Some? ==> FirstFault(c) == LineFault(c[..i], c[i])
  {
    assert c[..i + 1][..i] == c[..i];
    FaultSpreads(c, i + 1);
    hide FirstFault, LineFault, Positions;
    DriversGrow(c, i);
  }

  lemma DriversGrow(c: Classification, i: nat)
    requires i < |c|
    ensures forall code :: HasDriver(c[..i + 1], code) <==> HasDriver(c[..i], code) || code == c[i].driver
  {
    assert c[..i + 1] == c[..i] + [c[i]];
    forall code | HasDriver(c[..i], code) ensures HasDriver(c[..i + 1], code) {
      var j :| 0 <= j < i && c[..i][j].driver == code;
      assert c[..i + 1][j].driver == code;
    }
    assert c[..i + 1][i].driver == c[i].driver;
  }

  /** A fault in a prefix is the fault of the whole. */
  lemma {:induction false} FaultSpreads(c: Classification, n: nat)
    requires n <= |c|
    ensures FirstFault(c[..n]).Some? ==> FirstFault(c) == FirstFault(c[..n])
    decreases |c| - n
  {
    if n < |c| {
      assert c[..n + 1][..n] == c[..n];
      FaultSpreads(c, n + 1);
    } else {
      assert c[..n] == c;
    }
  }

  // ---------------------------------------------------------------- what validation means

  function UpTo(n: nat): (s: seq<real>)
    ensures |s| == n && NoGap(s)
  {
    if n == 0 then [] else UpTo(n - 1) + [n as real]
  }

  ghost predicate DistinctDrivers(c: Classification) {
    forall i, j :: 0 <= i < j < |c| ==> c[i].driver != c[j].driver
  }

  /** A classification a session can be settled on. */
  ghost predicate Official(c: Classification) {
    && c != [] && DistinctDrivers(c)
    && (forall i :: 0 <= i < |c| ==> PositionOk(c[i]) && LapsOk(c[i]))
    && multiset(Positions(c)) == multiset(UpTo(|Positions(c)|))
  }

  lemma {:induction false} InsertAscending(s: seq<real>, x: real)
    requires Ascending(s)
    ensures Ascending(Insert(s, x))
  {
    if s != [] && x > s[0] {
      InsertAscending(s[1..], x);
      var rest := Insert(s[1..], x);
      forall i | 0 <= i < |rest| ensures s[0] <= rest[i] {
        assert rest[i] in multiset(rest);
        assert rest[i] == x || rest[i] in s[1..];
      }
    }
  }

  lemma {:induction false} SortedAscending(s: seq<real>)
    ensures Ascending(Sorted(s))
  {
    if s != [] {
      SortedAscending(s[..|s| - 1]);
      InsertAscending(Sorted(s[..|s| - 1]), s[|s| - 1]);
    }
  }

  lemma HeadIsLeast(s: seq<real>, x: real)
    requires Ascending(s) && x in multiset(s)
    ensures |s| > 0 && s[0] <= x
  {
  }

  lemma TailElements(s: seq<real>)
    requires s != []
    ensures multiset(s[1..]) == multiset(s) - multiset{s[0]} && s[0] in multiset(s)
  {
    assert s == [s[0]] + s[1..];
  }

  lemma SameHead(s: seq<real>, r: seq<real>)
    requires Ascending(s) && Ascending(r) && multiset(s) == multiset(r) && s != []
    ensures r != [] && s[0] == r[0]
  {
    TailElements(s);
    HeadIsLeast(r, s[0]);
    TailElements(r);
    HeadIsLeast(s, r[0]);
  }

  lemma SameSize(s: seq<real>, r: seq<real>)
    requires multiset(s) == multiset(r)
    ensures |s| == |r|
  {
    assert |s| == |multiset(s)| && |r| == |multiset(r)|;
  }

  lemma TailsMatch(s: seq<real>, r: seq<real>)
    requires Ascending(s) && Ascending(r) && multiset(s) == multiset(r) && s != []
    ensures r != [] && s[0] == r[0] && multiset(s[1..]) == multiset(r[1..])
    ensures Ascending(s[1..]) && Ascending(r[1..])
  {
    SameHead(s, r);
    TailElements(s);
    TailElements(r);
  }

  /** Two ascending sequences of the same elements are the same. */
  lemma {:induction false} AscendingUnique(s: seq<real>, r: seq<real>)
    requires Ascending(s) && Ascending(r) && multiset(s) == multiset(r)
    ensures s == r
  {
    hide Ascending;
    SameSize(s, r);
    if s != [] {
      TailsMatch(s, r);
      AscendingUnique(s[1..], r[1..]);
      assert s == [s[0]] + s[1..] && r == [r[0]] + r[1..];
    }
  }

  lemma GapCheckIsPermutation(ps: seq<real>)
    ensures NoGap(Sorted(ps)) <==> multiset(ps) == multiset(UpTo(|ps|))
  {
    SortedAscending(ps);
    assert |multiset(ps)| == |ps| && |multiset(Sorted(ps))| == |Sorted(ps)|;
    if NoGap(Sorted(ps)) {
      assert Sorted(ps) == UpTo(|ps|);
    }
    if multiset(ps) == multiset(UpTo(|ps|)) {
      AscendingUnique(Sorted(ps), UpTo(|ps|));
    }
  }

  /** Lines without a fault of their own, of distinct drivers. */
  ghost predicate Faultless(c: Classification) {
    DistinctDrivers(c) && forall i :: 0 <= i < |c| ==> PositionOk(c[i]) && LapsOk(c[i])
  }

  lemma {:induction false} NoFaultMeans(c: Classification)
    ensures FirstFault(c) == None <==> Faultless(c)
  {
    if c != [] {
      var n := |c| - 1;
      var front := c[..n];
      NoFaultMeans(front);
      assert c == front + [c[n]];
      if DistinctDrivers(c) {
        assert !HasDriver(front, c[n].driver);
      }
      if FirstFault(c) == None {
        forall i | 0 <= i < n ensures c[i].driver != c[n].driver { assert front[i].driver == c[i].driver; }
      }
    }
  }

  /** Accepted exactly when drivers are distinct, numbers whole, and the finishers' positions a permutation of 1..n. */
  lemma AcceptedExactlyWhenOfficial(c: Classification)
    ensures Judge(c).Valid? <==> Official(c)
  {
    NoFaultMeans(c);
    GapCheckIsPermutation(Positions(c));
  }

  /** Official, in so many words: distinct drivers, whole laps, and whole positions that are a permutation of 1..n. */
  lemma AcceptedInSoManyWords(c: Classification)
    ensures Judge(c).Valid? <==>
              && c != [] && (forall i, j :: 0 <= i < j < |c| ==> c[i].driver != c[j].driver)
              && (forall i :: 0 <= i < |c| ==>
                    && c[i].laps.Floor as real == c[i].laps && c[i].laps >= 0.0
                    && (c[i].status.FINISHED? ==>
                          c[i].position.Some? && c[i].position.value.Floor as real == c[i].position.value
                          && c[i].position.value >= 1.0))
              && multiset(Positions(c)) == multiset(UpTo(|Positions(c)|))
  {
    AcceptedExactlyWhenOfficial(c);
    hide Judge, Positions, UpTo;
  }

  /** What a reason for refusal says, and that it is the first thing wrong. */
  ghost predicate ReasonHolds(c: Classification, reason: Reason) {
    match reason
    case Empty => c == []
    case DuplicateDriver(code) =>
      exists j, i :: 0 <= j < i < |c| && Faultless(c[..i]) && c[j].driver == code && c[i].driver == code
    case InvalidPosition(code) =>
      exists i :: 0 <= i < |c| && Faultless(c[..i]) && c[i].driver == code && c[i].status.FINISHED?
                  && (c[i].position.Some? ==> c[i].position.value.Floor as real != c[i].position.value
                                              || c[i].position.value < 1.0)
    case InvalidLaps(code) =>
      exists i :: 0 <= i < |c| && Faultless(c[..i]) && c[i].driver == code && PositionOk(c[i])
                  && (c[i].laps.Floor as real != c[i].laps || c[i].laps < 0.0)
    case PositionGap => c != [] && Faultless(c) && multiset(Positions(c)) != multiset(UpTo(|Positions(c)|))
  }

  lemma {:induction false} FirstFaultHolds(c: Classification)
    requires FirstFault(c).Some?
    ensures ReasonHolds(c, FirstFault(c).value)
  {
    hide Positions, UpTo, PositionOk, LapsOk, IsInteger, Faultless;
    var n := |c| - 1;
    var front := c[..n];
    if FirstFault(front).Some? {
      FirstFaultHolds(front);
      FaultKinds(front);
      FaultInFront(c, n, FirstFault(front).value);
    } else {
      NoFaultMeans(front);
      NewFault(c, n);
    }
  }

  lemma NewFault(c: Classification, n: nat)
    requires n < |c| && Faultless(c[..n]) && LineFault(c[..n], c[n]).Some?
    ensures ReasonHolds(c, LineFault(c[..n], c[n]).value)
  {
    hide Faultless, Positions, UpTo;
    if HasDriver(c[..n], c[n].driver) {
      var j :| 0 <= j < n && c[..n][j].driver == c[n].driver;
      assert c[j].driver == c[n].driver;
    }
  }

  lemma FaultInFront(c: Classification, n: nat, reason: Reason)
    requires n <= |c| && ReasonHolds(c[..n], reason) && !reason.Empty? && !reason.PositionGap?
    ensures ReasonHolds(c, reason)
  {
    hide Faultless, PositionOk, IsInteger, Positions, UpTo;
    match reason
    case DuplicateDriver(code) =>
      var j, i :| 0 <= j < i < n && Faultless(c[..n][..i]) && c[..n][j].driver == code && c[..n][i].driver == code;
      assert c[..n][..i] == c[..i] && c[j].driver == code && c[i].driver == code;
    case InvalidPosition(code) =>
      var i :| 0 <= i < n && Faultless(c[..n][..i]) && c[..n][i].driver == code && c[..n][i].status.FINISHED?
        && (c[..n][i].position.Some? ==> c[..n][i].position.value.Floor as real != c[..n][i].position.value
                                         || c[..n][i].position.value < 1.0);
      assert c[..n][..i] == c[..i] && c[..n][i] == c[i];
    case InvalidLaps(code) =>
      var i :| 0 <= i < n && Faultless(c[..n][..i]) && c[..n][i].driver == code && PositionOk(c[..n][i])
        && (c[..n][i].laps.Floor as real != c[..n][i].laps || c[..n][i].laps < 0.0);
      assert c[..n][..i] == c[..i] && c[..n][i] == c[i];
  }

  lemma {:induction false} FaultKinds(c: Classification)
    requires FirstFault(c).Some?
    ensures !FirstFault(c).value.Empty? && !FirstFault(c).value.PositionGap?
  {
    if FirstFault(c[..|c| - 1]).Some? { FaultKinds(c[..|c| - 1]); }
  }

  /** A refusal's reason is true of the classification, and nothing is wrong before the line it speaks of. */
  lemma RefusalsAreTrue(c: Classification)
    requires Judge(c).Invalid?
    ensures ReasonHolds(c, Judge(c).reason)
  {
    hide ReasonHolds, FirstFault;
    if c == [] {
      EmptyIsEmpty();
    } else if FirstFault(c).Some? {
      FirstFaultHolds(c);
    } else {
      GapHolds(c);
    }
  }

  lemma EmptyIsEmpty()
    ensures ReasonHolds([], Empty)
  {
  }

  lemma GapHolds(c: Classification)
    requires c != [] && FirstFault(c).None? && !NoGap(Sorted(Positions(c)))
    ensures ReasonHolds(c, PositionGap)
  {
    NoFaultMeans(c);
    GapCheckIsPermutation(Positions(c));
  }

  // ---------------------------------------------------------------- resolving a selection

  datatype Selection =
    | Pole(driver: string)
    | Winner(driver: string)
    | Podium(driver: string, onPodium: bool)
    | ExactPodium(first: string, second: string, third: string)
    | HeadToHead(driver: string, opponent: string)

  datatype ResultError = UnknownDriver | InvalidClassification

  /** `entryFor`: the first line of a driver. */
  function EntryFor(c: Classification, code: string): (line: Option<Line>)
    ensures line.Some? ==> line.value in c && line.value.driver == code
    ensures line.None? <==> !HasDriver(c, code)
  {
    if c == [] then None else if c[0].driver == code then Some(c[0])
    else
      assert HasDriver(c, code) <==> HasDriver(c[1..], code) by { DriverInTail(c, code); }
      EntryFor(c[1..], code)
  }

  lemma DriverInTail(c: Classification, code: string)
    requires c != [] && c[0].driver != code
    ensures HasDriver(c, code) <==> HasDriver(c[1..], code)
  {
    if HasDriver(c, code) {
      var i :| 0 <= i < |c| && c[i].driver == code;
      assert c[1..][i - 1].driver == code;
    }
  }

  function ClassifiedPosition(line: Line): Option<real> {
    if line.status.FINISHED? then line.position else None
  }

  function WinIf(won: bool): Outcome { if won then Win else Loss }

  /** `resolveHeadToHead`. */
  function ResolveHeadToHead(a: Line, b: Line): Outcome {
    var positionA, positionB := ClassifiedPosition(a), ClassifiedPosition(b);
    if positionA.Some? && positionB.Some? then WinIf(positionA.value < positionB.value)
    else if positionA.Some? then Win
    else if positionB.Some? then Loss
    else if a.laps != b.laps then WinIf(a.laps > b.laps)
    else Push
  }

  function At(line: Line, position: int): bool { ClassifiedPosition(line) == Some(position as real) }

  function OnPodium(line: Line): bool {
    var position := ClassifiedPosition(line);
    position.Some? && position.value <= 3.0
  }

  /** `resolveF1Selection`: a driver who did not start cancels, an unlisted one is an error. */
  function Resolve(selection: Selection, c: Classification): Result<Outcome, ResultError> {
    match selection
    case Pole(driver) => ResolveFirst(EntryFor(c, driver))
    case Winner(driver) => ResolveFirst(EntryFor(c, driver))
    case Podium(driver, onPodium) =>
      var line := EntryFor(c, driver);
      if line.None? then Err(UnknownDriver)
      else if line.value.status.DNS? then Ok(Cancel)
      else Ok(WinIf(OnPodium(line.value) == onPodium))
    case ExactPodium(a, b, d) =>
      var first, second, third := EntryFor(c, a), EntryFor(c, b), EntryFor(c, d);
      if first.None? || second.None? || third.None? then Err(UnknownDriver)
      else if first.value.status.DNS? || second.value.status.DNS? || third.value.status.DNS? then Ok(Cancel)
      else Ok(WinIf(At(first.value, 1) && At(second.value, 2) && At(third.value, 3)))
    case HeadToHead(a, b) =>
      var driver, opponent := EntryFor(c, a), EntryFor(c, b);
      if driver.None? || opponent.None? then Err(UnknownDriver)
      else if driver.value.status.DNS? || opponent.value.status.DNS? then Ok(Cancel)
      else Ok(ResolveHeadToHead(driver.value, opponent.value))
  }

  function ResolveFirst(line: Option<Line>): Result<Outcome, ResultError> {
    if line.None? then Err(UnknownDriver) else if line.value.status.DNS? then Ok(Cancel)
        else Ok(WinIf(At(line.value, 1)))
  }

  // ---------------------------------------------------------------- who stands where

  lemma {:induction false} PositionsMember(c: Classification, x: real)
    ensures x in Positions(c) <==> exists i :: 0 <= i < |c| && PositionOf(c[i]) == [x]
  {
    if c != [] {
      var n := |c| - 1;
      PositionsMember(c[..n], x);
      assert c == c[..n] + [c[n]];
      if exists i :: 0 <= i < |c| && PositionOf(c[i]) == [x] {
        var i :| 0 <= i < |c| && PositionOf(c[i]) == [x];
        if i < n { assert PositionOf(c[..n][i]) == [x]; }
      }
    }
  }

  lemma OneMoreCount(ps: seq<real>, last: seq<real>, x: real)
    requires |last| <= 1
    ensures multiset(ps + last)[x] == multiset(ps)[x] + (if last == [x] then 1 else 0)
  {
    assert multiset(ps + last) == multiset(ps) + multiset(last);
  }

  lemma {:induction false} PositionsTwice(c: Classification, i: nat, j: nat, x: real)
    requires i < j < |c| && PositionOf(c[i]) == [x] && PositionOf(c[j]) == [x]
    ensures multiset(Positions(c))[x] >= 2
  {
    var n := |c| - 1;
    OneMoreCount(Positions(c[..n]), PositionOf(c[n]), x);
    assert Positions(c) == Positions(c[..n]) + PositionOf(c[n]);
    hide Positions, PositionOf;
    if j < n {
      PositionsTwice(c[..n], i, j, x);
    } else {
      assert PositionOf(c[..n][i]) == [x];
      PositionsMember(c[..n], x);
      assert multiset(Positions(c[..n]))[x] >= 1;
    }
  }

  lemma NextWhole(n: nat, x: real)
    requires n > 0
    ensures IsInteger(x) ==> (x <= n as real <==> x <= (n - 1) as real || x == n as real)
  {
    if IsInteger(x) {
      var f := x.Floor;
      assert x == f as real;
      if f < n { WholeOrder(f, n - 1); } else { WholeOrder(n, f); }
      WholeOrder(n - 1, n);
    }
  }

  lemma WholeOrder(a: int, b: int)
    requires a <= b
    ensures a as real <= b as real
  {
  }

  lemma {:induction false} UpToOnce(n: nat, x: real)
    ensures multiset(UpTo(n))[x] == if IsInteger(x) && 1.0 <= x <= n as real then 1 else 0
  {
    if n > 0 {
      UpToOnce(n - 1, x);
      OneMoreCount(UpTo(n - 1), [n as real], x);
      WholePosition(n);
      NextWhole(n, x);
      hide IsInteger;
    }
  }

  ghost predicate Holds(c: Classification, i: int, position: int) {
    0 <= i < |c| && PositionOf(c[i]) == [position as real]
  }

  lemma WholePosition(k: int)
    ensures IsInteger(k as real)
  {
  }

  /** Each position from 1 to the number of finishers is held by exactly one line. */
  lemma OneHolder(c: Classification, k: int) returns (i: int)
    requires Official(c) && 1 <= k <= |Positions(c)|
    ensures Holds(c, i, k) && forall j :: Holds(c, j, k) ==> j == i
  {
    UpToOnce(|Positions(c)|, k as real);
    WholePosition(k);
    assert multiset(Positions(c))[k as real] == 1;
    assert k as real in multiset(Positions(c));
    PositionsMember(c, k as real);
    i :| 0 <= i < |c| && PositionOf(c[i]) == [k as real];
    forall j | Holds(c, j, k) ensures j == i {
      if i < j { PositionsTwice(c, i, j, k as real); }
      if j < i { PositionsTwice(c, j, i, k as real); }
    }
  }

  lemma NoHolderBeyond(c: Classification, i: int, k: int)
    requires Official(c) && Holds(c, i, k)
    ensures 1 <= k <= |Positions(c)|
  {
    PositionsMember(c, k as real);
    assert k as real in multiset(Positions(c));
    UpToOnce(|Positions(c)|, k as real);
  }

  lemma {:induction false} EntryIsLine(c: Classification, i: nat)
    requires DistinctDrivers(c) && i < |c|
    ensures EntryFor(c, c[i].driver) == Some(c[i])
  {
    if i > 0 {
      assert c[0].driver != c[i].driver;
      assert c[1..][i - 1] == c[i];
      EntryIsLine(c[1..], i - 1);
    }
  }

  lemma AtMeansHolds(c: Classification, code: string, k: int)
    requires EntryFor(c, code).Some? && At(EntryFor(c, code).value, k)
    ensures exists i :: Holds(c, i, k) && c[i].driver == code
  {
    var i :| 0 <= i < |c| && c[i] == EntryFor(c, code).value;
    assert Holds(c, i, k);
  }

  lemma HolderIsAt(c: Classification, i: int, k: int)
    requires DistinctDrivers(c) && Holds(c, i, k)
    ensures EntryFor(c, c[i].driver) == Some(c[i]) && At(c[i], k) && !c[i].status.DNS?
  {
    EntryIsLine(c, i);
  }

  lemma HoldersDiffer(c: Classification, i: int, j: int, k: int, l: int)
    requires DistinctDrivers(c) && Holds(c, i, k) && Holds(c, j, l) && k != l
    ensures c[i].driver != c[j].driver
  {
    assert k as real != l as real;
  }

  lemma TheHolder(c: Classification, code: string, i: int, k: int)
    requires Holds(c, i, k) && (forall j :: Holds(c, j, k) ==> j == i)
    requires EntryFor(c, code).Some? && At(EntryFor(c, code).value, k)
    ensures code == c[i].driver
  {
    AtMeansHolds(c, code, k);
  }

  /** On an official classification with at least three finishers exactly one ordered triple wins. */
  lemma OneExactPodium(c: Classification) returns (a: string, b: string, d: string)
    requires Official(c) && |Positions(c)| >= 3
    ensures Resolve(ExactPodium(a, b, d), c) == Ok(Win)
    ensures forall x, y, z :: Resolve(ExactPodium(x, y, z), c) == Ok(Win) ==> x == a && y == b && z == d
    ensures a != b && b != d && a != d
  {
    hide Positions, HasDriver, PositionOf, At, Holds, EntryFor, DistinctDrivers;
    var i := OneHolder(c, 1);
    var j := OneHolder(c, 2);
    var k := OneHolder(c, 3);
    HoldersInRange(c, i, j, k);
    a, b, d := c[i].driver, c[j].driver, c[k].driver;
    HolderIsAt(c, i, 1);
    HolderIsAt(c, j, 2);
    HolderIsAt(c, k, 3);
    HoldersDiffer(c, i, j, 1, 2);
    HoldersDiffer(c, j, k, 2, 3);
    HoldersDiffer(c, i, k, 1, 3);
    hide Official;
    forall x, y, z | Resolve(ExactPodium(x, y, z), c) == Ok(Win)
      ensures x == a && y == b && z == d
    {
      TheHolder(c, x, i, 1);
      TheHolder(c, y, j, 2);
      TheHolder(c, z, k, 3);
    }
  }

  lemma HoldersInRange(c: Classification, i: int, j: int, k: int)
    requires Holds(c, i, 1) && Holds(c, j, 2) && Holds(c, k, 3)
    ensures 0 <= i < |c| && 0 <= j < |c| && 0 <= k < |c|
  {
  }

  /** With fewer than three finishers none wins. */
  lemma NoExactPodium(c: Classification, x: string, y: string, z: string)
    requires Official(c) && |Positions(c)| < 3
    ensures Resolve(ExactPodium(x, y, z), c) != Ok(Win)
  {
    if Resolve(ExactPodium(x, y, z), c) == Ok(Win) {
      AtMeansHolds(c, z, 3);
      var i :| Holds(c, i, 3) && c[i].driver == z;
      NoHolderBeyond(c, i, 3);
    }
  }

  // ---------------------------------------------------------------- head to head

  predicate Started(c: Classification, code: string) {
    EntryFor(c, code).Some? && !EntryFor(c, code).value.status.DNS?
  }

  /** Finishers before the rest; among finishers by position, among the rest by laps. */
  predicate Ahead(a: Line, b: Line) {
    if a.status.FINISHED? && b.status.FINISHED?
    then a.position.Some? && b.position.Some? && a.position.value < b.position.value
    else if a.status.FINISHED? then true
    else if b.status.FINISHED? then false
    else a.laps > b.laps
  }

  lemma LineOf(c: Classification, code: string) returns (i: nat)
    requires EntryFor(c, code).Some?
    ensures i < |c| && c[i] == EntryFor(c, code).value && c[i].driver == code
  {
    i :| 0 <= i < |c| && c[i] == EntryFor(c, code).value;
  }

  /** On an official classification no two drivers share a position. */
  lemma PositionsDiffer(c: Classification, x: string, y: string)
    requires Official(c) && Started(c, x) && Started(c, y) && x != y
    requires ClassifiedPosition(EntryFor(c, x).value).Some? && ClassifiedPosition(EntryFor(c, y).value).Some?
    ensures ClassifiedPosition(EntryFor(c, x).value) != ClassifiedPosition(EntryFor(c, y).value)
  {
    hide EntryFor, Positions, DistinctDrivers;
    var i := LineOf(c, x);
    var j := LineOf(c, y);
    var p := c[i].position.value;
    if c[j].position.value == p {
      if i < j { PositionsTwice(c, i, j, p); } else { PositionsTwice(c, j, i, p); }
      UpToOnce(|Positions(c)|, p);
    }
  }

  /** For two drivers who started, the three outcomes are being ahead, being behind and neither. */
  lemma HeadToHeadIsByRank(c: Classification, x: string, y: string)
    requires Official(c) && Started(c, x) && Started(c, y) && x != y
    ensures var a, b := EntryFor(c, x).value, EntryFor(c, y).value;
            && (Resolve(HeadToHead(x, y), c) == Ok(Win) <==> Ahead(a, b))
            && (Resolve(HeadToHead(x, y), c) == Ok(Loss) <==> Ahead(b, a))
            && (Resolve(HeadToHead(x, y), c) == Ok(Push) <==> !Ahead(a, b) && !Ahead(b, a))
  {
    hide EntryFor, Official;
    var a, b := EntryFor(c, x).value, EntryFor(c, y).value;
    FinisherHasPosition(c, x);
    FinisherHasPosition(c, y);
    if ClassifiedPosition(a).Some? && ClassifiedPosition(b).Some? { PositionsDiffer(c, x, y); }
  }

  lemma FinisherHasPosition(c: Classification, code: string)
    requires Official(c) && EntryFor(c, code).Some?
    ensures EntryFor(c, code).value.status.FINISHED? ==> EntryFor(c, code).value.position.Some?
  {
    hide EntryFor, Positions, DistinctDrivers;
    var i := LineOf(c, code);
    assert PositionOk(c[i]);
  }

  /**
   * Head to head over the drivers who started is a strict weak order: WIN is the converse of LOSS
   * and transitive, and PUSH is symmetric, transitive and compatible with it.
   */
  lemma HeadToHeadIsAnOrder(c: Classification, x: string, y: string, z: string)
    requires Official(c) && Started(c, x) && Started(c, y) && Started(c, z) && x != y && y != z && x != z
    ensures Resolve(HeadToHead(x, y), c) in {Ok(Win), Ok(Loss), Ok(Push)}
    ensures Resolve(HeadToHead(x, y), c) == Ok(Win) <==> Resolve(HeadToHead(y, x), c) == Ok(Loss)
    ensures Resolve(HeadToHead(x, y), c) == Ok(Push) <==> Resolve(HeadToHead(y, x), c) == Ok(Push)
    ensures var xy, yz, xz := Resolve(HeadToHead(x, y), c), Resolve(HeadToHead(y, z), c), Resolve(HeadToHead(x, z), c);
            && (xy == Ok(Win) && yz in {Ok(Win), Ok(Push)} ==> xz == Ok(Win))
            && (xy == Ok(Push) && yz == Ok(Win) ==> xz == Ok(Win))
            && (xy == Ok(Push) && yz == Ok(Push) ==> xz == Ok(Push))
  {
    hide EntryFor, Official, Started, Resolve;
    HeadToHeadIsByRank(c, x, y);
    HeadToHeadIsByRank(c, y, x);
    HeadToHeadIsByRank(c, y, z);
    HeadToHeadIsByRank(c, x, z);
    StartersHaveLines(c, x, y, z);
    FinisherHasPosition(c, x);
    FinisherHasPosition(c, y);
    FinisherHasPosition(c, z);
  }

  lemma StartersHaveLines(c: Classification, x: string, y: string, z: string)
    requires Started(c, x) && Started(c, y) && Started(c, z)
    ensures EntryFor(c, x).Some? && EntryFor(c, y).Some? && EntryFor(c, z).Some?
  {
  }

  // ---------------------------------------------------------------- every selection's answer

  /** The drivers a selection names. */
  function DriversOf(selection: Selection): set<string> {
    match selection
    case Pole(driver) => {driver}
    case Winner(driver) => {driver}
    case Podium(driver, _) => {driver}
    case ExactPodium(a, b, d) => {a, b, d}
    case HeadToHead(a, b) => {a, b}
  }

  /** Some line says that the driver did not start. */
  predicate DidNotStart(c: Classification, code: string) {
    exists i :: 0 <= i < |c| && c[i].driver == code && c[i].status.DNS?
  }

  /** Some line says that the driver finished, no worse than this position. */
  predicate FinishedWithin(c: Classification, code: string, position: real) {
    exists i :: 0 <= i < |c| && c[i].driver == code && c[i].status.FINISHED?
                && c[i].position.Some? && c[i].position.value <= position
  }

  /** Some line says that the driver finished at this position. */
  predicate FinishedAt(c: Classification, code: string, position: real) {
    exists i :: 0 <= i < |c| && c[i].driver == code && c[i].status.FINISHED? && c[i].position == Some(position)
  }

  /** On an official classification what a line says of a driver is what the line found for him says. */
  lemma TheLineSays(c: Classification, code: string)
    requires Official(c)
    ensures EntryFor(c, code).Some? ==>
              var line := EntryFor(c, code).value;
              && (DidNotStart(c, code) <==> line.status.DNS?)
              && (forall k :: FinishedAt(c, code, k) <==> line.status.FINISHED? && line.position == Some(k))
              && (forall k :: FinishedWithin(c, code, k)
                              <==> line.status.FINISHED? && line.position.Some? && line.position.value <= k)
    ensures EntryFor(c, code).None? ==> !DidNotStart(c, code)
  {
    hide EntryFor, Positions, PositionOk, LapsOk;
    if EntryFor(c, code).Some? {
      var i := LineOf(c, code);
      forall j | 0 <= j < |c| && c[j].driver == code ensures j == i { }
    }
  }

  /**
   * The answer is an error exactly when a driver the selection names has no line, and else a refund
   * exactly when one of them did not start.
   */
  lemma ErrorsAndRefunds(c: Classification, selection: Selection)
    requires Official(c)
    ensures Resolve(selection, c).Err? <==> exists code :: code in DriversOf(selection) && !HasDriver(c, code)
    ensures Resolve(selection, c) == Ok(Cancel)
            <==> (forall code :: code in DriversOf(selection) ==> HasDriver(c, code))
                 && (exists code :: code in DriversOf(selection) && DidNotStart(c, code))
  {
    hide EntryFor, Official, HasDriver, DidNotStart, FinishedAt, FinishedWithin, ClassifiedPosition;
    forall code ensures EntryFor(c, code).None? <==> !HasDriver(c, code) { LinesOfDrivers(c, code); }
    forall code | code in DriversOf(selection)
      ensures HasDriver(c, code) ==> (DidNotStart(c, code) <==> EntryFor(c, code).value.status.DNS?)
    {
      TheLineSays(c, code);
    }
    match selection
    case Pole(a) => assert a in DriversOf(selection);
    case Winner(a) => assert a in DriversOf(selection);
    case Podium(a, _) => assert a in DriversOf(selection);
    case ExactPodium(a, b, d) =>
      assert a in DriversOf(selection) && b in DriversOf(selection) && d in DriversOf(selection);
    case HeadToHead(a, b) => assert a in DriversOf(selection) && b in DriversOf(selection);
  }

  lemma LinesOfDrivers(c: Classification, code: string)
    ensures EntryFor(c, code).None? <==> !HasDriver(c, code)
  {
  }

  /** For drivers who started, the places decide: the first for POLE and WINNER, the first three for PODIUM. */
  lemma PlacesDecide(c: Classification, a: string, b: string, d: string, onPodium: bool)
    requires Official(c) && Started(c, a)
    ensures Resolve(Winner(a), c) == Resolve(Pole(a), c) == Ok(if FinishedAt(c, a, 1.0) then Win else Loss)
    ensures Resolve(Podium(a, onPodium), c) == Ok(if FinishedWithin(c, a, 3.0) == onPodium then Win else Loss)
    ensures Started(c, b) && Started(c, d) ==>
              Resolve(ExactPodium(a, b, d), c)
                == Ok(if FinishedAt(c, a, 1.0) && FinishedAt(c, b, 2.0) && FinishedAt(c, d, 3.0) then Win else Loss)
  {
    hide EntryFor, Official, FinishedAt, FinishedWithin, DidNotStart;
    TheLineSays(c, a);
    TheLineSays(c, b);
    TheLineSays(c, d);
  }

  // ---------------------------------------------------------------- the markets agree

  lemma NextHolders(c: Classification, code: string, k: int)
    requires EntryFor(c, code).Some? && At(EntryFor(c, code).value, k)
    ensures Started(c, code) && ClassifiedPosition(EntryFor(c, code).value) == Some(k as real)
  {
  }

  /**
   * The winning podium triple wins every other market its drivers are in, and its last beats everyone
   * else who started.
   */
  lemma ExactPodiumWinsEverywhere(c: Classification, a: string, b: string, d: string, e: string)
    requires Official(c) && Resolve(ExactPodium(a, b, d), c) == Ok(Win)
    ensures Resolve(Winner(a), c) == Ok(Win) && Resolve(Pole(a), c) == Ok(Win)
    ensures forall x :: x in {a, b, d} ==>
              Resolve(Podium(x, true), c) == Ok(Win) && Resolve(Podium(x, false), c) == Ok(Loss)
    ensures Resolve(HeadToHead(a, b), c) == Ok(Win) && Resolve(HeadToHead(b, d), c) == Ok(Win)
    ensures Started(c, e) && e !in {a, b, d} ==>
              Resolve(HeadToHead(d, e), c) == Ok(Win) && Resolve(Podium(e, true), c) == Ok(Loss)
                  && Resolve(Winner(e), c) == Ok(Loss)
  {
    hide EntryFor, Official;
    NextHolders(c, a, 1);
    NextHolders(c, b, 2);
    NextHolders(c, d, 3);
    if Started(c, e) && e !in {a, b, d} && ClassifiedPosition(EntryFor(c, e).value).Some? {
      PositionsDiffer(c, a, e);
      PositionsDiffer(c, b, e);
      PositionsDiffer(c, d, e);
      PositionIsWhole(c, e);
    }
  }

  lemma PositionIsWhole(c: Classification, code: string)
    requires Official(c) && EntryFor(c, code).Some? && ClassifiedPosition(EntryFor(c, code).value).Some?
    ensures var p := ClassifiedPosition(EntryFor(c, code).value).value; p == 1.0 || p == 2.0 || p == 3.0 || p > 3.0
  {
    hide EntryFor, Positions;
    var i := LineOf(c, code);
    assert PositionOk(c[i]);
    WholeNumbers(c[i].position.value);
  }

  lemma WholeNumbers(x: real)
    requires IsInteger(x) && x >= 1.0
    ensures x == 1.0 || x == 2.0 || x == 3.0 || x > 3.0
  {
    var f := x.Floor;
    assert x == f as real && f >= 1;
  }
}
