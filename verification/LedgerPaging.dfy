/**
 * A member's ledger, newest first, page by page (packages/db/src/operations/repository.ts,
 * `ledger`): balances are derived backwards from the account row, and cursors follow the entries.
 */
module LedgerPaging {
  import opened Common
  import opened LedgerModel
  import opened LedgerInvariant
  import LM = LedgerMachine

  /** The order of the list: creation time, then id. */
  datatype Key = Key(at: int, id: nat)

  predicate Less(a: Key, b: Key) { a.at < b.at || (a.at == b.at && a.id < b.id) }

  datatype Row = Row(key: Key, delta: Points)

  const LEDGER_PAGE_SIZE: nat := 200

  /** The cursor of page one: later than any entry can be. */
  const LEDGER_CURSOR_START := Key(253_402_300_799_999, 0xffff_ffff_ffff_ffff_ffff_ffff_ffff_ffff)

  function Minus(a: Points,
                 b: Points): Points { Points(a.available - b.available, a.frozen - b.frozen, a.debt - b.debt) }

  // ---------------------------------------------------------------- what the queries select

  /** The rows older than a cursor, those up to an entry, or all of them. */
  datatype Cut = All | Below(key: Key) | UpTo(key: Key) | From(key: Key)

  predicate In(row: Row, cut: Cut) {
    match cut
    case All => true
    case Below(k) => Less(row.key, k)
    case UpTo(k) => !Less(k, row.key)
    case From(k) => !Less(row.key, k)
  }

  function Select(rows: seq<Row>, cut: Cut): seq<Row> {
    if rows == [] then []
    else if In(rows[0], cut) then [rows[0]] + Select(rows[1..], cut)
    else Select(rows[1..], cut)
  }

  /** Sum of the deltas of the selected rows. */
  function Sum(rows: seq<Row>, cut: Cut): Points {
    if rows == [] then ZERO
    else if In(rows[0], cut) then Sum(rows[1..], cut).Plus(rows[0].delta)
    else Sum(rows[1..], cut)
  }

  function Insert(rows: seq<Row>, row: Row): seq<Row> {
    if rows == [] || Less(rows[0].key, row.key) then [row] + rows else [rows[0]] + Insert(rows[1..], row)
  }

  /** ORDER BY created_at DESC, id DESC. */
  function Newest(rows: seq<Row>): seq<Row> {
    if rows == [] then [] else Insert(Newest(rows[1..]), rows[0])
  }

  function Take(rows: seq<Row>, n: nat): seq<Row> { if |rows| <= n then rows else rows[..n] }

  // ---------------------------------------------------------------- the call

  datatype PageRow = PageRow(row: Row, after: Points)

  datatype Page = Page(entries: seq<PageRow>, nextCursor: Option<Key>)

  /** The window: what stood after each row, from the balance the page opens on. */
  function Running(opening: Points, rows: seq<Row>): (r: seq<PageRow>)
    ensures |r| == |rows|
    decreases |rows|
  {
    if rows == [] then [] else [PageRow(rows[0], opening)] + Running(Minus(opening, rows[0].delta), rows[1..])
  }

  /** `ledger` over one snapshot of an account and its entries. */
  function LedgerPage(account: Points, rows: seq<Row>, cursor: Option<Key>): Page {
    var shown := if cursor.Some? then Sum(rows, From(cursor.value)) else ZERO;
    var start := if cursor.Some? then cursor.value else LEDGER_CURSOR_START;
    var window := Take(Newest(Select(rows, Below(start))), LEDGER_PAGE_SIZE + 1);
    var running := Running(Minus(account, shown), window);
    var page := if |running| > LEDGER_PAGE_SIZE then running[..LEDGER_PAGE_SIZE] else running;
    Page(page, if |running| > LEDGER_PAGE_SIZE then Some(page[LEDGER_PAGE_SIZE - 1].row.key) else None)
  }

  /** Everything a reader sees from a cursor on, following each page's cursor to the end. */
  function ReadFrom(account: Points, rows: seq<Row>, cursor: Option<Key>, fuel: nat): seq<PageRow>
    decreases fuel
  {
    var page := LedgerPage(account, rows, cursor);
    page.entries + (if page.nextCursor.Some? && fuel > 0 then ReadFrom(account, rows, page.nextCursor, fuel - 1)
                    else [])
  }

  // ---------------------------------------------------------------- what it is meant to show

  predicate DistinctKeys(rows: seq<Row>) { forall i, j :: 0 <= i < j < |rows| ==> rows[i].key != rows[j].key }

  predicate Descending(rows: seq<Row>) { forall i, j :: 0 <= i < j < |rows| ==> Less(rows[j].key, rows[i].key) }

  /** The balance standing after an entry: the prefix sum from the account's first entry. */
  function StandingAfter(rows: seq<Row>, row: Row): PageRow { PageRow(row, Sum(rows, UpTo(row.key))) }

  function Standing(rows: seq<Row>, shown: seq<Row>): (r: seq<PageRow>)
    ensures |r| == |shown| && forall i :: 0 <= i < |shown| ==> r[i] == StandingAfter(rows, shown[i])
  {
    if shown == [] then [] else [StandingAfter(rows, shown[0])] + Standing(rows, shown[1..])
  }

  // ---------------------------------------------------------------- sorting and selecting

  /** Every row is older than a key. */
  predicate AllBelow(rows: seq<Row>, k: Key) { forall i :: 0 <= i < |rows| ==> Less(rows[i].key, k) }

  predicate NoneAt(rows: seq<Row>, k: Key) { forall i :: 0 <= i < |rows| ==> rows[i].key != k }

  lemma LessTransitive(a: Key, b: Key, c: Key)
    requires Less(a, b) && Less(b, c)
    ensures Less(a, c)
  {
  }

  lemma DescendingCons(rows: seq<Row>, row: Row)
    requires Descending(rows) && AllBelow(rows, row.key)
    ensures Descending([row] + rows)
  {
  }

  lemma DescendingTail(rows: seq<Row>)
    requires Descending(rows) && rows != []
    ensures Descending(rows[1..]) && AllBelow(rows[1..], rows[0].key)
  {
  }

  lemma {:induction false} InsertBelow(rows: seq<Row>, row: Row, k: Key)
    requires AllBelow(rows, k) && Less(row.key, k)
    ensures AllBelow(Insert(rows, row), k)
  {
    if rows != [] && !Less(rows[0].key, row.key) {
      InsertBelow(rows[1..], row, k);
    }
  }

  lemma {:induction false} InsertDescending(rows: seq<Row>, row: Row)
    requires Descending(rows) && NoneAt(rows, row.key)
    ensures Descending(Insert(rows, row))
  {
    if rows == [] {
    } else {
      DescendingTail(rows);
      if Less(rows[0].key, row.key) {
        forall i | 0 <= i < |rows| ensures Less(rows[i].key, row.key) {
          if i > 0 { LessTransitive(rows[i].key, rows[0].key, row.key); }
        }
        DescendingCons(rows, row);
      } else {
        InsertDescending(rows[1..], row);
        InsertBelow(rows[1..], row, rows[0].key);
        DescendingCons(Insert(rows[1..], row), rows[0]);
      }
    }
  }

  lemma {:induction false} InsertNoneAt(rows: seq<Row>, row: Row, k: Key)
    requires NoneAt(rows, k) && row.key != k
    ensures NoneAt(Insert(rows, row), k)
  {
    if rows != [] && !Less(rows[0].key, row.key) {
      InsertNoneAt(rows[1..], row, k);
    }
  }

  lemma {:induction false} NewestNoneAt(rows: seq<Row>, k: Key)
    requires NoneAt(rows, k)
    ensures NoneAt(Newest(rows), k)
  {
    if rows != [] {
      NewestNoneAt(rows[1..], k);
      InsertNoneAt(Newest(rows[1..]), rows[0], k);
    }
  }

  lemma {:induction false} NewestDescending(rows: seq<Row>)
    requires DistinctKeys(rows)
    ensures Descending(Newest(rows))
  {
    if rows != [] {
      NewestDescending(rows[1..]);
      NewestNoneAt(rows[1..], rows[0].key);
      InsertDescending(Newest(rows[1..]), rows[0]);
    }
  }

  lemma SelectCons(rows: seq<Row>, row: Row, cut: Cut)
    ensures Select([row] + rows, cut) == if In(row, cut) then [row] + Select(rows, cut) else Select(rows, cut)
  {
    assert ([row] + rows)[1..] == rows;
  }

  lemma {:induction false} SelectBelow(rows: seq<Row>, cut: Cut, k: Key)
    requires AllBelow(rows, k)
    ensures AllBelow(Select(rows, cut), k)
  {
    if rows != [] { SelectBelow(rows[1..], cut, k); }
  }

  lemma InsertNewest(rows: seq<Row>, row: Row)
    requires AllBelow(rows, row.key)
    ensures Insert(rows, row) == [row] + rows
  {
  }

  lemma {:induction false} SelectInsert(rows: seq<Row>, row: Row, cut: Cut)
    requires Descending(rows)
    ensures Select(Insert(rows, row), cut) == if In(row, cut) then Insert(Select(rows, cut), row) else Select(rows, cut)
  {
    if rows == [] {
      SelectCons([], row, cut);
    } else {
      DescendingTail(rows);
      var head, tail := rows[0], rows[1..];
      assert rows == [head] + tail;
      if Less(head.key, row.key) {
        AllBelowHead(tail, head.key, row.key);
        SelectCons(rows, row, cut);
        SelectBelow(rows, cut, row.key);
        InsertNewest(Select(rows, cut), row);
      } else {
        SelectInsert(tail, row, cut);
        SelectCons(Insert(tail, row), head, cut);
        SelectCons(tail, head, cut);
        InsertPast(Select(tail, cut), head, row);
      }
    }
  }

  lemma AllBelowHead(tail: seq<Row>, head: Key, k: Key)
    requires AllBelow(tail, head) && Less(head, k)
    ensures AllBelow(tail, k)
  {
  }

  lemma InsertPast(rows: seq<Row>, head: Row, row: Row)
    requires !Less(head.key, row.key)
    ensures Insert([head] + rows, row) == [head] + Insert(rows, row)
  {
    assert ([head] + rows)[1..] == rows;
  }

  /** Sorting what is selected is selecting from what is sorted. */
  lemma {:induction false} SelectNewest(rows: seq<Row>, cut: Cut)
    requires DistinctKeys(rows)
    ensures Select(Newest(rows), cut) == Newest(Select(rows, cut))
  {
    if rows != [] {
      hide Select, Insert;
      assert DistinctKeys(rows[1..]);
      SelectNewest(rows[1..], cut);
      NewestDescending(rows[1..]);
      SelectInsert(Newest(rows[1..]), rows[0], cut);
      assert rows == [rows[0]] + rows[1..];
      SelectCons(rows[1..], rows[0], cut);
      if In(rows[0], cut) { NewestCons(Select(rows[1..], cut), rows[0]); }
    }
  }

  lemma NewestCons(rows: seq<Row>, row: Row)
    ensures Newest([row] + rows) == Insert(Newest(rows), row)
  {
    assert ([row] + rows)[1..] == rows;
  }

  lemma {:induction false} SumInsert(rows: seq<Row>, row: Row, cut: Cut)
    ensures Sum(Insert(rows, row), cut) == if In(row, cut) then Sum(rows, cut).Plus(row.delta) else Sum(rows, cut)
  {
    if rows == [] || Less(rows[0].key, row.key) {
      assert ([row] + rows)[1..] == rows;
    } else {
      SumInsert(rows[1..], row, cut);
      assert ([rows[0]] + Insert(rows[1..], row))[1..] == Insert(rows[1..], row);
    }
  }

  lemma {:induction false} SumNewest(rows: seq<Row>, cut: Cut)
    ensures Sum(Newest(rows), cut) == Sum(rows, cut)
  {
    if rows != [] {
      SumNewest(rows[1..], cut);
      SumInsert(Newest(rows[1..]), rows[0], cut);
    }
  }

  /** What is not older than a cursor, and what is, make up everything. */
  lemma {:induction false} SumSplits(rows: seq<Row>, k: Key)
    ensures Minus(Sum(rows, All), Sum(rows, From(k))) == Sum(rows, Below(k))
  {
    if rows != [] { SumSplits(rows[1..], k); }
  }

  // ---------------------------------------------------------------- pages are slices of the sorted list

  /** How many rows of a descending list are not older than a key. */
  function Offset(rows: seq<Row>, k: Key): (n: nat)
    ensures n <= |rows|
  {
    if rows == [] || Less(rows[0].key, k) then 0 else 1 + Offset(rows[1..], k)
  }

  lemma {:induction false} SelectAllBelow(rows: seq<Row>, k: Key)
    requires AllBelow(rows, k)
    ensures Select(rows, Below(k)) == rows && Offset(rows, k) == 0
  {
    if rows != [] { SelectAllBelow(rows[1..], k); }
  }

  /** The rows older than a key are the rest of the list from its offset on. */
  lemma {:induction false} OlderIsTheRest(rows: seq<Row>, k: Key)
    requires Descending(rows)
    ensures Select(rows, Below(k)) == rows[Offset(rows, k)..]
    ensures Sum(rows, Below(k)) == Sum(rows[Offset(rows, k)..], All)
  {
    if rows != [] {
      DescendingTail(rows);
      OlderIsTheRest(rows[1..], k);
      if Less(rows[0].key, k) {
        AllBelowHead(rows[1..], rows[0].key, k);
        SelectAllBelow(rows[1..], k);
        assert rows[Offset(rows[1..], k)..] == rows;
      } else {
        assert rows[Offset(rows, k)..] == rows[1..][Offset(rows[1..], k)..];
      }
    }
  }

  lemma {:induction false} OffsetOfRow(rows: seq<Row>, i: nat)
    requires Descending(rows) && i < |rows|
    ensures Offset(rows, rows[i].key) == i + 1
  {
    DescendingTail(rows);
    if i > 0 {
      OffsetOfRow(rows[1..], i - 1);
    } else {
      SelectAllBelow(rows[1..], rows[0].key);
    }
  }

  /** Up to a row of a descending list is everything from that row on. */
  lemma {:induction false} UpToIsTheRest(rows: seq<Row>, i: nat)
    requires Descending(rows) && i < |rows|
    ensures Sum(rows, UpTo(rows[i].key)) == Sum(rows[i..], All)
  {
    DescendingTail(rows);
    if i > 0 {
      UpToIsTheRest(rows[1..], i - 1);
      assert rows[1..][i - 1..] == rows[i..];
    } else {
      SumAllBelow(rows[1..], rows[0].key);
      assert rows[0..] == rows;
    }
  }

  lemma {:induction false} SumAllBelow(rows: seq<Row>, k: Key)
    requires AllBelow(rows, k)
    ensures Sum(rows, UpTo(k)) == Sum(rows, All)
  {
    if rows != [] { SumAllBelow(rows[1..], k); }
  }

  lemma SumAllHead(rows: seq<Row>)
    requires rows != []
    ensures Minus(Sum(rows, All), rows[0].delta) == Sum(rows[1..], All)
  {
  }

  /** The window's balances, over the first n rows of a list that opens on its own sum. */
  lemma {:induction false} RunningBalances(rows: seq<Row>, n: nat)
    requires n <= |rows|
    ensures Running(Sum(rows, All), rows[..n]) == SumsFrom(rows, n)
  {
    if n > 0 {
      hide Sum;
      assert rows[..n][1..] == rows[1..][..n - 1];
      RunningBalances(rows[1..], n - 1);
      SumAllHead(rows);
    }
  }

  /** Each of the first n rows with the sum of the list from it on. */
  function SumsFrom(rows: seq<Row>, n: nat): (r: seq<PageRow>)
    requires n <= |rows|
    ensures |r| == n && forall i :: 0 <= i < n ==> r[i] == PageRow(rows[i], Sum(rows[i..], All))
    decreases n
  {
    if n == 0 then []
    else
      var tail := SumsFrom(rows[1..], n - 1);
      assert forall i :: 0 < i < n ==> rows[1..][i - 1..] == rows[i..];
      assert rows[0..] == rows;
      [PageRow(rows[0], Sum(rows, All))] + tail
  }

  lemma SumsAreStanding(rows: seq<Row>, sorted: seq<Row>, o: nat, n: nat)
    requires sorted == Newest(rows) && Descending(sorted) && o + n <= |sorted|
    ensures SumsFrom(sorted[o..], n) == Standing(rows, sorted[o..o + n])
  {
    hide Newest, Sum;
    forall i | 0 <= i < n
      ensures SumsFrom(sorted[o..], n)[i] == StandingAfter(rows, sorted[o + i])
    {
      UpToIsTheRest(sorted, o + i);
      assert sorted[o..][i..] == sorted[o + i..];
      SumNewest(rows, UpTo(sorted[o + i].key));
    }
  }

  predicate WithinRange(rows: seq<Row>) { AllBelow(rows, LEDGER_CURSOR_START) }

  function OffsetOf(sorted: seq<Row>, cursor: Option<Key>): (n: nat)
    ensures n <= |sorted|
  {
    if cursor.Some? then Offset(sorted, cursor.value) else 0
  }

  lemma {:induction false} NewestBelow(rows: seq<Row>, k: Key)
    requires AllBelow(rows, k)
    ensures AllBelow(Newest(rows), k)
  {
    if rows != [] {
      NewestBelow(rows[1..], k);
      InsertBelow(Newest(rows[1..]), rows[0], k);
    }
  }

  /** The rows a page is cut from and the balance it opens on. */
  lemma PageSource(rows: seq<Row>, cursor: Option<Key>)
    requires DistinctKeys(rows) && WithinRange(rows)
    ensures var sorted := Newest(rows);
            var rest := sorted[OffsetOf(sorted, cursor)..];
            && Newest(Select(rows, Below(if cursor.Some? then cursor.value else LEDGER_CURSOR_START))) == rest
            && Minus(Sum(rows, All), if cursor.Some? then Sum(rows, From(cursor.value)) else ZERO) == Sum(rest, All)
  {
    var sorted := Newest(rows);
    NewestDescending(rows);
    if cursor.Some? {
      SelectNewest(rows, Below(cursor.value));
      OlderIsTheRest(sorted, cursor.value);
      SumSplits(rows, cursor.value);
      SumNewest(rows, Below(cursor.value));
    } else {
      NewestBelow(rows, LEDGER_CURSOR_START);
      SelectNewest(rows, Below(LEDGER_CURSOR_START));
      SelectAllBelow(sorted, LEDGER_CURSOR_START);
      SumNewest(rows, All);
      assert sorted[0..] == sorted;
    }
  }

  function PageLength(rest: nat): nat { if rest > 200 then 200 else rest }

  /** What a page holds: the next rows of the sorted list, each with the balance that stood after it. */
  ghost predicate IsPage(page: Page, rows: seq<Row>, sorted: seq<Row>, o: nat)
    requires o <= |sorted|
  {
    var n := PageLength(|sorted| - o);
    && page.entries == Standing(rows, sorted[o..o + n])
    && page.nextCursor == (if |sorted| - o > 200 then Some(sorted[o + n - 1].key) else None)
  }

  lemma WindowPage(rest: seq<Row>)
    ensures var running := Running(Sum(rest, All), Take(rest, LEDGER_PAGE_SIZE + 1));
            var n := PageLength(|rest|);
            && (|running| > LEDGER_PAGE_SIZE <==> |rest| > LEDGER_PAGE_SIZE)
            && n <= |running| && running[..n] == SumsFrom(rest, n)
            && (|rest| <= LEDGER_PAGE_SIZE ==> running == SumsFrom(rest, n))
  {
    hide Sum, Running;
    var window := Take(rest, LEDGER_PAGE_SIZE + 1);
    assert window == rest[..|window|];
    RunningBalances(rest, |window|);
    FewerSums(rest, PageLength(|rest|), |window|);
  }

  lemma PageIsSlice(account: Points, rows: seq<Row>, cursor: Option<Key>)
    requires DistinctKeys(rows) && WithinRange(rows) && account == Sum(rows, All)
    ensures var rest := Newest(rows)[OffsetOf(Newest(rows), cursor)..];
            LedgerPage(account, rows, cursor)
            == Page(SumsFrom(rest, PageLength(|rest|)),
                    if |rest| > LEDGER_PAGE_SIZE then Some(rest[LEDGER_PAGE_SIZE - 1].key) else None)
  {
    hide Newest, Sum, Select, OffsetOf, Running, DistinctKeys, WithinRange;
    PageSource(rows, cursor);
    WindowPage(Newest(rows)[OffsetOf(Newest(rows), cursor)..]);
  }

  /** Derived backwards from the account row, a page's balances are the prefix sums from the first entry. */
  lemma PageShowsPrefixSums(account: Points, rows: seq<Row>, cursor: Option<Key>)
    requires DistinctKeys(rows) && WithinRange(rows) && account == Sum(rows, All)
    ensures IsPage(LedgerPage(account, rows, cursor), rows, Newest(rows), OffsetOf(Newest(rows), cursor))
  {
    hide Newest, Sum, LedgerPage, DistinctKeys, WithinRange;
    var sorted := Newest(rows);
    var o := OffsetOf(sorted, cursor);
    NewestDescending(rows);
    PageIsSlice(account, rows, cursor);
    SumsAreStanding(rows, sorted, o, PageLength(|sorted| - o));
  }

  lemma FewerSums(rows: seq<Row>, n: nat, m: nat)
    requires n <= m <= |rows|
    ensures SumsFrom(rows, m)[..n] == SumsFrom(rows, n)
  {
    hide Sum;
  }

  /** Following the cursors from page one shows every entry exactly once, newest first, each with its prefix sum. */
  lemma {:induction false} ReadingShowsEverythingOnce(account: Points, rows: seq<Row>, cursor: Option<Key>, fuel: nat)
    requires DistinctKeys(rows) && WithinRange(rows) && account == Sum(rows, All)
    requires fuel >= |Newest(rows)| - OffsetOf(Newest(rows), cursor)
    ensures ReadFrom(account, rows, cursor, fuel) == Standing(rows, Newest(rows)[OffsetOf(Newest(rows), cursor)..])
    decreases fuel
  {
    hide Newest, Sum, OffsetOf, LedgerPage, DistinctKeys, WithinRange, Descending, IsPage;
    var sorted := Newest(rows);
    var o := OffsetOf(sorted, cursor);
    NewestDescending(rows);
    PageShowsPrefixSums(account, rows, cursor);
    var page := LedgerPage(account, rows, cursor);
    if |sorted| - o > LEDGER_PAGE_SIZE {
      FollowCursor(page, rows, sorted, o);
      ReadingShowsEverythingOnce(account, rows, page.nextCursor, fuel - 1);
    } else {
      LastPage(page, rows, sorted, o);
    }
  }

  lemma FollowCursor(page: Page, rows: seq<Row>, sorted: seq<Row>, o: nat)
    requires Descending(sorted) && o + LEDGER_PAGE_SIZE < |sorted| && IsPage(page, rows, sorted, o)
    ensures page.nextCursor.Some? && OffsetOf(sorted, page.nextCursor) == o + LEDGER_PAGE_SIZE
    ensures page.entries + Standing(rows, sorted[o + LEDGER_PAGE_SIZE..]) == Standing(rows, sorted[o..])
  {
    hide Sum, Offset, Standing, Descending;
    OffsetOfRow(sorted, o + LEDGER_PAGE_SIZE - 1);
    StandingJoins(rows, sorted[o..o + LEDGER_PAGE_SIZE], sorted[o + LEDGER_PAGE_SIZE..]);
    assert sorted[o..o + LEDGER_PAGE_SIZE] + sorted[o + LEDGER_PAGE_SIZE..] == sorted[o..];
  }

  lemma LastPage(page: Page, rows: seq<Row>, sorted: seq<Row>, o: nat)
    requires o <= |sorted| <= o + LEDGER_PAGE_SIZE && IsPage(page, rows, sorted, o)
    ensures page.nextCursor.None? && page.entries == Standing(rows, sorted[o..])
  {
    assert sorted[o..|sorted|] == sorted[o..];
  }

  lemma StandingJoins(rows: seq<Row>, a: seq<Row>, b: seq<Row>)
    ensures Standing(rows, a) + Standing(rows, b) == Standing(rows, a + b)
  {
    hide Sum;
  }

  lemma {:induction false} NewestSameRows(rows: seq<Row>)
    ensures multiset(Newest(rows)) == multiset(rows) && |Newest(rows)| == |rows|
  {
    if rows != [] {
      NewestSameRows(rows[1..]);
      InsertSameRows(Newest(rows[1..]), rows[0]);
      assert rows == [rows[0]] + rows[1..];
    }
  }

  lemma {:induction false} InsertSameRows(rows: seq<Row>, row: Row)
    ensures multiset(Insert(rows, row)) == multiset(rows) + multiset{row} && |Insert(rows, row)| == |rows| + 1
  {
    if rows != [] && !Less(rows[0].key, row.key) {
      InsertSameRows(rows[1..], row);
      assert rows == [rows[0]] + rows[1..];
    }
  }

  // ---------------------------------------------------------------- appends between requests

  lemma {:induction false} SelectAppend(rows: seq<Row>, e: Row, cut: Cut)
    ensures Select(rows + [e], cut) == if In(e, cut) then Select(rows, cut) + [e] else Select(rows, cut)
  {
    if rows == [] {
      assert [] + [e] == [e] && [e][1..] == [];
    } else {
      SelectAppend(rows[1..], e, cut);
      assert rows + [e] == [rows[0]] + (rows[1..] + [e]);
      SelectCons(rows[1..] + [e], rows[0], cut);
    }
  }

  lemma {:induction false} SumAppend(rows: seq<Row>, e: Row, cut: Cut)
    ensures Sum(rows + [e], cut) == if In(e, cut) then Sum(rows, cut).Plus(e.delta) else Sum(rows, cut)
  {
    if rows == [] {
      assert [] + [e] == [e] && [e][1..] == [];
    } else {
      SumAppend(rows[1..], e, cut);
      assert (rows + [e])[1..] == rows[1..] + [e];
    }
  }

  lemma SameOpening(account: Points, shown: Points, d: Points)
    ensures Minus(account.Plus(d), shown.Plus(d)) == Minus(account, shown)
  {
  }

  /** An entry that sorts at or after the cursor leaves the cursor's page as it was, balances and all. */
  lemma AppendKeepsPage(account: Points, rows: seq<Row>, e: Row, k: Key)
    requires !Less(e.key, k)
    ensures LedgerPage(account.Plus(e.delta), rows + [e], Some(k)) == LedgerPage(account, rows, Some(k))
  {
    hide Newest, Select, Sum, Running, Take;
    SelectAppend(rows, e, Below(k));
    SumAppend(rows, e, From(k));
    SameOpening(account, Sum(rows, From(k)), e.delta);
  }

  lemma {:induction false} RunningRows(opening: Points, rows: seq<Row>)
    ensures forall i :: 0 <= i < |rows| ==> Running(opening, rows)[i].row == rows[i]
    decreases |rows|
  {
    if rows != [] { RunningRows(Minus(opening, rows[0].delta), rows[1..]); }
  }

  lemma {:induction false} SelectedIn(rows: seq<Row>, cut: Cut)
    ensures forall i :: 0 <= i < |Select(rows, cut)| ==> In(Select(rows, cut)[i], cut)
  {
    if rows != [] { SelectedIn(rows[1..], cut); }
  }

  /** A page's own cursor is older than the cursor it was asked for. */
  lemma NextCursorIsOlder(account: Points, rows: seq<Row>, k: Key)
    requires LedgerPage(account, rows, Some(k)).nextCursor.Some?
    ensures Less(LedgerPage(account, rows, Some(k)).nextCursor.value, k)
  {
    hide Newest, Select, Sum, Running;
    var selected := Select(rows, Below(k));
    SelectedIn(rows, Below(k));
    assert AllBelow(selected, k);
    NewestBelow(selected, k);
    RunningRows(Minus(account, Sum(rows, From(k))), Take(Newest(selected), LEDGER_PAGE_SIZE + 1));
  }

  /** Nor does it change any later page. */
  lemma {:induction false} AppendKeepsReading(account: Points, rows: seq<Row>, e: Row, k: Key, fuel: nat)
    requires !Less(e.key, k)
    ensures ReadFrom(account.Plus(e.delta), rows + [e], Some(k), fuel) == ReadFrom(account, rows, Some(k), fuel)
    decreases fuel
  {
    hide LedgerPage;
    AppendKeepsPage(account, rows, e, k);
    var page := LedgerPage(account, rows, Some(k));
    if page.nextCursor.Some? && fuel > 0 {
      NextCursorIsOlder(account, rows, k);
      NotOlder(e.key, k, page.nextCursor.value);
      AppendKeepsReading(account, rows, e, page.nextCursor.value, fuel - 1);
    }
  }

  lemma NotOlder(e: Key, k: Key, older: Key)
    requires !Less(e, k) && Less(older, k)
    ensures !Less(e, older)
  {
  }

  lemma RestLength(rows: seq<Row>, k: Key)
    requires DistinctKeys(rows)
    ensures |Newest(rows)| - Offset(Newest(rows), k) == |Select(rows, Below(k))|
  {
    hide Newest, Select, DistinctKeys;
    NewestDescending(rows);
    OlderIsTheRest(Newest(rows), k);
    SelectNewest(rows, Below(k));
    NewestSameRows(Select(rows, Below(k)));
  }

  /** What remains to be read changes exactly when the new entry sorts before the cursor. */
  lemma ReadingChangesExactlyWhenOlder(account: Points, rows: seq<Row>, e: Row, k: Key, fuel: nat)
    requires DistinctKeys(rows + [e]) && WithinRange(rows + [e]) && account == Sum(rows, All) && fuel >= |rows| + 1
    ensures ReadFrom(account.Plus(e.delta), rows + [e], Some(k), fuel) == ReadFrom(account, rows, Some(k), fuel)
            <==> !Less(e.key, k)
  {
    hide Newest, Select, Sum, ReadFrom, Offset;
    if Less(e.key, k) {
      BeforeAppend(rows, e);
      SumAppend(rows, e, All);
      SelectAppend(rows, e, Below(k));
      NewestSameRows(rows);
      NewestSameRows(rows + [e]);
      RestLength(rows, k);
      RestLength(rows + [e], k);
      hide DistinctKeys, WithinRange;
      ReadingShowsEverythingOnce(account, rows, Some(k), fuel);
      ReadingShowsEverythingOnce(account.Plus(e.delta), rows + [e], Some(k), fuel);
    } else {
      AppendKeepsReading(account, rows, e, k, fuel);
    }
  }

  lemma BeforeAppend(rows: seq<Row>, e: Row)
    requires DistinctKeys(rows + [e]) && WithinRange(rows + [e])
    ensures DistinctKeys(rows) && WithinRange(rows)
  {
    assert forall i :: 0 <= i < |rows| ==> (rows + [e])[i] == rows[i];
  }

  // ---------------------------------------------------------------- the pages of the real ledger

  /** An account's entries as the query sees them, given when each was created. */
  function RowsOf(entries: seq<Entry>, a: AccountKey, createdAt: EntryId -> int): seq<Row> {
    if entries == [] then []
    else
      var e := entries[|entries| - 1];
      RowsOf(entries[..|entries| - 1], a, createdAt)
          + (if e.account == a then [Row(Key(createdAt(e.id), e.id), e.delta)] else [])
  }

  lemma {:induction false} RowsSum(entries: seq<Entry>, a: AccountKey, createdAt: EntryId -> int)
    ensures Sum(RowsOf(entries, a, createdAt), All) == SumDeltas(entries, a)
  {
    if entries == [] {
    } else {
      var n := |entries| - 1;
      RowsSum(entries[..n], a, createdAt);
      if entries[n].account == a {
        SumAppend(RowsOf(entries[..n], a, createdAt),
                  Row(Key(createdAt(entries[n].id), entries[n].id), entries[n].delta), All);
      } else {
        assert RowsOf(entries, a, createdAt) == RowsOf(entries[..n], a, createdAt);
      }
    }
  }

  predicate KeyOfEntry(entries: seq<Entry>, createdAt: EntryId -> int, k: Key) {
    exists j :: 0 <= j < |entries| && k == Key(createdAt(entries[j].id), entries[j].id)
  }

  lemma {:induction false} RowsKeys(entries: seq<Entry>, a: AccountKey, createdAt: EntryId -> int)
    ensures forall i :: 0 <= i < |RowsOf(entries, a, createdAt)| ==>
              KeyOfEntry(entries, createdAt, RowsOf(entries, a, createdAt)[i].key)
  {
    if entries != [] {
      var n := |entries| - 1;
      RowsKeys(entries[..n], a, createdAt);
      var rows, before := RowsOf(entries, a, createdAt), RowsOf(entries[..n], a, createdAt);
      forall i | 0 <= i < |rows|
        ensures KeyOfEntry(entries, createdAt, rows[i].key)
      {
        if i < |before| {
          assert KeyOfEntry(entries[..n], createdAt, before[i].key);
          var j :| 0 <= j < n && before[i].key == Key(createdAt(entries[..n][j].id), entries[..n][j].id);
          assert entries[j] == entries[..n][j];
        } else {
          assert rows[i].key == Key(createdAt(entries[n].id), entries[n].id);
        }
      }
    }
  }

  lemma {:induction false} RowsDistinct(entries: seq<Entry>, a: AccountKey, createdAt: EntryId -> int)
    requires DistinctEntries(entries)
    ensures DistinctKeys(RowsOf(entries, a, createdAt))
  {
    if entries != [] {
      var n := |entries| - 1;
      RowsDistinct(entries[..n], a, createdAt);
      RowsKeys(entries[..n], a, createdAt);
      var before := RowsOf(entries[..n], a, createdAt);
      forall i | 0 <= i < |before|
        ensures before[i].key.id != entries[n].id
      {
        assert KeyOfEntry(entries[..n], createdAt, before[i].key);
        var j :| 0 <= j < n && before[i].key == Key(createdAt(entries[..n][j].id), entries[..n][j].id);
        assert entries[j].id != entries[n].id;
      }
    }
  }

  /**
   * In every reachable state of the ledger, whatever the creation times, reading a member's pages
   * shows each of the account's entries once, newest first, with the sum of the entries up to it.
   */
  lemma PagesExplainTheAccount(steps: seq<LM.Step>, a: AccountKey, createdAt: EntryId -> int)
    requires a in LM.Run(steps).db.accounts
    requires WithinRange(RowsOf(LM.Run(steps).db.entries, a, createdAt))
    ensures var db := LM.Run(steps).db;
            var rows := RowsOf(db.entries, a, createdAt);
            && ReadFrom(db.accounts[a], rows, None, |rows|) == Standing(rows, Newest(rows))
            && multiset(Newest(rows)) == multiset(rows) && Descending(Newest(rows))
  {
    hide Newest, ReadFrom, RowsOf, Sum, LM.Run;
    LM.RunKeeps(steps);
    var db := LM.Run(steps).db;
    AccountIsSum(db, a);
    var rows := RowsOf(db.entries, a, createdAt);
    RowsSum(db.entries, a, createdAt);
    RowsDistinct(db.entries, a, createdAt);
    NewestDescending(rows);
    NewestSameRows(rows);
    hide LM.WorldInv;
    ReadingShowsEverythingOnce(db.accounts[a], rows, None, |rows|);
    assert Newest(rows)[0..] == Newest(rows);
  }

  lemma AccountIsSum(db: Db, a: AccountKey)
    requires Inv(db) && a in db.accounts
    ensures db.accounts[a] == SumDeltas(db.entries, a) && DistinctEntries(db.entries)
  {
    hide TicketsInv, SettlementsInv, UniqueVersions, OperationsInv, EntriesInv, RequestsInv, FrozenInv, WorthInv,
        HistoryInv;
  }
}
