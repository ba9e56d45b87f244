/** What the PRO points deduction takes, from whom, and from how few accounts. */
module PointsSubscription {
  import opened Common
  import opened LedgerModel
  import opened LedgerInvariant

  /** Rows as the locking query lists them: distinct accounts with points. */
  ghost predicate Payers(accounts: map<AccountKey, Points>, rows: seq<AccountKey>) {
    && (forall i :: 0 <= i < |rows| ==> rows[i] in accounts && accounts[rows[i]].available > 0)
    && (forall i, j :: 0 <= i < j < |rows| ==> rows[i] != rows[j])
  }

  /** ORDER BY available_points DESC. */
  ghost predicate Descending(accounts: map<AccountKey, Points>, rows: seq<AccountKey>)
    requires Payers(accounts, rows)
  {
    forall i, j :: 0 <= i < j < |rows| ==> accounts[rows[i]].available >= accounts[rows[j]].available
  }

  /** How many rows the loop touches before the cost is paid. */
  function Touched(accounts: map<AccountKey, Points>, rows: seq<AccountKey>, remaining: int): (n: nat)
    requires forall i :: 0 <= i < |rows| ==> rows[i] in accounts
    ensures n <= |rows|
  {
    if remaining <= 0 || rows == [] then 0
    else 1 + Touched(accounts, rows[1..], remaining - Min(accounts[rows[0]].available, remaining))
  }

  /** What row a pays: everything it has, except that the last touched row pays only what is left. */
  function Paid(accounts: map<AccountKey, Points>, rows: seq<AccountKey>, remaining: int, a: AccountKey): int
    requires forall i :: 0 <= i < |rows| ==> rows[i] in accounts
  {
    if remaining <= 0 || rows == [] then 0
    else
      var amount := Min(accounts[rows[0]].available, remaining);
      if rows[0] == a then amount else Paid(accounts, rows[1..], remaining - amount, a)
  }

  lemma {:induction false} PaidFrame(accounts: map<AccountKey, Points>, accounts': map<AccountKey, Points>,
                                     rows: seq<AccountKey>)
    requires forall i :: 0 <= i < |rows| ==>
               rows[i] in accounts && rows[i] in accounts' && accounts'[rows[i]] == accounts[rows[i]]
    ensures forall r, a :: Paid(accounts', rows, r, a) == Paid(accounts, rows, r, a)
  {
    if rows != [] {
      PaidFrame(accounts, accounts', rows[1..]);
    }
  }

  /** The state one iteration leaves: the rows still to come are as they were. */
  lemma OneDeduction(db: Db, rows: seq<AccountKey>, remaining: int, tier: Tier, at: int, ids: seq<EntryId>)
    requires |ids| == |rows| && Payers(db.accounts, rows) && rows != [] && remaining > 0
    requires Deduct(db, rows, remaining, tier, at, ids).Ok?
    ensures var amount := Min(db.accounts[rows[0]].available, remaining);
            var e := SubscriptionEntry(rows[0], tier, at, amount, ids[0]);
            var posted := Post(db, e, Points(-amount, 0, 0));
            && posted.Ok? && Payers(posted.value.accounts, rows[1..])
            && posted.value == db.(accounts := db.accounts[rows[0] := db.accounts[rows[0]].Plus(Points(-amount, 0, 0))],
                                   entries := db.entries + [e])
            && Deduct(posted.value, rows[1..], remaining - amount, tier, at, ids[1..])
                == Deduct(db, rows, remaining, tier, at, ids)
            && (forall i :: 0 <= i < |rows[1..]| ==> posted.value.accounts[rows[1..][i]] == db.accounts[rows[1..][i]])
  {
  }

  /** The entries the loop writes: one for each touched row. */
  function Payments(accounts: map<AccountKey, Points>, rows: seq<AccountKey>, remaining: int, tier: Tier, at: int,
                    ids: seq<EntryId>): seq<Entry>
    requires |ids| == |rows| && forall i :: 0 <= i < |rows| ==> rows[i] in accounts
  {
    if remaining <= 0 || rows == [] then []
    else
      var amount := Min(accounts[rows[0]].available, remaining);
      [SubscriptionEntry(rows[0], tier, at, amount, ids[0])]
          + Payments(accounts, rows[1..], remaining - amount, tier, at, ids[1..])
  }

  lemma {:induction false} PaymentsFrame(accounts: map<AccountKey, Points>, accounts': map<AccountKey, Points>,
                                         rows: seq<AccountKey>,
                                         remaining: int, tier: Tier, at: int, ids: seq<EntryId>)
    requires |ids| == |rows|
    requires forall i :: 0 <= i < |rows| ==>
               rows[i] in accounts && rows[i] in accounts' && accounts'[rows[i]] == accounts[rows[i]]
    ensures Payments(accounts', rows, remaining, tier, at, ids) == Payments(accounts, rows, remaining, tier, at, ids)
  {
    if remaining > 0 && rows != [] {
      PaymentsFrame(accounts, accounts', rows[1..], remaining - Min(accounts[rows[0]].available, remaining), tier,
                    at, ids[1..]);
    }
  }

  lemma {:induction false} PaymentsAddUp(accounts: map<AccountKey, Points>, rows: seq<AccountKey>, remaining: int,
                                         tier: Tier, at: int, ids: seq<EntryId>)
    requires |ids| == |rows| && Payers(accounts, rows) && 0 <= remaining <= ListedPoints(accounts, rows)
    ensures PaidBy(Payments(accounts, rows, remaining, tier, at, ids)) == remaining
    ensures |Payments(accounts, rows, remaining, tier, at, ids)| == Touched(accounts, rows, remaining)
  {
    if remaining > 0 {
      var amount := Min(accounts[rows[0]].available, remaining);
      ListedNonNegative(accounts, rows[1..]);
      PaymentsAddUp(accounts, rows[1..], remaining - amount, tier, at, ids[1..]);
      var rest := Payments(accounts, rows[1..], remaining - amount, tier, at, ids[1..]);
      assert Payments(accounts, rows, remaining, tier, at, ids)[1..] == rest;
    }
  }

  lemma {:induction false} ListedNonNegative(accounts: map<AccountKey, Points>, rows: seq<AccountKey>)
    requires Payers(accounts, rows)
    ensures ListedPoints(accounts, rows) >= 0
  {
    if rows != [] { ListedNonNegative(accounts, rows[1..]); }
  }

  /** Only accounts and entries change, and the entries by what is written. */
  ghost predicate Recorded(db: Db, db': Db, written: seq<Entry>) {
    && db' == db.(accounts := db'.accounts, entries := db.entries + written)
    && db'.accounts.Keys == db.accounts.Keys
  }

  lemma RecordedChain(db: Db, next: Db, db': Db, first: seq<Entry>, rest: seq<Entry>)
    requires Recorded(db, next, first) && Recorded(next, db', rest)
    ensures Recorded(db, db', first + rest)
  {
    assert db.entries + (first + rest) == db.entries + first + rest;
  }

  /** The state after the first row, what the loop goes on to write and what it goes on to take. */
  lemma FirstDeduction(db: Db, rows: seq<AccountKey>, remaining: int, tier: Tier, at: int, ids: seq<EntryId>)
    returns (next: Db, left: int, first: seq<Entry>, rest: seq<Entry>)
    requires |ids| == |rows| && Payers(db.accounts, rows) && rows != [] && remaining > 0
    requires Deduct(db, rows, remaining, tier, at, ids).Ok?
    ensures Payers(next.accounts, rows[1..]) && Recorded(db, next, first)
    ensures Deduct(next, rows[1..], left, tier, at, ids[1..]) == Deduct(db, rows, remaining, tier, at, ids)
    ensures Payments(next.accounts, rows[1..], left, tier, at, ids[1..]) == rest
    ensures Payments(db.accounts, rows, remaining, tier, at, ids) == first + rest
    ensures forall a :: a in db.accounts ==>
              a in next.accounts && next.accounts[a].available - Paid(next.accounts, rows[1..], left, a)
                                    == db.accounts[a].available - Paid(db.accounts, rows, remaining, a)
    ensures forall a :: a in db.accounts ==>
              next.accounts[a] == db.accounts[a].(available := next.accounts[a].available)
  {
    var amount := Min(db.accounts[rows[0]].available, remaining);
    left := remaining - amount;
    OneDeduction(db, rows, remaining, tier, at, ids);
    next := Post(db, SubscriptionEntry(rows[0], tier, at, amount, ids[0]), Points(-amount, 0, 0)).value;
    first, rest := [SubscriptionEntry(rows[0], tier, at, amount, ids[0])],
        Payments(db.accounts, rows[1..], left, tier, at, ids[1..]);
    assert Payments(db.accounts, rows, remaining, tier, at, ids) == first + rest;
    assert forall a :: a in db.accounts ==>
             next.accounts[a] == if a == rows[0] then db.accounts[a].Plus(Points(-amount, 0, 0)) else db.accounts[a];
    hide Deduct, Paid, Post, Payments, SubscriptionEntry;
    PaymentsFrame(db.accounts, next.accounts, rows[1..], left, tier, at, ids[1..]);
    forall a | a in db.accounts
      ensures Paid(db.accounts, rows, remaining, a)
                == (if a == rows[0] then amount else 0) + Paid(next.accounts, rows[1..], left, a)
    {
      NextPaid(db.accounts, next.accounts, rows, remaining, a);
    }
  }

  lemma {:induction false} DeductRecords(db: Db, rows: seq<AccountKey>, remaining: int, tier: Tier, at: int,
                                         ids: seq<EntryId>)
    requires |ids| == |rows| && Payers(db.accounts, rows)
    requires Deduct(db, rows, remaining, tier, at, ids).Ok?
    ensures Recorded(db, Deduct(db, rows, remaining, tier, at, ids).value,
                     Payments(db.accounts, rows, remaining, tier, at, ids))
    decreases |rows|
  {
    if remaining > 0 && rows != [] {
      hide Deduct, Payments, Paid, Recorded;
      var next, left, first, rest := FirstDeduction(db, rows, remaining, tier, at, ids);
      DeductRecords(next, rows[1..], left, tier, at, ids[1..]);
      RecordedChain(db, next, Deduct(db, rows, remaining, tier, at, ids).value, first, rest);
    } else {
      assert db.entries + [] == db.entries;
    }
  }

  /** Account by account the loop takes what Paid says. */
  lemma {:induction false} DeductTakes(db: Db, rows: seq<AccountKey>, remaining: int, tier: Tier, at: int,
                                       ids: seq<EntryId>)
    requires |ids| == |rows| && Payers(db.accounts, rows)
    requires Deduct(db, rows, remaining, tier, at, ids).Ok?
    ensures var db' := Deduct(db, rows, remaining, tier, at, ids).value;
            forall a :: a in db.accounts ==>
              a in db'.accounts && db'.accounts[a]
                  == db.accounts[a].(available := db.accounts[a].available - Paid(db.accounts, rows, remaining, a))
    decreases |rows|
  {
    if remaining > 0 && rows != [] {
      hide Deduct, Payments, Paid, Recorded;
      var next, left, first, rest := FirstDeduction(db, rows, remaining, tier, at, ids);
      DeductTakes(next, rows[1..], left, tier, at, ids[1..]);
    }
  }

  /** What the loop goes on to pay, seen from before the first row paid. */
  lemma NextPaid(accounts: map<AccountKey, Points>, accounts': map<AccountKey, Points>, rows: seq<AccountKey>,
                 remaining: int, a: AccountKey)
    requires Payers(accounts, rows) && rows != [] && remaining > 0
    requires forall i :: 0 <= i < |rows[1..]| ==>
               rows[1..][i] in accounts' && accounts'[rows[1..][i]] == accounts[rows[1..][i]]
    ensures var amount := Min(accounts[rows[0]].available, remaining);
            Paid(accounts, rows, remaining, a)
                == (if a == rows[0] then amount else 0) + Paid(accounts', rows[1..], remaining - amount, a)
  {
    var amount := Min(accounts[rows[0]].available, remaining);
    PaidFrame(accounts, accounts', rows[1..]);
    PaidOutside(accounts, rows[1..], remaining - amount, rows[0]);
  }

  /** Sum of the amounts of a run of entries, oldest first. */
  function PaidBy(entries: seq<Entry>): int {
    if entries == [] then 0 else -entries[0].delta.available + PaidBy(entries[1..])
  }

  lemma {:induction false} PaidOutside(accounts: map<AccountKey, Points>, rows: seq<AccountKey>, remaining: int,
                                       a: AccountKey)
    requires Payers(accounts, rows) && a !in rows
    ensures Paid(accounts, rows, remaining, a) == 0
  {
    if remaining > 0 && rows != [] {
      PaidOutside(accounts, rows[1..], remaining - Min(accounts[rows[0]].available, remaining), a);
    }
  }

  lemma {:induction false} PaidWithinMeans(accounts: map<AccountKey, Points>, rows: seq<AccountKey>, remaining: int,
                                           a: AccountKey)
    requires Payers(accounts, rows) && a in accounts && accounts[a].available >= 0
    ensures 0 <= Paid(accounts, rows, remaining, a) <= accounts[a].available
  {
    if remaining > 0 && rows != [] && rows[0] != a {
      PaidWithinMeans(accounts, rows[1..], remaining - Min(accounts[rows[0]].available, remaining), a);
    }
  }

  // ---------------------------------------------------------------- the fewest accounts

  ghost function Available(accounts: map<AccountKey, Points>, s: set<AccountKey>): map<AccountKey, int>
    requires s <= accounts.Keys
  {
    map a | a in s :: accounts[a].available
  }

  /** Without its last touched row the loop could not have paid. */
  lemma {:induction false} OneFewerIsShort(accounts: map<AccountKey, Points>, rows: seq<AccountKey>, remaining: int)
    requires Payers(accounts, rows) && 0 < remaining <= ListedPoints(accounts, rows)
    ensures Touched(accounts, rows, remaining) >= 1
    ensures ListedPoints(accounts, rows[..Touched(accounts, rows, remaining) - 1]) < remaining
  {
    var amount := Min(accounts[rows[0]].available, remaining);
    if remaining > amount {
      OneFewerIsShort(accounts, rows[1..], remaining - amount);
      var n := Touched(accounts, rows, remaining) - 1;
      assert rows[..n][1..] == rows[1..][..n - 1];
    }
  }

  lemma {:induction false} ListedAppend(accounts: map<AccountKey, Points>, rows: seq<AccountKey>, a: AccountKey)
    requires (forall i :: 0 <= i < |rows| ==> rows[i] in accounts) && a in accounts
    ensures ListedPoints(accounts, rows + [a]) == ListedPoints(accounts, rows) + accounts[a].available
  {
    if rows == [] {
      assert rows + [a] == [a];
    } else {
      assert (rows + [a])[1..] == rows[1..] + [a];
      ListedAppend(accounts, rows[1..], a);
    }
  }

  lemma AddedTotal(accounts: map<AccountKey, Points>, s: set<AccountKey>, a: AccountKey)
    requires s <= accounts.Keys && a in accounts && a !in s
    ensures Total(Available(accounts, s + {a})) == Total(Available(accounts, s)) + accounts[a].available
  {
    assert Available(accounts, s + {a}) == Available(accounts, s)[a := accounts[a].available];
    TotalUpdate(Available(accounts, s), a, accounts[a].available);
  }

  function Rows(rows: seq<AccountKey>): set<AccountKey> { set a | a in rows }

  lemma OneMoreRow(rows: seq<AccountKey>, last: AccountKey)
    requires last !in rows
    ensures last !in Rows(rows) && Rows(rows + [last]) == Rows(rows) + {last}
    ensures |Rows(rows + [last])| == |Rows(rows)| + 1
  {
    assert Rows(rows + [last]) == Rows(rows) + {last};
  }

  lemma {:induction false} TotalOfAll(accounts: map<AccountKey, Points>, rows: seq<AccountKey>)
    requires Payers(accounts, rows)
    ensures Rows(rows) <= accounts.Keys && Total(Available(accounts, Rows(rows))) == ListedPoints(accounts, rows)
    ensures |Rows(rows)| == |rows|
  {
    if rows == [] {
      assert Rows(rows) == {};
      assert Available(accounts, {}) == map[];
    } else {
      var front, last := rows[..|rows| - 1], rows[|rows| - 1];
      assert rows == front + [last];
      assert Payers(accounts, front) && last in accounts && last !in front;
      hide Total, Available, ListedPoints, Rows, Payers;
      OneMoreRow(front, last);
      TotalOfAll(accounts, front);
      ListedAppend(accounts, front, last);
      AddedTotal(accounts, Rows(front), last);
    }
  }

  /** Swapping one account for another not in the set. */
  lemma SwapTotal(accounts: map<AccountKey, Points>, s: set<AccountKey>, x: AccountKey, y: AccountKey)
    requires s <= accounts.Keys && x in s && y in accounts && y !in s
    ensures Total(Available(accounts, s - {x} + {y}))
              == Total(Available(accounts, s)) - accounts[x].available + accounts[y].available
    ensures |s - {x} + {y}| == |s|
  {
    assert s - {x} + {x} == s;
    AddedTotal(accounts, s - {x}, x);
    AddedTotal(accounts, s - {x}, y);
  }

  lemma FrontAndLast(accounts: map<AccountKey, Points>, rows: seq<AccountKey>)
    requires Payers(accounts, rows) && Descending(accounts, rows) && rows != []
    ensures var front, last := rows[..|rows| - 1], rows[|rows| - 1];
            && last in accounts && last !in Rows(front) && Rows(rows) == Rows(front) + {last}
            && |Rows(front)| == |front|
            && (forall y :: y in Rows(front) ==> y in accounts && accounts[y].available >= accounts[last].available)
  {
    var front, last := rows[..|rows| - 1], rows[|rows| - 1];
    hide Total, Available, ListedPoints;
    assert rows == front + [last];
    assert Payers(accounts, front);
    TotalOfAll(accounts, front);
    OneMoreRow(front, last);
    forall y | y in Rows(front) ensures y in accounts && accounts[y].available >= accounts[last].available {
      var i :| 0 <= i < |front| && front[i] == y;
      assert rows[i] == y;
    }
  }

  lemma SwapWithin<T>(s: set<T>, kept: set<T>, last: T, y: T)
    requires s <= kept + {last} && y in kept
    ensures s - {last} + {y} <= kept
  {
  }

  /** Giving up the last row for an earlier one loses nothing. */
  lemma TradeUp(accounts: map<AccountKey, Points>, rows: seq<AccountKey>, s: set<AccountKey>, m: nat)
    returns (traded: set<AccountKey>)
    requires Payers(accounts, rows) && Descending(accounts, rows) && rows != []
    requires s <= Rows(rows) && |s| <= m < |rows| && s <= accounts.Keys && rows[|rows| - 1] in s
    ensures traded <= Rows(rows[..|rows| - 1]) && traded <= accounts.Keys && |traded| == |s|
    ensures Total(Available(accounts, s)) <= Total(Available(accounts, traded))
  {
    hide *;
    var kept, last := Rows(rows[..|rows| - 1]), rows[|rows| - 1];
    FrontAndLast(accounts, rows);
    var y := Missing(rows[..|rows| - 1], s, last);
    SwapWithin(s, kept, last, y);
    SwapWithin(s, accounts.Keys, last, y);
    SwapTotal(accounts, s, last, y);
    traded := s - {last} + {y};
  }

  /** Among the listed accounts, no m of them hold more than the first m. */
  lemma {:induction false} TopHoldMost(accounts: map<AccountKey, Points>, rows: seq<AccountKey>, s: set<AccountKey>,
                                       m: nat)
    requires Payers(accounts, rows) && Descending(accounts, rows)
    requires s <= accounts.Keys && s <= Rows(rows) && |s| <= m <= |rows|
    ensures Total(Available(accounts, s)) <= ListedPoints(accounts, rows[..m])
    decreases |rows|
  {
    hide Total, Available, ListedPoints;
    if m == |rows| {
      TotalOfAll(accounts, rows);
      assert rows[..m] == rows;
      SubsetTotal(accounts, s, Rows(rows));
    } else {
      var front, last := rows[..|rows| - 1], rows[|rows| - 1];
      assert front[..m] == rows[..m];
      if last !in s {
        TopHoldMost(accounts, front, s, m);
      } else {
        var traded := TradeUp(accounts, rows, s, m);
        TopHoldMost(accounts, front, traded, m);
      }
    }
  }

  /** A set that spends one place on the last row leaves some earlier row out. */
  lemma Missing(front: seq<AccountKey>, s: set<AccountKey>, last: AccountKey) returns (y: AccountKey)
    requires last in s && last !in Rows(front) && |s| <= |Rows(front)|
    ensures y in Rows(front) && y !in s
  {
    if Rows(front) <= s {
      SubsetSize(Rows(front), s - {last});
    }
    y :| y in Rows(front) && y !in s;
  }

  lemma {:induction false} SubsetTotal(accounts: map<AccountKey, Points>, s: set<AccountKey>, all: set<AccountKey>)
    requires s <= all <= accounts.Keys && forall a :: a in all ==> accounts[a].available >= 0
    ensures Total(Available(accounts, s)) <= Total(Available(accounts, all))
    decreases |all|
  {
    if s != all {
      var x :| x in all && x !in s;
      TotalRemove(Available(accounts, all), x);
      assert Available(accounts, all) - {x} == Available(accounts, all - {x});
      SubsetTotal(accounts, s, all - {x});
    }
  }

  /** The loop touches no more rows than any set of listed accounts that could cover the cost. */
  lemma FewestListed(accounts: map<AccountKey, Points>, rows: seq<AccountKey>, cost: int, s: set<AccountKey>)
    requires Payers(accounts, rows) && Descending(accounts, rows) && 0 < cost <= ListedPoints(accounts, rows)
    requires s <= accounts.Keys && s <= Rows(rows) && Total(Available(accounts, s)) >= cost
    ensures Touched(accounts, rows, cost) <= |s|
  {
    OneFewerIsShort(accounts, rows, cost);
    var n := Touched(accounts, rows, cost) - 1;
    if |s| <= n {
      TopHoldMost(accounts, rows, s, n);
    }
  }

  // ---------------------------------------------------------------- all of the user's accounts

  ghost function UserAccounts(accounts: map<AccountKey, Points>, user: UserId): set<AccountKey> {
    set a | a in accounts && a.user == user
  }

  /** Accounts without points add nothing. */
  lemma {:induction false} WithoutTheEmpty(accounts: map<AccountKey, Points>, s: set<AccountKey>, kept: set<AccountKey>)
    requires kept <= s <= accounts.Keys && forall a :: a in s - kept ==> accounts[a].available == 0
    ensures Total(Available(accounts, kept)) == Total(Available(accounts, s))
    decreases |s|
  {
    if s != kept {
      var x :| x in s - kept;
      WithoutTheEmpty(accounts, s - {x}, kept);
      hide Total, Available;
      assert s - {x} + {x} == s;
      AddedTotal(accounts, s - {x}, x);
    }
  }

  lemma ListedOnly(db: Db, user: UserId, rows: seq<AccountKey>, s: set<AccountKey>)
    requires IsPayerListing(db, user, rows) && s <= UserAccounts(db.accounts, user)
    requires forall a :: a in db.accounts ==> db.accounts[a].NonNegative()
    ensures s <= db.accounts.Keys && Total(Available(db.accounts, s * Rows(rows))) == Total(Available(db.accounts, s))
  {
    forall a | a in s - s * Rows(rows) ensures db.accounts[a].available == 0 {
      assert a !in rows;
    }
    hide Total, Available;
    WithoutTheEmpty(db.accounts, s, s * Rows(rows));
  }

  lemma ListingIsPayers(db: Db, user: UserId, rows: seq<AccountKey>)
    requires IsPayerListing(db, user, rows)
    ensures Payers(db.accounts, rows) && Rows(rows) <= UserAccounts(db.accounts, user)
  {
  }

  /** A complete listing holds what the user's accounts hold. */
  lemma ListingHoldsAll(db: Db, user: UserId, rows: seq<AccountKey>)
    requires IsPayerListing(db, user, rows) && forall a :: a in db.accounts ==> db.accounts[a].NonNegative()
    ensures Payers(db.accounts, rows)
    ensures ListedPoints(db.accounts, rows) == Total(Available(db.accounts, UserAccounts(db.accounts, user)))
  {
    hide Total, Available, ListedPoints, IsPayerListing, Payers, Rows, UserAccounts;
    ListingIsPayers(db, user, rows);
    TotalOfAll(db.accounts, rows);
    ListedOnly(db, user, rows, UserAccounts(db.accounts, user));
    assert UserAccounts(db.accounts, user) * Rows(rows) == Rows(rows);
  }

  // ---------------------------------------------------------------- the subscription as a whole

  ghost predicate FreshIds(db: Db, rows: seq<AccountKey>, tier: Tier, at: int, ids: seq<EntryId>)
    requires |ids| == |rows|
  {
    && (forall i :: 0 <= i < |ids| ==> !EntryIdTaken(db.entries, ids[i]))
    && (forall i :: 0 <= i < |rows| ==> !KeyTaken(db.entries, SubscriptionKey(rows[i].user, tier, rows[i].room, at)))
    && (forall i, j :: 0 <= i < j < |ids| ==> ids[i] != ids[j])
    && (forall i, j :: 0 <= i < j < |rows| ==> rows[i] != rows[j])
  }

  /** With fresh ids and a fresh millisecond the loop is never refused. */
  lemma {:induction false} DeductSucceeds(db: Db, rows: seq<AccountKey>, remaining: int, tier: Tier, at: int,
                                          ids: seq<EntryId>)
    requires |ids| == |rows| && Payers(db.accounts, rows) && FreshIds(db, rows, tier, at, ids)
    requires forall a :: a in db.accounts ==> db.accounts[a].NonNegative()
    ensures Deduct(db, rows, remaining, tier, at, ids).Ok?
    decreases |rows|
  {
    if remaining > 0 && rows != [] {
      var amount := Min(db.accounts[rows[0]].available, remaining);
      var e := SubscriptionEntry(rows[0], tier, at, amount, ids[0]);
      var posted := Post(db, e, Points(-amount, 0, 0));
      StillFresh(db, rows, tier, at, ids, e);
      DeductSucceeds(posted.value, rows[1..], remaining - amount, tier, at, ids[1..]);
    }
  }

  lemma StillFresh(db: Db, rows: seq<AccountKey>, tier: Tier, at: int, ids: seq<EntryId>, e: Entry)
    requires |ids| == |rows| && rows != [] && FreshIds(db, rows, tier, at, ids)
    requires e.id == ids[0] && e.key == SubscriptionKey(rows[0].user, tier, rows[0].room, at)
    ensures FreshIds(db.(entries := db.entries + [e]), rows[1..], tier, at, ids[1..])
  {
  }

  /**
   * `subscribeWithPoints` on the accounts the locking query lists: refused exactly when the user's
   * accounts hold less than the price; otherwise exactly the price leaves, each account pays within
   * its means, nobody else pays, and the entries record it.
   */
  lemma SubscriptionTakesThePrice(db: Db, user: UserId, rows: seq<AccountKey>, tier: Tier, at: int, ids: seq<EntryId>)
    requires |ids| == |rows| && IsPayerListing(db, user, rows) && FreshIds(db, rows, tier, at, ids)
    requires forall a :: a in db.accounts ==> db.accounts[a].NonNegative()
    ensures SubscribeWithPoints(db, rows, tier, at, ids).Ok?
            <==> Total(Available(db.accounts, UserAccounts(db.accounts, user)))
                 >= if tier.ProMonthly? then 5_000 else 38_000
    ensures SubscribeWithPoints(db, rows, tier, at, ids).Ok? ==>
              var price := if tier.ProMonthly? then 5_000 else 38_000;
              var db', payments := SubscribeWithPoints(db, rows, tier, at, ids).value,
                                   Payments(db.accounts, rows, price, tier, at, ids);
              && db'.entries == db.entries + payments && PaidBy(payments) == price
              && db'.accounts.Keys == db.accounts.Keys
              && (forall a :: a in db.accounts ==> PaidWithin(db, db', user, rows, price, a))
  {
    ListingHoldsAll(db, user, rows);
    ListingIsPayers(db, user, rows);
    var cost := ProPointsPrice(tier);
    if ListedPoints(db.accounts, rows) >= cost {
      DeductSucceeds(db, rows, cost, tier, at, ids);
      SubscriptionWrites(db, user, rows, tier, at, ids);
    }
  }

  /** What account a paid: no more than it had, nothing if it is not the user's, and only available points. */
  ghost predicate PaidWithin(db: Db, db': Db, user: UserId, rows: seq<AccountKey>, cost: int, a: AccountKey)
    requires a in db.accounts && db'.accounts.Keys == db.accounts.Keys && Payers(db.accounts, rows)
  {
    var paid := Paid(db.accounts, rows, cost, a);
    && 0 <= paid <= db.accounts[a].available
    && db'.accounts[a] == db.accounts[a].(available := db.accounts[a].available - paid)
    && (a.user != user ==> paid == 0)
  }

  lemma SubscriptionWrites(db: Db, user: UserId, rows: seq<AccountKey>, tier: Tier, at: int, ids: seq<EntryId>)
    requires |ids| == |rows| && ArePayers(db, user, rows) && Payers(db.accounts, rows)
    requires forall a :: a in db.accounts ==> db.accounts[a].NonNegative()
    requires ListedPoints(db.accounts, rows) >= ProPointsPrice(tier)
    requires Deduct(db, rows, ProPointsPrice(tier), tier, at, ids).Ok?
    ensures var db', payments := Deduct(db, rows, ProPointsPrice(tier), tier, at, ids).value,
                                 Payments(db.accounts, rows, ProPointsPrice(tier), tier, at, ids);
            && db'.entries == db.entries + payments && PaidBy(payments) == ProPointsPrice(tier)
            && |payments| == Touched(db.accounts, rows, ProPointsPrice(tier))
            && db'.accounts.Keys == db.accounts.Keys
            && (forall a :: a in db.accounts ==> PaidWithin(db, db', user, rows, ProPointsPrice(tier), a))
  {
    hide Deduct, Payments, Paid, Touched, PaidBy, ListedPoints;
    var cost := ProPointsPrice(tier);
    DeductRecords(db, rows, cost, tier, at, ids);
    DeductTakes(db, rows, cost, tier, at, ids);
    PaymentsAddUp(db.accounts, rows, cost, tier, at, ids);
    forall a | a in db.accounts
      ensures 0 <= Paid(db.accounts, rows, cost, a) <= db.accounts[a].available
      ensures a.user != user ==> Paid(db.accounts, rows, cost, a) == 0
    {
      PaidWithinMeans(db.accounts, rows, cost, a);
      if a.user != user { PaidOutside(db.accounts, rows, cost, a); }
    }
  }

  // ---------------------------------------------------------------- the fewest of all the user's accounts

  /** Only the rows the loop touches pay. */
  lemma {:induction false} OnlyTouchedPay(accounts: map<AccountKey, Points>, rows: seq<AccountKey>, remaining: int,
                                          a: AccountKey)
    requires Payers(accounts, rows) && a !in rows[..Touched(accounts, rows, remaining)]
    ensures Paid(accounts, rows, remaining, a) == 0
  {
    if remaining > 0 && rows != [] {
      var left := remaining - Min(accounts[rows[0]].available, remaining);
      var n := Touched(accounts, rows[1..], left);
      assert rows[..n + 1] == [rows[0]] + rows[1..][..n];
      OnlyTouchedPay(accounts, rows[1..], left, a);
    }
  }

  ghost function ChangedAccounts(db: Db, db': Db): set<AccountKey> {
    set a | a in db.accounts && (a !in db'.accounts || db'.accounts[a] != db.accounts[a])
  }

  lemma {:induction false} RowsSize(rows: seq<AccountKey>)
    ensures |Rows(rows)| <= |rows|
  {
    if rows == [] {
      assert Rows(rows) == {};
    } else {
      var n := |rows| - 1;
      RowsSize(rows[..n]);
      assert rows == rows[..n] + [rows[n]];
      assert Rows(rows) == Rows(rows[..n]) + {rows[n]};
    }
  }

  lemma ChangedAreTouched(db: Db, db': Db, user: UserId, rows: seq<AccountKey>, cost: int)
    requires Payers(db.accounts, rows) && db'.accounts.Keys == db.accounts.Keys
    requires forall a :: a in db.accounts ==> PaidWithin(db, db', user, rows, cost, a)
    ensures |ChangedAccounts(db, db')| <= Touched(db.accounts, rows, cost)
  {
    var touched := rows[..Touched(db.accounts, rows, cost)];
    forall a | a in ChangedAccounts(db, db') ensures a in Rows(touched) {
      assert PaidWithin(db, db', user, rows, cost, a);
      if a !in touched { OnlyTouchedPay(db.accounts, rows, cost, a); }
    }
    hide Paid, Touched;
    SubsetSize(ChangedAccounts(db, db'), Rows(touched));
    RowsSize(touched);
  }

  lemma PricesArePositive(tier: Tier)
    ensures ProPointsPrice(tier) > 0
  {
  }

  /**
   * Taken richest first, a subscription changes no more accounts and writes no more entries than any
   * set of the user's accounts, empty ones included, has members that could cover the price.
   */
  lemma FewestAccounts(db: Db, user: UserId, rows: seq<AccountKey>, tier: Tier, at: int, ids: seq<EntryId>,
                       s: set<AccountKey>)
    requires |ids| == |rows| && IsPayerListing(db, user, rows) && Payers(db.accounts, rows)
    requires Descending(db.accounts, rows)
    requires forall a :: a in db.accounts ==> db.accounts[a].NonNegative()
    requires SubscribeWithPoints(db, rows, tier, at, ids).Ok?
    requires s <= UserAccounts(db.accounts, user) && Total(Available(db.accounts, s)) >= ProPointsPrice(tier)
    ensures var db' := SubscribeWithPoints(db, rows, tier, at, ids).value;
            |ChangedAccounts(db, db')| <= |s| && |db'.entries| - |db.entries| <= |s|
  {
    hide Deduct, Payments, Touched, ListedPoints, Total, Available, PaidWithin, Rows, Descending;
    var cost := ProPointsPrice(tier);
    var db' := SubscribeWithPoints(db, rows, tier, at, ids).value;
    PricesArePositive(tier);
    SubscriptionWrites(db, user, rows, tier, at, ids);
    ChangedAreTouched(db, db', user, rows, cost);
    ListedOnly(db, user, rows, s);
    FewestListed(db.accounts, rows, cost, s * Rows(rows));
    SubsetSize(s * Rows(rows), s);
  }
}
