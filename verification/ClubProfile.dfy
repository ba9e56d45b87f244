/**
 * The daily challenge (packages/db/src/club/repository.ts, packages/domain/src/club): one user's
 * attempts, and the profile and badges that are updated beside them instead of being recounted.
 */
module ClubProfile {
  import opened Common

  /** Product days, counted from the epoch. */
  type Day = int

  const XP_PER_CORRECT_ANSWER: nat := 10
  const XP_STREAK_BONUS_CAP: nat := 7

  datatype Attempt = Attempt(day: Day, question: nat, answer: char, correct: bool, xp: nat, streakAfter: nat)

  datatype Profile = Profile(xpTotal: nat, currentStreak: nat, bestStreak: nat, lastAnsweredDay: Day)

  datatype Badge = FirstAnswer | Streak7 | Streak30

  /** One user's rows. */
  datatype State = State(attempts: seq<Attempt>, profile: Option<Profile>, badges: set<Badge>)

  // ---------------------------------------------------------------- the rules

  /** The remainder operator of the source: it takes the sign of the dividend. */
  function Remainder(a: int, n: nat): int
    requires n > 0
  {
    if a >= 0 then a % n else -((-a) % n)
  }

  /** `questionForProductDay`: the place in a bank of n questions. */
  function QuestionIndex(day: Day, n: nat): (i: nat)
    requires n > 0
    ensures i < n
    ensures i == day % n
  {
    RemainderIsModulo(day, n);
    Remainder(Remainder(day, n) + n, n)
  }

  lemma RemainderIsModulo(a: int, n: nat)
    requires n > 0
    ensures Remainder(a, n) + n >= 0
    ensures Remainder(Remainder(a, n) + n, n) == a % n
  {
    var b := if a >= 0 then a else -a;
    var q, m := b / n, b % n;
    assert b == q * n + m;
    if a >= 0 {
      IsModulo(m + n, n, 1, m);
    } else if m == 0 {
      assert a == (-q) * n;
      IsModulo(a, n, -q, 0);
      IsModulo(n, n, 1, 0);
    } else {
      assert a == (-q - 1) * n + (n - m);
      IsModulo(a, n, -q - 1, n - m);
      IsModulo(n - m, n, 0, n - m);
    }
  }

  lemma IsModulo(a: int, n: int, q: int, r: int)
    requires n > 0 && a == q * n + r && 0 <= r < n
    ensures a % n == r
  {
    var k := q - a / n;
    assert k * n == a % n - r by { assert a == (a / n) * n + a % n; }
    if k != 0 { BigMultiple(k, n); }
  }

  lemma BigMultiple(k: int, n: int)
    requires k != 0 && n > 0
    ensures k * n >= n || k * n <= -n
  {
    if k >= 1 { NotNegative(k - 1, n); OneMore(k - 1, n); }
        else { NotNegative(-k - 1, n); OneMore(-k - 1, n); Negated(k, n); }
  }

  lemma NotNegative(j: int, n: int)
    requires j >= 0 && n > 0
    ensures j * n >= 0
  {
  }

  lemma OneMore(j: int, n: int)
    ensures (j + 1) * n == j * n + n
  {
  }

  lemma Negated(k: int, n: int)
    ensures (-k) * n == -(k * n)
  {
  }

  /** `nextStreak`. */
  function NextStreak(last: Option<Day>, current: nat, day: Day, correct: bool): nat {
    if !correct then 0 else if last == Some(day - 1) then current + 1 else 1
  }

  function Min(a: nat, b: nat): nat { if a <= b then a else b }

  function Max(a: nat, b: nat): nat { if a >= b then a else b }

  /** `xpForAnswer`. */
  function XpForAnswer(correct: bool, streakAfter: nat): nat {
    if correct then XP_PER_CORRECT_ANSWER + Min(streakAfter, XP_STREAK_BONUS_CAP) else 0
  }

  /** `badgesEarned`: pushed in order. */
  method BadgesEarned(isFirstAnswer: bool, streakAfter: nat) returns (earned: seq<Badge>)
    ensures forall b :: b in earned <==> b in Earned(isFirstAnswer, streakAfter)
  {
    earned := [];
    if isFirstAnswer { earned := earned + [FirstAnswer]; }
    if streakAfter >= 7 { earned := earned + [Streak7]; }
    if streakAfter >= 30 { earned := earned + [Streak30]; }
  }

  function Earned(isFirstAnswer: bool, streakAfter: nat): set<Badge> {
    (if isFirstAnswer then {FirstAnswer} else {}) + (if streakAfter >= 7 then {Streak7} else {})
      + (if streakAfter >= 30 then {Streak30} else {})
  }

  // ---------------------------------------------------------------- submitting

  function FindAttempt(attempts: seq<Attempt>, day: Day): (found: Option<Attempt>)
    ensures found.Some? ==> found.value in attempts && found.value.day == day
    ensures found.None? ==> forall i :: 0 <= i < |attempts| ==> attempts[i].day != day
  {
    if attempts == [] then None
    else if attempts[0].day == day then Some(attempts[0])
    else FindAttempt(attempts[1..], day)
  }

  function NewAttempt(s: State, day: Day, answer: char, key: seq<char>): Attempt
    requires key != []
  {
    var question := QuestionIndex(day, |key|);
    var correct := key[question] == answer;
    var streakAfter := NextStreak(if s.profile.Some? then Some(s.profile.value.lastAnsweredDay) else None,
                                  if s.profile.Some? then s.profile.value.currentStreak else 0, day, correct);
    Attempt(day, question, answer, correct, XpForAnswer(correct, streakAfter), streakAfter)
  }

  /** INSERT ... ON CONFLICT (user_id) DO UPDATE. */
  function UpsertProfile(profile: Option<Profile>, a: Attempt): Profile {
    match profile
    case None => Profile(a.xp, a.streakAfter, a.streakAfter, a.day)
    case Some(p) => Profile(p.xpTotal + a.xp, a.streakAfter, Max(p.bestStreak, a.streakAfter), a.day)
  }

  /** `submitOnce`: a day answered before is replayed and changes nothing. */
  function Submitted(s: State, day: Day, answer: char, key: seq<char>): State
    requires key != []
  {
    if FindAttempt(s.attempts, day).Some? then s
    else
      var a := NewAttempt(s, day, answer, key);
      State(s.attempts + [a], Some(UpsertProfile(s.profile, a)), s.badges + Earned(s.profile.None?, a.streakAfter))
  }

  datatype Outcome = Outcome(replayed: bool, attempt: Attempt, profile: Option<Profile>, newBadges: seq<Badge>)

  class Engagement {
    var attempts: seq<Attempt>
    var profile: Option<Profile>
    var badges: set<Badge>

    function Rows(): State
      reads this
    {
      State(attempts, profile, badges)
    }

    constructor ()
      ensures Rows() == State([], None, {})
    {
      attempts, profile, badges := [], None, {};
    }

    method SubmitOnce(day: Day, answer: char, key: seq<char>) returns (outcome: Outcome)
      requires key != []
      modifies this
      ensures Rows() == Submitted(old(Rows()), day, answer, key)
      ensures outcome.replayed <==> FindAttempt(old(attempts), day).Some?
      ensures FindAttempt(attempts, day) == Some(outcome.attempt)
      ensures outcome.profile == profile
      ensures forall b :: b in outcome.newBadges <==> b in badges && b !in old(badges)
    {
      var existing := FindAttempt(attempts, day);
      if existing.Some? { return Outcome(true, existing.value, profile, []); }
      var a := NewAttempt(Rows(), day, answer, key);
      var first := profile.None?;
      FindAppended(attempts, a);
      attempts := attempts + [a];
      profile := Some(UpsertProfile(profile, a));
      var earned := BadgesEarned(first, a.streakAfter);
      var newBadges: seq<Badge> := [];
      for i := 0 to |earned|
        invariant attempts == old(attempts) + [a] && profile == Some(UpsertProfile(old(profile), a))
        invariant badges == old(badges) + set j | 0 <= j < i :: earned[j]
        invariant forall b :: b in newBadges <==> b in badges && b !in old(badges)
      {
        if earned[i] !in badges { newBadges := newBadges + [earned[i]]; }
        badges := badges + {earned[i]};
      }
      assert (set j | 0 <= j < |earned| :: earned[j]) == Earned(first, a.streakAfter);
      return Outcome(false, a, profile, newBadges);
    }
  }

  lemma {:induction false} FindAppended(attempts: seq<Attempt>, a: Attempt)
    requires FindAttempt(attempts, a.day).None?
    ensures FindAttempt(attempts + [a], a.day) == Some(a)
  {
    if attempts != [] {
      FindAppended(attempts[1..], a);
      assert (attempts + [a])[1..] == attempts[1..] + [a];
    }
  }

  // ---------------------------------------------------------------- the recount

  /** The days answered correctly. */
  function CorrectDays(attempts: seq<Attempt>): set<Day> {
    set i | 0 <= i < |attempts| && attempts[i].correct :: attempts[i].day
  }

  /** The n days up to a day are all in the set. */
  predicate Consecutive(days: set<Day>, end: Day, n: nat) { forall d :: end - n < d <= end ==> d in days }

  /** How many consecutive days of a set end at a day. */
  function Streak(days: set<Day>, end: Day): (n: nat)
    ensures Consecutive(days, end, n) && end - n !in days
    decreases |days|
  {
    if end in days then
      var before := Streak(days - {end}, end - 1);
      StreakExtends(days, end, before);
      before + 1
    else 0
  }

  lemma StreakExtends(days: set<Day>, end: Day, before: nat)
    requires end in days && Consecutive(days - {end}, end - 1, before) && end - 1 - before !in days - {end}
    ensures Consecutive(days, end, before + 1) && end - (before + 1) !in days
  {
    forall d | end - (before + 1) < d <= end ensures d in days {
      if d != end { assert d in days - {end}; }
    }
  }

  lemma StreakRuns(days: set<Day>, end: Day)
    ensures Consecutive(days, end, Streak(days, end)) && end - Streak(days, end) !in days
  {
  }

  /** The streak is the longest run of consecutive days ending there, so it is determined. */
  lemma StreakIsMaximal(days: set<Day>, end: Day, n: nat)
    requires Consecutive(days, end, n) && end - n !in days
    ensures Streak(days, end) == n
  {
    hide Streak;
    var m := Streak(days, end);
    StreakRuns(days, end);
    assert end - m !in days && end - n !in days;
  }

  /** The longest streak, when there is any. */
  predicate IsBest(days: set<Day>, best: nat) {
    && (forall d :: d in days ==> Streak(days, d) <= best)
    && (best > 0 ==> exists d :: d in days && Streak(days, d) == best)
  }

  /** What an attempt is worth: ten for a correct answer, and one for each day of its streak up to seven. */
  function AwardFor(correct: bool, streak: nat): nat {
    if !correct then 0 else if streak < 7 then 10 + streak else 17
  }

  lemma XpIsAward(correct: bool, streak: nat)
    ensures XpForAnswer(correct, streak) == AwardFor(correct, streak)
  {
  }

  /** Awards recomputed from the correct days alone. */
  function Awards(attempts: seq<Attempt>, days: set<Day>): nat {
    if attempts == [] then 0
    else
      var a := attempts[|attempts| - 1];
      Awards(attempts[..|attempts| - 1], days) + AwardFor(a.correct, Streak(days, a.day))
  }

  /** Which badges someone who has answered deserves for his best streak. */
  predicate Deserved(badge: Badge, best: nat) {
    match badge
    case FirstAnswer => true
    case Streak7 => best >= 7
    case Streak30 => best >= 30
  }

  predicate Rising(attempts: seq<Attempt>) { forall i, j :: 0 <= i < j < |attempts| ==>
                                             attempts[i].day < attempts[j].day }

  /** The stored profile and badges are what a recount of the attempts gives. */
  predicate Recounted(s: State) {
    && (s.profile.None? <==> s.attempts == [])
    && (s.profile.Some? ==>
          var days, p := CorrectDays(s.attempts), s.profile.value;
          && p.lastAnsweredDay == s.attempts[|s.attempts| - 1].day
          && p.currentStreak == Streak(days, p.lastAnsweredDay)
          && IsBest(days, p.bestStreak)
          && p.xpTotal == Awards(s.attempts, days))
    && (forall badge :: badge in s.badges <==> s.profile.Some? && Deserved(badge, s.profile.value.bestStreak))
  }

  // ---------------------------------------------------------------- one more correct day

  lemma AppendCorrect(attempts: seq<Attempt>, a: Attempt)
    ensures CorrectDays(attempts + [a]) == CorrectDays(attempts) + (if a.correct then {a.day} else {})
  {
    var more := attempts + [a];
    forall d | d in CorrectDays(attempts) ensures d in CorrectDays(more) {
      var i :| 0 <= i < |attempts| && attempts[i].correct && attempts[i].day == d;
      assert more[i].correct && more[i].day == d;
    }
    if a.correct { assert more[|attempts|].correct && more[|attempts|].day == a.day; }
  }

  lemma NoStreak(days: set<Day>, day: Day)
    ensures Streak(days, day) == 0 <==> day !in days
  {
  }

  lemma OneDayMore(days: set<Day>, day: Day, n: nat)
    requires Consecutive(days, day - 1, n) && day - 1 - n !in days
    ensures Streak(days + {day}, day) == n + 1
  {
    hide Streak;
    var more := days + {day};
    forall d | day - (n + 1) < d <= day ensures d in more {
      if d != day { assert d in days; }
    }
    assert Consecutive(more, day, n + 1);
    assert day - (n + 1) !in more;
    StreakIsMaximal(more, day, n + 1);
  }

  /** A correct answer on a new day extends the streak of the day before. */
  lemma NewDay(days: set<Day>, day: Day)
    ensures Streak(days + {day}, day) == Streak(days, day - 1) + 1
  {
    StreakRuns(days, day - 1);
    hide Streak, Consecutive;
    OneDayMore(days, day, Streak(days, day - 1));
  }

  /** A streak that does not reach down to the new day is what it was. */
  lemma StreakElsewhere(days: set<Day>, day: Day, end: Day)
    requires end != day && end - Streak(days, end) != day
    ensures Streak(days + {day}, end) == Streak(days, end)
  {
    hide Streak;
    var n := Streak(days, end);
    StreakRuns(days, end);
    assert Consecutive(days + {day}, end, n);
    StreakIsMaximal(days + {day}, end, n);
  }

  /** A streak that does is joined to the one before the new day. */
  lemma StreakJoined(days: set<Day>, day: Day, end: Day)
    requires end - Streak(days, end) == day
    ensures Streak(days + {day}, end) == Streak(days, end) + 1 + Streak(days, day - 1)
  {
    StreakRuns(days, end);
    StreakRuns(days, day - 1);
    hide Streak;
    Joined(days, day, end, Streak(days, end), Streak(days, day - 1));
  }

  lemma Joined(days: set<Day>, day: Day, end: Day, n: nat, m: nat)
    requires end - n == day && Consecutive(days, end, n) && Consecutive(days, day - 1, m) && day - 1 - m !in days
    ensures Streak(days + {day}, end) == n + 1 + m
  {
    hide Streak;
    var more := days + {day};
    forall d | end - (n + 1 + m) < d <= end ensures d in more {
      if d > day { assert d in days; } else if d < day { assert d in days; }
    }
    assert Consecutive(more, end, n + 1 + m);
    assert end - (n + 1 + m) !in more;
    StreakIsMaximal(more, end, n + 1 + m);
  }

  /** What a new correct day does to the streak ending at another correct day. */
  lemma StreakNearby(days: set<Day>, day: Day, end: Day)
    requires day !in days && end in days
    ensures Streak(days + {day}, end) >= Streak(days, end)
    ensures day + 1 !in days ==> Streak(days + {day}, end) == Streak(days, end)
    ensures end == day + 1 ==> Streak(days, end) == 1 && Streak(days + {day}, end) >= 2
  {
    StreakRuns(days, end);
    NoStreak(days, end);
    hide Streak;
    var n := Streak(days, end);
    assert end == day + 1 && n > 1 ==> day in days;
    if end - n == day {
      StreakJoined(days, day, end);
      assert day + 1 in days;
    } else {
      StreakElsewhere(days, day, end);
    }
  }

  // ---------------------------------------------------------------- what it does to the awards

  lemma XpRises(n: nat, m: nat)
    requires n <= m
    ensures AwardFor(true, n) <= AwardFor(true, m)
    ensures AwardFor(true, 1) < AwardFor(true, m + 2)
  {
  }

  /** A correct attempt's award, recounted with one more day, is no less; more when it was on the next day. */
  lemma AwardNearby(days: set<Day>, day: Day, a: Attempt)
    requires day !in days && (a.correct ==> a.day in days)
    ensures AwardFor(a.correct, Streak(days + {day}, a.day)) >= AwardFor(a.correct, Streak(days, a.day))
    ensures day + 1 !in days ==>
              AwardFor(a.correct, Streak(days + {day}, a.day)) == AwardFor(a.correct, Streak(days, a.day))
    ensures a.correct && a.day == day + 1 ==>
              AwardFor(a.correct, Streak(days + {day}, a.day)) > AwardFor(a.correct, Streak(days, a.day))
  {
    if a.correct {
      StreakNearby(days, day, a.day);
      hide Streak;
      XpRises(Streak(days, a.day), Streak(days + {day}, a.day));
      if a.day == day + 1 { XpRises(0, Streak(days + {day}, a.day) - 2); }
    }
  }

  predicate HasCorrect(attempts: seq<Attempt>, day: Day) {
    exists i :: 0 <= i < |attempts| && attempts[i].correct && attempts[i].day == day
  }

  lemma {:induction false} AwardsGrow(attempts: seq<Attempt>, days: set<Day>, day: Day)
    requires day !in days && forall i :: 0 <= i < |attempts| && attempts[i].correct ==> attempts[i].day in days
    ensures Awards(attempts, days + {day}) >= Awards(attempts, days)
    ensures day + 1 !in days ==> Awards(attempts, days + {day}) == Awards(attempts, days)
    ensures HasCorrect(attempts, day + 1) ==> Awards(attempts, days + {day}) > Awards(attempts, days)
  {
    hide Streak, AwardFor;
    if attempts != [] {
      var n := |attempts| - 1;
      AwardsGrow(attempts[..n], days, day);
      AwardNearby(days, day, attempts[n]);
      if HasCorrect(attempts, day + 1) && !(attempts[n].correct && attempts[n].day == day + 1) {
        var i :| 0 <= i < |attempts| && attempts[i].correct && attempts[i].day == day + 1;
        assert attempts[..n][i] == attempts[i];
      }
    }
  }

  lemma AwardsAppend(attempts: seq<Attempt>, a: Attempt, days: set<Day>)
    ensures Awards(attempts + [a], days) == Awards(attempts, days) + AwardFor(a.correct, Streak(days, a.day))
  {
    assert (attempts + [a])[..|attempts|] == attempts;
  }

  lemma AttemptsAreDays(attempts: seq<Attempt>, day: Day)
    ensures forall i :: 0 <= i < |attempts| && attempts[i].correct ==> attempts[i].day in CorrectDays(attempts)
    ensures HasCorrect(attempts, day) <==> day in CorrectDays(attempts)
  {
  }

  // ---------------------------------------------------------------- what it does to the best streak

  /** The run of correct days through a day, from its first day to its last. */
  function RunThrough(days: set<Day>, day: Day): (n: nat) {
    Streak(days, day - 1) + 1 + Ahead(days, day)
  }

  predicate Following(days: set<Day>, day: Day, n: nat) { forall d :: day < d <= day + n ==> d in days }

  /** How many consecutive days of a set follow a day. */
  function Ahead(days: set<Day>, day: Day): (n: nat)
    ensures Following(days, day, n) && day + n + 1 !in days
    decreases |days|
  {
    if day + 1 in days then
      var rest := Ahead(days - {day + 1}, day + 1);
      AheadExtends(days, day, rest);
      rest + 1
    else 0
  }

  lemma AheadExtends(days: set<Day>, day: Day, rest: nat)
    requires day + 1 in days && Following(days - {day + 1}, day + 1, rest) && day + 1 + rest + 1 !in days - {day + 1}
    ensures Following(days, day, rest + 1) && day + (rest + 1) + 1 !in days
  {
    forall d | day < d <= day + (rest + 1) ensures d in days {
      if d != day + 1 { assert d in days - {day + 1}; }
    }
  }

  lemma AheadRuns(days: set<Day>, day: Day)
    ensures Following(days, day, Ahead(days, day)) && day + Ahead(days, day) + 1 !in days
    ensures Ahead(days, day) == 0 <==> day + 1 !in days
  {
  }

  /** The run through the new day ends after what follows it, and no streak that changes is longer. */
  lemma RunEnds(days: set<Day>, day: Day)
    requires day !in days
    ensures day + Ahead(days, day) in days + {day}
    ensures Streak(days + {day}, day + Ahead(days, day)) == RunThrough(days, day)
  {
    AheadRuns(days, day);
    NewDay(days, day);
    hide Streak, Ahead;
    var n := Ahead(days, day);
    if n > 0 {
      var end := day + n;
      StreakOfRun(days, day, n);
      StreakJoined(days, day, end);
    }
  }

  lemma StreakOfRun(days: set<Day>, day: Day, n: nat)
    requires day !in days && Following(days, day, n) && n > 0
    ensures Streak(days, day + n) == n && day + n in days
  {
    hide Streak;
    assert Consecutive(days, day + n, n);
    StreakIsMaximal(days, day + n, n);
  }

  lemma ChangedStreak(days: set<Day>, day: Day, end: Day)
    requires day !in days && end in days
    ensures Streak(days + {day}, end) == Streak(days, end) || Streak(days + {day}, end) <= RunThrough(days, day)
  {
    StreakRuns(days, end);
    AheadRuns(days, day);
    hide Streak, Ahead;
    if end - Streak(days, end) == day {
      StreakJoined(days, day, end);
      WithinRun(days, day, end, Streak(days, end), Ahead(days, day));
    } else {
      StreakElsewhere(days, day, end);
    }
  }

  lemma WithinRun(days: set<Day>, day: Day, end: Day, n: nat, ahead: nat)
    requires Consecutive(days, end, n) && end - n == day && day + ahead + 1 !in days
    ensures n <= ahead
  {
    assert n > ahead ==> day + ahead + 1 in days;
  }

  /** No streak is longer than both the old best and the run through the new day. */
  lemma StreaksBelow(days: set<Day>, day: Day, best: nat, end: Day)
    requires IsBest(days, best) && day !in days && end in days + {day}
    ensures Streak(days + {day}, end) <= Max(best, RunThrough(days, day))
  {
    hide Streak, RunThrough;
    if end == day { NewDayWithin(days, day); } else { ChangedStreak(days, day, end); }
  }

  /** The old best is still reached, unless a longer streak replaces it. */
  lemma StillReached(days: set<Day>, day: Day, best: nat) returns (end: Day)
    requires IsBest(days, best) && day !in days && best > 0
    ensures end in days && Streak(days + {day}, end) >= best
  {
    hide Streak;
    end :| end in days && Streak(days, end) == best;
    StreakNearby(days, day, end);
  }

  /** The greater of the old best and the new streak is the best exactly when the whole run is no longer. */
  lemma BestExactly(days: set<Day>, day: Day, best: nat, streak: nat)
    requires IsBest(days, best) && day !in days && 0 < streak <= RunThrough(days, day)
    ensures IsBest(days + {day}, Max(best, streak)) <==> RunThrough(days, day) <= Max(best, streak)
  {
    RunEnds(days, day);
    hide Streak, Ahead, RunThrough;
    if RunThrough(days, day) <= Max(best, streak) {
      BestReached(days, day, best, streak);
      forall d | d in days + {day}
        ensures Streak(days + {day}, d) <= Max(best, streak)
      {
        StreaksBelow(days, day, best, d);
      }
    }
  }

  lemma BestReached(days: set<Day>, day: Day, best: nat, streak: nat)
    requires IsBest(days, best) && day !in days && 0 < streak <= RunThrough(days, day) <= Max(best, streak)
    ensures exists d :: d in days + {day} && Streak(days + {day}, d) == Max(best, streak)
  {
    RunEnds(days, day);
    hide Streak, Ahead, RunThrough, IsBest;
    if best > streak {
      var end := StillReached(days, day, best);
      StreaksBelow(days, day, best, end);
      assert end in days + {day};
    }
  }

  lemma NewDayWithin(days: set<Day>, day: Day)
    ensures Streak(days + {day}, day) <= RunThrough(days, day)
  {
    NewDay(days, day);
    hide Streak, Ahead;
  }

  // ---------------------------------------------------------------- one more attempt

  function LastDay(s: State): Option<Day> { if s.profile.Some? then Some(s.profile.value.lastAnsweredDay) else None }

  function CurrentStreak(s: State): nat { if s.profile.Some? then s.profile.value.currentStreak else 0 }

  function BestStreak(s: State): nat { if s.profile.Some? then s.profile.value.bestStreak else 0 }

  function XpTotal(s: State): nat { if s.profile.Some? then s.profile.value.xpTotal else 0 }

  /** What the profile says of the attempts so far, nothing being said by none. */
  lemma ProfileBefore(s: State)
    requires Recounted(s)
    ensures var days := CorrectDays(s.attempts);
            && (LastDay(s).Some? ==> CurrentStreak(s) == Streak(days, LastDay(s).value))
            && (LastDay(s).None? ==> days == {})
            && IsBest(days, BestStreak(s)) && XpTotal(s) == Awards(s.attempts, days)
  {
    hide Streak, Earned;
    if s.profile.None? { assert CorrectDays(s.attempts) == {}; }
  }

  lemma UnansweredDay(s: State, day: Day)
    requires FindAttempt(s.attempts, day).None?
    ensures day !in CorrectDays(s.attempts)
  {
  }

  /** A correct answer counts the streak rightly exactly when it follows the last answer, or no correct day. */
  lemma NextStreakExactly(s: State, day: Day)
    requires Recounted(s)
    ensures var days := CorrectDays(s.attempts);
            var next := NextStreak(LastDay(s), CurrentStreak(s), day, true);
            && (next == Streak(days + {day}, day) <==> LastDay(s) == Some(day - 1) || day - 1 !in days)
            && 0 < next <= Streak(days + {day}, day) <= RunThrough(days, day)
  {
    hide Recounted, IsBest, Awards, Earned, CorrectDays;
    ProfileBefore(s);
    var days := CorrectDays(s.attempts);
    NewDay(days, day);
    NewDayWithin(days, day);
    NoStreak(days, day - 1);
    hide Streak, RunThrough;
  }

  /** The streak a new attempt is given: the current streak stays a recount exactly then. */
  lemma CurrentExactly(s: State, a: Attempt)
    requires Recounted(s) && a.streakAfter == NextStreak(LastDay(s), CurrentStreak(s), a.day, a.correct)
    requires a.day !in CorrectDays(s.attempts)
    ensures a.streakAfter == Streak(CorrectDays(s.attempts + [a]), a.day)
            <==> !a.correct || LastDay(s) == Some(a.day - 1) || a.day - 1 !in CorrectDays(s.attempts)
  {
    hide Recounted, Streak, CorrectDays;
    AppendCorrect(s.attempts, a);
    if a.correct {
      NextStreakExactly(s, a.day);
    } else {
      assert CorrectDays(s.attempts) + {} == CorrectDays(s.attempts);
      NoStreak(CorrectDays(s.attempts), a.day);
    }
  }

  /** The best streak stays a recount exactly when the run through the day is not longer than both. */
  lemma BestAfterExactly(s: State, a: Attempt)
    requires Recounted(s) && a.streakAfter == NextStreak(LastDay(s), CurrentStreak(s), a.day, a.correct)
    requires a.day !in CorrectDays(s.attempts)
    ensures IsBest(CorrectDays(s.attempts + [a]), Max(BestStreak(s), a.streakAfter))
            <==> !a.correct || RunThrough(CorrectDays(s.attempts), a.day) <= Max(BestStreak(s), a.streakAfter)
  {
    hide Recounted, Streak, CorrectDays, IsBest, RunThrough;
    AppendCorrect(s.attempts, a);
    ProfileBefore(s);
    if a.correct {
      NextStreakExactly(s, a.day);
      BestExactly(CorrectDays(s.attempts), a.day, BestStreak(s), a.streakAfter);
    } else {
      assert CorrectDays(s.attempts) + {} == CorrectDays(s.attempts);
    }
  }

  /** Given the right streak, the experience stays a recount exactly when the next day was not answered correctly. */
  lemma XpAfterExactly(s: State, a: Attempt)
    requires Recounted(s) && a.day !in CorrectDays(s.attempts)
    requires a.streakAfter == Streak(CorrectDays(s.attempts + [a]), a.day)
    requires a.xp == XpForAnswer(a.correct, a.streakAfter)
    ensures XpTotal(s) + a.xp == Awards(s.attempts + [a], CorrectDays(s.attempts + [a]))
            <==> !a.correct || a.day + 1 !in CorrectDays(s.attempts)
  {
    hide Recounted, Streak, CorrectDays, XpForAnswer, AwardFor, Awards;
    AppendCorrect(s.attempts, a);
    ProfileBefore(s);
    XpIsAward(a.correct, a.streakAfter);
    AwardsAppend(s.attempts, a, CorrectDays(s.attempts + [a]));
    if a.correct {
      AttemptsAreDays(s.attempts, a.day + 1);
      AwardsGrow(s.attempts, CorrectDays(s.attempts), a.day);
    } else {
      assert CorrectDays(s.attempts) + {} == CorrectDays(s.attempts);
    }
  }

  /** Nothing follows: the run through the day is the streak that ends there. */
  lemma NothingAhead(days: set<Day>, day: Day)
    requires day + 1 !in days
    ensures RunThrough(days, day) == Streak(days + {day}, day)
  {
    AheadRuns(days, day);
    NewDay(days, day);
    hide Streak, Ahead;
  }

  /** A submission can be counted by the rule, told from the profile and the days answered correctly. */
  predicate Harmless(s: State, day: Day, correct: bool) {
    !correct || ((LastDay(s) == Some(day - 1) || day - 1 !in CorrectDays(s.attempts))
                 && day + 1 !in CorrectDays(s.attempts))
  }

  lemma SameBadges(first: bool, best: nat, streak: nat, badge: Badge)
    requires first ==> best == 0
    ensures (!first && Deserved(badge, best)) || badge in Earned(first, streak) <==> Deserved(badge, Max(best, streak))
  {
  }

  lemma RecountedAfter(s: State, a: Attempt)
    requires Recounted(s)
    ensures var days := CorrectDays(s.attempts + [a]);
            Recounted(State(s.attempts + [a], Some(UpsertProfile(s.profile, a)),
                            s.badges + Earned(s.profile.None?, a.streakAfter)))
            <==> a.streakAfter == Streak(days, a.day) && IsBest(days, Max(BestStreak(s), a.streakAfter))
                 && XpTotal(s) + a.xp == Awards(s.attempts + [a], days)
  {
    hide Awards, IsBest, Earned, Streak, CorrectDays, Deserved;
    forall badge { SameBadges(s.profile.None?, BestStreak(s), a.streakAfter, badge); }
    assert (s.attempts + [a])[|s.attempts|] == a;
  }

  /**
   * A submission keeps the whole profile what a recount gives exactly when it is a replay, is wrong, or
   * has no correct day after it and none before it other than the day of the last answer.
   */
  lemma SubmitRecountsExactly(s: State, day: Day, answer: char, key: seq<char>)
    requires Recounted(s) && key != []
    ensures Recounted(Submitted(s, day, answer, key))
            <==> FindAttempt(s.attempts, day).Some? || Harmless(s, day, NewAttempt(s, day, answer, key).correct)
  {
    hide Recounted, Awards, IsBest, Earned, Streak, CorrectDays, FindAttempt, QuestionIndex, XpForAnswer,
        UpsertProfile, RunThrough;
    if FindAttempt(s.attempts, day).None? {
      var a := NewAttempt(s, day, answer, key);
      UnansweredDay(s, day);
      RecountedAfter(s, a);
      CurrentExactly(s, a);
      BestAfterExactly(s, a);
      if a.streakAfter == Streak(CorrectDays(s.attempts + [a]), a.day) {
        XpAfterExactly(s, a);
        AppendCorrect(s.attempts, a);
        if day + 1 !in CorrectDays(s.attempts) { NothingAhead(CorrectDays(s.attempts), day); }
      }
    }
  }

  /**
   * On a day earlier than the last one answered the stored current streak is the recounted one exactly
   * when the answer is wrong or the day before was not answered correctly, and the best streak exactly
   * when the answer is wrong or the run through that day is not longer than the best so far (or than one).
   */
  lemma GoingBackExactly(s: State, day: Day, answer: char, key: seq<char>)
    requires Recounted(s) && key != [] && FindAttempt(s.attempts, day).None?
    requires LastDay(s).Some? && day < LastDay(s).value
    ensures var days, s' := CorrectDays(s.attempts), Submitted(s, day, answer, key);
            var correct := NewAttempt(s, day, answer, key).correct;
            && (CurrentStreak(s') == Streak(CorrectDays(s'.attempts), day) <==> !correct || day - 1 !in days)
            && (IsBest(CorrectDays(s'.attempts), BestStreak(s'))
                <==> !correct || RunThrough(days, day) <= Max(BestStreak(s), 1))
  {
    hide Recounted, Awards, IsBest, Earned, Streak, CorrectDays, FindAttempt, QuestionIndex, XpForAnswer, RunThrough;
    var a := NewAttempt(s, day, answer, key);
    UnansweredDay(s, day);
    CurrentExactly(s, a);
    BestAfterExactly(s, a);
  }

  // ---------------------------------------------------------------- runs

  datatype Submission = Submission(day: Day, answer: char)

  function Run(submissions: seq<Submission>, key: seq<char>): State
    requires key != []
  {
    if submissions == [] then State([], None, {})
    else
      var last := submissions[|submissions| - 1];
      Submitted(Run(submissions[..|submissions| - 1], key), last.day, last.answer, key)
  }

  /** Submission n of a run is a replay or harmless where it arrives. */
  predicate Countable(submissions: seq<Submission>, key: seq<char>, n: nat)
    requires key != [] && n < |submissions|
  {
    var s, next := Run(submissions[..n], key), submissions[n];
    FindAttempt(s.attempts, next.day).Some? || Harmless(s, next.day, NewAttempt(s, next.day, next.answer, key).correct)
  }

  lemma {:induction false} CountableRunsRecount(submissions: seq<Submission>, key: seq<char>)
    requires key != [] && forall n :: 0 <= n < |submissions| ==> Countable(submissions, key, n)
    ensures Recounted(Run(submissions, key))
  {
    hide Recounted, Submitted, Countable;
    if submissions == [] {
      NothingRecounts();
    } else {
      var n := |submissions| - 1;
      forall k | 0 <= k < n ensures Countable(submissions[..n], key, k) { SameCountable(submissions, key, n, k); }
      CountableRunsRecount(submissions[..n], key);
      LastCountable(submissions, key);
      SubmitRecountsExactly(Run(submissions[..n], key), submissions[n].day, submissions[n].answer, key);
    }
  }

  lemma NothingRecounts()
    ensures Recounted(State([], None, {}))
  {
  }

  lemma SameCountable(submissions: seq<Submission>, key: seq<char>, n: nat, k: nat)
    requires key != [] && k < n <= |submissions|
    ensures Countable(submissions[..n], key, k) <==> Countable(submissions, key, k)
  {
    hide Run, FindAttempt, Harmless, NewAttempt;
    assert submissions[..n][..k] == submissions[..k];
  }

  lemma LastCountable(submissions: seq<Submission>, key: seq<char>)
    requires key != [] && submissions != []
    ensures var n := |submissions| - 1;
            var s, next := Run(submissions[..n], key), submissions[n];
            Countable(submissions, key, n) <==>
              FindAttempt(s.attempts, next.day).Some?
                  || Harmless(s, next.day, NewAttempt(s, next.day, next.answer, key).correct)
  {
  }

  /** The profile is what a recount gives at every moment of a run exactly when every submission of it is countable. */
  lemma {:induction false} RunRecountsExactly(submissions: seq<Submission>, key: seq<char>)
    requires key != []
    ensures (forall n :: 0 <= n <= |submissions| ==> Recounted(Run(submissions[..n], key)))
            <==> (forall n :: 0 <= n < |submissions| ==> Countable(submissions, key, n))
  {
    hide Recounted, Run, Countable;
    if forall n :: 0 <= n < |submissions| ==> Countable(submissions, key, n) {
      forall n | 0 <= n <= |submissions| ensures Recounted(Run(submissions[..n], key)) {
        forall k | 0 <= k < n ensures Countable(submissions[..n], key, k) { SameCountable(submissions, key, n, k); }
        CountableRunsRecount(submissions[..n], key);
      }
    }
    if forall n :: 0 <= n <= |submissions| ==> Recounted(Run(submissions[..n], key)) {
      forall n | 0 <= n < |submissions| ensures Countable(submissions, key, n) { RecountedStep(submissions, key, n); }
    }
  }

  lemma RecountedStep(submissions: seq<Submission>, key: seq<char>, n: nat)
    requires key != [] && n < |submissions|
    requires Recounted(Run(submissions[..n], key)) && Recounted(Run(submissions[..n + 1], key))
    ensures Countable(submissions, key, n)
  {
    assert submissions[..n + 1][..n] == submissions[..n];
    hide Recounted, Submitted, FindAttempt, Harmless, NewAttempt;
    SubmitRecountsExactly(Run(submissions[..n], key), submissions[n].day, submissions[n].answer, key);
  }

  // ---------------------------------------------------------------- what an attempt records

  /** An attempt is marked by the day's question of the bank, and its own award. */
  predicate Marked(a: Attempt, key: seq<char>)
    requires key != []
  {
    && a.question == a.day % |key|
    && (a.correct <==> key[a.day % |key|] == a.answer)
    && a.xp == AwardFor(a.correct, a.streakAfter)
    && (a.streakAfter > 0 <==> a.correct)
  }

  /** Attempt by attempt marked, and no two on one day. */
  predicate WellMarked(attempts: seq<Attempt>, key: seq<char>)
    requires key != []
  {
    && (forall i :: 0 <= i < |attempts| ==> Marked(attempts[i], key))
    && (forall i, j :: 0 <= i < j < |attempts| ==> attempts[i].day != attempts[j].day)
  }

  lemma NewIsMarked(s: State, day: Day, answer: char, key: seq<char>)
    requires key != []
    ensures var a := NewAttempt(s, day, answer, key); Marked(a, key) && a.day == day && a.answer == answer
  {
    hide XpForAnswer, AwardFor;
    var a := NewAttempt(s, day, answer, key);
    XpIsAward(a.correct, a.streakAfter);
    assert QuestionIndex(day, |key|) == day % |key|;
  }

  /** In every run each attempt is marked by its day's question, and every day is answered once. */
  lemma {:induction false} AttemptsAreMarked(submissions: seq<Submission>, key: seq<char>)
    requires key != []
    ensures WellMarked(Run(submissions, key).attempts, key)
  {
    hide NewAttempt, Marked, FindAttempt;
    if submissions != [] {
      var n := |submissions| - 1;
      AttemptsAreMarked(submissions[..n], key);
      NewIsMarked(Run(submissions[..n], key), submissions[n].day, submissions[n].answer, key);
    }
  }

  predicate Answered(s: State, day: Day, answer: char) {
    exists i :: 0 <= i < |s.attempts| && s.attempts[i].day == day && s.attempts[i].answer == answer
  }

  lemma StaysAnswered(s: State, next: Submission, key: seq<char>, day: Day, answer: char)
    requires key != [] && Answered(s, day, answer)
    ensures Answered(Submitted(s, next.day, next.answer, key), day, answer)
  {
    hide NewAttempt, FindAttempt;
    var i :| 0 <= i < |s.attempts| && s.attempts[i].day == day && s.attempts[i].answer == answer;
    assert Submitted(s, next.day, next.answer, key).attempts[i] == s.attempts[i];
  }

  lemma NowAnswered(s: State, day: Day, answer: char, key: seq<char>)
    requires key != [] && FindAttempt(s.attempts, day).None?
    ensures Answered(Submitted(s, day, answer, key), day, answer)
  {
    NewIsMarked(s, day, answer, key);
    hide NewAttempt, FindAttempt;
    var s' := Submitted(s, day, answer, key);
    assert s'.attempts[|s.attempts|].day == day;
  }

  /** The days attempted are those submitted. */
  lemma {:induction false} OnlySubmittedDays(submissions: seq<Submission>, key: seq<char>, day: Day)
    requires key != [] && forall n :: 0 <= n < |submissions| ==> submissions[n].day != day
    ensures FindAttempt(Run(submissions, key).attempts, day).None?
  {
    if submissions != [] {
      var n := |submissions| - 1;
      OnlySubmittedDays(submissions[..n], key, day);
      var s := Run(submissions[..n], key);
      NewIsMarked(s, submissions[n].day, submissions[n].answer, key);
      hide NewAttempt;
      assert forall i :: 0 <= i < |s.attempts| ==> s.attempts[i].day != day;
    }
  }

  /** Of the submissions of one day it is the first that counts; what is answered later that day changes nothing. */
  lemma {:induction false} FirstAnswerCounts(submissions: seq<Submission>, key: seq<char>, n: nat)
    requires key != [] && n < |submissions|
    requires forall m :: 0 <= m < n ==> submissions[m].day != submissions[n].day
    ensures Answered(Run(submissions, key), submissions[n].day, submissions[n].answer)
    ensures forall again ::
              Submitted(Run(submissions, key), submissions[n].day, again, key) == Run(submissions, key)
    decreases |submissions|
  {
    hide Submitted;
    var last := |submissions| - 1;
    var before := Run(submissions[..last], key);
    if n == last {
      OnlySubmittedDays(submissions[..n], key, submissions[n].day);
      NowAnswered(before, submissions[n].day, submissions[n].answer, key);
    } else {
      FirstAnswerCounts(submissions[..last], key, n);
      StaysAnswered(before, submissions[last], key, submissions[n].day, submissions[n].answer);
    }
    AnsweredDayReplays(Run(submissions, key), submissions[n].day, submissions[n].answer, key);
  }

  lemma AnsweredDayReplays(s: State, day: Day, answer: char, key: seq<char>)
    requires key != [] && Answered(s, day, answer)
    ensures forall again :: Submitted(s, day, again, key) == s
  {
    hide NewAttempt;
    assert FindAttempt(s.attempts, day).Some?;
  }

  // ---------------------------------------------------------------- days in order

  /** The server's days never go back. */
  predicate DaysInOrder(submissions: seq<Submission>) {
    forall i, j :: 0 <= i < j < |submissions| ==> submissions[i].day <= submissions[j].day
  }

  /** The last answer is on the latest day, and no later than a given one. */
  predicate LatestIsLast(s: State, day: Day) {
    && Rising(s.attempts)
    && (LastDay(s).None? <==> s.attempts == [])
    && (LastDay(s).Some? ==> LastDay(s).value <= day && s.attempts[|s.attempts| - 1].day == LastDay(s).value)
  }

  lemma LatestStays(s: State, before: Day, day: Day, answer: char, key: seq<char>)
    requires LatestIsLast(s, before) && before <= day && key != []
    ensures LatestIsLast(Submitted(s, day, answer, key), day)
  {
    if FindAttempt(s.attempts, day).None? && s.attempts != [] {
      var n := |s.attempts|;
      forall i | 0 <= i < n ensures s.attempts[i].day < day {
        assert s.attempts[i].day != day;
        if i < n - 1 { assert s.attempts[i].day < s.attempts[n - 1].day; }
      }
    }
  }

  lemma LatestIsHarmless(s: State, before: Day, day: Day, correct: bool)
    requires LatestIsLast(s, before) && before <= day && FindAttempt(s.attempts, day).None?
    ensures Harmless(s, day, correct)
  {
    forall d | d in CorrectDays(s.attempts) ensures d < day && (d == day - 1 ==> LastDay(s) == Some(day - 1)) {
      var i :| 0 <= i < |s.attempts| && s.attempts[i].correct && s.attempts[i].day == d;
      var n := |s.attempts|;
      assert s.attempts[n - 1].day != day;
      if i < n - 1 { assert s.attempts[i].day < s.attempts[n - 1].day; }
    }
  }

  lemma {:induction false} LatestOverRun(submissions: seq<Submission>, key: seq<char>)
    requires key != [] && DaysInOrder(submissions)
    ensures submissions == [] ==> Run(submissions, key) == State([], None, {})
    ensures submissions != [] ==> LatestIsLast(Run(submissions, key), submissions[|submissions| - 1].day)
  {
    if submissions != [] {
      var n := |submissions| - 1;
      LatestOverRun(submissions[..n], key);
      hide Submitted;
      LatestStays(Run(submissions[..n], key), if n > 0 then submissions[n - 1].day else submissions[n].day,
                  submissions[n].day, submissions[n].answer, key);
    }
  }

  /** On days that do not go back every submission is countable, so the profile is always what a recount gives. */
  lemma RunRecounts(submissions: seq<Submission>, key: seq<char>)
    requires key != [] && DaysInOrder(submissions)
    ensures Recounted(Run(submissions, key))
  {
    hide Recounted, Countable;
    forall n | 0 <= n < |submissions| ensures Countable(submissions, key, n) { InOrderCountable(submissions, key, n); }
    CountableRunsRecount(submissions, key);
  }

  lemma InOrderCountable(submissions: seq<Submission>, key: seq<char>, n: nat)
    requires key != [] && DaysInOrder(submissions) && n < |submissions|
    ensures Countable(submissions, key, n)
  {
    LatestOverRun(submissions[..n], key);
    hide Run, Harmless, NewAttempt;
    var s, day := Run(submissions[..n], key), submissions[n].day;
    if FindAttempt(s.attempts, day).None? {
      LatestIsHarmless(s, if n > 0 then submissions[n - 1].day
                       else day, day, NewAttempt(s, day, submissions[n].answer, key).correct);
    }
  }

  /**
   * Correct answers on days 1, 3 and then 2: a streak of one is stored where two are due, and a best of
   * one for three.
   */
  lemma GoingBackBreaksTheRecount(key: seq<char>, answer: char)
    requires key == [answer]
    ensures var s := Run([Submission(1, answer), Submission(3, answer), Submission(2, answer)], key);
            && LastDay(s) == Some(2) && CurrentStreak(s) == 1 && Streak(CorrectDays(s.attempts), 2) == 2
            && BestStreak(s) == 1 && IsBest(CorrectDays(s.attempts), 3)
  {
    var all := [Submission(1, answer), Submission(3, answer), Submission(2, answer)];
    assert all[..2] == [all[0], all[1]] && all[..2][..1] == [all[0]] && [all[0]][..0] == [];
    var a, b, c := Attempt(1, 0, answer, true, 11, 1), Attempt(3, 0, answer, true, 11, 1),
        Attempt(2, 0, answer, true, 11, 1);
    assert Run([], key) == State([], None, {});
    assert Run([all[0]], key) == State([a], Some(Profile(11, 1, 1, 1)), {FirstAnswer});
    assert Run(all[..2], key) == State([a, b], Some(Profile(22, 1, 1, 3)), {FirstAnswer});
    assert Run(all, key) == State([a, b, c], Some(Profile(33, 1, 1, 2)), {FirstAnswer});
    hide Streak, IsBest, NewAttempt, Submitted, Run, FindAttempt;
    ThreeDays(a, b, c);
  }

  lemma ThreeDays(a: Attempt, b: Attempt, c: Attempt)
    requires a.correct && a.day == 1 && b.correct && b.day == 3 && c.correct && c.day == 2
    ensures Streak(CorrectDays([a, b, c]), 2) == 2 && IsBest(CorrectDays([a, b, c]), 3)
  {
    hide Streak;
    var days := CorrectDays([a, b, c]);
    assert [a, b, c][0].day in days && [a, b, c][1].day in days && [a, b, c][2].day in days;
    assert days == {1, 2, 3};
    StreakIsMaximal(days, 1, 1);
    StreakIsMaximal(days, 2, 2);
    StreakIsMaximal(days, 3, 3);
  }
}
