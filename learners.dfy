/**
 * A learner's standing on the problem-solving platform: the problems solved,
 * the points earned, the daily streak and the badges. Calendar days are
 * whole numbers, so "yesterday" is `today - 1`.
 *
 * `Accept` is the update made when a submission is accepted (the
 * gamification block of the submission route); `User` is the stored record
 * that the route and the progress page update in place.
 */
module Learners {
  import opened Wrappers

  const FirstCode: string := "First Code \U{F0}\U{178}\U{A3}"
  const StreakMaster: string := "Streak Master \U{F0}\U{178}\U{201D}\U{A5}"
  const Century: string := "Century \U{F0}\U{178}\U{2019}\U{AF}"

  /** No element occurs twice. */
  predicate Distinct<T(==)>(xs: seq<T>) {
    forall i, j :: 0 <= i < j < |xs| ==> xs[i] != xs[j]
  }

  /** `pointsMap[difficulty] || 10`. */
  function PointsFor(difficulty: string): (p: nat)
    ensures 10 <= p <= 30 && p % 10 == 0
  {
    if difficulty == "Easy" then 10
    else if difficulty == "Medium" then 20
    else if difficulty == "Hard" then 30
    else 10
  }

  /** The three keys of the points table earn 10, 20 and 30, any other key
      the default 10. */
  lemma PointsTable(difficulty: string)
    ensures PointsFor("Easy") == 10 && PointsFor("Medium") == 20 && PointsFor("Hard") == 30
    ensures difficulty != "Medium" && difficulty != "Hard" ==> PointsFor(difficulty) == 10
  {
  }

  /** The table's keys are in title case; a difficulty written in lower
      case finds no entry and earns the default. */
  lemma LowerCaseScoresDefault()
    ensures PointsFor("easy") == 10 && PointsFor("medium") == 10 && PointsFor("hard") == 10
  {
  }

  /** `xs` with `x` appended unless it is already there. */
  function AddMissing<T(==)>(xs: seq<T>, x: T): (r: seq<T>)
    ensures x in r && |xs| <= |r| && r[..|xs|] == xs
    ensures x in xs ==> r == xs
  {
    if x in xs then xs else xs + [x]
  }

  /** Appending a missing element brings in nothing else and no repeat. */
  lemma AddMissingShape<T>(xs: seq<T>, x: T)
    ensures forall y :: y in AddMissing(xs, x) ==> y in xs || y == x
    ensures Distinct(xs) ==> Distinct(AddMissing(xs, x))
  {
  }

  /** `xs` with `x` added when `cond` holds. */
  function AddIf<T(==)>(xs: seq<T>, cond: bool, x: T): (r: seq<T>)
    ensures |xs| <= |r| && r[..|xs|] == xs
    ensures cond ==> x in r
    ensures !cond ==> r == xs
  {
    if cond then AddMissing(xs, x) else xs
  }

  /** A conditional addition keeps what was there, brings in nothing but
      `x` and no repeat. */
  lemma AddIfShape<T>(xs: seq<T>, cond: bool, x: T)
    ensures forall y :: y in xs ==> y in AddIf(xs, cond, x)
    ensures forall y :: y in AddIf(xs, cond, x) ==> y in xs || (cond && y == x)
    ensures Distinct(xs) ==> Distinct(AddIf(xs, cond, x))
  {
    AddMissingShape(xs, x);
    if cond {
      assert AddIf(xs, cond, x)[..|xs|] == xs;
    }
  }

  datatype Stats = Stats(solved: seq<int>, points: int, streak: int, lastSolved: Option<int>, badges: seq<string>)

  /** The streak after a solve on a day other than the last solve's. */
  function NextStreak(streak: int, lastSolved: Option<int>, today: int): int {
    if lastSolved == Some(today - 1) then streak + 1 else 1
  }

  /** The badges after a solve: the first-solve badge, then the streak badge
      from a streak of 3 and the century badge from 100 points. */
  function Award(badges: seq<string>, streak: int, points: int): (r: seq<string>)
    ensures |badges| <= |r| && r[..|badges|] == badges
    ensures FirstCode in r
    ensures streak >= 3 ==> StreakMaster in r
    ensures points >= 100 ==> Century in r
  {
    var a := AddMissing(badges, FirstCode);
    var b := AddIf(a, streak >= 3, StreakMaster);
    var c := AddIf(b, points >= 100, Century);
    assert b[..|a|] == a && c[..|b|] == b;
    c
  }

  /** Only badges already held or earned by this solve are present, and none
      twice. */
  lemma AwardOnlyEarned(badges: seq<string>, streak: int, points: int)
    ensures forall b :: b in Award(badges, streak, points) ==>
              b in badges || b == FirstCode || (b == StreakMaster && streak >= 3) || (b == Century && points >= 100)
    ensures Distinct(badges) ==> Distinct(Award(badges, streak, points))
  {
    var a := AddMissing(badges, FirstCode);
    AddMissingShape(badges, FirstCode);
    var b := AddIf(a, streak >= 3, StreakMaster);
    AddIfShape(a, streak >= 3, StreakMaster);
    AddIfShape(b, points >= 100, Century);
  }

  /** The update made when a submission for problem `id` of the given
      difficulty is accepted on day `today`. */
  function Accept(s: Stats, id: int, difficulty: string, today: int): Stats {
    var first := id !in s.solved;
    var solved := AddMissing(s.solved, id);
    var points := if first then s.points + PointsFor(difficulty) else s.points;
    var streak := if s.lastSolved == Some(today) then s.streak else NextStreak(s.streak, s.lastSolved, today);
    Stats(solved, points, streak, Some(today), Award(s.badges, streak, points))
  }

  /** A first solve appends the problem once and adds its points; a repeat
      solve changes neither the solved list nor the points. */
  lemma AcceptSolved(s: Stats, id: int, difficulty: string, today: int)
    ensures var r := Accept(s, id, difficulty, today);
            && (id !in s.solved ==> r.solved == s.solved + [id] && r.points == s.points + PointsFor(difficulty))
            && (id in s.solved ==> r.solved == s.solved && r.points == s.points)
  {
  }

  /** The streak rule: unchanged on the same day, one more the day after,
      otherwise a fresh streak of 1; the last solve is now today. */
  lemma AcceptStreak(s: Stats, id: int, difficulty: string, today: int)
    ensures var r := Accept(s, id, difficulty, today);
            && (s.lastSolved == Some(today) ==> r.streak == s.streak)
            && (s.lastSolved == Some(today - 1) ==> r.streak == s.streak + 1)
            && (s.lastSolved != Some(today) && s.lastSolved != Some(today - 1) ==> r.streak == 1)
            && r.lastSolved == Some(today)
  {
  }

  /** Lists without repeats stay without repeats, and the badges earned so
      far are kept in front. */
  lemma AcceptKeepsDistinct(s: Stats, id: int, difficulty: string, today: int)
    requires Distinct(s.solved) && Distinct(s.badges)
    ensures var r := Accept(s, id, difficulty, today);
            && Distinct(r.solved) && Distinct(r.badges)
            && |s.badges| <= |r.badges| && r.badges[..|s.badges|] == s.badges
  {
    AddMissingShape(s.solved, id);
    var r := Accept(s, id, difficulty, today);
    AwardOnlyEarned(s.badges, r.streak, r.points);
  }

  /** Accepting the same problem again on the same day changes nothing. */
  lemma AcceptIdempotent(s: Stats, id: int, difficulty: string, today: int)
    ensures var r := Accept(s, id, difficulty, today);
            Accept(r, id, difficulty, today) == r
  {
    var r := Accept(s, id, difficulty, today);
    var a := AddMissing(r.badges, FirstCode);
    assert a == r.badges;
    var b := AddIf(a, r.streak >= 3, StreakMaster);
    assert b == r.badges;
  }

  /** The stored learner record. */
  class User {
    var solved: seq<int>
    var points: int
    var streak: int
    var lastSolved: Option<int>
    var badges: seq<string>

    function Snapshot(): Stats
      reads this
    {
      Stats(solved, points, streak, lastSolved, badges)
    }

    /** A new learner: nothing solved, no points, no streak, no badges. */
    constructor ()
      ensures Snapshot() == Stats([], 0, 0, None, [])
    {
      solved := [];
      points := 0;
      streak := 0;
      lastSolved := None;
      badges := [];
    }

    /** The gamification block: the solved list and the points on a first
        solve, then the streak, then the badges. */
    method RecordAccepted(id: int, difficulty: string, today: int)
      modifies this
      ensures Snapshot() == Accept(old(Snapshot()), id, difficulty, today)
    {
      CreditSolve(id, difficulty);
      AdvanceStreak(today);
      AwardBadges();
    }

    /** A problem not yet solved is appended and its points added. */
    method CreditSolve(id: int, difficulty: string)
      modifies this
      ensures solved == AddMissing(old(solved), id)
      ensures points == if id in old(solved) then old(points) else old(points) + PointsFor(difficulty)
      ensures streak == old(streak) && lastSolved == old(lastSolved) && badges == old(badges)
    {
      if id !in solved {
        solved := solved + [id];
        points := points + PointsFor(difficulty);
      }
    }

    /** The first solve of a day extends yesterday's streak or starts a new
        one; later solves that day leave it alone. */
    method AdvanceStreak(today: int)
      modifies this
      ensures streak == if old(lastSolved) == Some(today) then old(streak) else NextStreak(old(streak), old(lastSolved), today)
      ensures lastSolved == Some(today)
      ensures solved == old(solved) && points == old(points) && badges == old(badges)
    {
      if lastSolved != Some(today) {
        if lastSolved == Some(today - 1) {
          streak := streak + 1;
        } else {
          streak := 1;
        }
        lastSolved := Some(today);
      }
    }

    /** The badges earned by the current streak and points are added. */
    method AwardBadges()
      modifies this
      ensures badges == Award(old(badges), streak, points)
      ensures solved == old(solved) && points == old(points) && streak == old(streak) && lastSolved == old(lastSolved)
    {
      badges := AddMissing(badges, FirstCode);
      if streak >= 3 {
        badges := AddMissing(badges, StreakMaster);
      }
      if points >= 100 {
        badges := AddMissing(badges, Century);
      }
    }

    /** The progress page's write-back: each field that differs from the
        recalculated value is replaced, and the record is saved when any
        field changed. */
    method Reconcile(newPoints: int, newStreak: int, newBadges: seq<string>) returns (saved: bool)
      modifies this
      ensures points == newPoints && streak == newStreak && badges == newBadges
      ensures solved == old(solved) && lastSolved == old(lastSolved)
      ensures saved <==> old(points) != newPoints || old(streak) != newStreak || old(badges) != newBadges
    {
      saved := false;
      if points != newPoints {
        points := newPoints;
        saved := true;
      }
      if streak != newStreak {
        streak := newStreak;
        saved := true;
      }
      if badges != newBadges {
        badges := newBadges;
        saved := true;
      }
    }
  }
}
