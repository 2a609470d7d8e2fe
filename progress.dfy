/**
 * The progress page: from a learner's accepted submissions and the active
 * problems it recomputes the distinct solved problems, the per-topic and
 * per-difficulty counts, the completion percentages, the points, the
 * current daily streak and the badges, and writes the learner's record back
 * only when points, streak or badges changed.
 */
module Progress {
  import opened Wrappers
  import Judge
  import Learners

  /** A stored submission of the learner, with its calendar day. */
  datatype Submission = Submission(problemId: int, status: string, day: int)

  datatype ActiveProblem = ActiveProblem(id: int, category: string, difficulty: string)

  datatype Tally = Tally(total: nat, solved: nat)

  /** Problems are counted by topic (their category) and by difficulty. */
  datatype Axis = Topic | Level

  const TopicKeys: set<string> := {"arrays", "stacks", "queues", "linkedLists", "trees"}
  const LevelKeys: set<string> := {"easy", "medium", "hard"}

  function Keys(a: Axis): set<string> {
    if a == Topic then TopicKeys else LevelKeys
  }

  function Key(p: ActiveProblem, a: Axis): string {
    if a == Topic then p.category else p.difficulty
  }

  // ---------------------------------------------------------------------
  // Selecting the accepted submissions
  // ---------------------------------------------------------------------

  /** The submissions with the given status, in their order. */
  function WithStatus(subs: seq<Submission>, status: string): (r: seq<Submission>)
    ensures |r| <= |subs|
    ensures forall s :: s in r <==> s in subs && s.status == status
    ensures (forall s :: s in subs ==> s.status != status) ==> r == []
  {
    if subs == [] then []
    else
      var r := WithStatus(subs[..|subs| - 1], status);
      assert subs == subs[..|subs| - 1] + [subs[|subs| - 1]];
      if subs[|subs| - 1].status == status then r + [subs[|subs| - 1]] else r
  }

  /** A status the submission route stores: pending, or an engine verdict. */
  predicate StoredStatus(status: string) {
    status == "pending" || exists v :: status == Judge.VerdictName(v)
  }

  /** The filter as written selects status `Accepted` in title case. */
  function AcceptedAsWritten(subs: seq<Submission>): seq<Submission> {
    WithStatus(subs, "Accepted")
  }

  /** Over statuses the submission route stores, the filter as written
      selects nothing, so the page always shows no solves, no points and no
      streak. */
  lemma {:induction false} AsWrittenSelectsNothing(subs: seq<Submission>)
    requires forall s :: s in subs ==> StoredStatus(s.status)
    ensures AcceptedAsWritten(subs) == []
  {
    forall s | s in subs
      ensures s.status != "Accepted"
    {
      if s.status != "pending" {
        var v :| s.status == Judge.VerdictName(v);
        assert s.status[0] != 'A';
      }
    }
  }

  /** The filter as intended: the engine's spelling of the accepted verdict. */
  function Accepted(subs: seq<Submission>): seq<Submission> {
    WithStatus(subs, Judge.VerdictName(Judge.Accepted))
  }

  /** The intended filter keeps exactly the accepted submissions. */
  lemma {:induction false} AcceptedExactly(subs: seq<Submission>, v: Judge.Verdict, s: Submission)
    requires s in subs && s.status == Judge.VerdictName(v)
    ensures s in Accepted(subs) <==> v == Judge.Accepted
  {
    Judge.VerdictNameInjective(v, Judge.Accepted);
  }

  function ProblemIds(subs: seq<Submission>): (r: seq<int>)
    ensures |r| == |subs| && forall i :: 0 <= i < |subs| ==> r[i] == subs[i].problemId
  {
    seq(|subs|, i requires 0 <= i < |subs| => subs[i].problemId)
  }

  function Days(subs: seq<Submission>): (r: seq<int>)
    ensures |r| == |subs| && forall i :: 0 <= i < |subs| ==> r[i] == subs[i].day
  {
    seq(|subs|, i requires 0 <= i < |subs| => subs[i].day)
  }

  /** The elements of `xs` in order of first occurrence, each once. */
  function Unique<T(==,!new)>(xs: seq<T>): (r: seq<T>)
    ensures Learners.Distinct(r) && |r| <= |xs|
    ensures forall x :: x in r <==> x in xs
  {
    if xs == [] then []
    else
      var u := Unique(xs[..|xs| - 1]);
      Learners.AddMissingShape(u, xs[|xs| - 1]);
      assert xs == xs[..|xs| - 1] + [xs[|xs| - 1]];
      Learners.AddMissing(u, xs[|xs| - 1])
  }

  // ---------------------------------------------------------------------
  // Counting
  // ---------------------------------------------------------------------

  /** The problem map: each ID to its problem, a later duplicate winning. */
  function ById(ps: seq<ActiveProblem>): map<int, ActiveProblem> {
    if ps == [] then map[] else ById(ps[..|ps| - 1])[ps[|ps| - 1].id := ps[|ps| - 1]]
  }

  /** The number of problems with key `k` on axis `a`. */
  function TotalIn(ps: seq<ActiveProblem>, a: Axis, k: string): nat {
    if ps == [] then 0
    else TotalIn(ps[..|ps| - 1], a, k) + (if Key(ps[|ps| - 1], a) == k then 1 else 0)
  }

  /** The number of solved IDs naming an active problem with key `k`. */
  function SolvedIn(ids: seq<int>, m: map<int, ActiveProblem>, a: Axis, k: string): nat {
    if ids == [] then 0
    else
      var id := ids[|ids| - 1];
      SolvedIn(ids[..|ids| - 1], m, a, k) + (if id in m && Key(m[id], a) == k then 1 else 0)
  }

  /** The points of the solved IDs naming an active problem. */
  function PointsOf(ids: seq<int>, m: map<int, ActiveProblem>): nat {
    if ids == [] then 0
    else
      var id := ids[|ids| - 1];
      PointsOf(ids[..|ids| - 1], m) + (if id in m then Learners.PointsFor(m[id].difficulty) else 0)
  }

  /** The problem map of a list of problems with positions in that list. */
  lemma {:induction false} ByIdShape(ps: seq<ActiveProblem>, id: int)
    ensures id in ById(ps) ==> ById(ps)[id] in ps && ById(ps)[id].id == id
    ensures (exists p :: p in ps && p.id == id) ==> id in ById(ps)
  {
    if ps != [] {
      ByIdShape(ps[..|ps| - 1], id);
      assert ps == ps[..|ps| - 1] + [ps[|ps| - 1]];
    }
  }

  function KeysWith(m: map<int, ActiveProblem>, a: Axis, k: string): set<int> {
    set id | id in m && Key(m[id], a) == k
  }

  /** The problem map holds no more IDs with a key than the list has problems
      with it. */
  lemma {:induction false} KeysWithBound(ps: seq<ActiveProblem>, a: Axis, k: string)
    ensures |KeysWith(ById(ps), a, k)| <= TotalIn(ps, a, k)
  {
    if ps != [] {
      var init := ps[..|ps| - 1];
      var p := ps[|ps| - 1];
      KeysWithBound(init, a, k);
      var before := KeysWith(ById(init), a, k);
      var after := KeysWith(ById(ps), a, k);
      if Key(p, a) == k {
        assert after <= before + {p.id};
        SubsetSize(after, before + {p.id});
      } else {
        assert after <= before;
        SubsetSize(after, before);
      }
    }
  }

  /** The solved ID names an active problem with key `k`. */
  predicate Counted(m: map<int, ActiveProblem>, a: Axis, k: string, id: int) {
    id in m && Key(m[id], a) == k
  }

  function CountedSet(ids: seq<int>, m: map<int, ActiveProblem>, a: Axis, k: string): set<int> {
    set id | id in ids && Counted(m, a, k, id)
  }

  /** A new ID adds itself to the counted set exactly when it counts. */
  lemma {:induction false} CountedSetStep(init: seq<int>, id: int, m: map<int, ActiveProblem>, a: Axis, k: string)
    requires id !in init
    ensures |CountedSet(init + [id], m, a, k)| == |CountedSet(init, m, a, k)| + (if Counted(m, a, k, id) then 1 else 0)
  {
    var before := CountedSet(init, m, a, k);
    var after := CountedSet(init + [id], m, a, k);
    if Counted(m, a, k, id) {
      assert after == before + {id};
    } else {
      assert after == before;
    }
  }

  /** Over distinct IDs, the solved count is the size of the set it counts. */
  lemma {:induction false} SolvedAsSet(ids: seq<int>, m: map<int, ActiveProblem>, a: Axis, k: string)
    requires Learners.Distinct(ids)
    ensures SolvedIn(ids, m, a, k) == |CountedSet(ids, m, a, k)|
  {
    if ids != [] {
      var init := ids[..|ids| - 1];
      var id := ids[|ids| - 1];
      assert Learners.Distinct(init);
      SolvedAsSet(init, m, a, k);
      assert ids == init + [id];
      assert id !in init;
      CountedSetStep(init, id, m, a, k);
    }
  }

  lemma {:induction false} SubsetSize<T>(a: set<T>, b: set<T>)
    requires a <= b
    ensures |a| <= |b|
    decreases |a|
  {
    if a != {} {
      var x :| x in a;
      SubsetSize(a - {x}, b - {x});
    }
  }

  /** For every key, distinct solves never outnumber the active problems. */
  lemma {:induction false} SolvedAtMostTotal(ids: seq<int>, ps: seq<ActiveProblem>, a: Axis, k: string)
    requires Learners.Distinct(ids)
    ensures SolvedIn(ids, ById(ps), a, k) <= TotalIn(ps, a, k)
  {
    SolvedAsSet(ids, ById(ps), a, k);
    KeysWithBound(ps, a, k);
    var m := ById(ps);
    SubsetSize(CountedSet(ids, m, a, k), KeysWith(m, a, k));
  }

  /** An ID that names no active problem adds nothing to any count or to
      the points. */
  lemma {:induction false} InactiveAddsNothing(ids: seq<int>, m: map<int, ActiveProblem>, id: int, a: Axis, k: string)
    requires id !in m
    ensures SolvedIn(ids + [id], m, a, k) == SolvedIn(ids, m, a, k)
    ensures PointsOf(ids + [id], m) == PointsOf(ids, m)
  {
    assert (ids + [id])[..|ids|] == ids;
  }

  /** The number of solved IDs naming an active problem. */
  function ActiveCount(ids: seq<int>, m: map<int, ActiveProblem>): nat {
    if ids == [] then 0 else ActiveCount(ids[..|ids| - 1], m) + (if ids[|ids| - 1] in m then 1 else 0)
  }

  /** Each solve of an active problem earns between 10 and 30 points. */
  lemma {:induction false} PointsBounds(ids: seq<int>, m: map<int, ActiveProblem>)
    ensures 10 * ActiveCount(ids, m) <= PointsOf(ids, m) <= 30 * ActiveCount(ids, m)
    ensures ActiveCount(ids, m) <= |ids|
  {
    if ids != [] {
      PointsBounds(ids[..|ids| - 1], m);
    }
  }

  /** `stats[k]` with one more total or solved, for a tracked key. */
  function Bump(stats: map<string, Tally>, k: string, solved: bool): (r: map<string, Tally>)
    ensures r.Keys == stats.Keys
  {
    if k !in stats then stats
    else if solved then stats[k := stats[k].(solved := stats[k].solved + 1)]
    else stats[k := stats[k].(total := stats[k].total + 1)]
  }

  /** The tallies after the totals loop over `ps`: per tracked key, the
      number of problems with that key and no solves yet. */
  function Totals(ps: seq<ActiveProblem>, a: Axis, keys: set<string>): (r: map<string, Tally>)
    ensures r.Keys == keys
  {
    map k | k in keys :: Tally(TotalIn(ps, a, k), 0)
  }

  /** The tallies `base` after the solved loop over `ids`: per key, the base
      solved count plus the solved IDs naming an active problem with that key. */
  function Credited(base: map<string, Tally>, ids: seq<int>, m: map<int, ActiveProblem>, a: Axis): (r: map<string, Tally>)
    ensures r.Keys == base.Keys
  {
    map k | k in base :: base[k].(solved := base[k].solved + SolvedIn(ids, m, a, k))
  }

  /** One step of the totals loop. */
  lemma {:induction false} TotalStep(ps: seq<ActiveProblem>, i: nat, a: Axis, keys: set<string>)
    requires i < |ps|
    ensures Bump(Totals(ps[..i], a, keys), Key(ps[i], a), false) == Totals(ps[..i + 1], a, keys)
  {
    assert ps[..i + 1][..i] == ps[..i];
    var b := Bump(Totals(ps[..i], a, keys), Key(ps[i], a), false);
    var r := Totals(ps[..i + 1], a, keys);
    forall k | k in r
      ensures b[k] == r[k]
    {
    }
  }

  /** The count over one more ID. */
  lemma {:induction false} SolvedInStep(ids: seq<int>, m: map<int, ActiveProblem>, i: nat, a: Axis, k: string)
    requires i < |ids|
    ensures SolvedIn(ids[..i + 1], m, a, k) == SolvedIn(ids[..i], m, a, k) + (if ids[i] in m && Key(m[ids[i]], a) == k then 1 else 0)
  {
    assert ids[..i + 1][..i] == ids[..i];
  }

  /** One step of the solved loop. */
  lemma {:induction false} SolvedStep(base: map<string, Tally>, ids: seq<int>, m: map<int, ActiveProblem>, i: nat, a: Axis)
    requires i < |ids|
    ensures var stats := Credited(base, ids[..i], m, a);
            (if ids[i] in m then Bump(stats, Key(m[ids[i]], a), true) else stats) == Credited(base, ids[..i + 1], m, a)
  {
    var stats := Credited(base, ids[..i], m, a);
    var b := if ids[i] in m then Bump(stats, Key(m[ids[i]], a), true) else stats;
    var r := Credited(base, ids[..i + 1], m, a);
    forall k | k in r
      ensures b[k] == r[k]
    {
      SolvedInStep(ids, m, i, a, k);
      if ids[i] in m && k == Key(m[ids[i]], a) {
        assert b[k] == stats[k].(solved := stats[k].solved + 1);
      } else {
        assert b[k] == stats[k];
      }
    }
  }

  /** The totals loop: the problem map and, per tracked key, the number of
      active problems with that key. */
  method PopulateTotals(ps: seq<ActiveProblem>)
    returns (topics: map<string, Tally>, levels: map<string, Tally>, byId: map<int, ActiveProblem>)
    ensures byId == ById(ps)
    ensures topics == Totals(ps, Topic, TopicKeys) && levels == Totals(ps, Level, LevelKeys)
  {
    topics := map k | k in TopicKeys :: Tally(0, 0);
    levels := map k | k in LevelKeys :: Tally(0, 0);
    assert topics == Totals(ps[..0], Topic, TopicKeys) && levels == Totals(ps[..0], Level, LevelKeys);
    byId := map[];
    var i := 0;
    while i < |ps|
      invariant 0 <= i <= |ps|
      invariant byId == ById(ps[..i])
      invariant topics == Totals(ps[..i], Topic, TopicKeys) && levels == Totals(ps[..i], Level, LevelKeys)
    {
      var p := ps[i];
      assert ps[..i + 1] == ps[..i] + [p];
      TotalStep(ps, i, Topic, TopicKeys);
      TotalStep(ps, i, Level, LevelKeys);
      byId := byId[p.id := p];
      topics := Bump(topics, p.category, false);
      levels := Bump(levels, p.difficulty, false);
      i := i + 1;
    }
    assert ps[..i] == ps;
  }

  /** The solved loop: per tracked key the solved IDs naming an active
      problem with that key are added, and the points are summed. */
  method PopulateSolved(ids: seq<int>, byId: map<int, ActiveProblem>, topics0: map<string, Tally>, levels0: map<string, Tally>)
    returns (topics: map<string, Tally>, levels: map<string, Tally>, points: nat)
    ensures topics == Credited(topics0, ids, byId, Topic) && levels == Credited(levels0, ids, byId, Level)
    ensures points == PointsOf(ids, byId)
  {
    topics, levels, points := topics0, levels0, 0;
    assert topics == Credited(topics0, ids[..0], byId, Topic) && levels == Credited(levels0, ids[..0], byId, Level);
    var i := 0;
    while i < |ids|
      invariant 0 <= i <= |ids|
      invariant topics == Credited(topics0, ids[..i], byId, Topic) && levels == Credited(levels0, ids[..i], byId, Level)
      invariant points == PointsOf(ids[..i], byId)
    {
      var id := ids[i];
      assert ids[..i + 1] == ids[..i] + [id];
      SolvedStep(topics0, ids, byId, i, Topic);
      SolvedStep(levels0, ids, byId, i, Level);
      if id in byId {
        var p := byId[id];
        topics := Bump(topics, p.category, true);
        levels := Bump(levels, p.difficulty, true);
        points := points + Learners.PointsFor(p.difficulty);
      }
      i := i + 1;
    }
    assert ids[..i] == ids;
  }

  // ---------------------------------------------------------------------
  // Percentages
  // ---------------------------------------------------------------------

  /** `Math.round(solved / total * 100)` in exact arithmetic, 0 for no
      problems: the nearest whole percentage, halves rounded up. */
  function Percent(solved: nat, total: nat): nat {
    if total > 0 then (200 * solved + total) / (2 * total) else 0
  }

  /** The percentage is the integer nearest to 100·solved/total, halves up. */
  lemma {:induction false} PercentNearest(solved: nat, total: nat)
    requires total > 0
    ensures var p := Percent(solved, total);
            (2 * p - 1) * total <= 200 * solved < (2 * p + 1) * total
  {
    var p := Percent(solved, total);
    var n := 200 * solved + total;
    var d := 2 * total;
    assert p * d <= n < p * d + d;
    assert (2 * p - 1) * total == p * d - total;
    assert (2 * p + 1) * total == p * d + total;
  }

  lemma MulMonotone(a: int, b: int, c: nat)
    ensures a >= b ==> a * c >= b * c
  {
  }

  /** A share of solved problems is a percentage between 0 and 100. */
  lemma {:induction false} PercentRange(solved: nat, total: nat)
    requires solved <= total
    ensures Percent(solved, total) <= 100
  {
    if total > 0 {
      var n := 200 * solved + total;
      var d := 2 * total;
      var p := n / d;
      assert p * d <= n < 101 * d;
      MulMonotone(p, 101, d);
    }
  }

  function TopicProgress(topics: map<string, Tally>): (r: map<string, nat>)
    ensures r.Keys == topics.Keys
  {
    map k | k in topics :: Percent(topics[k].solved, topics[k].total)
  }

  // ---------------------------------------------------------------------
  // Streak
  // ---------------------------------------------------------------------

  /** The `n` days ending at `start` all have solves and the day before them
      has none. */
  predicate IsRun(days: seq<int>, start: int, n: nat) {
    (forall d :: start - n < d <= start ==> d in days) && start - n !in days
  }

  /** The earliest day with a solve. */
  function Lowest(days: seq<int>): (m: int)
    requires days != []
    ensures m in days && forall d :: d in days ==> m <= d
  {
    if |days| == 1 then days[0]
    else
      var m := Lowest(days[..|days| - 1]);
      assert days == days[..|days| - 1] + [days[|days| - 1]];
      if days[|days| - 1] < m then days[|days| - 1] else m
  }

  /** The streak loop: count back from today, or from yesterday when today
      has no solve, while each earlier day has a solve. */
  method CurrentStreak(days: seq<int>, today: int) returns (streak: nat)
    ensures streak == 0 <==> today !in days && today - 1 !in days
    ensures streak > 0 ==> IsRun(days, if today in days then today else today - 1, streak)
  {
    streak := 0;
    if |days| > 0 {
      var start: Option<int> := None;
      if today in days {
        start := Some(today);
      } else if today - 1 in days {
        start := Some(today - 1);
      }
      if start.Some? {
        streak := 1;
        var check := start.value;
        ghost var low := Lowest(days);
        while true
          invariant check == start.value - (streak - 1) && streak >= 1
          invariant forall d :: check <= d <= start.value ==> d in days
          invariant check in days
          decreases check - low
        {
          check := check - 1;
          if check in days {
            streak := streak + 1;
          } else {
            break;
          }
        }
      }
    }
  }

  /** A run ending yesterday grows by one with a solve today, matching the
      streak rule of the submission route. */
  lemma {:induction false} RunExtends(days: seq<int>, today: int, n: nat)
    requires IsRun(days, today - 1, n) && today in days
    ensures IsRun(days, today, n + 1)
  {
  }

  /** The run length from a day is unique. */
  lemma {:induction false} RunUnique(days: seq<int>, start: int, n: nat, m: nat)
    requires IsRun(days, start, n) && IsRun(days, start, m)
    ensures n == m
  {
    assert n < m ==> start - m < start - n <= start;
    assert m < n ==> start - n < start - m <= start;
  }

  // ---------------------------------------------------------------------
  // Badges
  // ---------------------------------------------------------------------

  const ProblemSolver: string := "Problem Solver"
  const RisingStar: string := "Rising Star"
  const Algorithmist: string := "Algorithmist"
  const Consistent: string := "Consistent"
  const StreakMaster: string := "Streak Master"

  /** The badge set: the held badges, each once, then the badges for 1, 10
      and 50 distinct solves and for streaks of 3 and 7 days. */
  function NewBadges(badges: seq<string>, solved: nat, streak: nat): seq<string> {
    var s1 := Learners.AddIf(Unique(badges), solved >= 1, ProblemSolver);
    var s2 := Learners.AddIf(s1, solved >= 10, RisingStar);
    var s3 := Learners.AddIf(s2, solved >= 50, Algorithmist);
    var s4 := Learners.AddIf(s3, streak >= 3, Consistent);
    Learners.AddIf(s4, streak >= 7, StreakMaster)
  }

  /** No badge appears twice. */
  lemma {:induction false} NewBadgesDistinct(badges: seq<string>, solved: nat, streak: nat)
    ensures Learners.Distinct(NewBadges(badges, solved, streak))
  {
    var s0 := Unique(badges);
    var s1 := Learners.AddIf(s0, solved >= 1, ProblemSolver);
    var s2 := Learners.AddIf(s1, solved >= 10, RisingStar);
    var s3 := Learners.AddIf(s2, solved >= 50, Algorithmist);
    var s4 := Learners.AddIf(s3, streak >= 3, Consistent);
    Learners.AddIfShape(s0, solved >= 1, ProblemSolver);
    Learners.AddIfShape(s1, solved >= 10, RisingStar);
    Learners.AddIfShape(s2, solved >= 50, Algorithmist);
    Learners.AddIfShape(s3, streak >= 3, Consistent);
    Learners.AddIfShape(s4, streak >= 7, StreakMaster);
  }

  /** Held badges are kept and the earned badges are present. */
  lemma {:induction false} NewBadgesKeep(badges: seq<string>, solved: nat, streak: nat)
    ensures var r := NewBadges(badges, solved, streak);
            && (forall b :: b in badges ==> b in r)
            && (solved >= 1 ==> ProblemSolver in r) && (solved >= 10 ==> RisingStar in r)
            && (solved >= 50 ==> Algorithmist in r)
            && (streak >= 3 ==> Consistent in r) && (streak >= 7 ==> StreakMaster in r)
  {
    var s0 := Unique(badges);
    var s1 := Learners.AddIf(s0, solved >= 1, ProblemSolver);
    var s2 := Learners.AddIf(s1, solved >= 10, RisingStar);
    var s3 := Learners.AddIf(s2, solved >= 50, Algorithmist);
    var s4 := Learners.AddIf(s3, streak >= 3, Consistent);
    Learners.AddIfShape(s0, solved >= 1, ProblemSolver);
    Learners.AddIfShape(s1, solved >= 10, RisingStar);
    Learners.AddIfShape(s2, solved >= 50, Algorithmist);
    Learners.AddIfShape(s3, streak >= 3, Consistent);
    Learners.AddIfShape(s4, streak >= 7, StreakMaster);
  }

  /** Nothing but held and earned badges is present. */
  lemma {:induction false} NewBadgesOnlyEarned(badges: seq<string>, solved: nat, streak: nat)
    ensures forall b :: b in NewBadges(badges, solved, streak) ==>
              (|| b in badges || (b == ProblemSolver && solved >= 1) || (b == RisingStar && solved >= 10)
               || (b == Algorithmist && solved >= 50) || (b == Consistent && streak >= 3)
               || (b == StreakMaster && streak >= 7))
  {
    var s0 := Unique(badges);
    var s1 := Learners.AddIf(s0, solved >= 1, ProblemSolver);
    var s2 := Learners.AddIf(s1, solved >= 10, RisingStar);
    var s3 := Learners.AddIf(s2, solved >= 50, Algorithmist);
    var s4 := Learners.AddIf(s3, streak >= 3, Consistent);
    Learners.AddIfShape(s0, solved >= 1, ProblemSolver);
    Learners.AddIfShape(s1, solved >= 10, RisingStar);
    Learners.AddIfShape(s2, solved >= 50, Algorithmist);
    Learners.AddIfShape(s3, streak >= 3, Consistent);
    Learners.AddIfShape(s4, streak >= 7, StreakMaster);
  }

  /** Recomputing the badges again changes nothing. */
  lemma {:induction false} NewBadgesIdempotent(badges: seq<string>, solved: nat, streak: nat)
    ensures NewBadges(NewBadges(badges, solved, streak), solved, streak) == NewBadges(badges, solved, streak)
  {
    var r := NewBadges(badges, solved, streak);
    NewBadgesDistinct(badges, solved, streak);
    NewBadgesKeep(badges, solved, streak);
    UniqueOfDistinct(r);
  }

  lemma {:induction false} UniqueOfDistinct<T(!new)>(xs: seq<T>)
    requires Learners.Distinct(xs)
    ensures Unique(xs) == xs
  {
    if xs != [] {
      var init := xs[..|xs| - 1];
      assert Learners.Distinct(init);
      UniqueOfDistinct(init);
      assert xs[|xs| - 1] !in init;
      assert xs == init + [xs[|xs| - 1]];
    }
  }

  // ---------------------------------------------------------------------
  // The page
  // ---------------------------------------------------------------------

  datatype Page = Page(
    totalSolved: nat, points: nat, currentStreak: nat, badges: seq<string>,
    topicProgress: map<string, nat>, topicStats: map<string, Tally>, difficultyStats: map<string, Tally>,
    solvedProblems: seq<int>)

  datatype Reply = UserNotFound | Shown(page: Page)

  /** GET of the progress page for a learner (`null` when no record exists),
      their stored submissions and the active problems. */
  method GetProgress(user: Learners.User?, subs: seq<Submission>, ps: seq<ActiveProblem>, today: int)
    returns (reply: Reply, saved: bool)
    modifies user
    ensures user == null ==> reply == UserNotFound && !saved
    ensures user != null ==>
              var accepted := Accepted(subs);
              var ids := Unique(ProblemIds(accepted));
              var byId := ById(ps);
              && reply.Shown?
              && reply.page.totalSolved == |ids| && reply.page.solvedProblems == ids
              && reply.page.points == PointsOf(ids, byId)
              && reply.page.topicStats.Keys == TopicKeys && reply.page.difficultyStats.Keys == LevelKeys
              && (forall k :: k in TopicKeys ==> reply.page.topicStats[k] == Tally(TotalIn(ps, Topic, k), SolvedIn(ids, byId, Topic, k)))
              && (forall k :: k in LevelKeys ==> reply.page.difficultyStats[k] == Tally(TotalIn(ps, Level, k), SolvedIn(ids, byId, Level, k)))
              && reply.page.topicProgress == TopicProgress(reply.page.topicStats)
              && (reply.page.currentStreak == 0 <==> today !in Days(accepted) && today - 1 !in Days(accepted))
              && (reply.page.currentStreak > 0 ==>
                    IsRun(Days(accepted), if today in Days(accepted) then today else today - 1, reply.page.currentStreak))
              && reply.page.badges == NewBadges(old(user.badges), |ids|, reply.page.currentStreak)
              && user.points == reply.page.points && user.streak == reply.page.currentStreak && user.badges == reply.page.badges
              && user.solved == old(user.solved) && user.lastSolved == old(user.lastSolved)
              && (saved <==> old(user.points) != user.points || old(user.streak) != user.streak || old(user.badges) != user.badges)
  {
    if user == null {
      return UserNotFound, false;
    }
    var accepted := Accepted(subs);
    var ids := Unique(ProblemIds(accepted));
    var topics0, levels0, byId := PopulateTotals(ps);
    var topics, levels, points := PopulateSolved(ids, byId, topics0, levels0);
    var progress := TopicProgress(topics);
    var streak := CurrentStreak(Days(accepted), today);
    var badges := NewBadges(user.badges, |ids|, streak);
    saved := user.Reconcile(points, streak, badges);
    reply := Shown(Page(|ids|, points, streak, badges, progress, topics, levels, ids));
  }
}
