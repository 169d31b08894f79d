/**
 * The statistics page (src/components/tabs/StatsTab.tsx), its integer parts: the
 * signed-in user's records, the days of the last thirty with a mood entry, habit
 * completions, goal counts and completion rate, the mood distribution and the
 * most frequent mood.
 */
module Stats {
  import opened Wrappers
  import opened Seqs
  import opened Entities
  import Goals
  import Habits
  import Achievements

  /** `userMoods`: exactly the signed-in user's mood entries (none without a user). */
  function UserMoods(entries: seq<MoodEntry>, viewer: Option<User>): (r: seq<MoodEntry>)
    ensures forall i :: 0 <= i < |r| ==> r[i] in entries && viewer.Some? && r[i].userId == viewer.value.id
    ensures forall i :: 0 <= i < |entries| && viewer.Some? && entries[i].userId == viewer.value.id ==> entries[i] in r
  {
    Filter(entries, (m: MoodEntry) => viewer.Some? && m.userId == viewer.value.id)
  }

  /** `userAchievements`: exactly the signed-in user's achievements, in stored order. */
  function UserAchievements(achievements: seq<Achievement>, viewer: Option<User>): (r: seq<Achievement>)
    ensures forall i :: 0 <= i < |r| ==> r[i] in achievements && Achievements.OwnAchievement(viewer, r[i])
    ensures forall i :: 0 <= i < |achievements| && Achievements.OwnAchievement(viewer, achievements[i]) ==>
      achievements[i] in r
  {
    Filter(achievements, (a: Achievement) => Achievements.OwnAchievement(viewer, a))
  }

  // ---- Filled days ----------------------------------------------------------

  /** `last30Days`: the thirty days ending today, oldest first. */
  function Last30(today: Day): (w: seq<Day>)
    ensures |w| == 30
    ensures forall i :: 0 <= i < 30 ==> w[i] == today - 29 + i
  {
    seq(30, i => today - 29 + i)
  }

  /** `userMoods.find(m => m.date === date)` is an entry, so the day counts as filled. */
  predicate Filled(moods: seq<MoodEntry>, d: Day) {
    exists i :: 0 <= i < |moods| && moods[i].date == d
  }

  /**
   * `filledDays`: how many of the last thirty days have an entry. It is at most 30
   * and is the number of distinct days in that window with an entry, however many
   * entries a day has.
   */
  function FilledDays(moods: seq<MoodEntry>, today: Day): (r: nat)
    ensures r <= 30
    ensures r == |set d | today - 29 <= d <= today && Filled(moods, d)|
  {
    WindowCount(moods, today);
    |Filter(Last30(today), (d: Day) => Filled(moods, d))|
  }

  /** Counting the window's filled days counts the set of filled days from 29 days ago to today. */
  lemma WindowCount(moods: seq<MoodEntry>, today: Day)
    ensures |Filter(Last30(today), (d: Day) => Filled(moods, d))| ==
            |set d | today - 29 <= d <= today && Filled(moods, d)|
  {
    var w := Last30(today);
    var inRange := set d | today - 29 <= d <= today && Filled(moods, d);
    forall x ensures x in inRange <==> x in w && Filled(moods, x) {
      if today - 29 <= x <= today {
        assert w[x - today + 29] == x;
      }
    }
    assert NoDup(w);
    FilterCountsSet(w, (d: Day) => Filled(moods, d), inRange);
  }

  // ---- Habits -----------------------------------------------------------------

  function CompletionsOf(h: Habit): nat { |h.completedDates| }

  /** `totalHabitCompletions`: no habits, no completions; each habit's completions are part of the total. */
  function TotalCompletions(habits: seq<Habit>): (r: nat)
    ensures habits == [] ==> r == 0
    ensures forall i :: 0 <= i < |habits| ==> |habits[i].completedDates| <= r
  {
    forall i | 0 <= i < |habits| ensures CompletionsOf(habits[i]) <= SumOf(habits, CompletionsOf) {
      SumOfBoundsElement(habits, CompletionsOf, i);
    }
    SumOf(habits, CompletionsOf)
  }

  /** The total adds up over any split of the habits, and one habit contributes its number of completed dates. */
  lemma TotalCompletionsSplit(a: seq<Habit>, b: seq<Habit>)
    ensures TotalCompletions(a + b) == TotalCompletions(a) + TotalCompletions(b)
    ensures forall h: Habit :: TotalCompletions([h]) == |h.completedDates|
  {
    SumOfConcat(a, b, CompletionsOf);
    forall h: Habit ensures TotalCompletions([h]) == |h.completedDates| {
      assert [h][1..] == [];
    }
  }

  // ---- Goals ------------------------------------------------------------------

  /** The goal figures: how many goals, how many active, how many completed, and the completion rate in percent. */
  datatype GoalStats = GoalStats(total: nat, active: nat, completed: nat, rate: int)

  /**
   * `activeGoals`, `completedGoals` and `goalCompletionRate` (the rounding of 100 *
   * completed / total, halves up). Active and completed goals never outnumber the
   * user's goals; without goals the rate is 0; the rate is a percentage, 100 exactly
   * when every goal is completed and 0 when none is.
   */
  function GoalSummary(goals: seq<Goal>, viewer: Option<User>): (s: GoalStats)
    ensures s.total == |Goals.UserGoals(goals, viewer)|
    ensures s.active == |Goals.ActiveGoals(goals, viewer)| && s.completed == |Goals.CompletedGoals(goals, viewer)|
    ensures s.active + s.completed <= s.total
    ensures s.total == 0 ==> s.rate == 0
    ensures 0 <= s.rate <= 100
    ensures s.total > 0 && s.completed == s.total ==> s.rate == 100
    ensures s.completed == 0 ==> s.rate == 0
  {
    Goals.Partition(goals, viewer);
    var n := |Goals.UserGoals(goals, viewer)|;
    var c := |Goals.CompletedGoals(goals, viewer)|;
    var rate := if n > 0 then RoundedPercent(c, n) else 0;
    GoalStats(n, |Goals.ActiveGoals(goals, viewer)|, c, rate)
  }

  /** `Math.round(c / n * 100)` in exact arithmetic: a percentage, 100 for all, 0 for none. */
  function RoundedPercent(c: nat, n: nat): (r: int)
    requires 0 < n && c <= n
    ensures 0 <= r <= 100
    ensures c == n ==> r == 100
    ensures c == 0 ==> r == 0
  {
    DivAtMost(200 * c + n, 2 * n, 100);
    if c == n then DivIs(200 * c + n, 2 * n, 100); (200 * c + n) / (2 * n)
    else if c == 0 then DivIs(200 * c + n, 2 * n, 0); (200 * c + n) / (2 * n)
    else (200 * c + n) / (2 * n)
  }

  /** A positive multiplier keeps the sign of the other factor, by at least its size. */
  lemma MulSign(a: int, q: int)
    requires q > 0
    ensures a >= 1 ==> a * q >= q
    ensures a <= -1 ==> a * q <= -q
  {
  }

  /** The quotient is `d` when `m` lies in `d`'s bracket. */
  lemma DivIs(m: int, q: int, d: int)
    requires q > 0 && d * q <= m < d * q + q
    ensures m / q == d
  {
    var r := m / q;
    assert r * q <= m < r * q + q;
    MulSign(r - d, q);
    assert (r - d) * q == r * q - d * q;
  }

  /** Below the bracket after `d`, the quotient of a non-negative `m` is between 0 and `d`. */
  lemma DivAtMost(m: int, q: int, d: int)
    requires q > 0 && 0 <= m < (d + 1) * q
    ensures 0 <= m / q <= d
  {
    var r := m / q;
    assert r * q <= m;
    MulSign(r - d, q);
    assert (r - d) * q == r * q - d * q;
  }

  // ---- Mood distribution ------------------------------------------------------

  /** One entry of `moodDistribution`: a mood and how many entries have it. */
  datatype Tally = Tally(mood: string, count: nat)

  function Occurrences(t: Tally): nat { t.count }
  function CountKey(t: Tally): int { t.count }

  /** How many of the entries have mood `k`. */
  function CountMood(s: seq<MoodEntry>, k: string): (n: nat)
    ensures n <= |s|
    decreases |s|
  {
    if s == [] then 0 else CountMood(s[..|s| - 1], k) + (if s[|s| - 1].mood == k then 1 else 0)
  }

  /** A mood is counted at least once exactly when some entry has it. */
  lemma {:induction false} CountPositive(s: seq<MoodEntry>, k: string)
    ensures CountMood(s, k) > 0 <==> exists i :: 0 <= i < |s| && s[i].mood == k
    decreases |s|
  {
    if s != [] {
      var init := s[..|s| - 1];
      CountPositive(init, k);
      if exists i :: 0 <= i < |init| && init[i].mood == k {
        var i :| 0 <= i < |init| && init[i].mood == k;
        assert s[i] == init[i];
      }
      if exists i :: 0 <= i < |s| && s[i].mood == k {
        var i :| 0 <= i < |s| && s[i].mood == k;
        if i < |s| - 1 {
          assert init[i] == s[i];
        }
      }
    }
  }

  /** One more entry counts once more for its own mood and leaves the other counts alone. */
  lemma CountSnoc(s: seq<MoodEntry>, x: MoodEntry, k: string)
    ensures CountMood(s + [x], k) == CountMood(s, k) + (if x.mood == k then 1 else 0)
  {
    assert (s + [x])[..|s|] == s;
  }

  /** No mood is listed twice. */
  predicate DistinctMoods(dist: seq<Tally>) {
    forall i, j :: 0 <= i < j < |dist| ==> dist[i].mood != dist[j].mood
  }

  /** Each listed mood carries its number of entries in `s`, which is at least one. */
  predicate Counted(dist: seq<Tally>, s: seq<MoodEntry>) {
    forall j :: 0 <= j < |dist| ==> dist[j].count == CountMood(s, dist[j].mood) && dist[j].count >= 1
  }

  /** Every mood of `s` is listed. */
  predicate Covers(dist: seq<Tally>, s: seq<MoodEntry>) {
    forall i :: 0 <= i < |s| ==> exists j :: 0 <= j < |dist| && dist[j].mood == s[i].mood
  }

  /** Counting an entry whose mood is already listed: that count goes up by one. */
  lemma {:induction false} BumpKeeps(dist: seq<Tally>, s: seq<MoodEntry>, x: MoodEntry, j: nat)
    requires j < |dist| && dist[j].mood == x.mood
    requires DistinctMoods(dist) && Counted(dist, s) && Covers(dist, s)
    ensures var d := dist[j := dist[j].(count := dist[j].count + 1)];
      DistinctMoods(d) && Counted(d, s + [x]) && Covers(d, s + [x]) && SumOf(d, Occurrences) == SumOf(dist, Occurrences) + 1
  {
    var d := dist[j := dist[j].(count := dist[j].count + 1)];
    SumOfUpdate(dist, Occurrences, j, d[j]);
    forall k | 0 <= k < |d| ensures d[k].count == CountMood(s + [x], d[k].mood) {
      CountSnoc(s, x, d[k].mood);
    }
    forall i | 0 <= i < |s + [x]| ensures exists k :: 0 <= k < |d| && d[k].mood == (s + [x])[i].mood {
      if i == |s| {
        assert d[j].mood == x.mood;
      } else {
        var k :| 0 <= k < |dist| && dist[k].mood == s[i].mood;
        assert d[k].mood == (s + [x])[i].mood;
      }
    }
  }

  /** Counting an entry whose mood is not listed yet: it is appended with a count of one. */
  lemma {:induction false} AppendKeeps(dist: seq<Tally>, s: seq<MoodEntry>, x: MoodEntry)
    requires forall k :: 0 <= k < |dist| ==> dist[k].mood != x.mood
    requires DistinctMoods(dist) && Counted(dist, s) && Covers(dist, s)
    ensures var d := dist + [Tally(x.mood, 1)];
      DistinctMoods(d) && Counted(d, s + [x]) && Covers(d, s + [x])
  {
    var d := dist + [Tally(x.mood, 1)];
    assert forall i :: 0 <= i < |s| ==> s[i].mood != x.mood;
    CountPositive(s, x.mood);
    forall k | 0 <= k < |d| ensures d[k].count == CountMood(s + [x], d[k].mood) {
      CountSnoc(s, x, d[k].mood);
    }
    forall i | 0 <= i < |s + [x]| ensures exists k :: 0 <= k < |d| && d[k].mood == (s + [x])[i].mood {
      if i == |s| {
        assert d[|dist|].mood == x.mood;
      } else {
        var k :| 0 <= k < |dist| && dist[k].mood == s[i].mood;
        assert d[k].mood == (s + [x])[i].mood;
      }
    }
  }

  /** Appending a tally adds its count to the total. */
  lemma AppendSum(dist: seq<Tally>, t: Tally)
    ensures SumOf(dist + [t], Occurrences) == SumOf(dist, Occurrences) + t.count
  {
    SumOfConcat(dist, [t], Occurrences);
    assert [t][1..] == [];
  }

  /**
   * `moodDistribution`: the `reduce` that counts each mood into an accumulator,
   * keys in the order moods first occur. No mood is listed twice, each listed
   * mood carries its number of entries (at least one), every mood that occurs is
   * listed, and the counts add up to the number of entries.
   */
  method MoodDistribution(moods: seq<MoodEntry>) returns (dist: seq<Tally>)
    ensures DistinctMoods(dist) && Counted(dist, moods) && Covers(dist, moods)
    ensures SumOf(dist, Occurrences) == |moods|
  {
    dist := [];
    var n := 0;
    while n < |moods|
      invariant 0 <= n <= |moods|
      invariant DistinctMoods(dist) && Counted(dist, moods[..n]) && Covers(dist, moods[..n])
      invariant SumOf(dist, Occurrences) == n
    {
      var m := moods[n].mood;
      var j := FindIndex(dist, (t: Tally) => t.mood == m);
      assert moods[..n + 1] == moods[..n] + [moods[n]];
      if j >= 0 {
        var bumped := dist[j].(count := dist[j].count + 1);
        BumpKeeps(dist, moods[..n], moods[n], j);
        dist := dist[j := bumped];
      } else {
        AppendKeeps(dist, moods[..n], moods[n]);
        AppendSum(dist, Tally(m, 1));
        dist := dist + [Tally(m, 1)];
      }
      n := n + 1;
    }
    assert moods[..n] == moods;
  }

  /**
   * `topMood`: the first entry of the distribution sorted by count, largest
   * first. There is one exactly when the distribution is not empty, and its count
   * is at least every other count.
   */
  function TopMood(dist: seq<Tally>): (r: Option<Tally>)
    ensures r.None? <==> dist == []
    ensures r.Some? ==> r.value in dist && forall j :: 0 <= j < |dist| ==> dist[j].count <= r.value.count
  {
    if dist == [] then None
    else
      TopIsLargest(dist);
      Some(SortDesc(dist, CountKey)[0])
  }

  /** The head of the sorted distribution is one of its entries, with the largest count. */
  lemma TopIsLargest(dist: seq<Tally>)
    requires dist != []
    ensures SortDesc(dist, CountKey)[0] in dist
    ensures forall j :: 0 <= j < |dist| ==> dist[j].count <= SortDesc(dist, CountKey)[0].count
  {
    var sorted := SortDesc(dist, CountKey);
    assert sorted[0] in multiset(sorted);
    forall j | 0 <= j < |dist| ensures dist[j].count <= sorted[0].count {
      assert dist[j] in multiset(dist);
      var k :| 0 <= k < |sorted| && sorted[k] == dist[j];
      assert CountKey(sorted[0]) >= CountKey(sorted[k]);
    }
  }

  /** Each mood's share of the distribution is at most the number of entries. */
  lemma TallyBounded(moods: seq<MoodEntry>, dist: seq<Tally>, j: nat)
    requires j < |dist| && SumOf(dist, Occurrences) == |moods|
    ensures dist[j].count <= |moods|
  {
    SumOfBoundsElement(dist, Occurrences, j);
  }
}
