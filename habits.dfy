/**
 * Habits (src/components/tabs/HabitsTab.tsx): the signed-in user's habits,
 * today's check-offs, the streak counter, and the create form.
 */
module Habits {
  import opened Wrappers
  import opened Text
  import opened Seqs
  import opened Entities
  import opened Store

  /** `userHabits`: the signed-in user's habits, in stored order. */
  function UserHabits(habits: seq<Habit>, viewer: Option<User>): (r: seq<Habit>)
    ensures forall i :: 0 <= i < |r| ==> r[i] in habits && viewer.Some? && r[i].userId == viewer.value.id
    ensures forall i :: 0 <= i < |habits| && viewer.Some? && habits[i].userId == viewer.value.id ==> habits[i] in r
  {
    Filter(habits, (h: Habit) => viewer.Some? && h.userId == viewer.value.id)
  }

  /** `isCompletedToday`. */
  predicate CompletedOn(h: Habit, today: Day) {
    today in h.completedDates
  }

  /** The "done today" counter: how many of the user's habits are checked off today, out of all of them. */
  function DoneToday(habits: seq<Habit>, viewer: Option<User>, today: Day): (n: nat)
    ensures n <= |UserHabits(habits, viewer)|
    ensures n == |UserHabits(habits, viewer)| <==>
      forall i :: 0 <= i < |UserHabits(habits, viewer)| ==> CompletedOn(UserHabits(habits, viewer)[i], today)
  {
    var own := UserHabits(habits, viewer);
    FilterAllIffSameLength(own, (h: Habit) => CompletedOn(h, today));
    |Filter(own, (h: Habit) => CompletedOn(h, today))|
  }

  /** The day a streak is counted back from: today when it is checked off, else yesterday. */
  function StreakStart(dates: seq<Day>, today: Day): (d: Day)
    ensures today in dates ==> d == today
    ensures today !in dates ==> d == today - 1
  {
    if today in dates then today else today - 1
  }

  /** The `n` days ending at `last` are all completed. */
  predicate RunEnding(dates: seq<Day>, last: Day, n: nat) {
    forall d :: last - n < d <= last ==> d in dates
  }

  /** A day before every completed date and before today: the streak loop never goes below it. */
  ghost function Floor(dates: seq<Day>, today: Day): (lo: int)
    ensures lo < today
    ensures forall i :: 0 <= i < |dates| ==> lo < dates[i]
    decreases |dates|
  {
    if dates == [] then today - 1
    else
      var rest := Floor(dates[1..], today);
      if dates[0] - 1 < rest then dates[0] - 1 else rest
  }

  /**
   * `getStreak`: steps back one day at a time from today, counting completed
   * days, and stops at the first missing day other than today. The result is the
   * length of the longest run of completed days ending at `StreakStart`.
   */
  method GetStreak(h: Habit, today: Day) returns (streak: nat)
    ensures RunEnding(h.completedDates, StreakStart(h.completedDates, today), streak)
    ensures StreakStart(h.completedDates, today) - streak !in h.completedDates
    ensures streak <= |set d | d in h.completedDates|
  {
    var dates := h.completedDates;
    ghost var start := StreakStart(dates, today);
    ghost var lo := Floor(dates, today);
    streak := 0;
    var checkDate := today;
    while true
      invariant lo <= checkDate
      invariant (checkDate == today && streak == 0) ||
                (checkDate == start - streak && RunEnding(dates, start, streak))
      decreases checkDate - lo
    {
      if checkDate in dates {
        streak := streak + 1;
        checkDate := checkDate - 1;
      } else if checkDate != today {
        break;
      } else {
        checkDate := checkDate - 1;
      }
    }
    RunBound(dates, start, streak);
  }

  /** A run of completed days is no longer than the number of distinct completed dates. */
  lemma RunBound(dates: seq<Day>, last: Day, n: nat)
    requires RunEnding(dates, last, n)
    ensures n <= |set d | d in dates|
  {
    DaysWithin((set d | d in dates), last - n + 1, last + 1);
  }

  /** A set holding every day from `lo` up to but not including `hi` has at least `hi - lo` members. */
  lemma {:induction false} DaysWithin(days: set<Day>, lo: Day, hi: Day)
    requires forall d :: lo <= d < hi ==> d in days
    ensures lo <= hi ==> hi - lo <= |days|
    decreases hi - lo
  {
    if lo < hi {
      DaysWithin(days - {hi - 1}, lo, hi - 1);
    }
  }

  /** With neither today nor yesterday checked off, the streak is 0. */
  lemma StreakZero(dates: seq<Day>, today: Day, n: nat)
    requires today !in dates && today - 1 !in dates
    requires RunEnding(dates, StreakStart(dates, today), n)
    ensures n == 0
  {
  }

  /** The create form. */
  datatype HabitForm = HabitForm(open: bool, title: string, description: string, frequency: Frequency, isPublic: bool)

  /** The form after a habit has been created. */
  const ClearedForm := HabitForm(false, "", "", Daily, false)

  /** The habit `handleCreate` adds: no streak and no completed days yet. */
  function NewHabit(f: HabitForm, owner: Id, now: Timestamp): (h: Habit)
    ensures h.userId == owner && h.title == f.title && h.streak == 0 && h.completedDates == []
    ensures h.description == Some(f.description) && h.frequency == f.frequency && h.isPublic == f.isPublic
    ensures h.createdAt == now
  {
    Habit("", owner, f.title, Some(f.description), f.frequency, 0, [], f.isPublic, now)
  }

  /**
   * `handleCreate`: does nothing for a title that is blank after trimming, or
   * without a signed-in user; otherwise appends the new habit and clears the form.
   */
  method HandleCreate(store: NexusStore, form: HabitForm, now: Timestamp) returns (after: HabitForm)
    requires store.Valid()
    modifies store`habits
    ensures store.Valid()
    ensures Trim(form.title) == "" || store.currentUser.None? ==> store.habits == old(store.habits) && after == form
    ensures Trim(form.title) != "" && store.currentUser.Some? ==>
      after == ClearedForm &&
      |store.habits| == |old(store.habits)| + 1 && store.habits[..|old(store.habits)|] == old(store.habits) &&
      store.habits[|old(store.habits)|] == NewHabit(form, store.currentUser.value.id, now).(id := store.habits[|old(store.habits)|].id) &&
      store.habits[|old(store.habits)|].id !in Keys(old(store.habits), HabitId)
  {
    if Trim(form.title) == "" || store.currentUser.None? {
      return form;
    }
    store.AddHabit(NewHabit(form, store.currentUser.value.id, now));
    after := ClearedForm;
  }

  /**
   * `toggleComplete`: flips whether today is checked off for that habit, keeps
   * every other date and every other field of it, and leaves the other habits alone.
   */
  method ToggleComplete(store: NexusStore, habitId: Id, today: Day)
    requires store.Valid()
    modifies store`habits
    ensures store.Valid()
    ensures |store.habits| == |old(store.habits)|
    ensures forall i :: 0 <= i < |store.habits| && old(store.habits)[i].id != habitId ==>
      store.habits[i] == old(store.habits)[i]
    ensures forall i :: 0 <= i < |store.habits| && old(store.habits)[i].id == habitId ==>
      (today in store.habits[i].completedDates <==> today !in old(store.habits)[i].completedDates) &&
      (forall d :: d != today ==> (d in store.habits[i].completedDates <==> d in old(store.habits)[i].completedDates)) &&
      store.habits[i].streak == |store.habits[i].completedDates| &&
      store.habits[i] == old(store.habits)[i].(completedDates := store.habits[i].completedDates, streak := store.habits[i].streak)
  {
    store.CompleteHabit(habitId, today);
    forall i | 0 <= i < |store.habits| && old(store.habits)[i].id == habitId
      ensures forall d :: d != today ==> (d in store.habits[i].completedDates <==> d in old(store.habits)[i].completedDates)
    {
      var before, after := old(store.habits)[i].completedDates, store.habits[i].completedDates;
      forall d | d != today ensures d in after <==> d in before {
        if d in after {
          var k :| 0 <= k < |after| && after[k] == d;
        }
        if d in before {
          var k :| 0 <= k < |before| && before[k] == d;
        }
      }
    }
  }
}
