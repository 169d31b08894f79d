/**
 * The mood tracker (src/components/tabs/MoodTab.tsx): the eight moods and
 * their scores, the entry shown for a day, the heat-map colour, the emotion
 * chips, and the save handler that updates the day's entry or adds one.
 */
module Mood {
  import opened Wrappers
  import opened Seqs
  import opened Entities
  import opened Store

  /** One row of the mood table (the emoji and label are display only). */
  datatype MoodOption = MoodOption(id: string, color: string)

  /** The moods, in the order the picker shows them. */
  const Moods: seq<MoodOption> := [
    MoodOption("joy", "bg-mood-joy"), MoodOption("calm", "bg-mood-calm"),
    MoodOption("energy", "bg-mood-energy"), MoodOption("love", "bg-mood-love"),
    MoodOption("neutral", "bg-mood-neutral"), MoodOption("sadness", "bg-mood-sadness"),
    MoodOption("anxiety", "bg-mood-anxiety"), MoodOption("anger", "bg-mood-anger")]

  /** The colour of a day without an entry, or whose mood is not in the table. */
  const NoMoodColor := "bg-secondary/30"

  /** No two moods share an id. */
  lemma MoodIdsDistinct()
    ensures forall i, j :: 0 <= i < j < |Moods| ==> Moods[i].id != Moods[j].id
  {
  }

  /** `moods.findIndex(m => m.id === mood)`: the position of the mood in the table, or -1. */
  function MoodIndex(mood: string): (r: int)
    ensures -1 <= r < |Moods|
    ensures r >= 0 ==> Moods[r].id == mood
    ensures r == -1 <==> forall k :: 0 <= k < |Moods| ==> Moods[k].id != mood
  {
    FindIndex(Moods, (m: MoodOption) => m.id == mood)
  }

  /** A listed mood is found at its own position. */
  lemma MoodIndexOfListed(k: nat)
    requires k < |Moods|
    ensures MoodIndex(Moods[k].id) == k
  {
    MoodIdsDistinct();
    var r := MoodIndex(Moods[k].id);
    assert r != -1 by {
      assert Moods[k].id == Moods[k].id;
    }
    assert Moods[r].id == Moods[k].id;
  }

  /**
   * The `moodScore` formula. Both of its branches come to `8 - index`, so an
   * unlisted mood (index -1) scores 9.
   */
  function MoodScore(mood: string): (r: int)
    ensures r == 8 - MoodIndex(mood)
    ensures (forall k :: 0 <= k < |Moods| ==> Moods[k].id != mood) ==> r == 9
  {
    var idx := MoodIndex(mood);
    if idx < 5 then 8 - idx else 4 - (idx - 4)
  }

  /** The listed moods score 8 down to 1 in table order. */
  lemma ListedScores(k: nat)
    requires k < |Moods|
    ensures MoodScore(Moods[k].id) == 8 - k
    ensures 1 <= MoodScore(Moods[k].id) <= 8
  {
    MoodIndexOfListed(k);
  }

  /** Scores strictly decrease along the table. */
  lemma ScoresDecrease(i: nat, j: nat)
    requires i < j < |Moods|
    ensures MoodScore(Moods[i].id) > MoodScore(Moods[j].id)
  {
    ListedScores(i);
    ListedScores(j);
  }

  /**
   * `existingEntry` (and the lookup in `getMoodColor`): the first entry of the
   * signed-in user on that day. No user, no entry.
   */
  function EntryOn(entries: seq<MoodEntry>, viewer: Option<User>, day: Day): (r: Option<MoodEntry>)
    ensures viewer.None? ==> r.None?
    ensures viewer.Some? ==> (r.None? <==> DayFree(entries, viewer.value.id, day))
    ensures r.Some? ==> (viewer.Some? && r.value.userId == viewer.value.id && r.value.date == day &&
      exists i :: (0 <= i < |entries| && entries[i] == r.value &&
        forall j :: 0 <= j < i ==> !(entries[j].userId == viewer.value.id && entries[j].date == day)))
  {
    Find(entries, (m: MoodEntry) => viewer.Some? && m.userId == viewer.value.id && m.date == day)
  }

  /**
   * `getMoodColor`: the table colour of the day's mood; the neutral colour when
   * the day has no entry or its mood is not listed.
   */
  function MoodColor(entries: seq<MoodEntry>, viewer: Option<User>, day: Day): (r: string)
    ensures EntryOn(entries, viewer, day).None? ==> r == NoMoodColor
    ensures EntryOn(entries, viewer, day).Some? ==>
      var k := MoodIndex(EntryOn(entries, viewer, day).value.mood);
      (k == -1 ==> r == NoMoodColor) && (k >= 0 ==> r == Moods[k].color)
  {
    match EntryOn(entries, viewer, day)
    case None => NoMoodColor
    case Some(entry) =>
      var k := MoodIndex(entry.mood);
      if k >= 0 then Moods[k].color else NoMoodColor
  }

  /** `toggleEmotion`: adds an absent emotion, removes every copy of a present one. */
  function ToggleEmotion(selected: seq<string>, emotion: string): (r: seq<string>)
    ensures emotion in selected ==> emotion !in r
    ensures emotion !in selected ==> r == selected + [emotion]
    ensures forall e :: e != emotion ==> (e in r <==> e in selected)
  {
    Toggle(selected, emotion)
  }

  /** Toggling twice restores which emotions are chosen, and a list without repeats keeps none. */
  lemma ToggleEmotionTwice(selected: seq<string>, emotion: string)
    ensures forall e :: e in ToggleEmotion(ToggleEmotion(selected, emotion), emotion) <==> e in selected
    ensures NoDup(selected) ==> NoDup(ToggleEmotion(selected, emotion))
  {
    ToggleTwice(selected, emotion);
    if NoDup(selected) {
      ToggleNoDup(selected, emotion);
    }
  }

  /** The entry form's state. */
  datatype MoodForm = MoodForm(open: bool, mood: string, emotions: seq<string>, intensity: int, note: string)

  /** The form as `handleSave` leaves it after saving. */
  const ClearedForm := MoodForm(false, "", [], 50, "")

  /** A user has at most one entry per day. */
  predicate OneEntryPerDay(entries: seq<MoodEntry>) {
    forall i, j :: 0 <= i < j < |entries| ==>
      !(entries[i].userId == entries[j].userId && entries[i].date == entries[j].date)
  }

  /** The update `handleSave` sends for an existing entry. */
  function SavePatch(form: MoodForm): (p: MoodPatch)
    ensures p.userId.None? && p.date.None? && p.isPrivate.None?
  {
    MoodPatch(None, None, Some(form.mood), Some(MoodScore(form.mood)), Some(form.emotions),
              Some(form.intensity), Some(form.note), None)
  }

  /** The entry an existing one becomes on save: mood, score, emotions, intensity and note replaced. */
  function Resaved(e: MoodEntry, form: MoodForm): MoodEntry {
    e.(mood := form.mood, moodScore := MoodScore(form.mood), emotions := form.emotions,
       intensity := form.intensity, note := Some(form.note))
  }

  /** Saving over an existing entry rewrites only that entry's form fields and keeps one entry per day. */
  lemma ResaveShape(entries: seq<MoodEntry>, id: Id, form: MoodForm)
    ensures var r := UpdateWhere(entries, MoodId, id, ApplyMood, SavePatch(form));
      |r| == |entries| &&
      (forall i :: 0 <= i < |r| ==> r[i] == if entries[i].id == id then Resaved(entries[i], form) else entries[i]) &&
      (OneEntryPerDay(entries) ==> OneEntryPerDay(r))
  {
    var r := UpdateWhere(entries, MoodId, id, ApplyMood, SavePatch(form));
    assert forall i :: 0 <= i < |r| ==> r[i].userId == entries[i].userId && r[i].date == entries[i].date;
  }

  /** No entry of `owner` is dated `day`. */
  predicate DayFree(entries: seq<MoodEntry>, owner: Id, day: Day) {
    forall j :: 0 <= j < |entries| ==> !(entries[j].userId == owner && entries[j].date == day)
  }

  /** Adding an entry for a (user, day) that has none keeps one entry per day. */
  lemma AddKeepsOnePerDay(entries: seq<MoodEntry>, x: MoodEntry)
    requires OneEntryPerDay(entries)
    requires forall j :: 0 <= j < |entries| ==> !(entries[j].userId == x.userId && entries[j].date == x.date)
    ensures OneEntryPerDay(entries + [x])
  {
  }

  /**
   * `handleSave` for the selected day. Without a chosen mood or a signed-in user it
   * does nothing. Otherwise it rewrites the mood, score, emotions, intensity and note
   * of the user's entry for that day when there is one, or adds a private entry, and
   * clears the form. Either way each user keeps at most one entry per day.
   */
  method HandleSave(store: NexusStore, day: Day, form: MoodForm) returns (after: MoodForm)
    requires store.Valid()
    modifies store`moodEntries
    ensures store.Valid()
    ensures form.mood == "" || store.currentUser.None? ==>
      store.moodEntries == old(store.moodEntries) && after == form
    ensures form.mood != "" && store.currentUser.Some? ==> after == ClearedForm
    ensures form.mood != "" && store.currentUser.Some? && EntryOn(old(store.moodEntries), store.currentUser, day).Some? ==>
      var e := EntryOn(old(store.moodEntries), store.currentUser, day).value;
      |store.moodEntries| == |old(store.moodEntries)| &&
      forall i :: 0 <= i < |store.moodEntries| ==>
        store.moodEntries[i] == if old(store.moodEntries)[i].id == e.id
          then Resaved(old(store.moodEntries)[i], form) else old(store.moodEntries)[i]
    ensures form.mood != "" && store.currentUser.Some? && EntryOn(old(store.moodEntries), store.currentUser, day).None? ==>
      |store.moodEntries| == |old(store.moodEntries)| + 1 &&
      store.moodEntries[..|old(store.moodEntries)|] == old(store.moodEntries) &&
      var added := store.moodEntries[|old(store.moodEntries)|];
      added == MoodEntry(added.id, store.currentUser.value.id, day, form.mood, MoodScore(form.mood),
                         form.emotions, form.intensity, Some(form.note), true)
    ensures OneEntryPerDay(old(store.moodEntries)) ==> OneEntryPerDay(store.moodEntries)
  {
    if form.mood == "" || store.currentUser.None? {
      return form;
    }
    var existing := EntryOn(store.moodEntries, store.currentUser, day);
    if existing.Some? {
      SaveOver(store, existing.value.id, form);
    } else {
      assert DayFree(store.moodEntries, store.currentUser.value.id, day);
      SaveNew(store, store.currentUser.value.id, day, form);
    }
    after := ClearedForm;
  }

  /** The first branch of `handleSave`: the entry with that id is rewritten from the form. */
  method SaveOver(store: NexusStore, id: Id, form: MoodForm)
    requires store.Valid()
    modifies store`moodEntries
    ensures store.Valid()
    ensures |store.moodEntries| == |old(store.moodEntries)|
    ensures forall i :: 0 <= i < |store.moodEntries| ==>
      store.moodEntries[i] == if old(store.moodEntries)[i].id == id
        then Resaved(old(store.moodEntries)[i], form) else old(store.moodEntries)[i]
    ensures OneEntryPerDay(old(store.moodEntries)) ==> OneEntryPerDay(store.moodEntries)
  {
    ghost var before := store.moodEntries;
    store.UpdateMoodEntry(id, SavePatch(form));
    ResaveShape(before, id, form);
  }

  /** The second branch of `handleSave`: a private entry for `owner` on `day` is appended under a fresh id. */
  method SaveNew(store: NexusStore, owner: Id, day: Day, form: MoodForm)
    requires store.Valid()
    modifies store`moodEntries
    ensures store.Valid()
    ensures |store.moodEntries| == |old(store.moodEntries)| + 1
    ensures store.moodEntries[..|old(store.moodEntries)|] == old(store.moodEntries)
    ensures var added := store.moodEntries[|old(store.moodEntries)|];
      added == MoodEntry(added.id, owner, day, form.mood, MoodScore(form.mood),
                         form.emotions, form.intensity, Some(form.note), true)
    ensures OneEntryPerDay(old(store.moodEntries)) && DayFree(old(store.moodEntries), owner, day) ==>
      OneEntryPerDay(store.moodEntries)
  {
    ghost var before := store.moodEntries;
    store.AddMoodEntry(MoodEntry("", owner, day, form.mood, MoodScore(form.mood),
                                 form.emotions, form.intensity, Some(form.note), true));
    assert store.moodEntries == before + [store.moodEntries[|before|]];
    if OneEntryPerDay(before) && DayFree(before, owner, day) {
      AddKeepsOnePerDay(before, store.moodEntries[|before|]);
    }
  }
}
