/**
 * Goals (src/components/tabs/GoalsTab.tsx): the signed-in user's goals split
 * into active and completed, the create/edit form, and the progress slider.
 */
module Goals {
  import opened Wrappers
  import opened Seqs
  import opened Entities
  import opened Store

  /** Whether the goal belongs to the signed-in user (nobody signed in: no goal does). */
  predicate OwnGoal(viewer: Option<User>, g: Goal) {
    viewer.Some? && g.userId == viewer.value.id
  }

  /** `userGoals`: the signed-in user's goals, in stored order. */
  function UserGoals(goals: seq<Goal>, viewer: Option<User>): (r: seq<Goal>)
    ensures forall i :: 0 <= i < |r| ==> r[i] in goals && OwnGoal(viewer, r[i])
    ensures forall i :: 0 <= i < |goals| && OwnGoal(viewer, goals[i]) ==> goals[i] in r
    ensures viewer.None? ==> r == []
  {
    FilterRejectsAll(goals, (g: Goal) => OwnGoal(viewer, g));
    Filter(goals, (g: Goal) => OwnGoal(viewer, g))
  }

  predicate IsActive(g: Goal) { g.status == Active }
  predicate IsCompleted(g: Goal) { g.status == Completed }

  /** `activeGoals`. */
  function ActiveGoals(goals: seq<Goal>, viewer: Option<User>): (r: seq<Goal>)
    ensures forall i :: 0 <= i < |r| ==> r[i] in UserGoals(goals, viewer) && r[i].status == Active
  {
    Filter(UserGoals(goals, viewer), IsActive)
  }

  /** `completedGoals`. */
  function CompletedGoals(goals: seq<Goal>, viewer: Option<User>): (r: seq<Goal>)
    ensures forall i :: 0 <= i < |r| ==> r[i] in UserGoals(goals, viewer) && r[i].status == Completed
  {
    Filter(UserGoals(goals, viewer), IsCompleted)
  }

  /**
   * The two lists are disjoint parts of the user's goals: together they are no
   * longer than it, a paused goal is in neither, and every active or completed
   * goal of the user is in its list.
   */
  lemma Partition(goals: seq<Goal>, viewer: Option<User>)
    ensures forall x :: !(x in ActiveGoals(goals, viewer) && x in CompletedGoals(goals, viewer))
    ensures |ActiveGoals(goals, viewer)| + |CompletedGoals(goals, viewer)| <= |UserGoals(goals, viewer)|
    ensures forall x: Goal :: x.status == Paused ==> x !in ActiveGoals(goals, viewer) && x !in CompletedGoals(goals, viewer)
    ensures forall x: Goal :: x in UserGoals(goals, viewer) && x.status == Active ==> x in ActiveGoals(goals, viewer)
    ensures forall x: Goal :: x in UserGoals(goals, viewer) && x.status == Completed ==> x in CompletedGoals(goals, viewer)
  {
    FilterDisjointLength(UserGoals(goals, viewer), IsActive, IsCompleted);
    forall x: Goal
      ensures !(x in ActiveGoals(goals, viewer) && x in CompletedGoals(goals, viewer))
      ensures x.status == Paused ==> x !in ActiveGoals(goals, viewer) && x !in CompletedGoals(goals, viewer)
      ensures x in UserGoals(goals, viewer) && x.status == Active ==> x in ActiveGoals(goals, viewer)
      ensures x in UserGoals(goals, viewer) && x.status == Completed ==> x in CompletedGoals(goals, viewer)
    {
      ListedStatus(goals, viewer, x);
      ListedComplete(goals, viewer, x);
    }
  }

  /** A goal in either list has that list's status. */
  lemma ListedStatus(goals: seq<Goal>, viewer: Option<User>, x: Goal)
    ensures x in ActiveGoals(goals, viewer) ==> x.status == Active
    ensures x in CompletedGoals(goals, viewer) ==> x.status == Completed
  {
    var active, completed := ActiveGoals(goals, viewer), CompletedGoals(goals, viewer);
    if x in active {
      var i :| 0 <= i < |active| && active[i] == x;
    }
    if x in completed {
      var i :| 0 <= i < |completed| && completed[i] == x;
    }
  }

  /** Each of the user's active or completed goals is in its list. */
  lemma ListedComplete(goals: seq<Goal>, viewer: Option<User>, x: Goal)
    ensures x in UserGoals(goals, viewer) && x.status == Active ==> x in ActiveGoals(goals, viewer)
    ensures x in UserGoals(goals, viewer) && x.status == Completed ==> x in CompletedGoals(goals, viewer)
  {
    var own := UserGoals(goals, viewer);
    if x in own {
      var i :| 0 <= i < |own| && own[i] == x;
      assert IsActive(own[i]) ==> own[i] in Filter(own, IsActive);
      assert IsCompleted(own[i]) ==> own[i] in Filter(own, IsCompleted);
    }
  }

  /** The status the progress slider sets: completed from 100 up, active below (also over a paused goal). */
  function ProgressStatus(progress: int): (s: GoalStatus)
    ensures s == Completed <==> progress >= 100
    ensures s != Paused
  {
    if progress >= 100 then Completed else Active
  }

  /** The update `handleProgressChange` sends. */
  function ProgressPatch(progress: int): GoalPatch {
    NoGoalChange.(progress := Some(progress), status := Some(ProgressStatus(progress)))
  }

  /** A progress update sets the progress and the status it implies and keeps every other field. */
  lemma ProgressShape(g: Goal, progress: int)
    ensures ApplyGoal(g, ProgressPatch(progress)) == g.(progress := progress, status := ProgressStatus(progress))
  {
  }

  /**
   * `handleProgressChange`: the goal with that id gets the new progress, and is
   * completed iff that progress is at least 100 (active otherwise); the other goals are unchanged.
   */
  method HandleProgressChange(store: NexusStore, goalId: Id, progress: int)
    requires store.Valid()
    modifies store`goals
    ensures store.Valid()
    ensures |store.goals| == |old(store.goals)|
    ensures forall i :: 0 <= i < |store.goals| ==>
      store.goals[i] == if old(store.goals)[i].id == goalId
        then old(store.goals)[i].(progress := progress, status := ProgressStatus(progress))
        else old(store.goals)[i]
  {
    store.UpdateGoal(goalId, ProgressPatch(progress));
    forall i | 0 <= i < |store.goals| && old(store.goals)[i].id == goalId
      ensures store.goals[i] == old(store.goals)[i].(progress := progress, status := ProgressStatus(progress))
    {
      ProgressShape(old(store.goals)[i], progress);
    }
  }

  /** The create/edit form; `editing` is the id of the goal being edited. */
  datatype GoalForm = GoalForm(
    open: bool, editing: Option<Id>, title: string, description: string, motivation: string,
    fear: string, difficulty: int, visibility: Visibility)

  /** `resetForm`. */
  const ClearedForm := GoalForm(false, None, "", "", "", "", 5, Private)

  /** `handleEdit`: the form opened on an existing goal (a missing fear shows as empty). */
  function EditForm(g: Goal): (f: GoalForm)
    ensures f.open && f.editing == Some(g.id)
    ensures f.title == g.title && f.fear == g.fear.GetOr("")
  {
    GoalForm(true, Some(g.id), g.title, g.description, g.motivation, g.fear.GetOr(""), g.difficulty, g.visibility)
  }

  /** The update `handleSave` sends when editing: the six form fields, nothing else. */
  function EditPatch(f: GoalForm): GoalPatch {
    NoGoalChange.(title := Some(f.title), description := Some(f.description), motivation := Some(f.motivation),
                  fear := Some(f.fear), difficulty := Some(f.difficulty), visibility := Some(f.visibility))
  }

  /** The goal an edit turns `g` into: the six form fields replaced, progress, status, owner and dates kept. */
  function Edited(g: Goal, f: GoalForm): (r: Goal)
    ensures r.id == g.id && r.userId == g.userId && r.progress == g.progress && r.status == g.status
    ensures r.createdAt == g.createdAt && r.linkedHabits == g.linkedHabits && r.targetDate == g.targetDate
  {
    g.(title := f.title, description := f.description, motivation := f.motivation,
       fear := Some(f.fear), difficulty := f.difficulty, visibility := f.visibility)
  }

  /** Sending the edit patch is the edit. */
  lemma EditShape(g: Goal, f: GoalForm)
    ensures ApplyGoal(g, EditPatch(f)) == Edited(g, f)
  {
  }

  /**
   * Opening a goal in the form and saving it untouched changes nothing, except that
   * a missing fear becomes the empty string.
   */
  lemma EditUntouched(g: Goal)
    ensures ApplyGoal(g, EditPatch(EditForm(g))) == g.(fear := Some(g.fear.GetOr("")))
    ensures g.fear.Some? ==> ApplyGoal(g, EditPatch(EditForm(g))) == g
  {
    EditShape(g, EditForm(g));
  }

  /** The goal `handleSave` creates: no progress, active, no linked habits. */
  function NewGoal(f: GoalForm, owner: Id, now: Timestamp): (g: Goal)
    ensures g.progress == 0 && g.status == Active && g.linkedHabits == [] && g.userId == owner
    ensures g.title == f.title && g.fear == Some(f.fear) && g.createdAt == now
  {
    Goal("", owner, f.title, f.description, f.motivation, Some(f.fear), f.difficulty, 0, Active,
         f.visibility, [], now, None)
  }

  /**
   * `handleSave`. Without a title or a signed-in user nothing happens. Editing
   * (a non-empty id, as the source tests it for truthiness) rewrites the six form
   * fields of the goal being edited; otherwise a new goal is appended under a fresh id. Either way the form is reset.
   */
  method HandleSave(store: NexusStore, form: GoalForm, now: Timestamp) returns (after: GoalForm)
    requires store.Valid()
    modifies store`goals
    ensures store.Valid()
    ensures form.title == "" || store.currentUser.None? ==> store.goals == old(store.goals) && after == form
    ensures form.title != "" && store.currentUser.Some? ==> after == ClearedForm
    ensures form.title != "" && store.currentUser.Some? && form.editing.Some? && form.editing.value != "" ==>
      |store.goals| == |old(store.goals)| &&
      forall i :: 0 <= i < |store.goals| ==>
        store.goals[i] == if old(store.goals)[i].id == form.editing.value
          then Edited(old(store.goals)[i], form) else old(store.goals)[i]
    ensures form.title != "" && store.currentUser.Some? && (form.editing.None? || form.editing.value == "") ==>
      |store.goals| == |old(store.goals)| + 1 && store.goals[..|old(store.goals)|] == old(store.goals) &&
      store.goals[|old(store.goals)|] == NewGoal(form, store.currentUser.value.id, now).(id := store.goals[|old(store.goals)|].id) &&
      store.goals[|old(store.goals)|].id !in Keys(old(store.goals), GoalId)
  {
    if form.title == "" || store.currentUser.None? {
      return form;
    }
    if form.editing.Some? && form.editing.value != "" {
      store.UpdateGoal(form.editing.value, EditPatch(form));
      forall i | 0 <= i < |store.goals| && old(store.goals)[i].id == form.editing.value
        ensures store.goals[i] == Edited(old(store.goals)[i], form)
      {
        EditShape(old(store.goals)[i], form);
      }
    } else {
      store.AddGoal(NewGoal(form, store.currentUser.value.id, now));
    }
    after := ClearedForm;
  }
}
