/**
 * The application as one state machine: the records the page holds, the
 * actions its handlers perform, and the best-streak effect that runs after
 * every change. The main result is that the record of the best streak
 * never goes down and always covers the current streak, whatever sequence
 * of these actions the user takes, including deleting habits and editing
 * the profile.
 */
module App {
  import opened Wrappers
  import opened Types
  import Habits
  import Streak
  import Mood
  import Grid
  import Lists
  import Profile

  /** Which page is shown; the profile page carries its own edit form. */
  datatype View = Dashboard | ProfilePage(editor: Profile.Editor)

  /** Everything the page holds, with the day of the month fixed for the session. */
  datatype AppState = AppState(
    habits: seq<Habit>,
    moods: seq<MoodEntry>,
    journal: JournalEntries,
    checkIns: CheckInRecord,
    brainDump: seq<BrainDumpItem>,
    gratitude: seq<GratitudeItem>,
    focus: string,
    stickies: seq<StickyNoteData>,
    profile: UserProfile,
    view: View,
    journalDay: Option<int>,
    pendingDelete: Option<string>,
    currentDay: int)

  /**
   * What the user can do. Fresh ids, timestamps and random draws in [0, 1)
   * arrive with the action.
   */
  datatype Action =
    | Click(click: Grid.GridClick)
    | SubmitHabit(input: string, id: string, rnd: real)
    | ConfirmDelete
    | CancelDelete
    | ToggleMood(day: int)
    | SetTodayMood(value: int)
    | SubmitCheckIn(answers: DayAnswers)
    | CloseJournal
    | SaveJournal(text: string)
    | AddBrainDump(id: string, text: string)
    | ToggleBrainDump(id: string)
    | DeleteBrainDump(id: string)
    | AddGratitude(id: string, text: string, date: string)
    | DeleteGratitude(id: string)
    | AddSticky(id: string, color: string, rnd: real)
    | EditSticky(id: string, text: string)
    | DeleteSticky(id: string)
    | SetFocus(text: string)
    | OpenProfile
    | EditProfile(event: Profile.EditEvent)
    | Back

  /**
   * Random draws lie in [0, 1), as `Math.random()` promises; the header's
   * three mood buttons set 3, 2 or 1; submitted answers come from an object,
   * so each key occurs once.
   */
  predicate ValidAction(a: Action) {
    match a
    case SubmitHabit(_, _, rnd) => 0.0 <= rnd < 1.0
    case AddSticky(_, _, rnd) => 0.0 <= rnd < 1.0
    case SetTodayMood(value) => 1 <= value <= 3
    case SubmitCheckIn(answers) => DistinctKeys(answers)
    case _ => true
  }

  /** The actions whose controls exist only on the profile page. */
  predicate ProfileAction(a: Action) {
    a.EditProfile? || a.Back?
  }

  /** The dashboard handlers. */
  function Dash(s: AppState, a: Action): AppState
    requires ValidAction(a) && !ProfileAction(a)
  {
    match a
    case Click(c) =>
      var g := Grid.Click(Grid.GridState(s.habits, s.journalDay, s.pendingDelete), c);
      s.(habits := g.habits, journalDay := g.journalDay, pendingDelete := g.pendingDelete)
    case SubmitHabit(input, id, rnd) =>
      var title := Grid.HandleAddSubmit(input).0;
      if title.Some? then s.(habits := Habits.AddHabit(s.habits, id, title.value, rnd)) else s
    case ConfirmDelete =>
      // The dialog's confirm button runs the handler and then closes the dialog.
      var (habits, _) := Habits.ConfirmDeleteHabit(s.habits, s.pendingDelete);
      s.(habits := habits, pendingDelete := None)
    case CancelDelete => s.(pendingDelete := None)
    case ToggleMood(day) => s.(moods := Mood.ToggleMoodForDay(s.moods, day))
    case SetTodayMood(value) => s.(moods := Mood.SetMoodForDay(s.moods, s.currentDay, value))
    case SubmitCheckIn(answers) =>
      var (checkIns, moods) := Mood.SaveCheckIn(s.checkIns, s.moods, s.currentDay, answers);
      s.(checkIns := checkIns, moods := moods)
    case CloseJournal => s.(journalDay := None)
    case SaveJournal(text) => s.(journal := Lists.SaveJournalEntry(s.journal, s.journalDay, text))
    case AddBrainDump(id, text) => s.(brainDump := Lists.AddBrainDumpItem(s.brainDump, id, text))
    case ToggleBrainDump(id) => s.(brainDump := Lists.ToggleBrainDumpItem(s.brainDump, id))
    case DeleteBrainDump(id) => s.(brainDump := Lists.DeleteBrainDumpItem(s.brainDump, id))
    case AddGratitude(id, text, date) => s.(gratitude := Lists.AddGratitude(s.gratitude, id, text, date))
    case DeleteGratitude(id) => s.(gratitude := Lists.DeleteGratitude(s.gratitude, id))
    case AddSticky(id, color, rnd) => s.(stickies := Lists.AddStickyNote(s.stickies, id, color, rnd))
    case EditSticky(id, text) => s.(stickies := Lists.UpdateStickyNote(s.stickies, id, text))
    case DeleteSticky(id) => s.(stickies := Lists.DeleteStickyNote(s.stickies, id))
    case SetFocus(text) => s.(focus := text)
    case OpenProfile => s.(view := ProfilePage(Profile.OpenPage(s.profile)))
  }

  /**
   * One action. Dashboard controls are not rendered while the profile page
   * is shown, so there they do nothing, except the header's profile button,
   * which keeps the page (and its form) as it is. A save on the profile page
   * replaces the profile by the form.
   */
  function Act(s: AppState, a: Action): AppState
    requires ValidAction(a)
  {
    match s.view
    case Dashboard => if ProfileAction(a) then s else Dash(s, a)
    case ProfilePage(editor) =>
      match a
      case Back => s.(view := Dashboard)
      case EditProfile(ev) =>
        var (e, saved) := Profile.Apply(editor, ev);
        var s' := s.(view := ProfilePage(e));
        if saved.Some? then s'.(profile := saved.value) else s'
      case _ => s
  }

  /** The best-streak effect: raise the record when the current streak beats it. */
  function Reconcile(s: AppState): (r: AppState)
    ensures r == s.(profile := r.profile)
    ensures r.profile == s.profile.(bestStreak := r.profile.bestStreak)
    ensures r.profile.bestStreak >= s.profile.bestStreak
    ensures r.profile.bestStreak >= Streak.CurrentStreak(s.habits, s.currentDay)
    ensures r.profile.bestStreak > s.profile.bestStreak ==> r.profile.bestStreak == Streak.CurrentStreak(s.habits, s.currentDay)
  {
    s.(profile := s.profile.(bestStreak := Streak.Ratchet(s.profile.bestStreak, Streak.CurrentStreak(s.habits, s.currentDay))))
  }

  /** An action followed by the effect. */
  function Step(s: AppState, a: Action): AppState
    requires ValidAction(a)
  {
    Reconcile(Act(s, a))
  }

  /** Replays a session. */
  function Run(s: AppState, actions: seq<Action>): AppState
    requires forall i :: 0 <= i < |actions| ==> ValidAction(actions[i])
    decreases |actions|
  {
    if actions == [] then s else Run(Step(s, actions[0]), actions[1..])
  }

  /**
   * What holds between actions: the record covers the current streak, and
   * an open profile form carries the profile's record (the form is a copy
   * taken when the page opened, and the record cannot move while it is
   * shown).
   */
  predicate Settled(s: AppState) {
    && s.profile.bestStreak >= Streak.CurrentStreak(s.habits, s.currentDay)
    && (s.view.ProfilePage? ==> Profile.SameUntouched(s.view.editor.formData, s.profile))
  }

  /** The page as first shown: loaded data, dashboard, nothing pending, and the effect run once. */
  function Start(habits: seq<Habit>, moods: seq<MoodEntry>, journal: JournalEntries, checkIns: CheckInRecord,
                 brainDump: seq<BrainDumpItem>, gratitude: seq<GratitudeItem>, focus: string,
                 stickies: seq<StickyNoteData>, profile: UserProfile, currentDay: int): (s: AppState)
    ensures Settled(s)
    ensures s.profile.bestStreak >= profile.bestStreak
    ensures s.habits == habits && s.view == Dashboard && s.journalDay == None && s.pendingDelete == None
  {
    Reconcile(AppState(habits, moods, journal, checkIns, brainDump, gratitude, focus, stickies, profile,
                       Dashboard, None, None, currentDay))
  }

  /** No action lowers the record, and every action leaves the page settled. */
  lemma StepKeepsRecord(s: AppState, a: Action)
    requires Settled(s) && ValidAction(a)
    ensures Settled(Step(s, a))
    ensures Step(s, a).profile.bestStreak >= s.profile.bestStreak
  {
    if s.view.ProfilePage? {
      ProfileStepKeepsData(s, a);
    }
  }

  /**
   * On the profile page an action leaves the month's data and the day alone,
   * and the form and any saved profile keep the record.
   */
  lemma ProfileStepKeepsData(s: AppState, a: Action)
    requires s.view.ProfilePage? && ValidAction(a)
    requires Profile.SameUntouched(s.view.editor.formData, s.profile)
    ensures Act(s, a).habits == s.habits && Act(s, a).currentDay == s.currentDay
    ensures Profile.SameUntouched(Act(s, a).profile, s.profile)
    ensures Act(s, a).view.ProfilePage? ==> Profile.SameUntouched(Act(s, a).view.editor.formData, Act(s, a).profile)
  {
    var t := Act(s, a);
    if a.EditProfile? {
      var (e, saved) := Profile.Apply(s.view.editor, a.event);
      Profile.SavedProfilesKeepUntouchedFields(s.view.editor, [a.event], s.profile);
      assert Profile.Replay(s.view.editor, [a.event]).0 == e;
      if saved.Some? {
        assert Profile.Replay(s.view.editor, [a.event]).1 == [saved.value];
      }
      assert Profile.SameUntouched(t.profile, s.profile);
    }
  }

  /**
   * Over any session, the record never goes down and ends at or above the
   * current streak, whatever habits were toggled, added or deleted on the
   * way.
   */
  lemma {:induction false} RunKeepsRecord(s: AppState, actions: seq<Action>)
    requires Settled(s)
    requires forall i :: 0 <= i < |actions| ==> ValidAction(actions[i])
    ensures Settled(Run(s, actions))
    ensures Run(s, actions).profile.bestStreak >= s.profile.bestStreak
    ensures Run(s, actions).profile.bestStreak >= Streak.CurrentStreak(Run(s, actions).habits, s.currentDay)
    decreases |actions|
  {
    if actions != [] {
      StepKeepsRecord(s, actions[0]);
      RunKeepsRecord(Step(s, actions[0]), actions[1..]);
      RunKeepsDay(Step(s, actions[0]), actions[1..]);
    }
  }

  lemma {:induction false} RunKeepsDay(s: AppState, actions: seq<Action>)
    requires forall i :: 0 <= i < |actions| ==> ValidAction(actions[i])
    ensures Run(s, actions).currentDay == s.currentDay
    decreases |actions|
  {
    if actions != [] {
      RunKeepsDay(Step(s, actions[0]), actions[1..]);
    }
  }

  /**
   * While the profile page is shown, the month's data stays as it is; only
   * the profile (and the form) can change.
   */
  lemma ProfilePageFreezesData(s: AppState, a: Action)
    requires s.view.ProfilePage? && ValidAction(a)
    ensures var t := Step(s, a);
      t.habits == s.habits && t.moods == s.moods && t.journal == s.journal && t.checkIns == s.checkIns &&
      t.brainDump == s.brainDump && t.gratitude == s.gratitude && t.focus == s.focus && t.stickies == s.stickies
  {
  }

  /**
   * Dashboard actions never touch the profile's name, bio, join date or
   * avatar; only the record can move.
   */
  lemma DashboardKeepsIdentity(s: AppState, a: Action)
    requires s.view.Dashboard? && ValidAction(a)
    ensures var p := Step(s, a).profile;
      p.name == s.profile.name && p.bio == s.profile.bio &&
      p.joinDate == s.profile.joinDate && p.avatarSeed == s.profile.avatarSeed
  {
  }

  /**
   * Deleting a habit can only raise the record: a deleted habit that was
   * holding the streak back lets the streak, and so the record, grow.
   */
  lemma DeleteNeverLowersRecord(s: AppState)
    requires Settled(s) && s.view.Dashboard?
    ensures var t := Step(s, ConfirmDelete);
      t.profile.bestStreak >= s.profile.bestStreak &&
      t.profile.bestStreak >= Streak.CurrentStreak(t.habits, t.currentDay) &&
      t.pendingDelete == None
  {
    StepKeepsRecord(s, ConfirmDelete);
  }

  /**
   * A header mood button sets the mood of today's entries and leaves every
   * other entry, and the rest of the month's data, as it was.
   */
  lemma MoodButtonSetsToday(s: AppState, value: int)
    requires s.view.Dashboard? && 1 <= value <= 3
    ensures var t := Step(s, SetTodayMood(value));
      && |t.moods| == |s.moods|
      && (forall i :: 0 <= i < |t.moods| && s.moods[i].day == s.currentDay ==> t.moods[i] == MoodEntry(s.currentDay, Some(value)))
      && (forall i :: 0 <= i < |t.moods| && s.moods[i].day != s.currentDay ==> t.moods[i] == s.moods[i])
      && t.habits == s.habits && t.checkIns == s.checkIns && t.journal == s.journal
  {
  }
}
