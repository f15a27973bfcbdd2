/**
 * The profile page: the two journey counters, the displayed fallbacks,
 * the edit form and its save, and the defaulting applied when the
 * profile is loaded.
 */
module Profile {
  import opened Wrappers
  import opened Types
  import opened Habits
  import Keys

  // ---------------------------------------------------------------------
  // Journey counters

  /** The days of one habit whose stored weight is positive. */
  function PositiveDays(h: Habit): set<int> {
    set d | d in h.completed && h.completed[d] > 0.0
  }

  lemma PositiveDaysOfValid(h: Habit)
    requires ValidHabit(h)
    ensures PositiveDays(h) == h.completed.Keys
  {
    forall d | d in h.completed
      ensures d in PositiveDays(h)
    {
      assert h.completed[d] == 0.5 || h.completed[d] == 1.0;
    }
  }

  /** The number of stored weights of `h` that are positive. */
  function CompletedCells(h: Habit): (n: nat)
    ensures n <= |h.completed|
    ensures ValidHabit(h) ==> n == |h.completed|
  {
    Keys.SubsetCard(PositiveDays(h), h.completed.Keys);
    if ValidHabit(h) then PositiveDaysOfValid(h); |PositiveDays(h)|
    else |PositiveDays(h)|
  }

  /** `totalHabitsCompleted`: positive cells summed over every habit. */
  function TotalHabitsCompleted(habits: seq<Habit>): (n: nat)
    ensures n == 0 <==> forall i :: 0 <= i < |habits| ==> PositiveDays(habits[i]) == {}
  {
    if habits == [] then 0
    else CompletedCells(habits[0]) + TotalHabitsCompleted(habits[1..])
  }

  lemma {:induction false} TotalAppend(a: seq<Habit>, b: seq<Habit>)
    ensures TotalHabitsCompleted(a + b) == TotalHabitsCompleted(a) + TotalHabitsCompleted(b)
  {
    if a != [] {
      assert (a + b)[0] == a[0];
      assert (a + b)[1..] == a[1..] + b;
      TotalAppend(a[1..], b);
    } else {
      assert a + b == b;
    }
  }

  /** A newly added habit has no completed cells, so the total is unchanged. */
  lemma AddHabitKeepsTotal(habits: seq<Habit>, id: string, title: string, rnd: real)
    requires 0.0 <= rnd < 1.0
    ensures TotalHabitsCompleted(AddHabit(habits, id, title, rnd)) == TotalHabitsCompleted(habits)
  {
    var h := AddHabit(habits, id, title, rnd)[|habits|];
    assert AddHabit(habits, id, title, rnd) == habits + [h];
    TotalAppend(habits, [h]);
    assert PositiveDays(h) == {};
  }

  /**
   * One toggle of a valid habit's cell changes its count by +1 (0 to 0.5),
   * 0 (0.5 to 1) or -1 (1 to 0): partial days count as completed.
   */
  lemma ToggleCellCount(h: Habit, day: int)
    requires ValidHabit(h)
    ensures WeightAt(h, day) == 0.0 ==> CompletedCells(ToggleCell(h, day)) == CompletedCells(h) + 1
    ensures WeightAt(h, day) == 0.5 ==> CompletedCells(ToggleCell(h, day)) == CompletedCells(h)
    ensures WeightAt(h, day) == 1.0 ==> CompletedCells(ToggleCell(h, day)) + 1 == CompletedCells(h)
  {
    var r := ToggleCell(h, day);
    if WeightAt(h, day) == 0.0 {
      assert r.completed.Keys == h.completed.Keys + {day};
    } else if WeightAt(h, day) == 0.5 {
      assert r.completed.Keys == h.completed.Keys;
    } else if WeightAt(h, day) == 1.0 {
      assert r.completed.Keys == h.completed.Keys - {day};
    }
  }

  /** `happyDaysCount`: mood entries whose value is exactly 3. */
  function HappyDaysCount(moods: seq<MoodEntry>): (n: nat)
    ensures n <= |moods|
    ensures n == 0 <==> forall i :: 0 <= i < |moods| ==> moods[i].value != Some(3)
    ensures n == |moods| <==> forall i :: 0 <= i < |moods| ==> moods[i].value == Some(3)
  {
    if moods == [] then 0
    else (if moods[0].value == Some(3) then 1 else 0) + HappyDaysCount(moods[1..])
  }

  // ---------------------------------------------------------------------
  // Displayed fallbacks

  const AnonymousName: string := "Viajante Anônimo"
  const DefaultStory: string := "Escrevendo minha própria história..."

  /** The heading shows the name, or a fixed fallback when it is empty. */
  function DisplayName(p: UserProfile): (s: string)
    ensures s != []
    ensures p.name != [] ==> s == p.name
    ensures p.name == [] ==> s == AnonymousName
  {
    if p.name != [] then p.name else AnonymousName
  }

  /** The motto shows the bio, or a fixed fallback when it is empty. */
  function DisplayBio(p: UserProfile): (s: string)
    ensures s != []
    ensures p.bio != [] ==> s == p.bio
    ensures p.bio == [] ==> s == DefaultStory
  {
    if p.bio != [] then p.bio else DefaultStory
  }

  // ---------------------------------------------------------------------
  // The edit form

  /** The page's local state: edit mode and the form copy of the profile. */
  datatype Editor = Editor(isEditing: bool, formData: UserProfile)

  /** Opening the page copies the current profile into the form. */
  function OpenPage(p: UserProfile): Editor {
    Editor(false, p)
  }

  /** What the user can do on the page. */
  datatype EditEvent = StartEditing | TypeName(name: string) | TypeBio(bio: string) | Save

  /** `handleSave`: hands the form to the caller and leaves edit mode. */
  function HandleSave(e: Editor): (r: (UserProfile, Editor))
    ensures r.0 == e.formData
    ensures !r.1.isEditing && r.1.formData == e.formData
  {
    (e.formData, e.(isEditing := false))
  }

  /**
   * One event; a save also yields the profile handed to the caller. The page
   * shows the name and bio fields and the save button only while editing,
   * and the edit button only while not; the model accepts every event in
   * either mode, so what is proved about sessions covers any order of events.
   */
  function Apply(e: Editor, ev: EditEvent): (r: (Editor, Option<UserProfile>))
    ensures ev.Save? <==> r.1.Some?
    ensures ev.TypeName? ==> r.0.formData == e.formData.(name := ev.name)
    ensures ev.TypeBio? ==> r.0.formData == e.formData.(bio := ev.bio)
    ensures !ev.TypeName? && !ev.TypeBio? ==> r.0.formData == e.formData
  {
    match ev
    case StartEditing => (e.(isEditing := true), None)
    case TypeName(n) => (e.(formData := e.formData.(name := n)), None)
    case TypeBio(b) => (e.(formData := e.formData.(bio := b)), None)
    case Save =>
      var (p, e') := HandleSave(e);
      (e', Some(p))
  }

  /** Replays a session of events; returns the final state and every saved profile. */
  function Replay(e: Editor, events: seq<EditEvent>): (r: (Editor, seq<UserProfile>))
    ensures |r.1| <= |events|
    decreases |events|
  {
    if events == [] then (e, [])
    else
      var (e1, saved) := Apply(e, events[0]);
      var (e2, rest) := Replay(e1, events[1..]);
      (e2, (if saved.Some? then [saved.value] else []) + rest)
  }

  /** The form edits only name and bio: every other field is that of `p`. */
  predicate SameUntouched(q: UserProfile, p: UserProfile) {
    q.joinDate == p.joinDate && q.avatarSeed == p.avatarSeed && q.bestStreak == p.bestStreak
  }

  /**
   * Every profile saved during a session opened on `p` keeps `p`'s join
   * date, avatar seed and best streak: the form is a copy taken when the
   * page opened, edited only in name and bio.
   */
  lemma {:induction false} SavedProfilesKeepUntouchedFields(e: Editor, events: seq<EditEvent>, p: UserProfile)
    requires SameUntouched(e.formData, p)
    ensures SameUntouched(Replay(e, events).0.formData, p)
    ensures forall i :: 0 <= i < |Replay(e, events).1| ==> SameUntouched(Replay(e, events).1[i], p)
    decreases |events|
  {
    if events != [] {
      var (e1, saved) := Apply(e, events[0]);
      SavedProfilesKeepUntouchedFields(e1, events[1..], p);
    }
  }

  // ---------------------------------------------------------------------
  // Loading

  /** A parsed saved profile; a field missing from the JSON is `None`. */
  datatype StoredProfile = StoredProfile(name: Option<string>, bio: Option<string>, joinDate: Option<string>,
                                         avatarSeed: Option<string>, bestStreak: Option<int>)

  const NothingStored: StoredProfile := StoredProfile(None, None, None, None, None)

  /** `parsed.field || fallback` for a string field: missing or empty falls back. */
  function OrText(v: Option<string>, fallback: string): (s: string)
    ensures v.Some? && v.value != [] ==> s == v.value
    ensures !(v.Some? && v.value != []) ==> s == fallback
  {
    if v.Some? && v.value != [] then v.value else fallback
  }

  /**
   * The profile initialiser: each missing or falsy field takes its default.
   * `now` is the ISO timestamp of the current instant, used as join date.
   */
  function LoadProfile(s: StoredProfile, now: string): (p: UserProfile)
    ensures p.name != [] && p.bio != [] && p.avatarSeed != []
    ensures now != [] ==> p.joinDate != []
    ensures s.bestStreak.None? ==> p.bestStreak == 0
    ensures s.bestStreak.Some? ==> p.bestStreak == s.bestStreak.value
    ensures s == NothingStored ==> p == UserProfile("Viajante", "Pequenos passos todos os dias...", now, "1", 0)
  {
    UserProfile(
      OrText(s.name, "Viajante"),
      OrText(s.bio, "Pequenos passos todos os dias..."),
      OrText(s.joinDate, now),
      OrText(s.avatarSeed, "1"),
      if s.bestStreak.Some? && s.bestStreak.value != 0 then s.bestStreak.value else 0)
  }

  /** The saved form of a profile: every field present. */
  function Store(p: UserProfile): StoredProfile {
    StoredProfile(Some(p.name), Some(p.bio), Some(p.joinDate), Some(p.avatarSeed), Some(p.bestStreak))
  }

  /** A profile with non-empty text fields survives saving and loading unchanged. */
  lemma StoreLoadRoundTrip(p: UserProfile, now: string)
    requires p.name != [] && p.bio != [] && p.joinDate != [] && p.avatarSeed != []
    ensures LoadProfile(Store(p), now) == p
  {
  }

  /** Loading what was loaded (and saved) gives the same profile: defaulting is idempotent. */
  lemma LoadIsIdempotent(s: StoredProfile, now: string, later: string)
    requires now != []
    ensures LoadProfile(Store(LoadProfile(s, now)), later) == LoadProfile(s, now)
  {
    StoreLoadRoundTrip(LoadProfile(s, now), later);
  }
}
