/**
 * The records of one month of journal data and the application's fixed
 * constants. Days are the integers 1..31 of the current month; every
 * day-keyed record is a map from day number to that day's value.
 */
module Types {
  import opened Wrappers

  /**
   * A tracked habit. `completed` maps a day to its completion weight, 0.5
   * (partial) or 1 (done); a day that is absent has weight 0.
   */
  datatype Habit = Habit(id: string, title: string, color: string, completed: map<int, real>)

  /** The older saved shape of a habit: the list of fully completed days. */
  datatype LegacyHabit = LegacyHabit(id: string, title: string, color: string, completedDays: seq<int>)

  /** One day's mood: 3 (radiant), 2 (neutral), 1 (tired) or no record. */
  datatype MoodEntry = MoodEntry(day: int, value: Option<int>)

  /** Free journal text per day. */
  type JournalEntries = map<int, string>

  /**
   * One answer of a daily check-in. A day's answers form a JavaScript object
   * with string keys, which keeps its keys in insertion order; the model
   * holds them as that ordered list of entries. An object holds each key
   * once, which `DistinctKeys` states of the list.
   */
  datatype Answer = Answer(category: string, value: int)
  type DayAnswers = seq<Answer>

  /** Check-in answers per day. */
  type CheckInRecord = map<int, DayAnswers>

  datatype BrainDumpItem = BrainDumpItem(id: string, text: string, isDone: bool)

  /** A gratitude note; `date` is the ISO timestamp of its creation. */
  datatype GratitudeItem = GratitudeItem(id: string, text: string, date: string)

  /** A hand-placed sticky note; `rotation` is its tilt in degrees. */
  datatype StickyNoteData = StickyNoteData(id: string, text: string, color: string, rotation: real)

  datatype UserProfile = UserProfile(name: string, bio: string, joinDate: string, avatarSeed: string, bestStreak: int)

  datatype Category = Category(id: string, title: string)

  /** The value stored under `key` in a day's answers (the first entry with that key). */
  function Lookup(answers: DayAnswers, key: string): (r: Option<int>)
    ensures r.Some? <==> exists k :: 0 <= k < |answers| && answers[k].category == key
    ensures r.Some? ==> exists k :: 0 <= k < |answers| && answers[k] == Answer(key, r.value)
  {
    if answers == [] then None
    else if answers[0].category == key then Some(answers[0].value)
    else
      var r := Lookup(answers[1..], key);
      assert forall k :: 1 <= k < |answers| ==> answers[k] == answers[1..][k - 1];
      r
  }

  /** Each key occurs once, as in the object the answers come from. */
  predicate DistinctKeys(answers: DayAnswers) {
    forall j, k :: 0 <= j < k < |answers| ==> answers[j].category != answers[k].category
  }

  /** With distinct keys every entry is what its key looks up: no entry is shadowed by an earlier one. */
  lemma {:induction false} LookupDistinct(answers: DayAnswers, k: nat)
    requires DistinctKeys(answers) && k < |answers|
    ensures Lookup(answers, answers[k].category) == Some(answers[k].value)
  {
    if k > 0 {
      assert answers[0].category != answers[k].category;
      assert answers[1..][k - 1] == answers[k];
      assert DistinctKeys(answers[1..]) by {
        forall j, m | 0 <= j < m < |answers[1..]|
          ensures answers[1..][j].category != answers[1..][m].category
        {
          assert answers[1..][j] == answers[j + 1] && answers[1..][m] == answers[m + 1];
        }
      }
      LookupDistinct(answers[1..], k - 1);
    }
  }

  /** `checkIns[day]?.[key]`: the answer for `key` on `day`, if that day and key are recorded. */
  function DayValue(checkIns: CheckInRecord, day: int, key: string): Option<int> {
    if day in checkIns then Lookup(checkIns[day], key) else None
  }

  /** MONTH_DAYS: the day numbers 1..31 in ascending order. */
  const MonthDays: seq<int> := [
    1, 2, 3, 4, 5, 6, 7, 8, 9, 10, 11, 12, 13, 14, 15, 16,
    17, 18, 19, 20, 21, 22, 23, 24, 25, 26, 27, 28, 29, 30, 31
  ]

  const CheckInCategories: seq<Category> := [
    Category("sleep", "Qualidade do Sono"),
    Category("energy", "Nível de Energia"),
    Category("food", "Alimentação"),
    Category("focus", "Foco / Produtividade"),
    Category("social", "Interação Social"),
    Category("stress", "Nível de Estresse")
  ]

  /** The highlighter palette a new habit's colour is drawn from. */
  const HighlighterColors: seq<string> := [
    "#dbfbc4", "#74b9ff", "#ffeaa7", "#fab1a0", "#a29bfe", "#fd79a8", "#81ecec"
  ]

  const DefaultHabits: seq<Habit> := [
    Habit("1", "Yoga Matinal", "#dbfbc4", map[]),
    Habit("2", "Beber 2L Água", "#74b9ff", map[]),
    Habit("3", "Ler 30 min", "#ffeaa7", map[])
  ]

  /** INITIAL_MOOD_DATA: one empty mood entry per day of the month. */
  const InitialMoodData: seq<MoodEntry> := seq(|MonthDays|, i requires 0 <= i < |MonthDays| => MoodEntry(MonthDays[i], None))

  /** The ids of the check-in categories, in display order. */
  function CategoryIds(): (ids: seq<string>)
    ensures |ids| == |CheckInCategories|
    ensures forall i :: 0 <= i < |ids| ==> ids[i] == CheckInCategories[i].id
  {
    seq(|CheckInCategories|, i requires 0 <= i < |CheckInCategories| => CheckInCategories[i].id)
  }

  lemma MonthDaysAscending()
    ensures |MonthDays| == 31
    ensures forall i :: 0 <= i < 31 ==> MonthDays[i] == i + 1
    ensures forall i, j :: 0 <= i < j < 31 ==> MonthDays[i] < MonthDays[j]
  {
  }

  lemma InitialMoodDataEmpty()
    ensures |InitialMoodData| == 31
    ensures forall i :: 0 <= i < 31 ==> InitialMoodData[i] == MoodEntry(i + 1, None)
  {
  }

  lemma DefaultHabitsWellFormed()
    ensures |DefaultHabits| == 3
    ensures forall i, j :: 0 <= i < j < 3 ==> DefaultHabits[i].id != DefaultHabits[j].id
    ensures forall i :: 0 <= i < 3 ==> DefaultHabits[i].completed == map[]
    ensures forall i :: 0 <= i < 3 ==> DefaultHabits[i].color in HighlighterColors
  {
  }

  lemma CategoriesDistinct()
    ensures CategoryIds() == ["sleep", "energy", "food", "focus", "social", "stress"]
    ensures forall i, j :: 0 <= i < j < |CheckInCategories| ==> CheckInCategories[i].id != CheckInCategories[j].id
  {
  }
}
