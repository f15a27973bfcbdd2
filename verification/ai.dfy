/**
 * The AI text service wrapper: the data each request is built from, and
 * the contract that every call yields a string, falling back to a fixed
 * text when the generator answers nothing or fails. The generator is an
 * oracle: its reply is a parameter, and the prompt wording is not modelled.
 */
module Ai {
  import opened Wrappers
  import opened Types
  import opened Habits
  import opened Text
  import Keys

  // ---------------------------------------------------------------------
  // Settling a generator call

  /** What one generator call produced: a reply whose text may be missing, or a thrown error. */
  datatype Reply = Responded(text: Option<string>) | Failed

  /** `response.text?.trim() || emptyText` when the call returns, `failureText` when it throws. */
  function Settle(reply: Reply, emptyText: string, failureText: string): (s: string)
    ensures reply.Failed? ==> s == failureText
    ensures reply.Responded? && reply.text.Some? && !AllSpace(reply.text.value) ==> s == Trim(reply.text.value)
    ensures reply.Responded? && (reply.text.None? || AllSpace(reply.text.value)) ==> s == emptyText
  {
    match reply
    case Failed => failureText
    case Responded(text) =>
      var t := if text.Some? then Trim(text.value) else [];
      if t != [] then t else emptyText
  }

  /**
   * A settled result is never empty when the fallbacks are not, and it is
   * either a fallback or generated text with no whitespace at either end.
   */
  lemma SettledIsFallbackOrTrimmedText(reply: Reply, emptyText: string, failureText: string)
    requires emptyText != [] && failureText != []
    ensures var s := Settle(reply, emptyText, failureText);
      s != [] &&
      (s == emptyText || s == failureText || (!IsSpace(s[0]) && !IsSpace(s[|s| - 1])))
  {
    if reply.Responded? && reply.text.Some? && !AllSpace(reply.text.value) {
      var t := Trim(reply.text.value);
      assert Settle(reply, emptyText, failureText) == t && t != [];
    }
  }

  /** Settling a reply that already holds settled text gives that text back. */
  lemma SettleIsStable(reply: Reply, emptyText: string, failureText: string)
    requires reply.Responded? && reply.text.Some? && !AllSpace(reply.text.value)
    ensures var s := Settle(reply, emptyText, failureText);
      Settle(Responded(Some(s)), emptyText, failureText) == s
  {
    TrimIdempotent(reply.text.value);
  }

  // ---------------------------------------------------------------------
  // The ghost scribe

  /** `moodData.find(m => m.day === day)?.value`: the value of the first entry for `day`. */
  function FindMood(moods: seq<MoodEntry>, day: int): (r: Option<Option<int>>)
    ensures r.None? <==> forall i :: 0 <= i < |moods| ==> moods[i].day != day
    ensures r.Some? ==> exists i :: 0 <= i < |moods| && moods[i].day == day && moods[i].value == r.value
                                    && forall j :: 0 <= j < i ==> moods[j].day != day
  {
    if moods == [] then None
    else if moods[0].day == day then Some(moods[0].value)
    else
      var r := FindMood(moods[1..], day);
      if r.Some? then
        assert exists i :: 0 <= i < |moods| && moods[i].day == day && moods[i].value == r.value
                           && forall j :: 0 <= j < i ==> moods[j].day != day by {
          var i :| 0 <= i < |moods[1..]| && moods[1..][i].day == day && moods[1..][i].value == r.value
                   && forall j :: 0 <= j < i ==> moods[1..][j].day != day;
          assert forall j :: 1 <= j < i + 1 ==> moods[j] == moods[1..][j - 1];
        }
        r
      else
        assert forall i :: 1 <= i < |moods| ==> moods[i] == moods[1..][i - 1];
        r
  }

  /** The word for a looked-up mood: 3, 2, 1 are named, anything else is "no record". */
  function MoodLabel(mood: Option<Option<int>>): (s: string)
    ensures mood == Some(Some(3)) <==> s == "Radiante"
    ensures mood == Some(Some(2)) <==> s == "Neutro"
    ensures mood == Some(Some(1)) <==> s == "Cansado"
    ensures !(mood.Some? && mood.value.Some? && 1 <= mood.value.value <= 3) <==> s == "Sem registro"
  {
    if mood == Some(Some(3)) then "Radiante"
    else if mood == Some(Some(2)) then "Neutro"
    else if mood == Some(Some(1)) then "Cansado"
    else "Sem registro"
  }

  /** The titles of the habits with weight exactly 1 on `day`, in habit order. */
  function CompletedTitles(habits: seq<Habit>, day: int): (r: seq<string>)
    ensures |r| <= |habits|
    ensures forall t :: t in r ==> exists i :: 0 <= i < |habits| && habits[i].title == t && WeightAt(habits[i], day) == 1.0
    ensures forall i :: 0 <= i < |habits| && WeightAt(habits[i], day) == 1.0 ==> habits[i].title in r
  {
    if habits == [] then []
    else
      var rest := CompletedTitles(habits[1..], day);
      assert forall i :: 1 <= i < |habits| ==> habits[i] == habits[1..][i - 1];
      if WeightAt(habits[0], day) == 1.0 then [habits[0].title] + rest else rest
  }

  /** The filter works habit by habit: it distributes over concatenation, so the titles keep the habits' order. */
  lemma {:induction false} CompletedTitlesAppend(a: seq<Habit>, b: seq<Habit>, day: int)
    ensures CompletedTitles(a + b, day) == CompletedTitles(a, day) + CompletedTitles(b, day)
  {
    if a == [] {
      assert a + b == b;
    } else {
      assert (a + b)[0] == a[0];
      assert (a + b)[1..] == a[1..] + b;
      CompletedTitlesAppend(a[1..], b, day);
    }
  }

  /** Two habit lists that agree on titles and on the weights of `day` list the same titles. */
  lemma {:induction false} CompletedTitlesPointwise(a: seq<Habit>, b: seq<Habit>, day: int)
    requires |a| == |b|
    requires forall i :: 0 <= i < |a| ==> a[i].title == b[i].title && WeightAt(a[i], day) == WeightAt(b[i], day)
    ensures CompletedTitles(a, day) == CompletedTitles(b, day)
  {
    if a != [] {
      CompletedTitlesPointwise(a[1..], b[1..], day);
    }
  }

  /** The facts the scribe's prompt is built from. */
  datatype ScribeFacts = ScribeFacts(moodLabel: string, completedHabits: seq<string>, sleep: Option<int>, focus: Option<int>)

  /** The facts about `day`: its mood word, the habits fully done on it, and its sleep and focus answers. */
  function ScribeFactsFor(day: int, habits: seq<Habit>, moods: seq<MoodEntry>, checkIns: CheckInRecord): (f: ScribeFacts)
    ensures f.moodLabel in {"Radiante", "Neutro", "Cansado", "Sem registro"}
    ensures f.moodLabel != "Sem registro" ==> exists i :: 0 <= i < |moods| && moods[i].day == day && moods[i].value.Some?
    ensures forall t :: t in f.completedHabits <==>
              exists i :: 0 <= i < |habits| && habits[i].title == t && WeightAt(habits[i], day) == 1.0
    ensures day !in checkIns ==> f.sleep == None && f.focus == None
    ensures day in checkIns ==> f.sleep == Lookup(checkIns[day], "sleep") && f.focus == Lookup(checkIns[day], "focus")
  {
    ScribeFacts(MoodLabel(FindMood(moods, day)), CompletedTitles(habits, day),
                DayValue(checkIns, day, "sleep"), DayValue(checkIns, day, "focus"))
  }

  /** What happens on other days, in the grid or in the check-ins, does not change the scribe's facts about `day`. */
  lemma ScribeFactsIgnoreOtherDays(day: int, other: int, id: string, habits: seq<Habit>, moods: seq<MoodEntry>,
                                   checkIns: CheckInRecord, answers: DayAnswers)
    requires other != day
    ensures ScribeFactsFor(day, ToggleHabitDay(habits, id, other), moods, checkIns[other := answers])
            == ScribeFactsFor(day, habits, moods, checkIns)
  {
    var toggled := ToggleHabitDay(habits, id, other);
    forall i | 0 <= i < |habits|
      ensures toggled[i].title == habits[i].title && WeightAt(toggled[i], day) == WeightAt(habits[i], day)
    {
    }
    CompletedTitlesPointwise(toggled, habits, day);
  }

  const ScribeSpeechless: string := "Hoje o escriba está sem palavras..."

  /** The scribe's failure text reports whether an API key was configured (a non-empty key). */
  function ScribeNapping(apiKey: string): (s: string)
    ensures apiKey != [] ==> s == "O escriba está tirando um cochilo... (Chave encontrada)"
    ensures apiKey == [] ==> s == "O escriba está tirando um cochilo... (Chave ausente)"
  {
    "O escriba está tirando um cochilo... (" + (if apiKey != [] then "Chave encontrada" else "Chave ausente") + ")"
  }

  /** `generateGhostScribeEntry`. */
  function GhostScribeEntry(apiKey: string, reply: Reply): (s: string)
    ensures s != []
    ensures reply.Failed? ==> s == ScribeNapping(apiKey)
  {
    Settle(reply, ScribeSpeechless, ScribeNapping(apiKey))
  }

  // ---------------------------------------------------------------------
  // The pattern detective

  datatype MoodPoint = MoodPoint(d: int, v: int)
  datatype HabitDays = HabitDays(title: string, days: seq<int>)
  datatype CheckInRow = CheckInRow(day: int, answers: DayAnswers)
  datatype PatternSummary = PatternSummary(totalDays: nat, habitsList: seq<string>, moodHistory: seq<MoodPoint>,
                                           habitHistory: seq<HabitDays>, checkInSummary: seq<CheckInRow>)

  /** The entries with a recorded mood, as day/value points, in entry order. */
  function MoodHistory(moods: seq<MoodEntry>): (r: seq<MoodPoint>)
    ensures |r| <= |moods|
    ensures forall p :: p in r ==> MoodEntry(p.d, Some(p.v)) in moods
    ensures forall i :: 0 <= i < |moods| && moods[i].value.Some? ==> MoodPoint(moods[i].day, moods[i].value.value) in r
  {
    if moods == [] then []
    else
      var rest := MoodHistory(moods[1..]);
      assert forall i :: 1 <= i < |moods| ==> moods[i] == moods[1..][i - 1];
      if moods[0].value.Some? then [MoodPoint(moods[0].day, moods[0].value.value)] + rest else rest
  }

  /** The mood history distributes over concatenation, so the points keep the entries' order. */
  lemma {:induction false} MoodHistoryAppend(a: seq<MoodEntry>, b: seq<MoodEntry>)
    ensures MoodHistory(a + b) == MoodHistory(a) + MoodHistory(b)
  {
    if a == [] {
      assert a + b == b;
    } else {
      assert (a + b)[0] == a[0];
      assert (a + b)[1..] == a[1..] + b;
      MoodHistoryAppend(a[1..], b);
    }
  }

  /** One row per listed day, in the order listed. */
  function Rows(checkIns: CheckInRecord, days: seq<int>): (r: seq<CheckInRow>)
    requires forall i :: 0 <= i < |days| ==> days[i] in checkIns
    ensures |r| == |days|
    ensures forall i :: 0 <= i < |r| ==> r[i].day == days[i] && r[i].day in checkIns && r[i].answers == checkIns[days[i]]
    ensures forall d :: d in days ==> exists i :: 0 <= i < |r| && r[i].day == d
    ensures Ascending(days) ==> forall j, k :: 0 <= j < k < |r| ==> r[j].day < r[k].day
  {
    var r := seq(|days|, i requires 0 <= i < |days| && days[i] in checkIns => CheckInRow(days[i], checkIns[days[i]]));
    assert forall d :: d in days ==> exists i :: 0 <= i < |r| && r[i].day == d by {
      forall d | d in days
        ensures exists i :: 0 <= i < |r| && r[i].day == d
      {
        var i :| 0 <= i < |days| && days[i] == d;
        assert r[i].day == d;
      }
    }
    r
  }

  /** `Object.entries(checkIns)`: one row per recorded day, in ascending day order. */
  function CheckInSummary(checkIns: CheckInRecord): (r: seq<CheckInRow>)
    ensures forall d :: d in checkIns <==> exists i :: 0 <= i < |r| && r[i].day == d
    ensures forall i :: 0 <= i < |r| ==> r[i].day in checkIns && r[i].answers == checkIns[r[i].day]
    ensures forall j, k :: 0 <= j < k < |r| ==> r[j].day < r[k].day
  {
    var days := Keys.SortedKeys(checkIns.Keys);
    assert Ascending(days);
    Rows(checkIns, days)
  }

  /** Each habit's title with its completion days in ascending order, partial days included. */
  function HabitHistory(habits: seq<Habit>): (r: seq<HabitDays>)
    ensures |r| == |habits|
    ensures forall i :: 0 <= i < |habits| ==> r[i].title == habits[i].title
    ensures forall i, d :: 0 <= i < |habits| ==> (d in r[i].days <==> d in habits[i].completed)
    ensures forall i :: 0 <= i < |habits| ==> Ascending(r[i].days)
  {
    seq(|habits|, i requires 0 <= i < |habits| => HabitDays(habits[i].title, Keys.SortedKeys(habits[i].completed.Keys)))
  }

  /**
   * The `dataSummary` object sent with the pattern request: the number of
   * mood entries, the habit titles in order, every recorded mood, each
   * habit's completion days in ascending order, and every check-in day in
   * ascending order with its answers.
   */
  function Summarize(habits: seq<Habit>, moods: seq<MoodEntry>, checkIns: CheckInRecord): (s: PatternSummary)
    ensures s.totalDays == |moods|
    ensures |s.habitsList| == |habits| && forall i :: 0 <= i < |habits| ==> s.habitsList[i] == habits[i].title
    ensures forall p :: p in s.moodHistory <==> MoodEntry(p.d, Some(p.v)) in moods
    ensures |s.habitHistory| == |habits|
    ensures forall i :: 0 <= i < |habits| ==> s.habitHistory[i].title == s.habitsList[i] && Ascending(s.habitHistory[i].days)
    ensures forall i, d :: 0 <= i < |habits| ==> (d in s.habitHistory[i].days <==> d in habits[i].completed)
    ensures forall d :: d in checkIns <==> exists i :: 0 <= i < |s.checkInSummary| && s.checkInSummary[i].day == d
    ensures forall i :: 0 <= i < |s.checkInSummary| ==>
              s.checkInSummary[i].day in checkIns && s.checkInSummary[i].answers == checkIns[s.checkInSummary[i].day]
    ensures forall j, k :: 0 <= j < k < |s.checkInSummary| ==> s.checkInSummary[j].day < s.checkInSummary[k].day
  {
    var history := MoodHistory(moods);
    assert forall p: MoodPoint :: MoodEntry(p.d, Some(p.v)) in moods ==> p in history by {
      forall p: MoodPoint | MoodEntry(p.d, Some(p.v)) in moods
        ensures p in history
      {
        var i :| 0 <= i < |moods| && moods[i] == MoodEntry(p.d, Some(p.v));
        assert MoodPoint(moods[i].day, moods[i].value.value) == p;
      }
    }
    PatternSummary(
      |moods|,
      seq(|habits|, i requires 0 <= i < |habits| => habits[i].title),
      history,
      HabitHistory(habits),
      CheckInSummary(checkIns))
  }

  /** A mood entry without a value adds a day to the count and changes nothing else in the summary. */
  lemma SummaryIgnoresEmptyEntries(habits: seq<Habit>, moods: seq<MoodEntry>, checkIns: CheckInRecord, day: int)
    ensures Summarize(habits, moods + [MoodEntry(day, None)], checkIns)
            == Summarize(habits, moods, checkIns).(totalDays := |moods| + 1)
  {
    MoodHistoryAppend(moods, [MoodEntry(day, None)]);
    assert MoodHistory([MoodEntry(day, None)]) == [];
  }

  const NoInsightsYet: string := "Sem insights por enquanto."
  const DetectiveOffline: string := "Estou organizando minhas lupas... (Erro de conexão)"

  /** `analyzePatternsWithAI`. */
  function AnalyzePatterns(reply: Reply): (s: string)
    ensures s != []
    ensures reply.Failed? ==> s == DetectiveOffline
  {
    Settle(reply, NoInsightsYet, DetectiveOffline)
  }

  // ---------------------------------------------------------------------
  // The mental weather report

  /** The texts the brain-dump panel sends: the items not yet done, in list order. */
  function OpenTexts(items: seq<BrainDumpItem>): (r: seq<string>)
    ensures |r| <= |items|
    ensures r == [] <==> forall i :: 0 <= i < |items| ==> items[i].isDone
    ensures forall t :: t in r <==> exists i :: 0 <= i < |items| && !items[i].isDone && items[i].text == t
  {
    if items == [] then []
    else
      var rest := OpenTexts(items[1..]);
      assert forall i :: 1 <= i < |items| ==> items[i] == items[1..][i - 1];
      if items[0].isDone then rest else [items[0].text] + rest
  }

  /** The filter works item by item: it distributes over concatenation, so the texts keep the items' order. */
  lemma {:induction false} OpenTextsAppend(a: seq<BrainDumpItem>, b: seq<BrainDumpItem>)
    ensures OpenTexts(a + b) == OpenTexts(a) + OpenTexts(b)
  {
    if a == [] {
      assert a + b == b;
    } else {
      assert (a + b)[0] == a[0];
      assert (a + b)[1..] == a[1..] + b;
      OpenTextsAppend(a[1..], b);
    }
  }

  const CalmMind: string := "Sua mente parece tranquila como um lago sereno."
  const WindChanging: string := "O vento está mudando..."
  const RadarJammed: string := "Interferência no radar mental..."

  /** `analyzeBrainDump`: an empty list is answered at once, without the generator. */
  function AnalyzeBrainDump(items: seq<string>, reply: Reply): (s: string)
    ensures s != []
    ensures items == [] ==> s == CalmMind
    ensures items != [] && reply.Failed? ==> s == RadarJammed
  {
    if items == [] then CalmMind else Settle(reply, WindChanging, RadarJammed)
  }

  /** With nothing open, the report is the calm text whatever the generator would have done. */
  lemma EmptyDumpIgnoresGenerator(items: seq<BrainDumpItem>, r1: Reply, r2: Reply)
    requires forall i :: 0 <= i < |items| ==> items[i].isDone
    ensures AnalyzeBrainDump(OpenTexts(items), r1) == AnalyzeBrainDump(OpenTexts(items), r2) == CalmMind
  {
  }

  // ---------------------------------------------------------------------
  // The weekly letter

  /** `Math.max(1, today - 7)`: the first day of the weekly window. */
  function WindowStart(today: int): (start: int)
    ensures start >= 1
    ensures today >= 1 ==> start <= today && today - start <= 7
    ensures today >= 8 ==> today - start == 7
  {
    if today - 7 > 1 then today - 7 else 1
  }

  predicate InWindow(d: int, start: int, today: int) {
    start <= d <= today
  }

  /** The entries inside the window with a recorded mood, in entry order. */
  function WeekMoods(moods: seq<MoodEntry>, start: int, today: int): (r: seq<MoodEntry>)
    ensures |r| <= |moods|
    ensures forall e :: e in r ==> e in moods && InWindow(e.day, start, today) && e.value.Some?
    ensures forall i :: 0 <= i < |moods| && InWindow(moods[i].day, start, today) && moods[i].value.Some? ==> moods[i] in r
  {
    if moods == [] then []
    else
      var rest := WeekMoods(moods[1..], start, today);
      assert forall i :: 1 <= i < |moods| ==> moods[i] == moods[1..][i - 1];
      if InWindow(moods[0].day, start, today) && moods[0].value.Some? then [moods[0]] + rest else rest
  }

  /** The window filter distributes over concatenation, so the entries keep their order. */
  lemma {:induction false} WeekMoodsAppend(a: seq<MoodEntry>, b: seq<MoodEntry>, start: int, today: int)
    ensures WeekMoods(a + b, start, today) == WeekMoods(a, start, today) + WeekMoods(b, start, today)
  {
    if a == [] {
      assert a + b == b;
    } else {
      assert (a + b)[0] == a[0];
      assert (a + b)[1..] == a[1..] + b;
      WeekMoodsAppend(a[1..], b, start, today);
    }
  }

  /** The completion keys of `h` inside the window, partial days included. */
  function WindowKeys(h: Habit, start: int, today: int): set<int> {
    set d | d in h.completed && InWindow(d, start, today)
  }

  /** A habit's weekly count is at most the window's length. */
  function WindowCount(h: Habit, start: int, today: int): (n: nat)
    ensures start <= today + 1 ==> n <= today - start + 1
  {
    var keys := WindowKeys(h, start, today);
    if start <= today + 1 then
      Keys.SubsetCard(keys, Keys.Between(start, today));
      |keys|
    else |keys|
  }

  /**
   * Every stored key counts, whatever its weight: the first toggle of a day
   * inside the window (0 to 0.5) already raises the count by one, the
   * second (0.5 to 1) leaves it, and the third (1 to 0) takes it back.
   */
  lemma WindowCountsPartialDays(h: Habit, day: int, start: int, today: int)
    requires ValidHabit(h) && InWindow(day, start, today)
    ensures WeightAt(h, day) == 0.0 ==> WindowCount(ToggleCell(h, day), start, today) == WindowCount(h, start, today) + 1
    ensures WeightAt(h, day) == 0.5 ==> WindowCount(ToggleCell(h, day), start, today) == WindowCount(h, start, today)
    ensures WeightAt(h, day) == 1.0 ==> WindowCount(ToggleCell(h, day), start, today) + 1 == WindowCount(h, start, today)
  {
    var r := ToggleCell(h, day);
    if WeightAt(h, day) == 0.0 {
      assert WindowKeys(r, start, today) == WindowKeys(h, start, today) + {day};
    } else if WeightAt(h, day) == 0.5 {
      assert WindowKeys(r, start, today) == WindowKeys(h, start, today);
    } else if WeightAt(h, day) == 1.0 {
      assert WindowKeys(r, start, today) == WindowKeys(h, start, today) - {day};
    }
  }

  predicate Ascending(s: seq<int>) {
    forall j, k :: 0 <= j < k < |s| ==> s[j] < s[k]
  }

  /** `filter` of a key list to the window. */
  function KeepWindow(days: seq<int>, start: int, today: int): (r: seq<int>)
    ensures |r| <= |days|
    ensures forall d :: d in r <==> d in days && InWindow(d, start, today)
    ensures forall i :: 0 <= i < |r| ==> r[i] in days && InWindow(r[i], start, today)
  {
    if days == [] then []
    else
      var rest := KeepWindow(days[1..], start, today);
      if InWindow(days[0], start, today) then [days[0]] + rest else rest
  }

  /** The filter keeps the order of the keys: ascending keys stay ascending. */
  lemma {:induction false} KeepWindowAscending(days: seq<int>, start: int, today: int)
    requires Ascending(days)
    ensures Ascending(KeepWindow(days, start, today))
  {
    if days != [] {
      AscendingTail(days);
      KeepWindowAscending(days[1..], start, today);
      var rest := KeepWindow(days[1..], start, today);
      if InWindow(days[0], start, today) {
        AscendingCons(days[0], rest);
      }
    }
  }

  /** The tail of an ascending list is ascending and lies above its head. */
  lemma AscendingTail(days: seq<int>)
    requires days != [] && Ascending(days)
    ensures Ascending(days[1..])
    ensures forall x :: x in days[1..] ==> days[0] < x
  {
  }

  /** A key below every element of an ascending list can go in front of it. */
  lemma AscendingCons(x: int, rest: seq<int>)
    requires Ascending(rest)
    requires forall y :: y in rest ==> x < y
    ensures Ascending([x] + rest)
  {
    var r := [x] + rest;
    forall j, k | 0 <= j < k < |r|
      ensures r[j] < r[k]
    {
      assert r[k] == rest[k - 1] && rest[k - 1] in rest;
      if j > 0 {
        assert r[j] == rest[j - 1];
      }
    }
  }

  /** ``Dia ${day}: ${text.substring(0, 50)}...``. */
  function Snippet(day: int, text: string): (s: string)
    ensures |s| == 4 + |IntToString(day)| + 2 + |Take(text, 50)| + 3
    ensures s[..4] == "Dia "
    ensures s[4..4 + |IntToString(day)|] == IntToString(day)
    ensures s[4 + |IntToString(day)|..|s| - 3] == ": " + Take(text, 50)
    ensures s[|s| - 3..] == "..."
    ensures |s| <= |IntToString(day)| + 59
  {
    var n := IntToString(day);
    var head := "Dia " + n;
    var middle := ": " + Take(text, 50);
    PartsOfThree("Dia ", n, []);
    PartsOfThree(head, middle, "...");
    assert head + [] == head;
    head + middle + "..."
  }

  /** The three parts of a concatenation are its slices at the parts' lengths. */
  lemma PartsOfThree(x: string, y: string, z: string)
    ensures (x + y + z)[..|x|] == x
    ensures (x + y + z)[|x|..|x| + |y|] == y
    ensures (x + y + z)[|x| + |y|..] == z
  {
  }

  /** The characters before the first colon. */
  function UntilColon(s: string): (r: string)
    ensures |r| <= |s| && r == s[..|r|]
  {
    if s == [] || s[0] == ':' then [] else [s[0]] + UntilColon(s[1..])
  }

  lemma {:induction false} UntilColonOf(a: string, rest: string)
    requires ':' !in a
    ensures UntilColon(a + ":" + rest) == a
  {
    if a != [] {
      assert (a + ":" + rest)[0] == a[0];
      assert (a + ":" + rest)[1..] == a[1..] + ":" + rest;
      UntilColonOf(a[1..], rest);
    } else {
      assert a + ":" + rest == ":" + rest;
    }
  }

  /** Reads the day number back out of a journal snippet. */
  function SnippetDay(s: string): nat {
    if |s| < 4 then 0 else DecimalValue(UntilColon(s[4..]))
  }

  /** Reading the day back from the snippet of day `d` gives `d`. */
  lemma SnippetDayRoundTrip(d: nat, t: string)
    ensures SnippetDay(Snippet(d, t)) == d
  {
    var a := NatToString(d);
    var rest := " " + Take(t, 50) + "...";
    assert Snippet(d, t)[4..] == a + ":" + rest;
    assert ':' !in a by {
      forall k | 0 <= k < |a|
        ensures a[k] != ':'
      {
        assert '0' <= a[k] <= '9';
      }
    }
    UntilColonOf(a, rest);
  }

  /** Different days never give the same snippet. */
  lemma SnippetNamesItsDay(d1: nat, t1: string, d2: nat, t2: string)
    requires Snippet(d1, t1) == Snippet(d2, t2)
    ensures d1 == d2
  {
    SnippetDayRoundTrip(d1, t1);
    SnippetDayRoundTrip(d2, t2);
  }

  datatype HabitCount = HabitCount(title: string, count: nat)
  datatype WeeklyData = WeeklyData(range: string, moods: seq<MoodEntry>, habitsCompleted: seq<HabitCount>,
                                   checkIns: seq<CheckInRow>, journalSnippets: seq<string>)

  /** The keys of a record that fall inside the window, in ascending order. */
  function SortedWindow(keys: set<int>, start: int, today: int): (r: seq<int>)
    ensures forall i :: 0 <= i < |r| ==> r[i] in keys && InWindow(r[i], start, today)
    ensures forall d :: d in r <==> d in keys && InWindow(d, start, today)
    ensures Ascending(r)
  {
    var sorted := Keys.SortedKeys(keys);
    KeepWindowAscending(sorted, start, today);
    KeepWindow(sorted, start, today)
  }

  /** The check-in rows of the window, in ascending day order. */
  function WeekCheckIns(checkIns: CheckInRecord, start: int, today: int): (r: seq<CheckInRow>)
    ensures forall i :: 0 <= i < |r| ==>
      InWindow(r[i].day, start, today) && r[i].day in checkIns && r[i].answers == checkIns[r[i].day]
    ensures forall d :: d in checkIns && InWindow(d, start, today) ==> exists i :: 0 <= i < |r| && r[i].day == d
    ensures forall j, k :: 0 <= j < k < |r| ==> r[j].day < r[k].day
  {
    Rows(checkIns, SortedWindow(checkIns.Keys, start, today))
  }

  /** One snippet per listed day, in the order listed. */
  function Snippets(journal: JournalEntries, days: seq<int>): (r: seq<string>)
    requires forall i :: 0 <= i < |days| ==> days[i] in journal
    ensures |r| == |days|
    ensures forall i :: 0 <= i < |days| ==> r[i] == Snippet(days[i], journal[days[i]])
  {
    seq(|days|, i requires 0 <= i < |days| => Snippet(days[i], journal[days[i]]))
  }

  /** The journal snippets of the window: exactly one per journal day inside it. */
  function WeekSnippets(journal: JournalEntries, start: int, today: int): (r: seq<string>)
    ensures forall s :: s in r <==> exists d :: d in journal && InWindow(d, start, today) && s == Snippet(d, journal[d])
  {
    var days := SortedWindow(journal.Keys, start, today);
    var r := Snippets(journal, days);
    SnippetsCoverWindow(journal, start, today, days, r);
    r
  }

  lemma SnippetsCoverWindow(journal: JournalEntries, start: int, today: int, days: seq<int>, snippets: seq<string>)
    requires forall d :: d in days <==> d in journal && InWindow(d, start, today)
    requires |snippets| == |days|
    requires forall i :: 0 <= i < |days| ==> days[i] in journal && snippets[i] == Snippet(days[i], journal[days[i]])
    ensures forall s :: s in snippets <==> exists d :: d in journal && InWindow(d, start, today) && s == Snippet(d, journal[d])
  {
    forall s | exists d :: d in journal && InWindow(d, start, today) && s == Snippet(d, journal[d])
      ensures s in snippets
    {
      var d :| d in journal && InWindow(d, start, today) && s == Snippet(d, journal[d]);
      var i :| 0 <= i < |days| && days[i] == d;
      assert snippets[i] == s;
    }
  }

  /**
   * The `weeklyData` object sent with the letter request for the week ending
   * `today`: the window's range text, its recorded moods, each habit's
   * number of stored days inside it, its check-in days in ascending order,
   * and one snippet per journal day inside it.
   */
  function WeeklyDataFor(habits: seq<Habit>, moods: seq<MoodEntry>, checkIns: CheckInRecord,
                         journal: JournalEntries, today: int): (w: WeeklyData)
    ensures w.range == "Dia " + IntToString(WindowStart(today)) + " até " + IntToString(today)
    ensures forall m :: m in w.moods <==> m in moods && WindowStart(today) <= m.day <= today && m.value.Some?
    ensures |w.habitsCompleted| == |habits|
    ensures forall i :: 0 <= i < |habits| ==>
      && w.habitsCompleted[i].title == habits[i].title
      && w.habitsCompleted[i].count == |WindowKeys(habits[i], WindowStart(today), today)|
    ensures today >= 0 ==> forall i :: 0 <= i < |habits| ==> w.habitsCompleted[i].count <= today - WindowStart(today) + 1
    ensures w.checkIns == WeekCheckIns(checkIns, WindowStart(today), today)
    ensures w.journalSnippets == WeekSnippets(journal, WindowStart(today), today)
  {
    var start := WindowStart(today);
    WeekMoodsExact(moods, start, today);
    WeeklyData(
      "Dia " + IntToString(start) + " até " + IntToString(today),
      WeekMoods(moods, start, today),
      WeekHabitCounts(habits, start, today),
      WeekCheckIns(checkIns, start, today),
      WeekSnippets(journal, start, today))
  }

  /** The weekly moods are exactly the recorded entries inside the window. */
  lemma WeekMoodsExact(moods: seq<MoodEntry>, start: int, today: int)
    ensures forall m :: m in WeekMoods(moods, start, today) <==> m in moods && InWindow(m.day, start, today) && m.value.Some?
  {
    forall m | m in moods && InWindow(m.day, start, today) && m.value.Some?
      ensures m in WeekMoods(moods, start, today)
    {
      var i :| 0 <= i < |moods| && moods[i] == m;
    }
  }

  /** Each habit's title with its number of stored days inside the window. */
  function WeekHabitCounts(habits: seq<Habit>, start: int, today: int): (r: seq<HabitCount>)
    ensures |r| == |habits|
    ensures forall i :: 0 <= i < |habits| ==> r[i].title == habits[i].title && r[i].count == |WindowKeys(habits[i], start, today)|
    ensures start <= today + 1 ==> forall i :: 0 <= i < |habits| ==> r[i].count <= today - start + 1
  {
    seq(|habits|, i requires 0 <= i < |habits| => HabitCount(habits[i].title, WindowCount(habits[i], start, today)))
  }

  /** A mood entry outside the window, or without a value, leaves the weekly data as it was. */
  lemma WeeklyDataIgnoresOutsideMoods(habits: seq<Habit>, moods: seq<MoodEntry>, e: MoodEntry,
                                      checkIns: CheckInRecord, journal: JournalEntries, today: int)
    requires !(WindowStart(today) <= e.day <= today && e.value.Some?)
    ensures WeeklyDataFor(habits, moods + [e], checkIns, journal, today) == WeeklyDataFor(habits, moods, checkIns, journal, today)
  {
    WeekMoodsAppend(moods, [e], WindowStart(today), today);
    assert WeekMoods([e], WindowStart(today), today) == [];
  }

  /** Toggling a cell outside the window leaves the weekly data as it was. */
  lemma WeeklyDataIgnoresOutsideToggles(habits: seq<Habit>, id: string, day: int, moods: seq<MoodEntry>,
                                        checkIns: CheckInRecord, journal: JournalEntries, today: int)
    requires !(WindowStart(today) <= day <= today)
    ensures WeeklyDataFor(ToggleHabitDay(habits, id, day), moods, checkIns, journal, today)
            == WeeklyDataFor(habits, moods, checkIns, journal, today)
  {
    var start := WindowStart(today);
    var toggled := ToggleHabitDay(habits, id, day);
    var a := WeeklyDataFor(toggled, moods, checkIns, journal, today).habitsCompleted;
    var b := WeeklyDataFor(habits, moods, checkIns, journal, today).habitsCompleted;
    forall i | 0 <= i < |habits|
      ensures a[i] == b[i]
    {
      assert WindowKeys(toggled[i], start, today) == WindowKeys(habits[i], start, today);
    }
    assert a == b;
  }

  const LetterUndelivered: string := "O correio não conseguiu entregar sua carta esta semana..."
  const LetterStorm: string := "O tempo lá fora está tempestuoso, não conseguimos trazer sua carta. (Verifique sua API Key)"

  /** `generateWeeklyLetter`. */
  function GenerateWeeklyLetter(reply: Reply): (s: string)
    ensures s != []
    ensures reply.Failed? ==> s == LetterStorm
  {
    Settle(reply, LetterUndelivered, LetterStorm)
  }
}
