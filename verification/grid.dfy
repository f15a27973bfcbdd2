/**
 * The habit grid: which day columns it shows, what its clicks can reach,
 * and the new-habit form.
 */
module Grid {
  import opened Wrappers
  import opened Types
  import opened Habits
  import opened Text

  /** The integers lo, lo + 1, ..., hi - 1. */
  function Span(lo: int, hi: int): (r: seq<int>)
    ensures lo <= hi ==> |r| == hi - lo
    ensures hi <= lo ==> r == []
    ensures forall i :: 0 <= i < |r| ==> r[i] == lo + i
    decreases hi - lo
  {
    if lo >= hi then [] else [lo] + Span(lo + 1, hi)
  }

  lemma MonthDaysIsSpan()
    ensures MonthDays == Span(1, 32)
  {
    MonthDaysAscending();
    assert forall i :: 0 <= i < 31 ==> Span(1, 32)[i] == MonthDays[i];
  }

  /** `filter(day => day <= c)`, keeping order. */
  function KeepAtMost(s: seq<int>, c: int): (r: seq<int>)
    ensures |r| <= |s|
    ensures forall x :: x in r <==> x in s && x <= c
  {
    if s == [] then []
    else if s[0] <= c then [s[0]] + KeepAtMost(s[1..], c)
    else KeepAtMost(s[1..], c)
  }

  function Clamp(x: int, lo: int, hi: int): int
    requires lo <= hi
  {
    if x < lo then lo else if x > hi then hi else x
  }

  /** Keeping the members of a range up to `c` cuts the range at `c + 1`. */
  lemma {:induction false} KeepAtMostRange(lo: int, hi: int, c: int)
    requires lo <= hi
    ensures KeepAtMost(Span(lo, hi), c) == Span(lo, Clamp(c + 1, lo, hi))
    decreases hi - lo
  {
    if lo < hi {
      assert Span(lo, hi)[1..] == Span(lo + 1, hi);
      KeepAtMostRange(lo + 1, hi, c);
      if lo <= c {
        assert Span(lo, Clamp(c + 1, lo, hi)) == [lo] + Span(lo + 1, Clamp(c + 1, lo + 1, hi));
      } else {
        assert Span(lo + 1, Clamp(c + 1, lo + 1, hi)) == [];
      }
    }
  }

  /** `reverse()`. */
  function Reverse(s: seq<int>): (r: seq<int>)
    ensures |r| == |s|
    ensures forall i :: 0 <= i < |s| ==> r[i] == s[|s| - 1 - i]
  {
    if s == [] then [] else Reverse(s[1..]) + [s[0]]
  }

  /**
   * `visibleDays`: the days of the month up to today, today first. With
   * `currentDay` in 1..31 these are currentDay, currentDay - 1, ..., 1.
   */
  function VisibleDays(currentDay: int): (r: seq<int>)
    ensures |r| == Clamp(currentDay, 0, 31)
    ensures forall i :: 0 <= i < |r| ==> r[i] == |r| - i
    ensures forall i, j :: 0 <= i < j < |r| ==> r[i] > r[j]
    ensures forall d :: d in r <==> 1 <= d <= currentDay && d <= 31
    ensures 1 <= currentDay <= 31 ==> |r| == currentDay && r[0] == currentDay
  {
    VisibleDaysShape(currentDay);
    Reverse(KeepAtMost(MonthDays, currentDay))
  }

  /** The reverse of 1..k counts down from k. */
  lemma ReverseSpanShape(k: nat)
    ensures var r := Reverse(Span(1, k + 1));
      |r| == k &&
      (forall i :: 0 <= i < |r| ==> r[i] == k - i) &&
      (forall d :: d in r <==> 1 <= d <= k)
  {
    var r := Reverse(Span(1, k + 1));
    forall d | 1 <= d <= k
      ensures d in r
    {
      assert r[k - d] == d;
    }
  }

  lemma VisibleDaysShape(currentDay: int)
    ensures var r := Reverse(KeepAtMost(MonthDays, currentDay));
      |r| == Clamp(currentDay, 0, 31) &&
      (forall i :: 0 <= i < |r| ==> r[i] == |r| - i) &&
      (forall d :: d in r <==> 1 <= d <= |r|)
  {
    MonthDaysIsSpan();
    KeepAtMostRange(1, 32, currentDay);
    var k := Clamp(currentDay, 0, 31);
    assert KeepAtMost(MonthDays, currentDay) == Span(1, k + 1);
    ReverseSpanShape(k);
  }

  // ---------------------------------------------------------------------
  // Clicks

  /** The three kinds of click the grid handles. */
  datatype GridClick = DayHeader(day: int) | Cell(habitId: string, day: int) | DeleteButton(habitId: string)

  predicate HasHabit(habits: seq<Habit>, id: string) {
    exists i :: 0 <= i < |habits| && habits[i].id == id
  }

  /** The clicks the rendered grid offers: one header per visible day, one cell per habit and visible day. */
  predicate Offers(habits: seq<Habit>, currentDay: int, c: GridClick) {
    match c
    case DayHeader(d) => d in VisibleDays(currentDay)
    case Cell(id, d) => HasHabit(habits, id) && d in VisibleDays(currentDay)
    case DeleteButton(id) => HasHabit(habits, id)
  }

  /** What the page holds that grid clicks change. */
  datatype GridState = GridState(habits: seq<Habit>, journalDay: Option<int>, pendingDelete: Option<string>)

  /**
   * A header opens that day's journal, a cell toggles that habit's day, and
   * a delete button asks for confirmation.
   */
  function Click(s: GridState, c: GridClick): (r: GridState)
    ensures c.Cell? ==> r == s.(habits := ToggleHabitDay(s.habits, c.habitId, c.day))
    ensures c.DayHeader? ==> r == s.(journalDay := Some(c.day))
    ensures c.DeleteButton? ==> r == s.(pendingDelete := Some(c.habitId))
  {
    match c
    case DayHeader(d) => s.(journalDay := Some(d))
    case Cell(id, d) => s.(habits := ToggleHabitDay(s.habits, id, d))
    case DeleteButton(id) => s.(pendingDelete := Some(id))
  }

  /** Every day the grid offers to click is a day of this month up to today. */
  lemma OfferedDaysArePast(habits: seq<Habit>, currentDay: int, c: GridClick)
    requires Offers(habits, currentDay, c)
    ensures c.DayHeader? || c.Cell? ==> 1 <= c.day <= currentDay && c.day <= 31
  {
  }

  /**
   * A click the grid offers never changes a weight after today, and never
   * opens the journal of a future day.
   */
  lemma OfferedClickSparesFuture(s: GridState, currentDay: int, c: GridClick)
    requires Offers(s.habits, currentDay, c)
    ensures |Click(s, c).habits| == |s.habits|
    ensures forall i, d :: 0 <= i < |s.habits| && d > currentDay ==> WeightAt(Click(s, c).habits[i], d) == WeightAt(s.habits[i], d)
    ensures Click(s, c).journalDay.Some? && Click(s, c).journalDay != s.journalDay ==> Click(s, c).journalDay.value <= currentDay
  {
    OfferedDaysArePast(s.habits, currentDay, c);
  }

  // ---------------------------------------------------------------------
  // The new-habit form

  /**
   * `handleAddSubmit`: a title that is not all whitespace is handed on
   * trimmed and the input is cleared; otherwise nothing happens. Returns
   * the title handed on, if any, and the new input text.
   */
  function HandleAddSubmit(input: string): (r: (Option<string>, string))
    ensures r.0.Some? <==> !AllSpace(input)
    ensures r.0.Some? ==> r.0.value == Trim(input) && r.0.value != [] && r.1 == []
    ensures r.0.None? ==> r.1 == input
  {
    var t := Trim(input);
    if t != [] then (Some(t), []) else (None, input)
  }

  /** A submitted title has no whitespace at either end, and submitting it again gives the same title. */
  lemma SubmittedTitleIsTrimmed(input: string)
    requires HandleAddSubmit(input).0.Some?
    ensures var t := HandleAddSubmit(input).0.value;
      !IsSpace(t[0]) && !IsSpace(t[|t| - 1]) && HandleAddSubmit(t).0 == Some(t)
  {
    TrimIdempotent(input);
  }
}
