/**
 * The mood calendar: the click cycle of a day's mood, the manual setting of
 * today's mood, and the check-in save that derives today's mood from the
 * average answer.
 */
module Mood {
  import opened Wrappers
  import opened Types
  import Numbers

  predicate ValidMood(v: Option<int>) {
    v.None? || v.value in {1, 2, 3}
  }

  /** One click: no record -> 3 -> 2 -> 1 -> no record; any other value clears. */
  function NextMood(v: Option<int>): Option<int> {
    match v
    case None => Some(3)
    case Some(x) => if x == 3 then Some(2) else if x == 2 then Some(1) else None
  }

  /** The click cycle has period four on valid moods, and each click changes the value. */
  lemma FourClicksRestoreMood(v: Option<int>)
    requires ValidMood(v)
    ensures NextMood(NextMood(NextMood(NextMood(v)))) == v
    ensures NextMood(v) != v && ValidMood(NextMood(v))
  {
  }

  /** `toggleMoodForDay`: every entry for `day` advances one click; all others stay. */
  function ToggleMoodForDay(moods: seq<MoodEntry>, day: int): (r: seq<MoodEntry>)
    ensures |r| == |moods|
    ensures forall i :: 0 <= i < |r| ==> r[i].day == moods[i].day
    ensures forall i :: 0 <= i < |r| && moods[i].day != day ==> r[i] == moods[i]
    ensures forall i :: 0 <= i < |r| && moods[i].day == day ==> r[i].value == NextMood(moods[i].value)
  {
    seq(|moods|, i requires 0 <= i < |moods| =>
      if moods[i].day != day then moods[i] else moods[i].(value := NextMood(moods[i].value)))
  }

  /** Four clicks on the same day leave the mood list as it was. */
  lemma FourTogglesRestoreMoods(moods: seq<MoodEntry>, day: int)
    requires forall i :: 0 <= i < |moods| ==> ValidMood(moods[i].value)
    ensures ToggleMoodForDay(ToggleMoodForDay(ToggleMoodForDay(ToggleMoodForDay(moods, day), day), day), day) == moods
  {
    var r := ToggleMoodForDay(ToggleMoodForDay(ToggleMoodForDay(ToggleMoodForDay(moods, day), day), day), day);
    forall i | 0 <= i < |moods|
      ensures r[i] == moods[i]
    {
      if moods[i].day == day {
        FourClicksRestoreMood(moods[i].value);
      }
    }
  }

  /** `setTodayMoodManual`: every entry for `day` takes `value`; all others stay. */
  function SetMoodForDay(moods: seq<MoodEntry>, day: int, value: int): (r: seq<MoodEntry>)
    ensures |r| == |moods|
    ensures forall i :: 0 <= i < |r| ==> r[i].day == moods[i].day
    ensures forall i :: 0 <= i < |r| && moods[i].day != day ==> r[i] == moods[i]
    ensures forall i :: 0 <= i < |r| && moods[i].day == day ==> r[i].value == Some(value)
  {
    seq(|moods|, i requires 0 <= i < |moods| =>
      if moods[i].day != day then moods[i] else moods[i].(value := Some(value)))
  }

  /** The sum of the answer values of one day (`Object.values(data).reduce(+)`). */
  function SumValues(answers: DayAnswers): int {
    if answers == [] then 0 else answers[0].value + SumValues(answers[1..])
  }

  /** The mood an average answer maps to: below 1.66 tired, above 2.33 radiant, else neutral. */
  function MoodForAverage(average: real): (m: int)
    ensures m in {1, 2, 3}
    ensures m == 1 <==> average < 1.66
    ensures m == 3 <==> average > 2.33
  {
    if average < 1.66 then 1 else if average > 2.33 then 3 else 2
  }

  /** The mood a non-empty set of check-in answers implies. */
  function MoodForAnswers(answers: DayAnswers): int
    requires |answers| > 0
  {
    MoodForAverage(SumValues(answers) as real / |answers| as real)
  }

  /**
   * `saveCheckIn`: stores the answers as today's check-in, replacing any
   * earlier one, and, when there is at least one answer, sets today's mood
   * from their average.
   */
  function SaveCheckIn(checkIns: CheckInRecord, moods: seq<MoodEntry>, currentDay: int, data: DayAnswers)
    : (r: (CheckInRecord, seq<MoodEntry>))
    ensures r.0 == checkIns[currentDay := data]
    ensures |data| == 0 ==> r.1 == moods
    ensures |data| > 0 ==> r.1 == SetMoodForDay(moods, currentDay, MoodForAnswers(data))
  {
    var stored := checkIns[currentDay := data];
    if |data| > 0 then (stored, SetMoodForDay(moods, currentDay, MoodForAnswers(data)))
    else (stored, moods)
  }

  /** Answers of 1..3 yield a valid mood that agrees with the average on today's entries. */
  lemma {:induction false} SaveCheckInMood(checkIns: CheckInRecord, moods: seq<MoodEntry>, currentDay: int, data: DayAnswers)
    requires |data| > 0
    requires forall k :: 0 <= k < |data| ==> 1 <= data[k].value <= 3
    ensures var avg := SumValues(data) as real / |data| as real;
            var r := SaveCheckIn(checkIns, moods, currentDay, data).1;
            && 1.0 <= avg <= 3.0
            && forall i :: 0 <= i < |r| && r[i].day == currentDay ==>
                 && ValidMood(r[i].value)
                 && (r[i].value == Some(1) <==> avg < 1.66)
                 && (r[i].value == Some(3) <==> avg > 2.33)
  {
    SumValuesBounds(data);
    var n := |data| as real;
    var s := SumValues(data) as real;
    assert n <= s <= 3.0 * n;
    Numbers.DivBounds(s, n, 1.0, 3.0);
  }

  lemma {:induction false} SumValuesBounds(answers: DayAnswers)
    requires forall k :: 0 <= k < |answers| ==> 1 <= answers[k].value <= 3
    ensures |answers| <= SumValues(answers) <= 3 * |answers|
  {
    if answers != [] {
      SumValuesBounds(answers[1..]);
    }
  }

  /** Answers 3, 3, 2 average 2.67, which is radiant; 1, 2, 1 average 1.33, which is tired. */
  lemma AverageExamples()
    ensures MoodForAnswers([Answer("sleep", 3), Answer("energy", 3), Answer("food", 2)]) == 3
    ensures MoodForAnswers([Answer("sleep", 1), Answer("energy", 2), Answer("food", 1)]) == 1
    ensures MoodForAnswers([Answer("sleep", 2), Answer("stress", 2)]) == 2
  {
    assert SumValues([Answer("sleep", 3), Answer("energy", 3), Answer("food", 2)]) == 8;
    assert SumValues([Answer("sleep", 1), Answer("energy", 2), Answer("food", 1)]) == 4;
    assert SumValues([Answer("sleep", 2), Answer("stress", 2)]) == 4;
  }
}
