/**
 * The derived metrics the dashboard charts: the sleep series, the per-day
 * productivity score, the life-balance radar, and the carousel that cycles
 * between the four charts. All are recomputed from the raw records.
 */
module Metrics {
  import opened Wrappers
  import opened Types
  import opened Habits
  import opened Keys
  import opened Text
  import Numbers

  /** One point of a daily series. */
  datatype Point = Point(day: int, value: Option<int>)

  /** JavaScript truthiness of an optional number: absent and 0 both read as no value. */
  function Truthy(v: Option<int>): Option<int> {
    if v.Some? && v.value != 0 then v else None
  }

  /** `sleepData`: for each day of the month, that day's sleep answer, or no value. */
  function SleepSeries(checkIns: CheckInRecord): (r: seq<Point>)
    ensures |r| == 31
    ensures forall i :: 0 <= i < |r| ==> r[i].day == i + 1
    ensures forall i :: 0 <= i < |r| ==> r[i].value == Truthy(DayValue(checkIns, i + 1, "sleep"))
  {
    seq(31, i => Point(i + 1, Truthy(DayValue(checkIns, i + 1, "sleep"))))
  }

  /** Answers on the 1..3 scale, each key once. */
  predicate ValidAnswers(answers: DayAnswers) {
    && DistinctKeys(answers)
    && forall k :: 0 <= k < |answers| ==> 1 <= answers[k].value <= 3
  }

  predicate ValidCheckIns(checkIns: CheckInRecord) {
    forall d :: d in checkIns ==> ValidAnswers(checkIns[d])
  }

  /** With answers on the 1..3 scale the sleep chart shows exactly the recorded sleep answers. */
  lemma SleepSeriesShowsAnswers(checkIns: CheckInRecord, day: int)
    requires ValidCheckIns(checkIns) && 1 <= day <= 31
    ensures SleepSeries(checkIns)[day - 1] == Point(day, DayValue(checkIns, day, "sleep"))
  {
  }

  // ---------------------------------------------------------------------
  // Productivity

  /** The sum of every habit's weight on `day`. */
  function WeightSum(habits: seq<Habit>, day: int): real {
    if habits == [] then 0.0 else WeightAt(habits[0], day) + WeightSum(habits[1..], day)
  }

  lemma {:induction false} WeightSumBounds(habits: seq<Habit>, day: int)
    requires ValidHabits(habits)
    ensures 0.0 <= WeightSum(habits, day) <= |habits| as real
  {
    if habits != [] {
      assert ValidHabit(habits[0]);
      WeightSumBounds(habits[1..], day);
    }
  }

  /** `habitScore`: 100 times the mean weight on `day`, or 0 when there are no habits. */
  function HabitScore(habits: seq<Habit>, day: int): real {
    if |habits| == 0 then 0.0 else WeightSum(habits, day) / |habits| as real * 100.0
  }

  /** `focusScore` for a present, non-zero focus answer. */
  function FocusScore(level: int): (s: int)
    ensures s in {20, 50, 100}
    ensures s == 100 <==> level == 3
    ensures s == 50 <==> level == 2
  {
    if level == 3 then 100 else if level == 2 then 50 else 20
  }

  /** The day's focus answer, when present and truthy. */
  function FocusLevel(checkIns: CheckInRecord, day: int): Option<int> {
    Truthy(DayValue(checkIns, day, "focus"))
  }

  /**
   * The productivity score of one day: the habit score alone without a focus
   * answer; with one, the mean of habit and focus scores, or the focus score
   * alone when there are no habits; rounded.
   */
  function ProductivityScore(habits: seq<Habit>, checkIns: CheckInRecord, day: int): (r: int)
    ensures FocusLevel(checkIns, day).None? ==> r == Numbers.Round(HabitScore(habits, day))
    ensures FocusLevel(checkIns, day).Some? && |habits| == 0 ==>
              r == FocusScore(FocusLevel(checkIns, day).value)
    ensures FocusLevel(checkIns, day).Some? && |habits| > 0 ==>
              r == Numbers.Round((HabitScore(habits, day) + FocusScore(FocusLevel(checkIns, day).value) as real) / 2.0)
  {
    var habitScore := HabitScore(habits, day);
    var focus := FocusLevel(checkIns, day);
    var finalScore :=
      if focus.None? then habitScore
      else if |habits| > 0 then (habitScore + FocusScore(focus.value) as real) / 2.0
      else FocusScore(focus.value) as real;
    Numbers.Round(finalScore)
  }

  /** With stored weights of 0.5 or 1 the score is a percentage. */
  lemma ProductivityInRange(habits: seq<Habit>, checkIns: CheckInRecord, day: int)
    requires ValidHabits(habits)
    ensures 0 <= ProductivityScore(habits, checkIns, day) <= 100
  {
    var habitScore := HabitScore(habits, day);
    WeightSumBounds(habits, day);
    if |habits| > 0 {
      Numbers.DivBounds(WeightSum(habits, day), |habits| as real, 0.0, 1.0);
    }
    assert 0.0 <= habitScore <= 100.0;
    Numbers.RoundMonotone(0.0, habitScore);
    Numbers.RoundMonotone(habitScore, 100.0);
    var focus := FocusLevel(checkIns, day);
    if focus.Some? {
      var f := FocusScore(focus.value) as real;
      Numbers.RoundMonotone(0.0, (habitScore + f) / 2.0);
      Numbers.RoundMonotone((habitScore + f) / 2.0, 100.0);
    }
  }

  /** `productivityData`: the score of each day of the month. */
  function ProductivitySeries(habits: seq<Habit>, checkIns: CheckInRecord): (r: seq<Point>)
    ensures |r| == 31
    ensures forall i :: 0 <= i < |r| ==> r[i] == Point(i + 1, Some(ProductivityScore(habits, checkIns, i + 1)))
  {
    seq(31, i => Point(i + 1, Some(ProductivityScore(habits, checkIns, i + 1))))
  }

  /** With stored weights of 0.5 or 1, every point of the series is a percentage. */
  lemma ProductivitySeriesInRange(habits: seq<Habit>, checkIns: CheckInRecord)
    requires ValidHabits(habits)
    ensures forall i :: 0 <= i < 31 ==> 0 <= ProductivitySeries(habits, checkIns)[i].value.value <= 100
  {
    forall i | 0 <= i < 31
      ensures 0 <= ProductivitySeries(habits, checkIns)[i].value.value <= 100
    {
      ProductivityInRange(habits, checkIns, i + 1);
    }
  }

  /** A day with nothing stored for any habit sums to 0. */
  lemma {:induction false} WeightSumOfEmptyDay(habits: seq<Habit>, day: int)
    requires forall i :: 0 <= i < |habits| ==> day !in habits[i].completed
    ensures WeightSum(habits, day) == 0.0
  {
    if habits != [] {
      WeightSumOfEmptyDay(habits[1..], day);
    }
  }

  /**
   * A day of the month with no completion stored and no focus answer shows 0
   * in the series: days still to come start at the bottom of the chart.
   */
  lemma ProductivitySeriesEmptyDay(habits: seq<Habit>, checkIns: CheckInRecord, day: int)
    requires 1 <= day <= 31
    requires forall i :: 0 <= i < |habits| ==> day !in habits[i].completed
    requires day !in checkIns
    ensures ProductivitySeries(habits, checkIns)[day - 1] == Point(day, Some(0))
  {
    WeightSumOfEmptyDay(habits, day);
    assert HabitScore(habits, day) == 0.0;
  }

  /** Without a focus answer and with at least one habit, the score is the rounded habit score. */
  lemma NoFocusMeansHabitScore(habits: seq<Habit>, checkIns: CheckInRecord, day: int)
    requires |habits| > 0 && (day !in checkIns || Lookup(checkIns[day], "focus").None?)
    ensures ProductivityScore(habits, checkIns, day) == Numbers.Round(WeightSum(habits, day) / |habits| as real * 100.0)
  {
  }

  /** Day 10 with sleep 3 and focus 3 and no habits scores 100 from focus alone. */
  lemma FocusOnlyScenario()
    ensures ProductivityScore([], map[10 := [Answer("sleep", 3), Answer("focus", 3)]], 10) == 100
  {
    assert Lookup([Answer("sleep", 3), Answer("focus", 3)], "focus") == Some(3);
  }

  /** One half-done habit and focus 2: the mean of 50 and 50. */
  lemma HalfHabitScenario()
    ensures ProductivityScore([Habit("1", "Ler", "#ffeaa7", map[4 := 0.5])], map[4 := [Answer("focus", 2)]], 4) == 50
  {
    var hs := [Habit("1", "Ler", "#ffeaa7", map[4 := 0.5])];
    assert WeightSum(hs, 4) == 0.5;
    assert HabitScore(hs, 4) == 50.0;
  }

  // ---------------------------------------------------------------------
  // Life balance

  /** Stress is scored inverted (4 - v) so that a higher score is always better. */
  function Adjusted(catId: string, v: int): int {
    if catId == "stress" then 4 - v else v
  }

  datatype Tally = Tally(total: int, count: nat)

  /** The adjusted sum and number of a day's answers with key `catId`. */
  function DayTally(answers: DayAnswers, catId: string): (t: Tally)
    ensures t.count <= |answers|
  {
    if answers == [] then Tally(0, 0)
    else
      var rest := DayTally(answers[1..], catId);
      if answers[0].category == catId then Tally(rest.total + Adjusted(catId, answers[0].value), rest.count + 1)
      else rest
  }

  /** The tally of `catId` over the given recorded days. */
  function MonthTally(checkIns: CheckInRecord, days: seq<int>, catId: string): (t: Tally)
    requires forall i :: 0 <= i < |days| ==> days[i] in checkIns
  {
    if days == [] then Tally(0, 0)
    else
      var here := DayTally(checkIns[days[0]], catId);
      var rest := MonthTally(checkIns, days[1..], catId);
      Tally(here.total + rest.total, here.count + rest.count)
  }

  /** One category's tally over every recorded day, in ascending day order. */
  function CategoryTally(checkIns: CheckInRecord, catId: string): Tally {
    MonthTally(checkIns, SortedKeys(checkIns.Keys), catId)
  }

  /** The radar value: the average scaled from 0..3 to 0..100, rounded; 0 without data. */
  function BalanceScore(t: Tally): (a: int)
    ensures t.count == 0 ==> a == 0
  {
    var avg := if t.count > 0 then t.total as real / t.count as real else 0.0;
    Numbers.Round(avg / 3.0 * 100.0)
  }

  /** The label abbreviation of the radar chart; labels matching no keyword stay as they are. */
  function Abbreviate(labelText: string): string {
    var a := if Contains(labelText, "Qualidade") then "Sono" else labelText;
    var b := if Contains(a, "Nível de Energia") then "Energia" else a;
    var c := if Contains(b, "Nível de Estresse") then "Calma" else b;
    var d := if Contains(c, "Interação") then "Social" else c;
    if Contains(d, "Foco") then "Foco" else d
  }

  datatype RadarPoint = RadarPoint(subject: string, a: int, fullMark: int)

  /** `balanceData`: one radar point per check-in category, in category order. */
  function Balance(checkIns: CheckInRecord): (r: seq<RadarPoint>)
    ensures |r| == |CheckInCategories|
    ensures forall i :: 0 <= i < |r| ==> r[i].fullMark == 100
    ensures forall i :: 0 <= i < |r| ==> r[i].subject == Abbreviate(CheckInCategories[i].title)
    ensures forall i :: 0 <= i < |r| ==> r[i].a == BalanceScore(CategoryTally(checkIns, CheckInCategories[i].id))
    ensures forall i :: 0 <= i < |r| && CategoryTally(checkIns, CheckInCategories[i].id).count == 0 ==> r[i].a == 0
  {
    seq(|CheckInCategories|, i requires 0 <= i < |CheckInCategories| =>
      var cat := CheckInCategories[i];
      RadarPoint(Abbreviate(cat.title), BalanceScore(CategoryTally(checkIns, cat.id)), 100))
  }

  lemma {:induction false} DayTallyBounds(answers: DayAnswers, catId: string)
    requires ValidAnswers(answers)
    ensures var t := DayTally(answers, catId); t.count <= t.total <= 3 * t.count
  {
    if answers != [] {
      DayTallyBounds(answers[1..], catId);
    }
  }

  lemma {:induction false} MonthTallyBounds(checkIns: CheckInRecord, days: seq<int>, catId: string)
    requires ValidCheckIns(checkIns)
    requires forall i :: 0 <= i < |days| ==> days[i] in checkIns
    ensures var t := MonthTally(checkIns, days, catId); t.count <= t.total <= 3 * t.count
  {
    if days != [] {
      var first := days[0];
      assert first in checkIns;
      assert ValidAnswers(checkIns[first]);
      DayTallyBounds(checkIns[days[0]], catId);
      MonthTallyBounds(checkIns, days[1..], catId);
    }
  }

  /** With answers on the 1..3 scale every category that has data scores between 33 and 100. */
  lemma BalanceInRange(checkIns: CheckInRecord, i: nat)
    requires ValidCheckIns(checkIns) && i < |CheckInCategories|
    requires CategoryTally(checkIns, CheckInCategories[i].id).count > 0
    ensures 33 <= Balance(checkIns)[i].a <= 100
  {
    MonthTallyBounds(checkIns, SortedKeys(checkIns.Keys), CheckInCategories[i].id);
    ScoreInRange(CategoryTally(checkIns, CheckInCategories[i].id));
  }

  /** A tally of answers on the 1..3 scale scores between 33 and 100. */
  lemma ScoreInRange(t: Tally)
    requires 0 < t.count <= t.total <= 3 * t.count
    ensures 33 <= BalanceScore(t) <= 100
  {
    var avg := t.total as real / t.count as real;
    Numbers.DivBounds(t.total as real, t.count as real, 1.0, 3.0);
    Numbers.RoundMonotone(100.0 / 3.0, avg / 3.0 * 100.0);
    Numbers.RoundMonotone(avg / 3.0 * 100.0, 100.0);
    assert Numbers.Round(100.0 / 3.0) == 33;
  }

  /** The answers of a day whose key is one of the check-in categories. */
  function KnownAnswers(answers: DayAnswers): (r: DayAnswers)
    ensures forall k :: 0 <= k < |r| ==> r[k].category in CategoryIds()
  {
    if answers == [] then []
    else if answers[0].category in CategoryIds() then [answers[0]] + KnownAnswers(answers[1..])
    else KnownAnswers(answers[1..])
  }

  lemma {:induction false} DayTallyIgnoresUnknown(answers: DayAnswers, catId: string)
    requires catId in CategoryIds()
    ensures DayTally(KnownAnswers(answers), catId) == DayTally(answers, catId)
  {
    if answers != [] {
      DayTallyIgnoresUnknown(answers[1..], catId);
      if answers[0].category in CategoryIds() {
        assert ([answers[0]] + KnownAnswers(answers[1..]))[1..] == KnownAnswers(answers[1..]);
      }
    }
  }

  lemma {:induction false} MonthTallyIgnoresUnknown(checkIns: CheckInRecord, known: CheckInRecord, days: seq<int>, catId: string)
    requires catId in CategoryIds()
    requires known.Keys == checkIns.Keys
    requires forall d :: d in known ==> known[d] == KnownAnswers(checkIns[d])
    requires forall i :: 0 <= i < |days| ==> days[i] in checkIns
    ensures MonthTally(known, days, catId) == MonthTally(checkIns, days, catId)
  {
    if days != [] {
      DayTallyIgnoresUnknown(checkIns[days[0]], catId);
      MonthTallyIgnoresUnknown(checkIns, known, days[1..], catId);
    }
  }

  /** The same record with every answer under an unknown category dropped. */
  function KnownOnly(checkIns: CheckInRecord): (r: CheckInRecord)
    ensures r.Keys == checkIns.Keys
    ensures forall d :: d in r ==> r[d] == KnownAnswers(checkIns[d])
  {
    map d | d in checkIns :: KnownAnswers(checkIns[d])
  }

  /** Answers under keys that are not check-in categories do not change the radar. */
  lemma BalanceIgnoresUnknownKeys(checkIns: CheckInRecord)
    ensures Balance(KnownOnly(checkIns)) == Balance(checkIns)
  {
    var known := KnownOnly(checkIns);
    forall i | 0 <= i < |CheckInCategories|
      ensures Balance(known)[i] == Balance(checkIns)[i]
    {
      var c := CheckInCategories[i].id;
      assert c in CategoryIds() by { assert CategoryIds()[i] == c; }
      MonthTallyIgnoresUnknown(checkIns, known, SortedKeys(checkIns.Keys), c);
      assert CategoryTally(known, c) == CategoryTally(checkIns, c);
    }
    assert |Balance(known)| == |Balance(checkIns)|;
    assert Balance(known) == Balance(checkIns);
  }

  /** A stress answer v counts as 4 - v; an answer of any other category counts as v. */
  lemma StressIsInverted(catId: string, v: int)
    ensures DayTally([Answer("stress", v)], "stress") == Tally(4 - v, 1)
    ensures catId != "stress" ==> DayTally([Answer(catId, v)], catId) == Tally(v, 1)
    ensures catId != "stress" ==> DayTally([Answer("stress", v)], catId) == Tally(0, 0)
  {
    assert [Answer("stress", v)][1..] == [];
    assert [Answer(catId, v)][1..] == [];
  }

  /** A lone calm day (stress 1) scores 100, a lone answer of 1 elsewhere scores 33. */
  lemma ScoreExamples()
    ensures BalanceScore(Tally(3, 1)) == 100
    ensures BalanceScore(Tally(1, 1)) == 33
    ensures BalanceScore(Tally(9, 4)) == 75
  {
  }

  /** A label that lacks some character of `t` does not contain `t`. */
  lemma MissingCharNotContained(s: string, t: string, c: char)
    requires c in t && c !in s
    ensures !Contains(s, t)
  {
  }

  /** A label contains its own prefix. */
  lemma PrefixContained(s: string, t: string)
    requires |t| <= |s| && s[..|t|] == t
    ensures Contains(s, t)
  {
    assert OccursAt(s, t, 0);
  }

  // The radar labels of the six categories, one lemma per label.

  /** The radar label of "Qualidade do Sono". */
  lemma LabelSono()
    ensures Abbreviate("Qualidade do Sono") == "Sono"
  {
    assert Contains("Qualidade do Sono", "Qualidade") by { PrefixContained("Qualidade do Sono", "Qualidade"); }
    assert !Contains("Sono", "Nível de Energia") by { MissingCharNotContained("Sono", "Nível de Energia", 'N'); }
    assert !Contains("Sono", "Nível de Estresse") by { MissingCharNotContained("Sono", "Nível de Estresse", 'N'); }
    assert !Contains("Sono", "Interação") by { MissingCharNotContained("Sono", "Interação", 'I'); }
    assert !Contains("Sono", "Foco") by { MissingCharNotContained("Sono", "Foco", 'F'); }
  }

  /** The radar label of "Nível de Energia". */
  lemma LabelEnergia()
    ensures Abbreviate("Nível de Energia") == "Energia"
  {
    assert !Contains("Nível de Energia", "Qualidade") by { MissingCharNotContained("Nível de Energia", "Qualidade", 'Q'); }
    assert Contains("Nível de Energia", "Nível de Energia") by { PrefixContained("Nível de Energia", "Nível de Energia"); }
    assert !Contains("Energia", "Nível de Estresse") by { MissingCharNotContained("Energia", "Nível de Estresse", 'N'); }
    assert !Contains("Energia", "Interação") by { MissingCharNotContained("Energia", "Interação", 'I'); }
    assert !Contains("Energia", "Foco") by { MissingCharNotContained("Energia", "Foco", 'F'); }
  }

  /** The radar label of "Alimentação". */
  lemma LabelAlimentacao()
    ensures Abbreviate("Alimentação") == "Alimentação"
  {
    assert !Contains("Alimentação", "Qualidade") by { MissingCharNotContained("Alimentação", "Qualidade", 'Q'); }
    assert !Contains("Alimentação", "Nível de Energia") by { MissingCharNotContained("Alimentação", "Nível de Energia", 'N'); }
    assert !Contains("Alimentação", "Nível de Estresse") by { MissingCharNotContained("Alimentação", "Nível de Estresse", 'N'); }
    assert !Contains("Alimentação", "Interação") by { MissingCharNotContained("Alimentação", "Interação", 'I'); }
    assert !Contains("Alimentação", "Foco") by { MissingCharNotContained("Alimentação", "Foco", 'F'); }
  }

  /** The radar label of "Foco / Produtividade". */
  lemma LabelFocus()
    ensures Abbreviate("Foco / Produtividade") == "Foco"
  {
    assert !Contains("Foco / Produtividade", "Qualidade") by { MissingCharNotContained("Foco / Produtividade", "Qualidade", 'Q'); }
    assert !Contains("Foco / Produtividade", "Nível de Energia") by { MissingCharNotContained("Foco / Produtividade", "Nível de Energia", 'N'); }
    assert !Contains("Foco / Produtividade", "Nível de Estresse") by { MissingCharNotContained("Foco / Produtividade", "Nível de Estresse", 'N'); }
    assert !Contains("Foco / Produtividade", "Interação") by { MissingCharNotContained("Foco / Produtividade", "Interação", 'I'); }
    assert Contains("Foco / Produtividade", "Foco") by { PrefixContained("Foco / Produtividade", "Foco"); }
  }

  /** The radar label of "Interação Social". */
  lemma LabelSocial()
    ensures Abbreviate("Interação Social") == "Social"
  {
    assert !Contains("Interação Social", "Qualidade") by { MissingCharNotContained("Interação Social", "Qualidade", 'Q'); }
    assert !Contains("Interação Social", "Nível de Energia") by { MissingCharNotContained("Interação Social", "Nível de Energia", 'N'); }
    assert !Contains("Interação Social", "Nível de Estresse") by { MissingCharNotContained("Interação Social", "Nível de Estresse", 'N'); }
    assert Contains("Interação Social", "Interação") by { PrefixContained("Interação Social", "Interação"); }
    assert !Contains("Social", "Foco") by { MissingCharNotContained("Social", "Foco", 'F'); }
  }

  /** The radar label of "Nível de Estresse". */
  lemma LabelEstresse()
    ensures Abbreviate("Nível de Estresse") == "Calma"
  {
    assert !Contains("Nível de Estresse", "Qualidade") by { MissingCharNotContained("Nível de Estresse", "Qualidade", 'Q'); }
    assert !Contains("Nível de Estresse", "Nível de Energia") by { MissingCharNotContained("Nível de Estresse", "Nível de Energia", 'g'); }
    assert Contains("Nível de Estresse", "Nível de Estresse") by { PrefixContained("Nível de Estresse", "Nível de Estresse"); }
    assert !Contains("Calma", "Interação") by { MissingCharNotContained("Calma", "Interação", 'I'); }
    assert !Contains("Calma", "Foco") by { MissingCharNotContained("Calma", "Foco", 'F'); }
  }

  /** The six radar subjects, in category order. */
  lemma RadarSubjects(checkIns: CheckInRecord)
    ensures |Balance(checkIns)| == 6
    ensures Balance(checkIns)[0].subject == "Sono"
    ensures Balance(checkIns)[1].subject == "Energia"
    ensures Balance(checkIns)[2].subject == "Alimentação"
    ensures Balance(checkIns)[3].subject == "Foco"
    ensures Balance(checkIns)[4].subject == "Social"
    ensures Balance(checkIns)[5].subject == "Calma"
  {
    var r := Balance(checkIns);
    assert r[0].subject == "Sono" by { LabelSono(); }
    assert r[1].subject == "Energia" by { LabelEnergia(); }
    assert r[2].subject == "Alimentação" by { LabelAlimentacao(); }
    assert r[3].subject == "Foco" by { LabelFocus(); }
    assert r[4].subject == "Social" by { LabelSocial(); }
    assert r[5].subject == "Calma" by { LabelEstresse(); }
  }

  // ---------------------------------------------------------------------
  // Metric carousel

  datatype MetricType = MoodChart | SleepChart | ProductivityChart | BalanceChart

  /** `metricKeys`: the charts in the order of the metrics configuration. */
  const MetricKeys: seq<MetricType> := [MoodChart, SleepChart, ProductivityChart, BalanceChart]

  /** `metricKeys.indexOf(m)`. */
  function IndexOf(m: MetricType): (k: nat)
    ensures k < |MetricKeys| && MetricKeys[k] == m
  {
    match m
    case MoodChart => 0
    case SleepChart => 1
    case ProductivityChart => 2
    case BalanceChart => 3
  }

  /** `handleNext`. */
  function NextMetric(m: MetricType): MetricType {
    MetricKeys[(IndexOf(m) + 1) % |MetricKeys|]
  }

  /** `handlePrev`. */
  function PrevMetric(m: MetricType): MetricType {
    MetricKeys[(IndexOf(m) - 1 + |MetricKeys|) % |MetricKeys|]
  }

  /** `indexOf` finds each position of the list of charts. */
  lemma IndexOfKey(k: nat)
    requires k < |MetricKeys|
    ensures IndexOf(MetricKeys[k]) == k
  {
  }

  /** Next moves one position forward and previous one back, wrapping at the ends of the list. */
  lemma IndexSteps(m: MetricType)
    ensures IndexOf(m) < 3 ==> IndexOf(NextMetric(m)) == IndexOf(m) + 1
    ensures IndexOf(m) == 3 ==> IndexOf(NextMetric(m)) == 0
    ensures IndexOf(m) > 0 ==> IndexOf(PrevMetric(m)) == IndexOf(m) - 1
    ensures IndexOf(m) == 0 ==> IndexOf(PrevMetric(m)) == 3
  {
    IndexOfKey((IndexOf(m) + 1) % 4);
    IndexOfKey((IndexOf(m) - 1 + 4) % 4);
  }

  /** Charts with the same position are the same chart. */
  lemma SameIndexSameMetric(a: MetricType, b: MetricType)
    requires IndexOf(a) == IndexOf(b)
    ensures a == b
  {
  }

  /** Next and previous undo each other. */
  lemma NextPrevInverse(m: MetricType)
    ensures PrevMetric(NextMetric(m)) == m
    ensures NextMetric(PrevMetric(m)) == m
  {
    IndexSteps(m);
    IndexSteps(NextMetric(m));
    IndexSteps(PrevMetric(m));
    SameIndexSameMetric(PrevMetric(NextMetric(m)), m);
    SameIndexSameMetric(NextMetric(PrevMetric(m)), m);
  }

  /** Four steps forward go once round the charts, and each step moves to another chart. */
  lemma CarouselCycles(m: MetricType)
    ensures NextMetric(NextMetric(NextMetric(NextMetric(m)))) == m
    ensures NextMetric(m) != m
  {
    var n1 := NextMetric(m);
    var n2 := NextMetric(n1);
    var n3 := NextMetric(n2);
    IndexSteps(m);
    IndexSteps(n1);
    IndexSteps(n2);
    IndexSteps(n3);
    SameIndexSameMetric(NextMetric(n3), m);
  }
}
