/**
 * The rule-based insight note: a habit that is fully done on most of the
 * happy days, else a remark on good sleep, else an encouragement.
 */
module Insight {
  import opened Wrappers
  import opened Types
  import opened Habits
  import Profile

  /** Some entry records mood 3 for day `d`. */
  predicate IsHappyDay(moods: seq<MoodEntry>, d: int) {
    exists i :: 0 <= i < |moods| && moods[i].day == d && moods[i].value == Some(3)
  }

  lemma HappyDayOfTail(moods: seq<MoodEntry>, d: int)
    requires moods != []
    ensures IsHappyDay(moods, d) <==> (moods[0].day == d && moods[0].value == Some(3)) || IsHappyDay(moods[1..], d)
  {
    if IsHappyDay(moods, d) && !(moods[0].day == d && moods[0].value == Some(3)) {
      var i :| 0 <= i < |moods| && moods[i].day == d && moods[i].value == Some(3);
      assert moods[1..][i - 1] == moods[i];
    }
    if IsHappyDay(moods[1..], d) {
      var i :| 0 <= i < |moods[1..]| && moods[1..][i].day == d && moods[1..][i].value == Some(3);
      assert moods[i + 1] == moods[1..][i];
    }
  }

  /** `happyDays`: the days of the entries whose mood is exactly 3, in entry order. */
  function HappyDays(moods: seq<MoodEntry>): (r: seq<int>)
    ensures |r| == Profile.HappyDaysCount(moods)
    ensures forall d :: d in r <==> IsHappyDay(moods, d)
  {
    if moods == [] then []
    else
      var rest := HappyDays(moods[1..]);
      assert forall d :: IsHappyDay(moods, d) <==> (moods[0].day == d && moods[0].value == Some(3)) || IsHappyDay(moods[1..], d) by {
        forall d
          ensures IsHappyDay(moods, d) <==> (moods[0].day == d && moods[0].value == Some(3)) || IsHappyDay(moods[1..], d)
        {
          HappyDayOfTail(moods, d);
        }
      }
      if moods[0].value == Some(3) then [moods[0].day] + rest else rest
  }

  /** How many of `days` have weight exactly 1 for `h`: a half day does not count. */
  function HappyCount(h: Habit, days: seq<int>): (c: nat)
    ensures c <= |days|
  {
    if days == [] then 0
    else (if WeightAt(h, days[0]) == 1.0 then 1 else 0) + HappyCount(h, days[1..])
  }

  /** `count > n * 0.7`, stated over integers. */
  predicate Qualifies(count: nat, n: nat) {
    10 * count > 7 * n
  }

  /**
   * The `forEach` over the habits: a qualifying habit whose count beats the
   * best so far becomes the best. Returns the best title and its count.
   */
  function Scan(habits: seq<Habit>, days: seq<int>, best: string, maxCount: nat): (r: (string, nat))
    ensures r.1 >= maxCount
  {
    if habits == [] then (best, maxCount)
    else
      var c := HappyCount(habits[0], days);
      if Qualifies(c, |days|) && c > maxCount then Scan(habits[1..], days, habits[0].title, c)
      else Scan(habits[1..], days, best, maxCount)
  }

  function CountOf(habits: seq<Habit>, days: seq<int>, i: int): nat
    requires 0 <= i < |habits|
  {
    HappyCount(habits[i], days)
  }

  /**
   * Habit `i` is the one the scan settles on when it starts from `m`: it
   * qualifies and beats `m`, beats every earlier qualifier strictly, and is
   * not beaten by any later one. Ties therefore keep the earlier habit.
   */
  predicate Winner(habits: seq<Habit>, days: seq<int>, m: nat, i: int) {
    0 <= i < |habits| &&
    Qualifies(CountOf(habits, days, i), |days|) && CountOf(habits, days, i) > m &&
    (forall j :: 0 <= j < i && Qualifies(CountOf(habits, days, j), |days|) ==> CountOf(habits, days, j) < CountOf(habits, days, i)) &&
    (forall j :: i < j < |habits| && Qualifies(CountOf(habits, days, j), |days|) ==> CountOf(habits, days, j) <= CountOf(habits, days, i))
  }

  predicate SomeBeats(habits: seq<Habit>, days: seq<int>, m: nat) {
    exists j :: 0 <= j < |habits| && Qualifies(CountOf(habits, days, j), |days|) && CountOf(habits, days, j) > m
  }

  /** There is at most one winner. */
  lemma WinnerUnique(habits: seq<Habit>, days: seq<int>, m: nat, i: int, k: int)
    requires Winner(habits, days, m, i) && Winner(habits, days, m, k)
    ensures i == k
  {
  }

  lemma TailCounts(habits: seq<Habit>, days: seq<int>)
    requires habits != []
    ensures forall j :: 0 <= j < |habits| - 1 ==> CountOf(habits[1..], days, j) == CountOf(habits, days, j + 1)
  {
  }

  /** A winner of the tail that beats a taken head is the winner of the whole list. */
  lemma WinnerAfterTakenHead(habits: seq<Habit>, days: seq<int>, m: nat, i: int)
    requires habits != []
    requires Qualifies(CountOf(habits, days, 0), |days|) && CountOf(habits, days, 0) > m
    requires Winner(habits[1..], days, CountOf(habits, days, 0), i)
    ensures Winner(habits, days, m, i + 1)
  {
    TailCounts(habits, days);
    var tail := habits[1..];
    assert CountOf(tail, days, i) == CountOf(habits, days, i + 1);
    forall j | 0 < j <= i && Qualifies(CountOf(habits, days, j), |days|)
      ensures CountOf(habits, days, j) < CountOf(habits, days, i + 1)
    {
      assert CountOf(tail, days, j - 1) == CountOf(habits, days, j);
    }
    forall j | i + 1 < j < |habits| && Qualifies(CountOf(habits, days, j), |days|)
      ensures CountOf(habits, days, j) <= CountOf(habits, days, i + 1)
    {
      assert CountOf(tail, days, j - 1) == CountOf(habits, days, j);
    }
  }

  /** A winner of the tail after a skipped head is the winner of the whole list. */
  lemma WinnerAfterSkippedHead(habits: seq<Habit>, days: seq<int>, m: nat, i: int)
    requires habits != []
    requires !(Qualifies(CountOf(habits, days, 0), |days|) && CountOf(habits, days, 0) > m)
    requires Winner(habits[1..], days, m, i)
    ensures Winner(habits, days, m, i + 1)
  {
    TailCounts(habits, days);
    var tail := habits[1..];
    assert CountOf(tail, days, i) == CountOf(habits, days, i + 1);
    forall j | 0 < j <= i && Qualifies(CountOf(habits, days, j), |days|)
      ensures CountOf(habits, days, j) < CountOf(habits, days, i + 1)
    {
      assert CountOf(tail, days, j - 1) == CountOf(habits, days, j);
    }
    forall j | i + 1 < j < |habits| && Qualifies(CountOf(habits, days, j), |days|)
      ensures CountOf(habits, days, j) <= CountOf(habits, days, i + 1)
    {
      assert CountOf(tail, days, j - 1) == CountOf(habits, days, j);
    }
  }

  /** A taken head that nothing later beats is the winner. */
  lemma HeadIsWinner(habits: seq<Habit>, days: seq<int>, m: nat)
    requires habits != []
    requires Qualifies(CountOf(habits, days, 0), |days|) && CountOf(habits, days, 0) > m
    requires !SomeBeats(habits[1..], days, CountOf(habits, days, 0))
    ensures Winner(habits, days, m, 0)
  {
    TailCounts(habits, days);
    forall j | 0 < j < |habits| && Qualifies(CountOf(habits, days, j), |days|)
      ensures CountOf(habits, days, j) <= CountOf(habits, days, 0)
    {
      assert CountOf(habits[1..], days, j - 1) == CountOf(habits, days, j);
    }
  }

  /** A skipped head and an unbeaten tail leave the whole list unbeaten. */
  lemma NothingBeatsAfterSkippedHead(habits: seq<Habit>, days: seq<int>, m: nat)
    requires habits != []
    requires !(Qualifies(CountOf(habits, days, 0), |days|) && CountOf(habits, days, 0) > m)
    requires !SomeBeats(habits[1..], days, m)
    ensures !SomeBeats(habits, days, m)
  {
    TailCounts(habits, days);
    forall j | 0 < j < |habits| && Qualifies(CountOf(habits, days, j), |days|)
      ensures CountOf(habits, days, j) <= m
    {
      assert CountOf(habits[1..], days, j - 1) == CountOf(habits, days, j);
    }
  }

  /**
   * The scan keeps its starting point when no habit beats it, and otherwise
   * ends on the unique winner, with the winner's count.
   */
  lemma {:induction false} ScanFindsWinner(habits: seq<Habit>, days: seq<int>, best: string, m: nat)
    ensures !SomeBeats(habits, days, m) ==> Scan(habits, days, best, m) == (best, m)
    ensures SomeBeats(habits, days, m) ==>
      exists i :: Winner(habits, days, m, i) && Scan(habits, days, best, m) == (habits[i].title, CountOf(habits, days, i))
  {
    if habits != [] {
      var tail := habits[1..];
      var c := CountOf(habits, days, 0);
      if Qualifies(c, |days|) && c > m {
        ScanFindsWinner(tail, days, habits[0].title, c);
        if SomeBeats(tail, days, c) {
          var i :| Winner(tail, days, c, i) && Scan(tail, days, habits[0].title, c) == (tail[i].title, CountOf(tail, days, i));
          WinnerAfterTakenHead(habits, days, m, i);
          assert CountOf(tail, days, i) == CountOf(habits, days, i + 1);
        } else {
          HeadIsWinner(habits, days, m);
        }
      } else {
        ScanFindsWinner(tail, days, best, m);
        if SomeBeats(tail, days, m) {
          var i :| Winner(tail, days, m, i) && Scan(tail, days, best, m) == (tail[i].title, CountOf(tail, days, i));
          WinnerAfterSkippedHead(habits, days, m, i);
          assert CountOf(tail, days, i) == CountOf(habits, days, i + 1);
        } else {
          NothingBeatsAfterSkippedHead(habits, days, m);
        }
      }
    }
  }

  const SleepMessage: string := "Você tem cuidado muito bem do seu sono ultimamente!"
  const DefaultMessage: string := "Continue registrando seus dias para eu descobrir padrões no seu comportamento!"

  /** The note naming the habit that goes with radiant days. */
  function HabitMessage(title: string): string {
    "Notei que nos dias que você completa \"" + title + "\", seu humor tende a ser radiante!"
  }

  /** The recorded days whose sleep answer is exactly 3. */
  function GoodSleepDays(checkIns: CheckInRecord): set<int> {
    set d | d in checkIns && Lookup(checkIns[d], "sleep") == Some(3)
  }

  /** The sleep rule, then the default: what is said when no habit is named. */
  function FallbackInsight(checkIns: CheckInRecord): (s: string)
    ensures |GoodSleepDays(checkIns)| > 5 <==> s == SleepMessage
    ensures |GoodSleepDays(checkIns)| <= 5 <==> s == DefaultMessage
  {
    if |GoodSleepDays(checkIns)| > 5 then SleepMessage else DefaultMessage
  }

  /** `generateLocalInsight`. */
  function GenerateLocalInsight(habits: seq<Habit>, moods: seq<MoodEntry>, checkIns: CheckInRecord): (s: string)
    ensures s != []
  {
    var days := HappyDays(moods);
    var best := if |days| >= 3 then Scan(habits, days, "", 0).0 else "";
    if best != [] then HabitMessage(best) else FallbackInsight(checkIns)
  }

  /**
   * With fewer than three happy days, or no habit fully done on more than
   * 70% of them, the note falls back to the sleep rule and the default.
   */
  lemma NoWinnerFallsBack(habits: seq<Habit>, moods: seq<MoodEntry>, checkIns: CheckInRecord)
    requires var days := HappyDays(moods);
      |days| < 3 || forall j :: 0 <= j < |habits| ==> !Qualifies(HappyCount(habits[j], days), |days|)
    ensures GenerateLocalInsight(habits, moods, checkIns) == FallbackInsight(checkIns)
  {
    var days := HappyDays(moods);
    if |days| >= 3 {
      ScanFindsWinner(habits, days, "", 0);
    }
  }

  /**
   * With at least three happy days, the winner (the first habit with the
   * strictly greatest qualifying count) is named, unless its title is
   * empty, in which case the note falls back.
   */
  lemma WinnerIsNamed(habits: seq<Habit>, moods: seq<MoodEntry>, checkIns: CheckInRecord, i: int)
    requires |HappyDays(moods)| >= 3
    requires Winner(habits, HappyDays(moods), 0, i)
    ensures habits[i].title != [] ==> GenerateLocalInsight(habits, moods, checkIns) == HabitMessage(habits[i].title)
    ensures habits[i].title == [] ==> GenerateLocalInsight(habits, moods, checkIns) == FallbackInsight(checkIns)
  {
    var days := HappyDays(moods);
    ScanFindsWinner(habits, days, "", 0);
    var k :| Winner(habits, days, 0, k) && Scan(habits, days, "", 0) == (habits[k].title, CountOf(habits, days, k));
    WinnerUnique(habits, days, 0, i, k);
  }
}
