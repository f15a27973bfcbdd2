/**
 * The day streak: the number of consecutive fully completed days counted
 * back from today, where an incomplete today does not break the run; and
 * the best-streak ratchet.
 */
module Streak {
  import opened Types
  import opened Habits

  /** Every habit has weight exactly 1 on `day` (a partial 0.5 does not count). */
  predicate AllDone(habits: seq<Habit>, day: int) {
    forall i :: 0 <= i < |habits| ==> WeightAt(habits[i], day) == 1.0
  }

  /** The length of the run of fully completed days ending at `day` and walking down to day 1. */
  function RunEndingAt(habits: seq<Habit>, day: int): (n: nat)
    ensures day >= 1 ==> n <= day
    ensures day < 1 ==> n == 0
    ensures forall d :: day - n < d <= day ==> AllDone(habits, d)
    ensures day - n >= 1 ==> !AllDone(habits, day - n)
    decreases day
  {
    if day < 1 || !AllDone(habits, day) then 0 else 1 + RunEndingAt(habits, day - 1)
  }

  /** The last day the walk counts from: today when complete, else yesterday. */
  function RunEnd(habits: seq<Habit>, today: int): int {
    if AllDone(habits, today) then today else today - 1
  }

  /**
   * `currentStreak`: 0 without habits; otherwise the run of complete days
   * ending at today, or at yesterday when today is not complete yet.
   */
  function CurrentStreak(habits: seq<Habit>, today: int): (r: nat)
    ensures |habits| == 0 ==> r == 0
    ensures today < 1 ==> r == 0
    ensures r <= if today < 0 then 0 else today
    ensures |habits| > 0 ==>
              var e := RunEnd(habits, today);
              && r <= (if e < 0 then 0 else e)
              && (forall d :: e - r < d <= e ==> AllDone(habits, d))
              && (e - r >= 1 ==> !AllDone(habits, e - r))
  {
    if |habits| == 0 then 0
    else RunEndingAt(habits, RunEnd(habits, today))
  }

  /**
   * The loop of the `currentStreak` memo: walk d = today down to 1, count a
   * complete day, skip an incomplete today, stop at an incomplete earlier day.
   */
  method ComputeStreak(habits: seq<Habit>, today: int) returns (streak: nat)
    ensures streak == CurrentStreak(habits, today)
  {
    if |habits| == 0 {
      return 0;
    }
    streak := 0;
    var d := today;
    while d >= 1
      invariant d <= today
      invariant d < today ==> d >= 0
      invariant d < today ==> streak + (if AllDone(habits, today) then d else d + 1) == today
      invariant d < today ==> forall k :: d < k < today ==> AllDone(habits, k)
      invariant d == today ==> streak == 0
      decreases d
    {
      if AllDone(habits, d) {
        streak := streak + 1;
      } else if d != today {
        break;
      }
      d := d - 1;
    }
    StreakWalk(habits, today, d, streak);
  }

  /** Where the loop of ComputeStreak stops, it has counted CurrentStreak. */
  lemma StreakWalk(habits: seq<Habit>, today: int, d: int, streak: nat)
    requires |habits| > 0 && d <= today
    requires d < today ==> d >= 0
    requires d < today ==> streak + (if AllDone(habits, today) then d else d + 1) == today
    requires d < today ==> forall k :: d < k < today ==> AllDone(habits, k)
    requires d == today ==> streak == 0
    requires d >= 1 ==> d < today && !AllDone(habits, d)
    ensures streak == CurrentStreak(habits, today)
  {
    var e := RunEnd(habits, today);
    var n := CurrentStreak(habits, today);
    if d < today {
      assert forall k :: d < k <= e ==> AllDone(habits, k);
      assert e - streak == d;
      if n < streak {
        assert false;
      } else if n > streak {
        assert false;
      }
    }
  }

  // ---------------------------------------------------------------------
  // Best-streak ratchet

  /** The bestStreak effect: replace the record only by a strictly greater streak. */
  function Ratchet(best: int, streak: nat): (r: int)
    ensures r >= best && r >= streak
    ensures r == best || r == streak
    ensures r > best <==> streak > best
  {
    if streak > best then streak else best
  }

  /** Feeding a sequence of observed streaks through the ratchet. */
  function RatchetAll(best: int, streaks: seq<nat>): (r: int)
    decreases |streaks|
  {
    if streaks == [] then best else RatchetAll(Ratchet(best, streaks[0]), streaks[1..])
  }

  /** The record never decreases and ends at least as high as every observed streak. */
  lemma {:induction false} RatchetAllBounds(best: int, streaks: seq<nat>)
    ensures RatchetAll(best, streaks) >= best
    ensures forall i :: 0 <= i < |streaks| ==> RatchetAll(best, streaks) >= streaks[i]
    ensures RatchetAll(best, streaks) == best || RatchetAll(best, streaks) in streaks
    decreases |streaks|
  {
    if streaks != [] {
      var b := Ratchet(best, streaks[0]);
      RatchetAllBounds(b, streaks[1..]);
      assert forall i :: 1 <= i < |streaks| ==> streaks[i] == streaks[1..][i - 1];
    }
  }

  // ---------------------------------------------------------------------
  // Worked examples

  /** With habits A and B both done on day 5 only, the streak on day 5 is 1. */
  lemma ScenarioBothDoneToday()
    ensures CurrentStreak([Habit("a", "A", "#dbfbc4", map[5 := 1.0]),
                           Habit("b", "B", "#74b9ff", map[5 := 1.0])], 5) == 1
  {
    var hs := [Habit("a", "A", "#dbfbc4", map[5 := 1.0]), Habit("b", "B", "#74b9ff", map[5 := 1.0])];
    assert AllDone(hs, 5);
    assert !AllDone(hs, 4) by { assert WeightAt(hs[0], 4) == 0.0; }
    assert RunEndingAt(hs, 4) == 0;
  }

  /** B done on days 4 and 5, A on day 5 only: day 4 fails, so the streak stays 1. */
  lemma ScenarioYesterdayHalfDone()
    ensures CurrentStreak([Habit("a", "A", "#dbfbc4", map[5 := 1.0]),
                           Habit("b", "B", "#74b9ff", map[4 := 1.0, 5 := 1.0])], 5) == 1
  {
    var hs := [Habit("a", "A", "#dbfbc4", map[5 := 1.0]), Habit("b", "B", "#74b9ff", map[4 := 1.0, 5 := 1.0])];
    assert AllDone(hs, 5);
    assert !AllDone(hs, 4) by { assert WeightAt(hs[0], 4) == 0.0; }
    assert RunEndingAt(hs, 4) == 0;
  }

  /** A partial (0.5) day is not complete, and an incomplete today does not break the run. */
  lemma ScenarioIncompleteToday()
    ensures CurrentStreak([Habit("a", "A", "#dbfbc4", map[3 := 1.0, 4 := 1.0, 5 := 0.5])], 5) == 2
  {
    var hs := [Habit("a", "A", "#dbfbc4", map[3 := 1.0, 4 := 1.0, 5 := 0.5])];
    assert !AllDone(hs, 5) by { assert WeightAt(hs[0], 5) == 0.5; }
    assert AllDone(hs, 4) && AllDone(hs, 3);
    assert !AllDone(hs, 2) by { assert WeightAt(hs[0], 2) == 0.0; }
    assert RunEndingAt(hs, 2) == 0;
  }
}
