/**
 * The habit completion state machine: each (habit, day) cell cycles
 * 0 -> 0.5 -> 1 -> 0, with 0 stored as an absent day key; adding and
 * deleting habits; and the upgrade of the legacy saved shape.
 */
module Habits {
  import opened Wrappers
  import opened Types

  /** `habit.completed[day] || 0`: the stored weight, or 0 for an absent day. */
  function WeightAt(h: Habit, day: int): (w: real)
    ensures day !in h.completed ==> w == 0.0
    ensures day in h.completed ==> w == h.completed[day]
  {
    if day in h.completed then h.completed[day] else 0.0
  }

  /** The stored weights of a habit are only ever 0.5 or 1. */
  predicate ValidHabit(h: Habit) {
    forall d :: d in h.completed ==> h.completed[d] == 0.5 || h.completed[d] == 1.0
  }

  predicate ValidHabits(habits: seq<Habit>) {
    forall i :: 0 <= i < |habits| ==> ValidHabit(habits[i])
  }

  predicate UniqueIds(habits: seq<Habit>) {
    forall i, j :: 0 <= i < j < |habits| ==> habits[i].id != habits[j].id
  }

  /** One step of the cycle 0 -> 0.5 -> 1 -> 0; any other value falls back to 0. */
  function NextWeight(w: real): real {
    if w == 0.0 then 0.5 else if w == 0.5 then 1.0 else 0.0
  }

  /** Advances one cell; a result of 0 deletes the key instead of storing it. */
  function ToggleCell(h: Habit, day: int): (r: Habit)
    ensures r.id == h.id && r.title == h.title && r.color == h.color
    ensures WeightAt(r, day) == NextWeight(WeightAt(h, day))
    ensures day in r.completed ==> r.completed[day] != 0.0
    ensures forall d :: d != day ==> (d in r.completed <==> d in h.completed)
    ensures forall d :: d != day && d in h.completed ==> r.completed[d] == h.completed[d]
    ensures ValidHabit(h) ==> ValidHabit(r)
  {
    var next := NextWeight(WeightAt(h, day));
    if next == 0.0 then h.(completed := h.completed - {day})
    else h.(completed := h.completed[day := next])
  }

  /** `toggleHabitDay`: every habit whose id is `habitId` advances its cell for `day`. */
  function ToggleHabitDay(habits: seq<Habit>, habitId: string, day: int): (r: seq<Habit>)
    ensures |r| == |habits|
    ensures forall i :: 0 <= i < |r| && habits[i].id != habitId ==> r[i] == habits[i]
    ensures forall i :: 0 <= i < |r| && habits[i].id == habitId ==> r[i] == ToggleCell(habits[i], day)
    ensures ValidHabits(habits) ==> ValidHabits(r)
  {
    seq(|habits|, i requires 0 <= i < |habits| =>
      if habits[i].id != habitId then habits[i] else ToggleCell(habits[i], day))
  }

  /** The cycle has period three on every weight a valid habit can hold. */
  lemma ThreeStepsRestoreWeight(w: real)
    requires w == 0.0 || w == 0.5 || w == 1.0
    ensures NextWeight(NextWeight(NextWeight(w))) == w
    ensures NextWeight(w) != w
  {
  }

  /** Three toggles of one cell give back the original habit. */
  lemma {:induction false} ThreeTogglesRestoreHabit(h: Habit, day: int)
    requires ValidHabit(h)
    ensures ToggleCell(ToggleCell(ToggleCell(h, day), day), day) == h
  {
    var h3 := ToggleCell(ToggleCell(ToggleCell(h, day), day), day);
    ThreeStepsRestoreWeight(WeightAt(h, day));
    assert h3.completed == h.completed by {
      assert forall d :: d in h3.completed <==> d in h.completed;
      assert forall d :: d in h.completed ==> h3.completed[d] == h.completed[d];
    }
  }

  /** Three `toggleHabitDay` calls on the same cell leave the habit list as it was. */
  lemma ThreeTogglesRestoreList(habits: seq<Habit>, habitId: string, day: int)
    requires ValidHabits(habits)
    ensures ToggleHabitDay(ToggleHabitDay(ToggleHabitDay(habits, habitId, day), habitId, day), habitId, day) == habits
  {
    var r := ToggleHabitDay(ToggleHabitDay(ToggleHabitDay(habits, habitId, day), habitId, day), habitId, day);
    forall i | 0 <= i < |habits|
      ensures r[i] == habits[i]
    {
      if habits[i].id == habitId {
        ThreeTogglesRestoreHabit(habits[i], day);
      }
    }
  }

  /** The palette slot `Math.floor(Math.random() * HIGHLIGHTER_COLORS.length)` picks for a random draw `rnd`. */
  function ColorIndex(rnd: real): (k: nat)
    requires 0.0 <= rnd < 1.0
    ensures k < |HighlighterColors|
    ensures k as real <= rnd * |HighlighterColors| as real < k as real + 1.0
  {
    (rnd * |HighlighterColors| as real).Floor
  }

  /** `addHabit`: appends a habit with an empty completion map and a palette colour. */
  function AddHabit(habits: seq<Habit>, id: string, title: string, rnd: real): (r: seq<Habit>)
    requires 0.0 <= rnd < 1.0
    ensures |r| == |habits| + 1 && r[..|habits|] == habits
    ensures r[|habits|].id == id && r[|habits|].title == title && r[|habits|].completed == map[]
    ensures r[|habits|].color in HighlighterColors
    ensures ValidHabits(habits) ==> ValidHabits(r)
    ensures UniqueIds(habits) && (forall i :: 0 <= i < |habits| ==> habits[i].id != id) ==> UniqueIds(r)
  {
    habits + [Habit(id, title, HighlighterColors[ColorIndex(rnd)], map[])]
  }

  /** `habits.filter(h => h.id !== id)`. */
  function RemoveHabit(habits: seq<Habit>, id: string): (r: seq<Habit>)
    ensures |r| <= |habits|
    ensures forall i :: 0 <= i < |r| ==> r[i].id != id && r[i] in habits
    ensures forall h :: h in habits && h.id != id ==> h in r
    ensures (forall i :: 0 <= i < |habits| ==> habits[i].id != id) ==> r == habits
    ensures ValidHabits(habits) ==> ValidHabits(r)
  {
    if habits == [] then []
    else
      var rest := RemoveHabit(habits[1..], id);
      assert forall h :: h in habits[1..] ==> h in habits;
      if habits[0].id == id then rest
      else
        [habits[0]] + rest
  }

  /** The filter works habit by habit: it distributes over concatenation, so the kept habits keep their order. */
  lemma {:induction false} RemoveHabitAppend(a: seq<Habit>, b: seq<Habit>, id: string)
    ensures RemoveHabit(a + b, id) == RemoveHabit(a, id) + RemoveHabit(b, id)
  {
    if a == [] {
      assert a + b == b;
    } else {
      assert (a + b)[0] == a[0];
      assert (a + b)[1..] == a[1..] + b;
      RemoveHabitAppend(a[1..], b, id);
    }
  }

  /** Deleting keeps habit ids pairwise distinct. */
  lemma {:induction false} RemoveKeepsIdsUnique(habits: seq<Habit>, id: string)
    requires UniqueIds(habits)
    ensures UniqueIds(RemoveHabit(habits, id))
  {
    if habits != [] {
      var tail := habits[1..];
      TailIdsUnique(habits);
      RemoveKeepsIdsUnique(tail, id);
      var rest := RemoveHabit(tail, id);
      if habits[0].id != id {
        PrependKeepsIdsUnique(habits[0], rest);
      }
    }
  }

  /** The tail of a list with distinct ids has distinct ids, none of them the head's. */
  lemma TailIdsUnique(habits: seq<Habit>)
    requires habits != [] && UniqueIds(habits)
    ensures UniqueIds(habits[1..])
    ensures forall h :: h in habits[1..] ==> h.id != habits[0].id
  {
    var tail := habits[1..];
    forall i, j | 0 <= i < j < |tail|
      ensures tail[i].id != tail[j].id
    {
      assert tail[i] == habits[i + 1] && tail[j] == habits[j + 1];
    }
    forall h | h in tail
      ensures h.id != habits[0].id
    {
      var m :| 0 <= m < |tail| && tail[m] == h;
      assert habits[m + 1] == h;
    }
  }

  /** A habit whose id is fresh can go in front of a list with distinct ids. */
  lemma PrependKeepsIdsUnique(h: Habit, rest: seq<Habit>)
    requires UniqueIds(rest)
    requires forall i :: 0 <= i < |rest| ==> rest[i].id != h.id
    ensures UniqueIds([h] + rest)
  {
    var r := [h] + rest;
    forall i, j | 0 <= i < j < |r|
      ensures r[i].id != r[j].id
    {
      assert r[j] == rest[j - 1];
      if i > 0 {
        assert r[i] == rest[i - 1];
      }
    }
  }

  /**
   * `confirmDeleteHabit`: removes the habit awaiting confirmation, if its id
   * is a non-empty string, and clears the pending request; otherwise nothing
   * changes.
   */
  function ConfirmDeleteHabit(habits: seq<Habit>, pending: Option<string>): (r: (seq<Habit>, Option<string>))
    ensures pending.Some? && pending.value != "" ==>
              r.1 == None && r.0 == RemoveHabit(habits, pending.value)
    ensures !(pending.Some? && pending.value != "") ==> r == (habits, pending)
  {
    match pending
    case Some(id) => if id != "" then (RemoveHabit(habits, id), None) else (habits, pending)
    case None => (habits, pending)
  }

  // ---------------------------------------------------------------------
  // Loading saved habits

  /**
   * One saved habit as parsed from storage: the current shape carries
   * `completed`, the legacy shape carries `completedDays` (an array of day
   * numbers) instead.
   */
  datatype StoredHabit = StoredHabit(id: string, title: string, color: string,
                                     completed: map<int, real>, completedDays: Option<seq<int>>)

  /** What the saved habits entry held: nothing, text that does not parse, or a parsed list. */
  datatype SavedHabits = NothingSaved | Unparseable | Parsed(items: seq<StoredHabit>)

  /** `completedDays.reduce((acc, day) => { acc[day] = 1; return acc }, {})`. */
  function DaysToWeights(days: seq<int>): (m: map<int, real>)
    ensures m.Keys == set d | d in days
    ensures forall d :: d in m ==> m[d] == 1.0
  {
    if days == [] then map[]
    else
      var init := days[..|days| - 1];
      assert forall d :: d in days <==> d in init || d == days[|days| - 1];
      DaysToWeights(init)[days[|days| - 1] := 1.0]
  }

  /** The migration of one legacy habit. */
  function Migrate(h: LegacyHabit): (r: Habit)
    ensures r.id == h.id && r.title == h.title && r.color == h.color
    ensures forall d :: d in r.completed <==> d in h.completedDays
    ensures forall d :: d in r.completed ==> r.completed[d] == 1.0
  {
    Habit(h.id, h.title, h.color, DaysToWeights(h.completedDays))
  }

  function AsLegacy(s: StoredHabit): LegacyHabit
    requires s.completedDays.Some?
  {
    LegacyHabit(s.id, s.title, s.color, s.completedDays.value)
  }

  predicate AllLegacy(items: seq<StoredHabit>) {
    forall i :: 0 <= i < |items| ==> items[i].completedDays.Some?
  }

  /**
   * The `habits` initialiser. Nothing saved or a parse failure gives the
   * defaults. When the first item has a `completedDays` array every item is
   * migrated; if a later item lacks one, the migration throws inside the
   * `try` and the defaults are used. Otherwise the parsed list is used as is.
   */
  function LoadHabits(saved: SavedHabits): (r: seq<Habit>)
    ensures saved.NothingSaved? || saved.Unparseable? ==> r == DefaultHabits
    ensures saved.Parsed? && saved.items == [] ==> r == []
    ensures saved.Parsed? && |saved.items| > 0 && saved.items[0].completedDays.Some? ==>
              if AllLegacy(saved.items) then
                |r| == |saved.items| &&
                forall i :: 0 <= i < |r| ==> r[i] == Migrate(AsLegacy(saved.items[i]))
              else r == DefaultHabits
    ensures saved.Parsed? && |saved.items| > 0 && saved.items[0].completedDays.None? ==>
              |r| == |saved.items| &&
              forall i :: 0 <= i < |r| ==>
                r[i] == Habit(saved.items[i].id, saved.items[i].title, saved.items[i].color, saved.items[i].completed)
  {
    match saved
    case NothingSaved => DefaultHabits
    case Unparseable => DefaultHabits
    case Parsed(items) =>
      if |items| > 0 && items[0].completedDays.Some? then
        if AllLegacy(items) then
          seq(|items|, i requires 0 <= i < |items| && AllLegacy(items) => Migrate(AsLegacy(items[i])))
        else DefaultHabits
      else
        seq(|items|, i requires 0 <= i < |items| => Habit(items[i].id, items[i].title, items[i].color, items[i].completed))
  }

  /** Migrated habits keep their identity and hold only full completions, so they are valid. */
  lemma MigrationIsValid(items: seq<StoredHabit>)
    requires |items| > 0 && AllLegacy(items)
    ensures var r := LoadHabits(Parsed(items));
            && ValidHabits(r)
            && |r| == |items|
            && forall i :: 0 <= i < |r| ==>
                 r[i].id == items[i].id && r[i].title == items[i].title && r[i].color == items[i].color
                 && r[i].completed.Keys == set d | d in items[i].completedDays.value
  {
  }
}
