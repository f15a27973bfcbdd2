/**
 * The dashboard's small lists: brain-dump items, gratitude notes and sticky
 * notes, each added, edited and deleted by id, and the journal save. New
 * ids, timestamps and random draws are parameters.
 */
module Lists {
  import opened Wrappers
  import opened Types
  import Ai

  // ---------------------------------------------------------------------
  // Deleting by id

  /** `filter(x => key(x) !== id)`: drops every element whose key is `id`, keeping the order of the rest. */
  function Without<T(!new,==)>(s: seq<T>, key: T -> string, id: string): (r: seq<T>)
    ensures |r| <= |s|
    ensures forall x :: x in r <==> x in s && key(x) != id
    ensures (forall i :: 0 <= i < |s| ==> key(s[i]) != id) ==> r == s
  {
    if s == [] then []
    else
      var rest := Without(s[1..], key, id);
      assert forall x :: x in s <==> x == s[0] || x in s[1..];
      if key(s[0]) == id then rest else [s[0]] + rest
  }

  /** The filter works element by element: it distributes over concatenation, so it never reorders. */
  lemma {:induction false} WithoutAppend<T(!new)>(a: seq<T>, b: seq<T>, key: T -> string, id: string)
    ensures Without(a + b, key, id) == Without(a, key, id) + Without(b, key, id)
  {
    if a == [] {
      assert a + b == b;
    } else {
      assert (a + b)[0] == a[0];
      assert (a + b)[1..] == a[1..] + b;
      WithoutAppend(a[1..], b, key, id);
    }
  }

  /** An element put in front under a fresh id is exactly what deleting that id takes away. */
  lemma DeleteUndoesPrepend<T(!new)>(x: T, s: seq<T>, key: T -> string)
    requires forall i :: 0 <= i < |s| ==> key(s[i]) != key(x)
    ensures Without([x] + s, key, key(x)) == s
  {
    assert ([x] + s)[1..] == s;
  }

  /** An element put at the end under a fresh id is exactly what deleting that id takes away. */
  lemma DeleteUndoesAppend<T(!new)>(s: seq<T>, x: T, key: T -> string)
    requires forall i :: 0 <= i < |s| ==> key(s[i]) != key(x)
    ensures Without(s + [x], key, key(x)) == s
  {
    WithoutAppend(s, [x], key, key(x));
    assert Without([x], key, key(x)) == [];
  }

  // ---------------------------------------------------------------------
  // Brain dump

  function BrainDumpId(b: BrainDumpItem): string { b.id }

  /** `addBrainDumpItem`: a new open item goes on top. */
  function AddBrainDumpItem(items: seq<BrainDumpItem>, id: string, text: string): (r: seq<BrainDumpItem>)
    ensures |r| == |items| + 1 && r[1..] == items
    ensures r[0].id == id && r[0].text == text && !r[0].isDone
  {
    [BrainDumpItem(id, text, false)] + items
  }

  /** `toggleBrainDumpItem`: flips the done mark of the items with that id, and of nothing else. */
  function ToggleBrainDumpItem(items: seq<BrainDumpItem>, id: string): (r: seq<BrainDumpItem>)
    ensures |r| == |items|
    ensures forall i :: 0 <= i < |r| ==> r[i].id == items[i].id && r[i].text == items[i].text
    ensures forall i :: 0 <= i < |r| ==> (r[i].isDone != items[i].isDone <==> items[i].id == id)
  {
    seq(|items|, i requires 0 <= i < |items| =>
      if items[i].id == id then items[i].(isDone := !items[i].isDone) else items[i])
  }

  /** `deleteBrainDumpItem`. */
  function DeleteBrainDumpItem(items: seq<BrainDumpItem>, id: string): (r: seq<BrainDumpItem>)
    ensures forall x :: x in r <==> x in items && x.id != id
  {
    Without(items, BrainDumpId, id)
  }

  /** Toggling the same item twice restores the list. */
  lemma ToggleTwiceRestoresBrainDump(items: seq<BrainDumpItem>, id: string)
    ensures ToggleBrainDumpItem(ToggleBrainDumpItem(items, id), id) == items
  {
    var r := ToggleBrainDumpItem(ToggleBrainDumpItem(items, id), id);
    assert forall i :: 0 <= i < |items| ==> r[i] == items[i];
  }

  /** Deleting a just-added item under a fresh id gives back the list as it was. */
  lemma DeleteUndoesAddBrainDump(items: seq<BrainDumpItem>, id: string, text: string)
    requires forall i :: 0 <= i < |items| ==> items[i].id != id
    ensures DeleteBrainDumpItem(AddBrainDumpItem(items, id, text), id) == items
  {
    DeleteUndoesPrepend(BrainDumpItem(id, text, false), items, BrainDumpId);
  }

  /** A new item is open, so its text heads the list the brain-dump analysis reads. */
  lemma AddedItemIsAnalysed(items: seq<BrainDumpItem>, id: string, text: string)
    ensures Ai.OpenTexts(AddBrainDumpItem(items, id, text)) == [text] + Ai.OpenTexts(items)
  {
    assert AddBrainDumpItem(items, id, text)[1..] == items;
  }

  // ---------------------------------------------------------------------
  // Gratitude

  function GratitudeId(g: GratitudeItem): string { g.id }

  /** `addGratitude`: a new note, stamped with `date`, goes on top. */
  function AddGratitude(items: seq<GratitudeItem>, id: string, text: string, date: string): (r: seq<GratitudeItem>)
    ensures |r| == |items| + 1 && r[1..] == items
    ensures r[0] == GratitudeItem(id, text, date)
  {
    [GratitudeItem(id, text, date)] + items
  }

  /** `deleteGratitude`. */
  function DeleteGratitude(items: seq<GratitudeItem>, id: string): (r: seq<GratitudeItem>)
    ensures forall x :: x in r <==> x in items && x.id != id
  {
    Without(items, GratitudeId, id)
  }

  /** Deleting a just-added note under a fresh id gives back the list as it was. */
  lemma DeleteUndoesAddGratitude(items: seq<GratitudeItem>, id: string, text: string, date: string)
    requires forall i :: 0 <= i < |items| ==> items[i].id != id
    ensures DeleteGratitude(AddGratitude(items, id, text, date), id) == items
  {
    DeleteUndoesPrepend(GratitudeItem(id, text, date), items, GratitudeId);
  }

  // ---------------------------------------------------------------------
  // Sticky notes

  function StickyId(n: StickyNoteData): string { n.id }

  /** The tilt `Math.random() * 4 - 2` a random draw `rnd` in [0, 1) gives. */
  function Rotation(rnd: real): (t: real)
    requires 0.0 <= rnd < 1.0
    ensures -2.0 <= t < 2.0
  {
    rnd * 4.0 - 2.0
  }

  /** `addStickyNote`: an empty note of the chosen colour goes at the end, slightly tilted. */
  function AddStickyNote(notes: seq<StickyNoteData>, id: string, color: string, rnd: real): (r: seq<StickyNoteData>)
    requires 0.0 <= rnd < 1.0
    ensures |r| == |notes| + 1 && r[..|notes|] == notes
    ensures var n := r[|notes|]; n.id == id && n.text == [] && n.color == color && -2.0 <= n.rotation < 2.0
  {
    notes + [StickyNoteData(id, [], color, Rotation(rnd))]
  }

  /** `updateStickyNote`: the notes with that id take the new text; nothing else changes. */
  function UpdateStickyNote(notes: seq<StickyNoteData>, id: string, text: string): (r: seq<StickyNoteData>)
    ensures |r| == |notes|
    ensures forall i :: 0 <= i < |r| && notes[i].id != id ==> r[i] == notes[i]
    ensures forall i :: 0 <= i < |r| && notes[i].id == id ==> r[i] == notes[i].(text := text)
  {
    seq(|notes|, i requires 0 <= i < |notes| => if notes[i].id == id then notes[i].(text := text) else notes[i])
  }

  /** `deleteStickyNote`. */
  function DeleteStickyNote(notes: seq<StickyNoteData>, id: string): (r: seq<StickyNoteData>)
    ensures forall x :: x in r <==> x in notes && x.id != id
  {
    Without(notes, StickyId, id)
  }

  /** Of two edits of the same note, the later one wins. */
  lemma LastEditWins(notes: seq<StickyNoteData>, id: string, a: string, b: string)
    ensures UpdateStickyNote(UpdateStickyNote(notes, id, a), id, b) == UpdateStickyNote(notes, id, b)
  {
  }

  /** Editing a note and then deleting it is the same as deleting it. */
  lemma {:induction false} DeleteForgetsEdits(notes: seq<StickyNoteData>, id: string, text: string)
    ensures DeleteStickyNote(UpdateStickyNote(notes, id, text), id) == DeleteStickyNote(notes, id)
  {
    if notes != [] {
      var u := UpdateStickyNote(notes, id, text);
      assert u[1..] == UpdateStickyNote(notes[1..], id, text);
      DeleteForgetsEdits(notes[1..], id, text);
    }
  }

  /** Deleting a just-added note under a fresh id gives back the notes as they were. */
  lemma DeleteUndoesAddSticky(notes: seq<StickyNoteData>, id: string, color: string, rnd: real)
    requires 0.0 <= rnd < 1.0
    requires forall i :: 0 <= i < |notes| ==> notes[i].id != id
    ensures DeleteStickyNote(AddStickyNote(notes, id, color, rnd), id) == notes
  {
    DeleteUndoesAppend(notes, StickyNoteData(id, [], color, Rotation(rnd)), StickyId);
  }

  // ---------------------------------------------------------------------
  // Journal

  /** `saveJournalEntry`: stores the text under the open journal day; with no day open nothing changes. */
  function SaveJournalEntry(entries: JournalEntries, selected: Option<int>, text: string): (r: JournalEntries)
    ensures selected.None? ==> r == entries
    ensures selected.Some? ==> r.Keys == entries.Keys + {selected.value} && r[selected.value] == text
    ensures forall d :: d in entries && selected != Some(d) ==> d in r && r[d] == entries[d]
  {
    match selected
    case None => entries
    case Some(d) => entries[d := text]
  }

  /** Saving the same day twice keeps only the second text. */
  lemma LastJournalSaveWins(entries: JournalEntries, selected: Option<int>, a: string, b: string)
    ensures SaveJournalEntry(SaveJournalEntry(entries, selected, a), selected, b) == SaveJournalEntry(entries, selected, b)
  {
  }
}
