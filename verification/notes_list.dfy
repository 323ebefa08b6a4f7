/**
 `NotesList`: the left-hand list of the notes page. Notes are grouped by the date
 their last update falls on, and shown as cards in a kanban or a list view; the two
 views differ only in styling and in how much of each note's content they preview.
 */
module NotesList {
  import opened Js
  import opened Notes

  // ---------------------------------------------------------------------------
  // Content preview

  const DefaultLimit: nat := 100
  const KanbanLimit: nat := 60
  const ListLimit: nat := 40

  /** `truncateContent`: the content itself when it fits, otherwise its first
      `maxLength` characters followed by `...`. */
  function TruncateContent(content: string, maxLength: nat): (r: string)
    ensures |content| <= maxLength ==> r == content
    ensures |content| > maxLength ==> r == content[..maxLength] + "..."
  {
    if |content| <= maxLength then content else content[..maxLength] + "..."
  }

  /** The preview never exceeds the limit by more than the ellipsis, and always starts
      with as much of the content as fits. */
  lemma TruncateBounds(content: string, maxLength: nat)
    ensures var r := TruncateContent(content, maxLength);
      && |r| <= maxLength + 3
      && (|content| <= maxLength ==> |r| == |content|)
      && (|content| > maxLength ==> |r| == maxLength + 3)
      && (var keep := if |content| <= maxLength then |content| else maxLength;
          keep <= |r| && r[..keep] == content[..keep])
      && (|content| > maxLength ==> r[maxLength..] == "...")
  {
  }

  /** Truncating is idempotent only up to the ellipsis: a preview that fits is kept,
      and a longer limit never shows less of the content. */
  lemma TruncateMonotone(content: string, shorter: nat, longer: nat)
    requires shorter <= longer
    ensures var a := TruncateContent(content, shorter); var b := TruncateContent(content, longer);
      var ka := if |content| <= shorter then |content| else shorter;
      ka <= |b| && b[..ka] == a[..ka]
  {
  }

  // ---------------------------------------------------------------------------
  // Grouping by date

  /** A date heading and the notes under it. */
  datatype Group = Group(date: string, notes: seq<Note>)

  function Dates(gs: seq<Group>): (ds: seq<string>)
    ensures |ds| == |gs| && forall j :: 0 <= j < |gs| ==> ds[j] == gs[j].date
  {
    seq(|gs|, j requires 0 <= j < |gs| => gs[j].date)
  }

  /** One `forEach` step: the note is pushed onto the group of its date, or opens a
      new group after all existing ones. */
  function AddNote(gs: seq<Group>, n: Note, date: string): (r: seq<Group>)
    ensures |r| == |gs| + (if date in Dates(gs) then 0 else 1)
  {
    if date in Dates(gs) then
      seq(|gs|, j requires 0 <= j < |gs| => if gs[j].date == date then gs[j].(notes := gs[j].notes + [n]) else gs[j])
    else gs + [Group(date, [n])]
  }

  /** `groupNotesByDate`: the insertion-ordered object of groups, as
      `Object.entries` lists it. `key` stands for the `en-GB` day formatting of
      `updated_at`. Insertion order is the listing order only because those day
      keys contain `/`: `Object.entries` would list integer-like keys first, in
      ascending order, and a key inherited from `Object.prototype` (such as
      `constructor`) would make `push` throw. Neither is modelled. */
  function GroupNotes(notes: seq<Note>, key: int -> string): seq<Group>
    decreases |notes|
  {
    if notes == [] then []
    else
      var last := notes[|notes| - 1];
      AddNote(GroupNotes(notes[..|notes| - 1], key), last, key(last.updatedAt))
  }

  // The reference definitions the grouping is measured against.

  /** The notes whose date is `date`, in input order. */
  function Select(notes: seq<Note>, key: int -> string, date: string): (r: seq<Note>)
    ensures forall n :: n in r <==> n in notes && key(n.updatedAt) == date
    decreases |notes|
  {
    if notes == [] then []
    else
      var last := notes[|notes| - 1];
      var init := notes[..|notes| - 1];
      assert notes == init + [last];
      Select(init, key, date) + (if key(last.updatedAt) == date then [last] else [])
  }

  /** The distinct dates of the notes, in order of first occurrence. */
  function FirstOccurrences(notes: seq<Note>, key: int -> string): (ds: seq<string>)
    ensures forall d :: d in ds <==> exists i :: 0 <= i < |notes| && key(notes[i].updatedAt) == d
    ensures forall p, q :: 0 <= p < q < |ds| ==> ds[p] != ds[q]
    decreases |notes|
  {
    if notes == [] then []
    else
      var init := notes[..|notes| - 1];
      var d := key(notes[|notes| - 1].updatedAt);
      var ds := FirstOccurrences(init, key);
      assert forall i :: 0 <= i < |init| ==> notes[i] == init[i];
      if d in ds then ds else ds + [d]
  }

  /** What `AddNote` does to the groups: existing dates keep their place, the note is
      appended to the group of its date, and a new date goes last. */
  lemma AddNoteEffect(gs: seq<Group>, n: Note, date: string)
    ensures var r := AddNote(gs, n, date);
      && Dates(r) == (if date in Dates(gs) then Dates(gs) else Dates(gs) + [date])
      && (forall j :: 0 <= j < |gs| ==>
            r[j].notes == (if gs[j].date == date then gs[j].notes + [n] else gs[j].notes))
      && (date !in Dates(gs) ==> r[|gs|].notes == [n])
  {
    var r := AddNote(gs, n, date);
    assert forall j :: 0 <= j < |gs| ==> r[j].date == gs[j].date;
  }

  /** A date that no note has selects nothing. */
  lemma {:induction false} SelectAbsent(notes: seq<Note>, key: int -> string, date: string)
    requires date !in FirstOccurrences(notes, key)
    ensures Select(notes, key, date) == []
    decreases |notes|
  {
    if notes != [] {
      var init := notes[..|notes| - 1];
      assert FirstOccurrences(init, key) <= FirstOccurrences(notes, key);
      SelectAbsent(init, key, date);
    }
  }

  /** The group headings are the distinct dates in order of first occurrence. */
  lemma {:induction false} GroupDates(notes: seq<Note>, key: int -> string)
    ensures Dates(GroupNotes(notes, key)) == FirstOccurrences(notes, key)
    decreases |notes|
  {
    if notes != [] {
      var init := notes[..|notes| - 1];
      var last := notes[|notes| - 1];
      GroupDates(init, key);
      AddNoteEffect(GroupNotes(init, key), last, key(last.updatedAt));
    }
  }

  /** Each group holds exactly the notes of its date, in input order. */
  lemma {:induction false} GroupContents(notes: seq<Note>, key: int -> string)
    ensures var gs := GroupNotes(notes, key);
      forall j :: 0 <= j < |gs| ==> gs[j].notes == Select(notes, key, gs[j].date)
    decreases |notes|
  {
    if notes != [] {
      var init := notes[..|notes| - 1];
      var last := notes[|notes| - 1];
      var date := key(last.updatedAt);
      GroupContents(init, key);
      GroupDates(init, key);
      var gs0 := GroupNotes(init, key);
      AddNoteEffect(gs0, last, date);
      var gs := GroupNotes(notes, key);
      assert gs == AddNote(gs0, last, date);
      forall j | 0 <= j < |gs|
        ensures gs[j].notes == Select(notes, key, gs[j].date)
      {
        if j < |gs0| {
          assert Dates(gs)[j] == Dates(gs0)[j];
        } else {
          assert Dates(gs)[j] == date;
          SelectAbsent(init, key, date);
        }
      }
    }
  }

  /** The groups are exactly the distinct dates in first-occurrence order, and each
      group holds exactly the notes of its date in input order. */
  lemma GroupNotesSpec(notes: seq<Note>, key: int -> string)
    ensures var gs := GroupNotes(notes, key);
      && Dates(gs) == FirstOccurrences(notes, key)
      && forall j :: 0 <= j < |gs| ==> gs[j].notes == Select(notes, key, gs[j].date)
  {
    GroupDates(notes, key);
    GroupContents(notes, key);
  }

  /** Every note lands in exactly one group: the one for its date. */
  lemma GroupsPartition(notes: seq<Note>, key: int -> string)
    ensures var gs := GroupNotes(notes, key);
      forall i, j :: 0 <= i < |notes| && 0 <= j < |gs| ==>
        (notes[i] in gs[j].notes <==> gs[j].date == key(notes[i].updatedAt))
    ensures var gs := GroupNotes(notes, key);
      forall i :: 0 <= i < |notes| ==> key(notes[i].updatedAt) in Dates(gs)
    ensures var gs := GroupNotes(notes, key);
      forall j, k :: 0 <= j < k < |gs| ==> gs[j].date != gs[k].date
  {
    GroupNotesSpec(notes, key);
    var gs := GroupNotes(notes, key);
    var ds := FirstOccurrences(notes, key);
    assert forall j, k :: 0 <= j < k < |gs| ==> gs[j].date == ds[j] && gs[k].date == ds[k];
  }

  /** `groupNotesByDate` as the loop it is written as: the result is the same grouping. */
  method GroupNotesByDate(notes: seq<Note>, key: int -> string) returns (gs: seq<Group>)
    ensures Dates(gs) == FirstOccurrences(notes, key)
    ensures forall j :: 0 <= j < |gs| ==> gs[j].notes == Select(notes, key, gs[j].date)
  {
    gs := [];
    var i := 0;
    while i < |notes|
      invariant 0 <= i <= |notes|
      invariant gs == GroupNotes(notes[..i], key)
    {
      assert notes[..i + 1][..i] == notes[..i];
      gs := AddNote(gs, notes[i], key(notes[i].updatedAt));
      i := i + 1;
    }
    assert notes[..i] == notes;
    GroupNotesSpec(notes, key);
  }

  // ---------------------------------------------------------------------------
  // Cards and views

  /** `selectedNote?.id === note.id`. */
  predicate Highlighted(selected: Option<Note>, n: Note) {
    selected.Some? && selected.value.id == n.id
  }

  const HighlightClass := "border-l-4 border-primary-500 bg-primary-50/10"

  datatype ViewMode = Kanban | ListView

  /** One note card: its key, the highlight suffix of its class, title, preview and
      the formatted update time. */
  datatype Card = Card(key: nat, highlight: string, title: string, preview: string, stamp: string)

  datatype Section = Section(date: string, cards: seq<Card>)

  function PreviewLimit(mode: ViewMode): nat {
    match mode
    case Kanban => KanbanLimit
    case ListView => ListLimit
  }

  function CardOf(mode: ViewMode, n: Note, selected: Option<Note>, stamp: int -> string): (c: Card)
    ensures c.highlight == HighlightClass <==> Highlighted(selected, n)
    ensures c.highlight == "" <==> !Highlighted(selected, n)
  {
    Card(n.id, if Highlighted(selected, n) then HighlightClass else "", n.title,
         TruncateContent(n.content, PreviewLimit(mode)), stamp(n.updatedAt))
  }

  function SectionOf(mode: ViewMode, g: Group, selected: Option<Note>, stamp: int -> string): (s: Section)
    ensures s.date == g.date && |s.cards| == |g.notes|
    ensures forall k :: 0 <= k < |g.notes| ==> s.cards[k] == CardOf(mode, g.notes[k], selected, stamp)
  {
    Section(g.date, seq(|g.notes|, k requires 0 <= k < |g.notes| => CardOf(mode, g.notes[k], selected, stamp)))
  }

  /** The sections of either view. `key` formats the day, `stamp` the date and time. */
  function Sections(mode: ViewMode, notes: seq<Note>, selected: Option<Note>, key: int -> string, stamp: int -> string): (ss: seq<Section>)
    ensures var gs := GroupNotes(notes, key);
      |ss| == |gs| && forall j :: 0 <= j < |gs| ==> ss[j] == SectionOf(mode, gs[j], selected, stamp)
  {
    var gs := GroupNotes(notes, key);
    seq(|gs|, j requires 0 <= j < |gs| => SectionOf(mode, gs[j], selected, stamp))
  }

  /** The kanban and list views show the same dates in the same order, and under each
      the same notes in the same order with the same highlight; only the preview
      length differs (60 and 40 characters). */
  lemma ViewsAgree(notes: seq<Note>, selected: Option<Note>, key: int -> string, stamp: int -> string)
    ensures var a := Sections(Kanban, notes, selected, key, stamp);
      var b := Sections(ListView, notes, selected, key, stamp);
      && |a| == |b|
      && forall j :: 0 <= j < |a| ==>
           && a[j].date == b[j].date && |a[j].cards| == |b[j].cards|
           && forall k :: 0 <= k < |a[j].cards| ==>
                a[j].cards[k] == b[j].cards[k].(preview := a[j].cards[k].preview)
                && b[j].cards[k].preview == TruncateContent(GroupNotes(notes, key)[j].notes[k].content, 40)
                && a[j].cards[k].preview == TruncateContent(GroupNotes(notes, key)[j].notes[k].content, 60)
  {
  }

  /** A card is highlighted iff a note is selected and it has the same id, so at most
      the cards of notes sharing that id are highlighted. */
  lemma HighlightIsSelection(mode: ViewMode, notes: seq<Note>, selected: Option<Note>, key: int -> string, stamp: int -> string)
    ensures var ss := Sections(mode, notes, selected, key, stamp);
      forall j, k :: 0 <= j < |ss| && 0 <= k < |ss[j].cards| ==>
        (ss[j].cards[k].highlight == HighlightClass <==> selected.Some? && ss[j].cards[k].key == selected.value.id)
    ensures selected.None? ==> var ss := Sections(mode, notes, selected, key, stamp);
      forall j, k :: 0 <= j < |ss| && 0 <= k < |ss[j].cards| ==> ss[j].cards[k].highlight == ""
  {
  }

  /** The "No notes found" panel: shown iff there are no notes and none are loading. */
  function ShowEmptyState(notes: seq<Note>, isLoading: bool): (b: bool)
    ensures b ==> Sections(Kanban, notes, None, k => "", k => "") == []
  {
    |notes| == 0 && !isLoading
  }

  /** With no notes there are no sections, so the empty state is the only content;
      while loading it is suppressed even then. */
  lemma EmptyStateExact(notes: seq<Note>, isLoading: bool, mode: ViewMode, selected: Option<Note>, key: int -> string, stamp: int -> string)
    ensures ShowEmptyState(notes, isLoading) <==> notes == [] && !isLoading
    ensures notes == [] ==> Sections(mode, notes, selected, key, stamp) == []
    ensures notes != [] ==> Sections(mode, notes, selected, key, stamp) != []
  {
    if notes != [] {
      GroupsPartition(notes, key);
      assert key(notes[0].updatedAt) in Dates(GroupNotes(notes, key));
    }
  }
}
