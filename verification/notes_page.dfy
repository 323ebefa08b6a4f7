/**
 The notes page (`/notes`): the state behind the list and the editor, the handlers
 that change it, the save request built from the editor's title and content, and
 the query string of the list request. Requests are values the model hands out;
 their answers come back as the outcome of `FinishSave`.
 */
module NotesPage {
  import opened Js
  import opened Notes
  import NotesList
  import NotesApi
  import NoteForm

  datatype SortField = CreatedAt | UpdatedAt | TitleField
  datatype SortDirection = Ascending | Descending

  function SortFieldName(f: SortField): string {
    match f
    case CreatedAt => "created_at"
    case UpdatedAt => "updated_at"
    case TitleField => "title"
  }

  function SortDirectionName(d: SortDirection): string {
    match d
    case Ascending => "asc"
    case Descending => "desc"
  }

  datatype State = State(
    notes: seq<Note>,
    isLoading: bool,
    searchQuery: string,
    showSearch: bool,
    sortField: SortField,
    sortDirection: SortDirection,
    viewMode: NotesList.ViewMode,
    showSortOptions: bool,
    selectedNote: Option<Note>,
    isEditing: bool,
    title: string,
    content: string,
    error: Option<string>,
    success: Option<string>,
    isSaving: bool)

  /** The state on first render: newest-updated first, kanban view, nothing selected. */
  function Initial(): (s: State)
    ensures s.sortField == UpdatedAt && s.sortDirection == Descending && s.viewMode == NotesList.Kanban
    ensures s.searchQuery == "" && s.selectedNote.None? && !s.isEditing && !s.isSaving
  {
    State([], false, "", false, UpdatedAt, Descending, NotesList.Kanban, false, None, false, "", "", None, None, false)
  }

  // ---------------------------------------------------------------------------
  // Selection handlers

  /** `handleNoteClick`: select the note and load it into the editor, not in
      new-note mode, with no message showing. */
  function NoteClick(s: State, n: Note): (r: State)
    ensures r.selectedNote == Some(n) && !r.isEditing
    ensures r.title == n.title && r.content == n.content
    ensures r.error.None? && r.success.None?
    ensures r.(selectedNote := s.selectedNote, isEditing := s.isEditing, title := s.title,
               content := s.content, error := s.error, success := s.success) == s
  {
    s.(selectedNote := Some(n), isEditing := false, title := n.title, content := n.content, error := None, success := None)
  }

  /** `handleNewNote`: deselect and open an empty editor, with no message showing. */
  function NewNote(s: State): (r: State)
    ensures r.selectedNote.None? && r.isEditing
    ensures r.title == "" && r.content == "" && r.error.None? && r.success.None?
    ensures r.(selectedNote := s.selectedNote, isEditing := s.isEditing, title := s.title,
               content := s.content, error := s.error, success := s.success) == s
  {
    s.(selectedNote := None, isEditing := true, title := "", content := "", error := None, success := None)
  }

  function TitleChange(s: State, t: string): State {
    s.(title := t)
  }

  function ContentChange(s: State, c: string): State {
    s.(content := c)
  }

  // ---------------------------------------------------------------------------
  // List controls

  function ToggleView(s: State): (r: State)
    ensures r.viewMode != s.viewMode
  {
    s.(viewMode := if s.viewMode == NotesList.Kanban then NotesList.ListView else NotesList.Kanban)
  }

  function ToggleSearch(s: State): State {
    s.(showSearch := !s.showSearch)
  }

  function ToggleSortOptions(s: State): State {
    s.(showSortOptions := !s.showSortOptions)
  }

  /** Each toggle flips its own flag and nothing else, so toggling twice restores the
      state. */
  lemma TogglesAreInvolutions(s: State)
    ensures ToggleView(ToggleView(s)) == s
    ensures ToggleSearch(ToggleSearch(s)) == s && ToggleSearch(s).showSearch != s.showSearch
    ensures ToggleSortOptions(ToggleSortOptions(s)) == s && ToggleSortOptions(s).showSortOptions != s.showSortOptions
    ensures ToggleView(s).(viewMode := s.viewMode) == s
  {
  }

  // ---------------------------------------------------------------------------
  // The list request

  datatype Param = Param(name: string, value: string)

  /** The `URLSearchParams` of `fetchNotes`: `search` only when non-empty, then the
      sort field and direction. */
  function FetchParams(s: State): (ps: seq<Param>)
    ensures |ps| == (if s.searchQuery != "" then 3 else 2)
    ensures s.searchQuery != "" ==> ps[0] == Param("search", s.searchQuery)
    ensures ps[|ps| - 2] == Param("orderBy", SortFieldName(s.sortField))
    ensures ps[|ps| - 1] == Param("orderDirection", SortDirectionName(s.sortDirection))
  {
    (if s.searchQuery != "" then [Param("search", s.searchQuery)] else [])
    + [Param("orderBy", SortFieldName(s.sortField)), Param("orderDirection", SortDirectionName(s.sortDirection))]
  }

  /** The query as the API handler reads it: one value per name. */
  function ToQuery(ps: seq<Param>): map<string, string>
    decreases |ps|
  {
    if ps == [] then map[] else ToQuery(ps[..|ps| - 1])[ps[|ps| - 1].name := ps[|ps| - 1].value]
  }

  /** What the page asks for is what the API applies: the search filters exactly when
      it is non-empty, and the sort field and direction arrive unchanged. */
  lemma FetchQueryRoundTrip(s: State)
    ensures var q := ToQuery(FetchParams(s));
      && (NotesApi.WhereOf(q) == if s.searchQuery == "" then NotesApi.Everything else NotesApi.TitleOrContent(s.searchQuery))
      && NotesApi.OrderField(q) == SortFieldName(s.sortField)
      && (NotesApi.DirectionOf(q) == NotesApi.Asc <==> s.sortDirection == Ascending)
  {
    var ps := FetchParams(s);
    var field := Param("orderBy", SortFieldName(s.sortField));
    var dir := Param("orderDirection", SortDirectionName(s.sortDirection));
    var pre := if s.searchQuery != "" then [Param("search", s.searchQuery)] else [];
    assert ps == pre + [field] + [dir];
    ToQueryLast(pre + [field], dir);
    ToQueryLast(pre, field);
    if s.searchQuery != "" {
      ToQueryLast([], Param("search", s.searchQuery));
      assert [] + [Param("search", s.searchQuery)] == pre;
    }
  }

  /** The page only sorts by columns a note has, so a working store whose table holds
      them always answers the list request with the notes that match the search. */
  lemma PageFetchSucceeds(s: State, store: NotesApi.Store, fold: string -> string)
    requires store.available && {"created_at", "updated_at", "title"} <= store.columns
    ensures var r := NotesApi.Handle(NotesApi.Request("GET", NotesApi.NotObject, ToQuery(FetchParams(s))), store, fold);
      && r.status == 200
      && r.payload.Listing?
      && r.payload.orderBy == SortFieldName(s.sortField)
      && (forall n :: n in r.payload.notes <==>
            n in store.notes && (s.searchQuery == "" || NotesApi.Matches(n, s.searchQuery, fold)))
  {
    var req := NotesApi.Request("GET", NotesApi.NotObject, ToQuery(FetchParams(s)));
    FetchQueryRoundTrip(s);
    NotesApi.GetOutcomes(req, store, fold);
  }

  lemma ToQueryLast(ps: seq<Param>, p: Param)
    ensures ToQuery(ps + [p]) == ToQuery(ps)[p.name := p.value]
  {
    assert (ps + [p])[..|ps|] == ps;
  }

  // ---------------------------------------------------------------------------
  // Saving

  datatype SaveRequest = SaveRequest(verb: string, url: string, title: string, content: string)

  /** The save request about to be sent, if any, and the state while it is in flight. */
  datatype Started = Started(request: Option<SaveRequest>, next: State)

  const NotesUrl := "/api/notes"

  /** `saveNote` up to the request: nothing when both fields are blank; otherwise
      `isSaving` is set, the error is cleared and a PUT for the selected note or a
      POST for a new one is sent with the trimmed fields. */
  function BeginSave(s: State): (r: Started)
    ensures r.request.None? <==> Trim(s.title) == "" && Trim(s.content) == ""
    ensures r.request.None? ==> r.next == s
    ensures r.request.Some? ==> r.next == s.(isSaving := true, error := None)
  {
    var t, c := Trim(s.title), Trim(s.content);
    if t == "" && c == "" then Started(None, s)
    else
      var verb := if s.selectedNote.Some? then "PUT" else "POST";
      var url := if s.selectedNote.Some? then NotesUrl + "/" + Decimal(s.selectedNote.value.id) else NotesUrl;
      Started(Some(SaveRequest(verb, url, if t == "" then "Untitled Note" else t, c)), s.(isSaving := true, error := None))
  }

  /** The payload is normalised: the title is the trimmed title or `Untitled Note`, so
      never empty, and the content is the trimmed content; neither has surrounding
      white space. */
  lemma SavePayload(s: State)
    requires BeginSave(s).request.Some?
    ensures var q := BeginSave(s).request.value;
      && (Trim(s.title) != "" ==> q.title == Trim(s.title))
      && (Trim(s.title) == "" ==> q.title == "Untitled Note")
      && q.title != "" && Unpadded(q.title)
      && q.content == Trim(s.content) && Unpadded(q.content)
  {
    TrimUnpadded(s.title);
    TrimUnpadded(s.content);
    var untitled := "Untitled Note";
    assert untitled[0] == 'U' && untitled[|untitled| - 1] == 'e';
  }

  /** PUT to the selected note's own URL, or POST to the collection; the id can be read
      back from the URL. */
  lemma SaveTarget(s: State)
    requires BeginSave(s).request.Some?
    ensures var q := BeginSave(s).request.value;
      && (q.verb == "PUT" <==> s.selectedNote.Some?)
      && (q.verb == "POST" <==> s.selectedNote.None?)
      && (s.selectedNote.None? ==> q.url == NotesUrl)
      && (s.selectedNote.Some? ==>
            StartsWith(q.url, NotesUrl + "/")
            && ParseDecimal(q.url[|NotesUrl + "/"|..]) == s.selectedNote.value.id)
  {
    if s.selectedNote.Some? {
      var q := BeginSave(s).request.value;
      assert q.url[|NotesUrl + "/"|..] == Decimal(s.selectedNote.value.id);
      DecimalRoundTrip(s.selectedNote.value.id);
    }
  }

  /** A new note's POST always passes the API's validation, and the note it creates
      holds the normalised title and content. */
  lemma NewNoteAccepted(s: State, store: NotesApi.Store, fold: string -> string)
    requires BeginSave(s).request.Some? && s.selectedNote.None?
    ensures var q := BeginSave(s).request.value;
      var r := NotesApi.Handle(NotesApi.Request(q.verb, NotesApi.BodyOf(q.title, q.content), map[]), store, fold);
      && NotesApi.Validate(NotesApi.BodyOf(q.title, q.content)) == Some(NotesApi.NoteInput(q.title, q.content))
      && (store.available ==> r.status == 200 && r.payload.note.title == q.title && r.payload.note.content == q.content)
  {
    SavePayload(s);
    var q := BeginSave(s).request.value;
    NotesApi.ValidateRoundTrip(q.title, q.content);
  }

  /** The `error` field of a failed response: missing (or an unreadable body), falsy,
      or present; `stringified` stands for its `JSON.stringify`. */
  datatype ErrorField = NoErrorField | FalsyErrorField | ErrorJson(stringified: string)

  datatype Outcome =
    | Saved(note: Note)
    | Rejected(field: ErrorField)
    | Thrown

  /** The state after the save settles, and whether the list is fetched again. */
  datatype Finished = Finished(next: State, refetch: bool)

  /** `saveNote` after the request: a saved note becomes the selection with a "Note
      saved" message and a refresh of the list; a rejection shows the server's error
      or "Failed to save note"; a failed request shows "Network error". */
  function FinishSave(s: State, o: Outcome): (r: Finished)
    ensures !r.next.isSaving
    ensures r.refetch <==> o.Saved?
    ensures o.Saved? ==> r.next.selectedNote == Some(o.note) && r.next.success == Some("Note saved")
    ensures o.Rejected? && o.field.ErrorJson? ==> r.next.error == Some(o.field.stringified)
    ensures o.Rejected? && !o.field.ErrorJson? ==> r.next.error == Some("Failed to save note")
    ensures o.Thrown? ==> r.next.error == Some("Network error")
    ensures r.next.title == s.title && r.next.content == s.content && r.next.isEditing == s.isEditing
  {
    match o
    case Saved(n) => Finished(s.(selectedNote := Some(n), success := Some("Note saved"), isSaving := false), true)
    case Rejected(field) =>
      var message := if field.ErrorJson? then field.stringified else "Failed to save note";
      Finished(s.(error := Some(message), isSaving := false), false)
    case Thrown => Finished(s.(error := Some("Network error"), isSaving := false), false)
  }

  /** A save that sends a request sets `isSaving` while in flight and clears it again
      however the request ends; the error shown at the end comes only from this save. */
  lemma SaveSettles(s: State, o: Outcome)
    requires BeginSave(s).request.Some?
    ensures BeginSave(s).next.isSaving && BeginSave(s).next.error.None?
    ensures var f := FinishSave(BeginSave(s).next, o).next;
      && !f.isSaving
      && (o.Saved? ==> f.error.None?)
      && (!o.Saved? ==> f.error.Some? && f.selectedNote == s.selectedNote)
  {
  }

  /** The editor's save callbacks: whichever of the title or the content reports a
      save, and whether or not it reported a change, the page runs the same
      `saveNote`. */
  function OnEditorSave(s: State, reported: Option<string>): Started {
    BeginSave(s)
  }

  lemma SaveIgnoresReport(s: State, a: Option<string>, b: Option<string>)
    ensures OnEditorSave(s, a) == OnEditorSave(s, b) == BeginSave(s)
  {
  }

  // ---------------------------------------------------------------------------
  // The editor panel

  /** The props the page hands to `NoteForm`. */
  function NoteFormProps(s: State): NoteForm.Props {
    NoteForm.Props(s.selectedNote, s.isEditing, s.title, s.content, s.error, s.success, s.isSaving,
                   Handler("handleTitleChange"), Handler("handleContentChange"),
                   Handler("handleTitleSave"), Handler("handleContentSave"), Handler("handleNewNote"))
  }

  /** Clicking a note opens the editor on it, with its dates in the subtitle; "New"
      opens an empty editor with the placeholder subtitle. */
  lemma SelectionOpensEditor(s: State, n: Note, fmt: int -> string)
    ensures var v := NoteForm.Render(NoteFormProps(NoteClick(s, n)), fmt);
      v.Editor? && v.form.fields[0].value == n.title && v.form.fields[1].value == n.content
      && v.form.subtitle != Some(NoteForm.Placeholder)
    ensures var v := NoteForm.Render(NoteFormProps(NewNote(s)), fmt);
      v.Editor? && v.form.fields[0].value == "" && v.form.fields[1].value == ""
      && v.form.subtitle == Some(NoteForm.Placeholder)
  {
    NoteForm.EditorForm(NoteFormProps(NoteClick(s, n)), fmt);
    NoteForm.EditorForm(NoteFormProps(NewNote(s)), fmt);
  }
}
