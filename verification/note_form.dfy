/**
 `NoteForm`: the editor panel of the notes page. With a note selected or a new note
 being written it shows a document-layout `FlexibleForm` with two inline fields
 (title, then content) and a saving indicator; otherwise an empty panel whose button
 starts a new note.
 */
module NoteForm {
  import opened Js
  import opened Dom
  import opened Notes
  import FlexibleForm
  import InlineEdit

  datatype Props = Props(
    selectedNote: Option<Note>,
    isEditing: bool,
    title: string,
    content: string,
    error: Option<string>,
    success: Option<string>,
    isSaving: bool,
    onTitleChange: Handler,
    onContentChange: Handler,
    onTitleSave: Handler,
    onContentSave: Handler,
    onNewNote: Handler)

  /** What the panel shows: the editor form with or without the saving indicator, or
      the empty panel with its "Create New Note" button wired to `onNewNote`. */
  datatype Panel =
    | Editor(form: FlexibleForm.Props, savingIndicator: bool)
    | Empty(createNote: Handler)

  const Placeholder := "Start typing to create your note..."

  /** The subtitle: both timestamps of the selected note, or the placeholder line.
      `fmt` stands for the `en-GB` date-and-time formatting. */
  function Subtitle(selected: Option<Note>, fmt: int -> string): (s: string)
    ensures s == Placeholder <==> selected.None?
  {
    if selected.Some? then
      var s := "Created: " + fmt(selected.value.createdAt) + " • Last updated: " + fmt(selected.value.updatedAt);
      assert s[0] == 'C' != Placeholder[0];
      s
    else Placeholder
  }

  /** The two inline descriptors: the single-line title, then the multiline content. */
  function Descriptors(p: Props): (fs: seq<FlexibleForm.Field>)
    ensures |fs| == 2 && fs[0].InlineField? && fs[1].InlineField?
    ensures fs[0].name == "title" && fs[1].name == "content"
  {
    [FlexibleForm.InlineField("title", p.title, p.onTitleChange, p.onTitleSave, Some("Note title"), None,
                              Some("note-title"), Some("note-title"), None, None, None, None),
     FlexibleForm.InlineField("content", p.content, p.onContentChange, p.onContentSave,
                              Some("Start writing your note content here..."), Some(true),
                              Some("note-content"), None, Some("note-content"), None, None, None)]
  }

  function FormProps(p: Props, fmt: int -> string): FlexibleForm.Props {
    FlexibleForm.Props(None, Some(Subtitle(p.selectedNote, fmt)), false, None, None, p.error, p.success,
                       None, None, Descriptors(p), None, "document", "", "", "", "", [], [])
  }

  function Render(p: Props, fmt: int -> string): (v: Panel)
    ensures v.Editor? <==> p.selectedNote.Some? || p.isEditing
    ensures v.Empty? ==> v.createNote == p.onNewNote
    ensures v.Editor? ==> v.savingIndicator == p.isSaving
  {
    if p.selectedNote.Some? || p.isEditing then Editor(FormProps(p, fmt), p.isSaving)
    else Empty(p.onNewNote)
  }

  /** The editor is a document-layout form without logo, submit handler or button,
      passing `error` and `success` through untouched, with the placeholder subtitle
      exactly when no note is selected. */
  lemma EditorForm(p: Props, fmt: int -> string)
    requires p.selectedNote.Some? || p.isEditing
    ensures var f := Render(p, fmt).form;
      && f.layout == "document" && !f.showLogo
      && f.onSubmit.None? && f.submitButton.None?
      && f.error == p.error && f.success == p.success
      && (f.subtitle == Some(Placeholder) <==> p.selectedNote.None?)
      && f.title.None?
  {
  }

  /** Rendered, the editor holds the title editor then the content editor: the first
      single-line and bound to the title callbacks, the second multiline and bound to
      the content callbacks. */
  lemma EditorFields(p: Props, fmt: int -> string, gen: nat -> string)
    requires p.selectedNote.Some? || p.isEditing
    ensures var f := Render(p, fmt).form;
      var fields := FlexibleForm.FormFields(f, gen)[0].kids;
      && |fields| == 2
      && fields[0].key == Some(FlexibleForm.FieldKey("title", 0))
      && fields[1].key == Some(FlexibleForm.FieldKey("content", 1))
      && |fields[0].kids| == 1 && |fields[1].kids| == 1
      && fields[0].kids[0].tag == InlineEditor(EditorProps(p.title, p.onTitleChange, p.onTitleSave, false))
      && fields[1].kids[0].tag == InlineEditor(EditorProps(p.content, p.onContentChange, p.onContentSave, true))
  {
    var f := Render(p, fmt).form;
    FlexibleForm.RenderFieldsInOrder(f.fields, gen);
    FlexibleForm.InlineFieldLayout(f.fields[0], 0, gen(0));
    FlexibleForm.InlineFieldLayout(f.fields[1], 1, gen(1));
  }

  /** The editor props both fields end up with, up to the value, callbacks and mode. */
  function EditorProps(value: string, onChange: Handler, onSave: Handler, multiline: bool): InlineEdit.Props {
    if multiline then
      InlineEdit.Props(value, onChange, onSave, "Start writing your note content here...", true, "note-content", "", "note-content")
    else
      InlineEdit.Props(value, onChange, onSave, "Note title", false, "note-title", "note-title", "")
  }
}
