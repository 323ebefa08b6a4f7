# Next.js notes app: a Dafny model of its UI decision logic

This project models the decision logic of a small notes application written in
TypeScript with React and Next.js. It covers:

- **InlineEdit**, the click-to-edit widget, as a state machine. Each event (click,
  change, key press, blur, a new `value` prop) gives a next state and the ordered trace
  of `onChange` / `onSave` callbacks it fires.
- **The form components** as pure functions from props to an abstract render tree.
  These are `FlexibleForm`, its legacy twin `Form`, `FormInput` / `FormTextarea`, and
  `NoteForm`. The tree (`Dom.Node`) keeps each element's kind, React key, class string,
  text and children.
- **NotesList**: truncation of note previews, grouping of notes by a date key,
  selection highlight and the empty state.
- **The notes page**: the save guard, the payload and method/URL choice, the state
  resets, the toggles and the query string of the notes fetch.
- **The `/api/notes` handler**: body validation, query normalisation, method dispatch
  and status codes. The database is an abstract store.
- **The two theme rules**: `ThemeProvider`'s, and the slightly different copy in the
  registration page. The registration page's submit flow is modelled too.

Optional strings are `Js.Option<string>`. JavaScript truthiness is `Js.Truthy`:
`None` and `Some("")` are both falsy. `s || fallback` is `Js.Or`. `String.prototype.trim`
is `Js.Trim`, specified as "strip the longest leading and trailing runs of ECMAScript
white space and line terminators" (section 22.1.3.32 of ECMA-262).

Modules:

| Module | Role |
|---|---|
| `Js` | `Option`, truthiness, `trim`, `split`, substring search, decimal rendering |
| `Dom` | the render tree |
| `InlineEdit` | the InlineEdit state machine and its view |
| `FormInput` | `FormInput` / `FormTextarea` |
| `FormParts` | pieces shared by `Form` and `FlexibleForm` (alerts, submit button, footer, legacy fields) |
| `FlexibleForm`, `Form`, `NoteForm` | the form components |
| `Notes`, `NotesList` | the note record; the list |
| `NotesApi` | the `/api/notes` handler |
| `NotesPage` | the notes page's state and save flow |
| `Theme`, `Register` | the theme rules; the registration page |

Three behaviours of the code that are easy to misread, modelled as written:

- A commit compares the *trimmed* buffer with the *untrimmed* `value`. So a buffer
  `"Hello "` against the value `"Hello"` is not a change: only `onSave()` fires
  (`InlineEdit.PaddedBufferIsNoOp`). Conversely, an untouched padded value
  `" Hello"` is reported as a change (`InlineEdit.UntouchedSession`).
- A click only enters editing; it does not reseed the buffer from `value`. The buffer is
  reseeded by the `[value]` effect, and React runs that only when the value actually
  changes, or by Escape.
- Nothing is debounced: every commit fires its callbacks at once.

## Model

| member | source | states |
|---|---|---|
| Js.TrimSpec | components/InlineEdit.tsx:71 | the result is the input with exactly its leading and trailing white-space runs removed, and its ends are not white space |
| Js.TrimStartSpec | components/InlineEdit.tsx:71 | stripping the front removes exactly the leading white-space run: what remains is a suffix that does not start with white space |
| Js.TrimEndSpec | components/InlineEdit.tsx:71 | stripping the back removes exactly the trailing white-space run: what remains is a prefix that does not end with white space |
| Js.TrimOfUnique | components/InlineEdit.tsx:71 | at most one string is a trim of a given string, so the characterisation fixes `trim` |
| Js.TrimOfPadded | components/InlineEdit.tsx:71 | padding an unpadded string with white space on both sides trims back to it |
| Js.TrimFixedPoint | components/InlineEdit.tsx:71 | a string is its own trim exactly when it has no white space at either end |
| Js.TrimIdempotent | pages/notes/index.tsx:93 | trimming twice is trimming once |
| Js.TrimEmpty | pages/notes/index.tsx:93 | a string trims to empty exactly when it is all white space, which is the save guard's blank test |
| Js.SplitLength | components/InlineEdit.tsx:97 | splitting on a character gives one more piece than the character's occurrences |
| Js.SplitJoin | components/InlineEdit.tsx:97 | joining the pieces of a split gives back the original string |
| Js.ContainsAt | pages/api/notes.ts:40-46 | the substring test holds exactly when the needle occurs at some position |
| Js.DecimalRoundTrip | pages/notes/index.tsx:100 | the decimal digits of an id parse back to the id |
| Js.DecimalInjective | components/FlexibleForm.tsx:259 | distinct indices have distinct decimal renderings, and equal renderings come from equal indices |
| InlineEdit.Commit | components/InlineEdit.tsx:70-78 | a commit leaves editing and ends with exactly one `onSave`; `onChange(buffer)` fires, followed by `onSave(buffer)` with the untrimmed buffer, exactly when the trimmed buffer differs from `value`; otherwise only `onSave()` fires |
| InlineEdit.Step | components/InlineEdit.tsx:28-84 | an event fires callbacks only while editing and then fires exactly a commit's; only a new `value` prop changes the props |
| InlineEdit.ClickEntersEditing | components/InlineEdit.tsx:45-49 | a click enters editing, keeps the buffer and fires nothing |
| InlineEdit.ChangeReplacesBuffer | components/InlineEdit.tsx:80-84 | typing while editing replaces the buffer and fires nothing |
| InlineEdit.BlurCommitsOnlyWhileEditing | components/InlineEdit.tsx:51-55 | a blur commits while editing and changes nothing otherwise |
| InlineEdit.EnterCommits | components/InlineEdit.tsx:57-68 | Enter commits a single-line editor; a multiline editor commits only on Ctrl+Enter or Meta+Enter, and a plain Enter does nothing |
| InlineEdit.OtherKeysInert | components/InlineEdit.tsx:57-68 | keys other than Enter and Escape change nothing and fire nothing |
| InlineEdit.EscapeDiscards | components/InlineEdit.tsx:61-63 | Escape leaves editing, resets the buffer to `value` and fires nothing |
| InlineEdit.ValuePropResyncs | components/InlineEdit.tsx:28-30 | a changed `value` reseeds the buffer in either mode; an unchanged one is a no-op; neither fires anything |
| InlineEdit.PaddedBufferIsNoOp | components/InlineEdit.tsx:70-78 | a buffer that is `value` plus white-space padding commits as "no change": only `onSave()` |
| InlineEdit.UntouchedSession | components/InlineEdit.tsx:24-78 | click-then-blur on a fresh widget fires `onSave()` alone when `value` is unpadded, and fires change plus save with `value` when it is padded |
| InlineEdit.EditSession | components/InlineEdit.tsx:45-84 | click, type a text whose trim differs from `value`, blur: exactly `onChange(text)`, `onSave(text)`, and the widget is back in display mode |
| InlineEdit.RunFiresWholeCommits | components/InlineEdit.tsx:51-78 | any event sequence fires a trace made of whole commits: zero or more `onChange`, each run closed by one `onSave` |
| InlineEdit.CommitsAppend | components/InlineEdit.tsx:70-78 | concatenating two traces of whole commits gives a trace of whole commits |
| InlineEdit.NoClickNoCallbacks | components/InlineEdit.tsx:45-68 | from display mode, events without a click never fire a callback or enter editing |
| InlineEdit.TypingFiresNothing | components/InlineEdit.tsx:80-84 | any run of typing while editing fires nothing and leaves the last text typed in the buffer |
| InlineEdit.EscapeSession | components/InlineEdit.tsx:45-84 | click, any typing, then Escape returns to the freshly mounted widget with no callbacks |
| InlineEdit.RunAppend | components/InlineEdit.tsx:28-84 | running two event sequences in turn is running their concatenation, and the traces concatenate |
| InlineEdit.EditorRows | components/InlineEdit.tsx:97 | the textarea shows at least 3 rows, and the buffer's line count when that is larger |
| InlineEdit.Render | components/InlineEdit.tsx:86-131 | display mode exactly when not editing; a textarea exactly when editing a multiline value; the editors show the buffer; the display box is marked empty and shows the placeholder exactly when `value` is empty, and otherwise shows `value` with the content or title class |
| FormInput.ControlId | components/FormInput.tsx:39-40 | the control id is `id`, else `name`, else the `input-`/`textarea-` prefix with the generated suffix; it is never empty |
| FormInput.ControlClass | components/FormInput.tsx:41-54 | the control class always starts with `form-input ` and the merged rest is trimmed |
| FormInput.Render | components/FormInput.tsx:43-75 | a `form-group` holding the label (iff non-empty, bound to the control's id), the control right after it, then help (iff non-empty), then error (iff non-empty) |
| FormInput.OnlyOneField | components/FormInput.tsx:43-75 | the control is the group's only form field |
| FormInput.Notes | components/FormInput.tsx:58-74 | the help paragraph and then the error paragraph, each present iff its text is non-empty and carrying that text |
| FormInput.LabelPart | components/FormInput.tsx:45-49 | the label is present iff its text is non-empty, and it points at the given id |
| FormInput.LabelBindsControl | components/FormInput.tsx:45-52 | the label's `htmlFor` is the control's id |
| FormInput.TextareaMirrorsInput | components/FormInput.tsx:79-131 | the textarea renderer produces the same structure as the input renderer, and the same id whenever `id` or `name` is given |
| FormParts.Alert | components/FlexibleForm.tsx:166-214 | an alert appears iff its message is non-empty, with the kind's class and the message |
| FormParts.Alerts | components/FlexibleForm.tsx:166-214 | one node per non-empty message, success first and error last |
| FormParts.AlertsOrder | components/Form.tsx:99-147 | the success alert, if any, comes first with class `alert alert-success`; the error alert comes last with `alert alert-error`; there are none iff both messages are empty |
| FormParts.SubmitButtonPart | components/FlexibleForm.tsx:216-235 | the button is present iff a submit-button description is given, and it is busy iff submitting |
| FormParts.SubmitButtonComputed | components/FlexibleForm.tsx:216-235 | without overriding keys, the type is `submit`; the button is disabled as the given `disabled` says, or else iff submitting; the label is the loading label or screen-reader "Submitting..." while submitting, else the label or "Submit" |
| FormParts.SubmitButtonSpreadOverrides | components/FlexibleForm.tsx:222-227 | `disabled`, `className` and `type` keys present in the description replace the computed values |
| FormParts.FooterPart | components/FlexibleForm.tsx:238-256 | a footer appears iff there is text or a link; the text comes first, then a single space only when both are present, then the link with its label |
| FormParts.LegacyId | components/FlexibleForm.tsx:333-350 | a legacy control's id is never empty: the first truthy one of `id`, `name` and the kind prefix with the decimal index |
| FormParts.LegacyIdsDistinct | components/FlexibleForm.tsx:333-350 | controls with neither id nor name get the same id exactly when they sit at the same index |
| FormParts.LegacyNodes | components/FlexibleForm.tsx:331-361 | one `form-group` per control in array order, keyed by prefix and id, holding the field with the control's `name` and `type` and class `className` or `form-input` |
| FormParts.LegacyFields | components/FlexibleForm.tsx:324-363 | nothing iff both legacy arrays are empty; otherwise one `space-y-6` block |
| FormParts.LegacyFieldsInOrder | components/FlexibleForm.tsx:327-361 | the block holds every input, then every textarea, each in array order and each as its own `form-group` |
| FormParts.LegacyKeysCanCollide | components/Form.tsx:202-205 | two unnamed-id controls sharing a `name` get the same React key |
| FlexibleForm.UnknownLayoutIsCard | components/FlexibleForm.tsx:367-401 | an unrecognised layout gets exactly the card classes |
| FlexibleForm.DocumentHeadings | components/FlexibleForm.tsx:130-164 | the title and subtitle classes are `note-title`/`note-meta` iff the layout is `document`; the three container class sets differ |
| FlexibleForm.FieldKeysDistinct | components/FlexibleForm.tsx:258-259 | two field keys are equal iff both the names and the indices are equal |
| FlexibleForm.RenderField | components/FlexibleForm.tsx:258-311 | an unknown kind renders nothing; every other field renders one node keyed `field-<name>-<index>` |
| FlexibleForm.InlineFieldLayout | components/FlexibleForm.tsx:261-300 | an inline field renders label, the InlineEdit with the field's value and callbacks, help and error, in that order, each decoration iff non-empty |
| FlexibleForm.DispatchByKind | components/FlexibleForm.tsx:301-308 | `input` goes to FormInput and `textarea` to FormTextarea with the field's attributes spread, so an id-less field's control id and name are its `name` |
| FlexibleForm.Positions | components/FlexibleForm.tsx:313-321 | each listed position is in range and holds a renderable field |
| FlexibleForm.PositionsIncrease | components/FlexibleForm.tsx:318 | the listed positions are strictly increasing, so array order is kept |
| FlexibleForm.PositionsComplete | components/FlexibleForm.tsx:318 | every renderable field's position is listed |
| FlexibleForm.RenderFieldsFollowPositions | components/FlexibleForm.tsx:313-321 | the rendered fields are the renderable fields in array order, each with its own index |
| FlexibleForm.RenderFieldsKeysUnique | components/FlexibleForm.tsx:258-318 | the rendered fields have pairwise distinct keys, even when names repeat |
| FlexibleForm.RenderFieldsInOrder | components/FlexibleForm.tsx:313-321 | when every field is renderable, the i-th node is the i-th field rendered with index i |
| FlexibleForm.RenderFields | components/FlexibleForm.tsx:318 | mapping the fields never yields more nodes than there are fields |
| FlexibleForm.MapFieldsFollowPositions | components/FlexibleForm.tsx:318 | for any renderer that yields one node per known field and none for an unknown one, the mapped nodes are the known fields in array order, each rendered at its own index |
| FlexibleForm.MapFieldsInOrder | components/FlexibleForm.tsx:318 | for such a renderer and only known fields, the i-th node is the i-th field rendered at index i |
| FlexibleForm.FormFields | components/FlexibleForm.tsx:313-365 | a non-empty `fields` renders in one `space-y-6` block; otherwise the legacy arrays render |
| FlexibleForm.FieldsTakePrecedence | components/FlexibleForm.tsx:313-321 | with non-empty `fields` the legacy arrays are ignored entirely; nothing renders iff all three are empty |
| FlexibleForm.Wrapper | components/FlexibleForm.tsx:415-425 | the fields and button sit in a `<form>` carrying `onSubmit` iff one is given, else in a div |
| FlexibleForm.Render | components/FlexibleForm.tsx:403-430 | the container has the layout's classes; a header with logo, title and subtitle as shown; then the content area; and a footer only when there is footer content |
| FlexibleForm.ContentNode | components/FlexibleForm.tsx:411-426 | the content area has the layout's classes and holds the success and error alerts as shown, then the wrapper |
| Form.Render | components/Form.tsx:235-255 | the card container, the header, then the content area, and a footer only with footer content |
| Form.ContentNode | components/Form.tsx:243-251 | the alerts as shown, then the `<form>` |
| Form.HeadersAgree | components/Form.tsx:237-241 | the legacy form's header holds the same nodes as FlexibleForm's in card layout |
| Form.FieldsAgree | components/Form.tsx:247-250 | the legacy `<form>` holds the same fields and button as FlexibleForm's wrapper |
| Form.FootersAgree | components/Form.tsx:171-189 | the footer's content does not depend on its class string |
| Form.SameHeader | components/Form.tsx:237-241 | the two rendered pages have the same header content |
| Form.SameFooter | components/Form.tsx:171-189 | the two rendered pages have a footer in the same cases, with the same content |
| Form.AgreesWithFlexibleForm | components/Form.tsx:48-256 | the legacy form renders the same header, fields, button and footer as FlexibleForm in card layout; only the wrapper differs, and only without `onSubmit` |
| NoteForm.Subtitle | components/NoteForm.tsx:64-84 | the subtitle is the "Start typing..." prompt iff no note is selected |
| NoteForm.Descriptors | components/NoteForm.tsx:39-61 | exactly two inline fields, `title` then `content` |
| NoteForm.Render | components/NoteForm.tsx:35-127 | the editor shows iff a note is selected or editing is on, with the saving indicator iff saving; otherwise the empty panel's button calls `onNewNote` |
| NoteForm.EditorForm | components/NoteForm.tsx:37-85 | the editor form has the document layout, no logo, no submit handler or button, and passes error and success through |
| NoteForm.EditorFields | components/NoteForm.tsx:39-61 | the rendered fields are keyed `title`/0 and `content`/1 and hold a single-line title editor and a multiline content editor wired to the matching props |
| NotesList.TruncateBounds | components/NotesList.tsx:76-79 | content within the limit is shown unchanged; longer content shows exactly its first `maxLength` characters followed by `...` |
| NotesList.TruncateMonotone | components/NotesList.tsx:204-234 | a longer limit's preview extends the shorter limit's kept prefix |
| NotesList.AddNoteEffect | components/NotesList.tsx:66-72 | adding a note appends it to the group with its date, or opens a new last group for a new date |
| NotesList.GroupNotesSpec | components/NotesList.tsx:64-74 | groups come in first-occurrence order of their dates, and each holds exactly the notes with its date in input order |
| NotesList.GroupsPartition | components/NotesList.tsx:64-74 | every note's date has a group, a note is in a group iff the dates match, and no date has two groups |
| NotesList.GroupNotesByDate | components/NotesList.tsx:64-74 | the loop builds exactly the groups of the specification above |
| NotesList.CardOf | components/NotesList.tsx:195-210 | a card is highlighted iff it shows the selected note |
| NotesList.Sections | components/NotesList.tsx:187-247 | one section per group, one card per note of the group |
| NotesList.ViewsAgree | components/NotesList.tsx:187-247 | kanban and list show the same groups and notes and differ only in preview length, 60 against 40 |
| NotesList.HighlightIsSelection | components/NotesList.tsx:197-227 | a card is highlighted iff a note is selected and it has the card's id; with no selection nothing is |
| NotesList.EmptyStateExact | components/NotesList.tsx:249 | the empty state shows iff there are no notes and loading is over; with no notes there are no sections |
| NotesApi.Validate | pages/api/notes.ts:8-18 | a body is accepted iff its `title` is a non-empty string and its `content` a string, and the accepted input is those two values |
| NotesApi.ValidateRoundTrip | pages/api/notes.ts:8-11 | a client body passes validation iff its title is non-empty, and then yields exactly what was sent |
| NotesApi.FindMany | pages/api/notes.ts:35-61 | the listed notes are exactly the stored notes the filter selects |
| NotesApi.NoSearchListsAll | pages/api/notes.ts:35-61 | without a filter every stored note is listed, in store order |
| NotesApi.Handle | pages/api/notes.ts:17-68 | a method other than POST and GET gets 405 "Method not allowed"; every answer is 200, 400, 405 or 500 |
| NotesApi.PostOutcomes | pages/api/notes.ts:17-30 | POST answers 400 iff the body is invalid, 200 with the submitted title and content iff valid and the store works, and 500 "Failed to create note" otherwise |
| NotesApi.GetOutcomes | pages/api/notes.ts:32-66 | GET answers 200 iff the store works and the sort field (`orderBy`, or `updated_at` when absent or empty) is one of its columns, listing exactly the notes matching a non-empty `search` (all notes, in store order, otherwise), ascending iff `orderDirection` is `asc`; every other GET gets 500 "Failed to fetch notes" |
| NotesPage.Initial | pages/notes/index.tsx:16-32 | the page starts sorted by `updated_at` descending, in kanban view, with an empty search and nothing selected |
| NotesPage.NoteClick | pages/notes/index.tsx:74-81 | clicking a note selects it, leaves editing off, copies its title and content and clears both messages; nothing else changes |
| NotesPage.NewNote | pages/notes/index.tsx:83-90 | a new note deselects, turns editing on, empties title and content and clears both messages; nothing else changes |
| NotesPage.ToggleView | pages/notes/index.tsx:216-217 | the view toggle switches to the other view |
| NotesPage.TogglesAreInvolutions | pages/notes/index.tsx:212-217 | the view, search and sort toggles each flip their flag, change nothing else, and undo themselves |
| NotesPage.FetchQueryRoundTrip | pages/notes/index.tsx:37-42 | the API reads back from the page's query exactly the page's search (filtering only when non-empty), sort field and direction |
| NotesPage.PageFetchSucceeds | pages/notes/index.tsx:34-42 | a working store with the note columns answers the page's list request with 200 and exactly the notes matching its search |
| NotesPage.BeginSave | pages/notes/index.tsx:92-97 | no request iff title and content both trim to empty; otherwise saving starts and the error is cleared |
| NotesPage.SavePayload | pages/notes/index.tsx:105-108 | the payload title is the trimmed title or "Untitled Note", never empty; the content is the trimmed content; both are unpadded |
| NotesPage.SaveTarget | pages/notes/index.tsx:99-100 | PUT iff a note is selected, to `/api/notes/` followed by digits that parse to its id; otherwise POST to `/api/notes` |
| NotesPage.NewNoteAccepted | pages/notes/index.tsx:99-108 | a new note's payload always passes the API's validation and, with a working store, is created with that title and content |
| NotesPage.FinishSave | pages/notes/index.tsx:111-132 | saving ends on every path; success selects the saved note, says "Note saved" and refetches; a refusal shows the stringified error or "Failed to save note"; a thrown request shows "Network error" |
| NotesPage.SaveSettles | pages/notes/index.tsx:92-132 | a started save is in progress with no error, and afterwards it is over with an error exactly when it failed, the selection then unchanged |
| NotesPage.SaveIgnoresReport | pages/notes/index.tsx:143-149 | both save handlers save whether or not the editor reported a change |
| NotesPage.SelectionOpensEditor | pages/notes/index.tsx:74-90 | after a note click the editor shows that note's title and content with its dates; after "new note" it shows empty fields and the prompt |
| Theme.Parse | components/ThemeProvider.tsx:15-16 | a saved value counts only if it is exactly `light` or `dark`, and then names the theme |
| Theme.UnknownSavedIgnored | components/ThemeProvider.tsx:13-21 | any saved value other than exactly `light` or `dark` gives the same initial theme as nothing saved |
| Theme.Toggle | components/ThemeProvider.tsx:51 | toggling always changes the theme |
| Theme.ToggleInvolution | components/ThemeProvider.tsx:51 | toggling twice is the identity |
| Theme.ApplyTheme | components/ThemeProvider.tsx:33-40 | the root has `dark` iff the theme is dark; storage holds the theme's name; other classes and keys are untouched |
| Theme.PersistedRoundTrip | components/ThemeProvider.tsx:15-40 | the stored name restores the same theme on the next load, whatever the OS preference |
| Theme.UseTheme | components/ThemeProvider.tsx:62-65 | the context inside the provider; outside it, the "useTheme must be used within ThemeProvider" error |
| Theme.UseThemeSeesProvider | components/ThemeProvider.tsx:46-65 | a consumer below the provider reads the provider's current theme and toggle; one without a provider gets the error, never a default |
| Register.AgreesWithThemeProvider | pages/register.tsx:15-17 | the page and `ThemeProvider` disagree exactly on a non-empty unrecognised saved value with an OS preference for dark |
| Register.OnlyRegisterNeedsMatchMedia | pages/register.tsx:14-18 | without `matchMedia` the page's mount effect throws, while `ThemeProvider` starts from a saved `dark` or else light |
| Register.ApplyDarkMode | pages/register.tsx:20-27 | the root has `dark` iff dark mode is on, and the stored theme is `dark` iff it is on |
| Register.ApplyDarkModeIsApplyTheme | pages/register.tsx:20-27 | the page's effect does what `ThemeProvider`'s does for the corresponding theme |
| Register.Toggle | pages/register.tsx:29 | toggling negates dark mode |
| Register.MountWrites | pages/register.tsx:14-27 | nothing is stored without a window or when the mount effect throws for lack of `matchMedia`; otherwise `light` is stored first, and the last stored value is `dark` iff the rule says dark |
| Register.MountPersists | pages/register.tsx:14-27 | a saved `light` or `dark` survives the mount; any other non-empty saved value is replaced by `light` |
| Register.BeginSubmit | pages/register.tsx:33-34 | submitting starts with no error showing |
| Register.FinishSubmit | pages/register.tsx:36-54 | submitting ends on every path; success redirects to `/login?success=1`; a refusal shows its error or "Failed to register"; a thrown request shows "Failed to register" |
| Register.SubmitMessages | pages/register.tsx:33-54 | after a submission nothing is in progress, and the error is empty iff registration succeeded |
| Register.ErrorAlert | pages/register.tsx:105-112 | the error banner is the forms' error alert, shown iff there is a message |
| Register.BannerAfterSubmit | pages/register.tsx:33-112 | after a submission the banner shows iff registration failed, with the final message |
| Register.SubmitButton | pages/register.tsx:156-157 | the button is disabled iff submitting, and reads "Create account" or, while submitting, the screen-reader "Creating account..." |
| Register.SubmitButtonLoading | pages/register.tsx:156 | the button's classes contain `btn-loading` iff submitting |

## Left out

- React machinery: scheduling, batching and stale closures. For example, `saveNote` may see the title from before `onChange` when both callbacks fire in one handler. The model gives callbacks as an ordered trace (`InlineEdit.Emit`), not as their effect on the host page.
- Focus and text selection when an editor opens: these are browser primitives.
- `Type`, `KeyDown` and `Blur` events in display mode have no effect, because no editor is mounted to receive them.
- Network I/O. The results of `fetch` become the outcome parameters `NotesPage.Outcome` and `Register.Outcome`. The response handling of `fetchNotes` (storing the list, the loading flag) is not modelled.
- The database: Prisma queries, the `orderBy` sorting and the collation. The store is a sequence of notes. Case-insensitive matching is a case-folding parameter `fold`. A listing carries the requested field and direction instead of being sorted. The Prisma schema is not part of this model, so the columns a listing may be sorted by are the store's parameter `columns`; the client throws for any other field, which the handler answers with 500.
- `NotesApi.Handle`: a repeated query parameter, which arrives as an array, is not modelled. Each parameter has a single value.
- `JSON.stringify` of a server error: `NotesPage.ErrorField` carries the already stringified text.
- `NotesList.GroupNotes`: the `Object.entries` order of integer-like keys (listed first, ascending) and the failing `push` under a key inherited from `Object.prototype` are not modelled. The day keys contain `/`, so neither arises.
- Date formatting (`toLocaleDateString`, the grouping key, the card stamps): these are the abstract functions `fmt`, `key` and `stamp`.
- The `Math.random` suffix of generated control ids: an arbitrary string `generated` (or `gen(index)` per field).
- Timers: the two-second clearing of the success message, `requestAnimationFrame`, and the `theme-initializing` class.
- Styling: SVG icons, inline styles, background gradients, CSS. Of the HTML attributes spread onto native controls, only `name` and `type` are modelled.
- A spread key given explicitly as `undefined` is modelled as absent.
- String lengths count `char`s; the source counts UTF-16 code units.
- Authentication and routing: sign-in, sessions, the login and home pages, the registration API, `pages/note/new.tsx`. The redirect after registering is recorded as a target URL only.
- `NotesList`'s search box and sort controls: these are modelled only as the page state they set (`NotesPage.State`).
- Storybook stories and Cypress tests are usage examples, with no logic of their own.
