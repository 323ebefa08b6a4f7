/**
 The `/api/notes` handler: `POST` validates the body and creates a note, `GET` lists
 the notes matching an optional search in the requested order, anything else is
 refused. The database is an abstract store: a sequence of notes, the columns it can
 sort by, the id and time it would give a new note, and whether it answers at all.
 */
module NotesApi {
  import opened Js
  import opened Notes

  // ---------------------------------------------------------------------------
  // Requests, responses, store

  /** A JSON value as far as validation looks at it: a string, or anything else. */
  datatype Json = JString(s: string) | JOther

  /** The parsed request body: an object with its keys, or any non-object value. */
  datatype Body = Object(fields: map<string, Json>) | NotObject

  /** The HTTP method (`verb`), the body and the query, one value per query
      parameter; an absent parameter is an absent key. */
  datatype Request = Request(verb: string, body: Body, query: map<string, string>)

  datatype Direction = Asc | Desc

  /** The `where` clause handed to the store. */
  datatype Where = Everything | TitleOrContent(search: string)

  datatype Payload =
    | Created(note: Note)
    | Listing(notes: seq<Note>, orderBy: string, direction: Direction)
    | ValidationErrors
    | Error(message: string)

  datatype Response = Response(status: nat, payload: Payload)

  /** The store: its notes, the columns of the note table (the only names an
      `orderBy` may use; the client rejects any other, and the call throws), the id
      and timestamp it assigns to the next note, and whether its calls succeed.
      `fold` (in the functions below) stands for the case folding of its
      case-insensitive match. */
  datatype Store = Store(notes: seq<Note>, columns: set<string>, nextId: nat, now: int, available: bool)

  // ---------------------------------------------------------------------------
  // Validation

  datatype NoteInput = NoteInput(title: string, content: string)

  /** `noteSchema.safeParse`: an object whose `title` is a non-empty string and whose
      `content` is a string; other keys are ignored. */
  function Validate(body: Body): (r: Option<NoteInput>)
    ensures r.Some? ==> |r.value.title| >= 1
    ensures r.Some? <==> body.Object? && "title" in body.fields && "content" in body.fields
                         && body.fields["title"].JString? && |body.fields["title"].s| >= 1
                         && body.fields["content"].JString?
    ensures r.Some? ==> r.value == NoteInput(body.fields["title"].s, body.fields["content"].s)
  {
    match body
    case NotObject => None
    case Object(fields) =>
      if "title" in fields && fields["title"].JString? && |fields["title"].s| >= 1
         && "content" in fields && fields["content"].JString?
      then Some(NoteInput(fields["title"].s, fields["content"].s))
      else None
  }

  /** The body a client sends for a title and content. */
  function BodyOf(title: string, content: string): Body {
    Object(map["title" := JString(title), "content" := JString(content)])
  }

  /** Validation gives back exactly what was sent, provided the title is non-empty. */
  lemma ValidateRoundTrip(title: string, content: string)
    ensures Validate(BodyOf(title, content)).Some? <==> title != ""
    ensures title != "" ==> Validate(BodyOf(title, content)) == Some(NoteInput(title, content))
  {
  }

  // ---------------------------------------------------------------------------
  // Query normalisation

  /** A non-empty `search` filters; an absent or empty one does not. */
  function WhereOf(query: map<string, string>): (w: Where)
    ensures w.TitleOrContent? <==> "search" in query && query["search"] != ""
    ensures w.TitleOrContent? ==> w.search == query["search"]
  {
    if "search" in query && query["search"] != "" then TitleOrContent(query["search"]) else Everything
  }

  /** `orderBy || 'updated_at'`: any non-empty field passes through unchecked. */
  function OrderField(query: map<string, string>): (f: string)
    ensures f != ""
    ensures "orderBy" in query && query["orderBy"] != "" ==> f == query["orderBy"]
    ensures !("orderBy" in query && query["orderBy"] != "") ==> f == "updated_at"
  {
    if "orderBy" in query && query["orderBy"] != "" then query["orderBy"] else "updated_at"
  }

  /** Ascending only for exactly `asc`. */
  function DirectionOf(query: map<string, string>): (d: Direction)
    ensures d == Asc <==> "orderDirection" in query && query["orderDirection"] == "asc"
  {
    if "orderDirection" in query && query["orderDirection"] == "asc" then Asc else Desc
  }

  /** A note matches a search iff its title or its content contains the search once
      both are case-folded. */
  predicate Matches(n: Note, search: string, fold: string -> string) {
    Contains(fold(n.title), fold(search)) || Contains(fold(n.content), fold(search))
  }

  predicate Selected(n: Note, w: Where, fold: string -> string) {
    match w
    case Everything => true
    case TitleOrContent(search) => Matches(n, search, fold)
  }

  /** The notes the store returns for `w`, before the store orders them. */
  function FindMany(notes: seq<Note>, w: Where, fold: string -> string): (r: seq<Note>)
    ensures |r| <= |notes|
    ensures forall n :: n in r <==> n in notes && Selected(n, w, fold)
    decreases |notes|
  {
    if notes == [] then []
    else
      var init := notes[..|notes| - 1];
      var last := notes[|notes| - 1];
      assert notes == init + [last];
      FindMany(init, w, fold) + (if Selected(last, w, fold) then [last] else [])
  }

  /** Without a search every note is listed, in store order. */
  lemma {:induction false} NoSearchListsAll(notes: seq<Note>, fold: string -> string)
    ensures FindMany(notes, Everything, fold) == notes
    decreases |notes|
  {
    if notes != [] {
      var init, last := notes[..|notes| - 1], notes[|notes| - 1];
      NoSearchListsAll(init, fold);
      assert FindMany(notes, Everything, fold) == FindMany(init, Everything, fold) + [last];
      assert notes == init + [last];
    }
  }

  // ---------------------------------------------------------------------------
  // The handler

  function Handle(req: Request, store: Store, fold: string -> string): (r: Response)
    ensures req.verb != "POST" && req.verb != "GET" ==> r == Response(405, Error("Method not allowed"))
    ensures r.status in {200, 400, 405, 500}
  {
    if req.verb == "POST" then
      match Validate(req.body)
      case None => Response(400, ValidationErrors)
      case Some(input) =>
        if store.available then
          Response(200, Created(Note(store.nextId, input.title, input.content, store.now, store.now)))
        else Response(500, Error("Failed to create note"))
    else if req.verb == "GET" then
      if store.available && OrderField(req.query) in store.columns then
        Response(200, Listing(FindMany(store.notes, WhereOf(req.query), fold), OrderField(req.query), DirectionOf(req.query)))
      else Response(500, Error("Failed to fetch notes"))
    else Response(405, Error("Method not allowed"))
  }

  /** `POST`: 400 exactly for an invalid body; otherwise the created note carries the
      submitted title and content (200), or the store's failure is a 500. */
  lemma PostOutcomes(req: Request, store: Store, fold: string -> string)
    requires req.verb == "POST"
    ensures var r := Handle(req, store, fold);
      && (r.status == 400 <==> Validate(req.body).None?)
      && (r.status == 200 <==> Validate(req.body).Some? && store.available)
      && (r.status == 500 <==> Validate(req.body).Some? && !store.available)
      && (r.status == 500 ==> r.payload == Error("Failed to create note"))
      && (r.status == 200 ==>
            (r.payload.Created?
             && r.payload.note.title == Validate(req.body).value.title
             && r.payload.note.content == Validate(req.body).value.content
             && r.payload.note.title != ""))
  {
  }

  /** `GET`: a 200 listing exactly the notes that match the search (all of them without
      one), with the normalised order, or a 500 when the store fails or the sort field
      is not one of its columns. */
  lemma GetOutcomes(req: Request, store: Store, fold: string -> string)
    requires req.verb == "GET"
    ensures var r := Handle(req, store, fold);
      && (r.status == 200 <==> store.available && OrderField(req.query) in store.columns)
      && (r.status == 200 || r.status == 500)
      && (r.status == 500 ==> r.payload == Error("Failed to fetch notes"))
      && (r.status == 200 ==>
            (r.payload.Listing?
             && r.payload.orderBy == OrderField(req.query)
             && r.payload.direction == DirectionOf(req.query)
             && (forall n :: n in r.payload.notes <==> n in store.notes && Selected(n, WhereOf(req.query), fold))))
      && (r.status == 200 && !("search" in req.query && req.query["search"] != "") ==>
            r.payload.notes == store.notes)
  {
    if store.available && OrderField(req.query) in store.columns && WhereOf(req.query) == Everything {
      NoSearchListsAll(store.notes, fold);
    }
  }
}
