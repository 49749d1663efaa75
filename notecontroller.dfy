/** The note request handlers of the server (`createNote`, `getNotes`, `getNoteById`,
    `updateNote`, `deleteNote`) over an abstract document store keyed by note id. */
module NoteController {
  import opened Wrappers
  import opened SeqUtil
  import opened Sorting

  /** A stored note (`INote`); dates are integer timestamps, user ids are opaque strings. */
  datatype Note = Note(id: string, title: string, content: string, tags: seq<string>,
                       creator: string, editors: seq<string>, createdAt: int, updatedAt: int)

  /** The JSON body of a response: a `{ message }` object, one note or a list of notes. */
  datatype Body = Info(message: string) | OneNote(note: Note) | NoteList(notes: seq<Note>)

  datatype Response = Response(status: int, body: Body)

  /** What the store keeps true of every note: its creator is one of its editors, and the
      editors list holds each user once. */
  predicate NoteOk(n: Note) {
    n.creator in n.editors && NoDup(n.editors)
  }

  predicate StoreOk(notes: map<string, Note>) {
    forall id :: id in notes ==> notes[id].id == id && NoteOk(notes[id])
  }

  /** The document `Note.create` stores: missing content becomes `''`, missing tags `[]`, and
      the requesting user is both the creator and the only editor. */
  function NewNote(id: string, title: string, content: Option<string>, tags: Option<seq<string>>,
                   userId: string, now: int): (r: Note)
    ensures r.id == id && r.title == title && r.createdAt == now && r.updatedAt == now
    ensures content.Some? ==> r.content == content.value
    ensures content.None? ==> r.content == ""
    ensures tags.Some? ==> r.tags == tags.value
    ensures tags.None? ==> r.tags == []
    ensures r.creator == userId && r.editors == [userId]
    ensures NoteOk(r)
  {
    Note(id, title, content.GetOr(""), tags.GetOr([]), userId, [userId], now, now)
  }

  /** The in-place edit of `updateNote`: the user joins the editors if absent, a falsy title
      keeps the old one, content and tags are replaced whenever they are given, and
      `updatedAt` becomes `now`. */
  function Updated(n: Note, title: Option<string>, content: Option<string>, tags: Option<seq<string>>,
                   userId: string, now: int): (r: Note)
    ensures r.id == n.id && r.creator == n.creator && r.createdAt == n.createdAt && r.updatedAt == now
    ensures Truthy(title) ==> r.title == title.value
    ensures !Truthy(title) ==> r.title == n.title
    ensures content.Some? ==> r.content == content.value
    ensures content.None? ==> r.content == n.content
    ensures tags.Some? ==> r.tags == tags.value
    ensures tags.None? ==> r.tags == n.tags
    ensures forall v :: v in r.editors <==> v in n.editors || v == userId
    ensures |n.editors| <= |r.editors| <= |n.editors| + 1 && r.editors[..|n.editors|] == n.editors
    ensures NoteOk(n) ==> NoteOk(r)
  {
    n.(title := if Truthy(title) then title.value else n.title,
       content := content.GetOr(n.content),
       tags := tags.GetOr(n.tags),
       editors := AddIfAbsent(n.editors, userId),
       updatedAt := now)
  }

  /** A second update by the same user leaves the editors list as the first one left it. */
  lemma UpdateEditorsIdempotent(n: Note, t1: Option<string>, c1: Option<string>, g1: Option<seq<string>>,
                                t2: Option<string>, c2: Option<string>, g2: Option<seq<string>>,
                                userId: string, now1: int, now2: int)
    ensures var once := Updated(n, t1, c1, g1, userId, now1);
      Updated(once, t2, c2, g2, userId, now2).editors == once.editors
  {
    AddIfAbsentIdempotent(n.editors, userId);
  }

  /** The `$or` alternatives of a `getNotes` query. */
  datatype OrFilter = ByUser(userId: string) | BySearch(pattern: string)

  datatype Query = Query(or: Option<OrFilter>, tag: Option<string>)

  /** Whether a note satisfies a query; `matches(pattern, text)` stands for the
      case-insensitive `$regex` test. */
  predicate Selects(q: Query, matches: (string, string) -> bool, n: Note) {
    && (q.tag.Some? ==> q.tag.value in n.tags)
    && match q.or
       case None => true
       case Some(ByUser(u)) => n.creator == u || u in n.editors
       case Some(BySearch(p)) => matches(p, n.title) || matches(p, n.content)
  }

  /** The notes `getNotes` is meant to list for its query parameters: a tag requires that
      tag, and a search text decides alone, replacing the creator-or-editor test. */
  ghost predicate Wanted(userId: Option<string>, tag: Option<string>, search: Option<string>,
                         matches: (string, string) -> bool, n: Note) {
    && (Truthy(tag) ==> tag.value in n.tags)
    && (if Truthy(search) then matches(search.value, n.title) || matches(search.value, n.content)
        else Truthy(userId) ==> n.creator == userId.value || userId.value in n.editors)
  }

  /** The query of `getNotes`, assembled one field at a time. */
  method BuildQuery(userId: Option<string>, tag: Option<string>, search: Option<string>,
                    matches: (string, string) -> bool) returns (q: Query)
    ensures forall n :: Selects(q, matches, n) <==> Wanted(userId, tag, search, matches, n)
    ensures Truthy(search) ==> q.or == Some(BySearch(search.value))
  {
    q := Query(None, None);
    if Truthy(userId) {
      q := q.(or := Some(ByUser(userId.value)));
    }
    if Truthy(tag) {
      q := q.(tag := tag);
    }
    if Truthy(search) {
      q := q.(or := Some(BySearch(search.value)));
    }
  }

  datatype SortField = CreatedAt | UpdatedAt

  /** A Mongo sort document `{ field: direction }`, direction 1 ascending, -1 descending. */
  datatype SortOption = SortOption(field: SortField, direction: int)

  /** The sort document of `getNotes`. */
  method ChooseSort(sort: Option<string>) returns (s: SortOption)
    ensures sort == Some("newest") ==> s == SortOption(CreatedAt, -1)
    ensures sort == Some("oldest") ==> s == SortOption(CreatedAt, 1)
    ensures sort != Some("newest") && sort != Some("oldest") ==> s == SortOption(UpdatedAt, -1)
  {
    if sort == Some("newest") {
      s := SortOption(CreatedAt, -1);
    } else if sort == Some("oldest") {
      s := SortOption(CreatedAt, 1);
    } else if sort == Some("updated") {
      s := SortOption(UpdatedAt, -1);
    } else {
      s := SortOption(UpdatedAt, -1);
    }
  }

  /** An ascending key whose order is the order a sort document asks for. */
  function SortKey(s: SortOption): (key: Note -> int) {
    (n: Note) => s.direction * (if s.field == CreatedAt then n.createdAt else n.updatedAt)
  }

  /** The order `getNotes` promises for each value of `sort`. */
  ghost predicate InRequestedOrder(ns: seq<Note>, sort: Option<string>) {
    forall i, j :: 0 <= i < j < |ns| ==>
      if sort == Some("newest") then ns[i].createdAt >= ns[j].createdAt
      else if sort == Some("oldest") then ns[i].createdAt <= ns[j].createdAt
      else ns[i].updatedAt >= ns[j].updatedAt
  }

  lemma SortKeyOrder(ns: seq<Note>, sort: Option<string>, s: SortOption)
    requires sort == Some("newest") ==> s == SortOption(CreatedAt, -1)
    requires sort == Some("oldest") ==> s == SortOption(CreatedAt, 1)
    requires sort != Some("newest") && sort != Some("oldest") ==> s == SortOption(UpdatedAt, -1)
    requires SortedBy(ns, SortKey(s))
    ensures InRequestedOrder(ns, sort)
  {
    forall i, j | 0 <= i < j < |ns|
      ensures if sort == Some("newest") then ns[i].createdAt >= ns[j].createdAt
              else if sort == Some("oldest") then ns[i].createdAt <= ns[j].createdAt
              else ns[i].updatedAt >= ns[j].updatedAt
    {
      assert SortKey(s)(ns[i]) <= SortKey(s)(ns[j]);
    }
  }

  /** `Note.find(query)`: every stored note the query selects, each once, in no particular
      order. */
  method Collect(notes: map<string, Note>, q: Query, matches: (string, string) -> bool) returns (found: seq<Note>)
    requires forall id :: id in notes ==> notes[id].id == id
    ensures NoDup(found)
    ensures forall n :: n in found ==> n.id in notes && notes[n.id] == n && Selects(q, matches, n)
    ensures forall id :: id in notes && Selects(q, matches, notes[id]) ==> notes[id] in found
  {
    var pending := notes.Keys;
    found := [];
    while pending != {}
      invariant pending <= notes.Keys
      invariant NoDup(found)
      invariant forall i :: 0 <= i < |found| ==>
        found[i].id in notes && notes[found[i].id] == found[i] && found[i].id !in pending
        && Selects(q, matches, found[i])
      invariant forall id :: id in notes && id !in pending && Selects(q, matches, notes[id]) ==>
        notes[id] in found
      decreases pending
    {
      var id :| id in pending;
      if Selects(q, matches, notes[id]) {
        found := found + [notes[id]];
      }
      pending := pending - {id};
    }
  }

  /** The document store of the note handlers. `isValidId` stands for
      `mongoose.Types.ObjectId.isValid` and `matches` for the `$regex` test. */
  class NoteStore {
    const isValidId: string -> bool
    const matches: (string, string) -> bool
    var notes: map<string, Note>

    ghost predicate Valid()
      reads this
    {
      StoreOk(notes)
    }

    constructor (isValidId: string -> bool, matches: (string, string) -> bool)
      ensures Valid()
      ensures this.isValidId == isValidId && this.matches == matches && notes == map[]
    {
      this.isValidId := isValidId;
      this.matches := matches;
      notes := map[];
    }

    /** `createNote`; `newId` is the id the store assigns, and a clash makes the insert fail. */
    method CreateNote(title: Option<string>, content: Option<string>, tags: Option<seq<string>>,
                      userId: Option<string>, newId: string, now: int) returns (r: Response)
      requires Valid()
      modifies this`notes
      ensures Valid()
      ensures !Truthy(title) || !Truthy(userId) ==>
        r == Response(400, Info("Title and userId are required")) && notes == old(notes)
      ensures Truthy(title) && Truthy(userId) && newId in old(notes) ==>
        r == Response(500, Info("Server error")) && notes == old(notes)
      ensures Truthy(title) && Truthy(userId) && newId !in old(notes) ==>
        && notes == old(notes)[newId := NewNote(newId, title.value, content, tags, userId.value, now)]
        && r == Response(201, OneNote(notes[newId]))
    {
      if !Truthy(title) || !Truthy(userId) {
        return Response(400, Info("Title and userId are required"));
      }
      if newId in notes {
        return Response(500, Info("Server error"));
      }
      var note := NewNote(newId, title.value, content, tags, userId.value, now);
      notes := notes[newId := note];
      r := Response(201, OneNote(note));
    }

    /** `getNotes`: every stored note the query selects, each once, in the requested order. */
    method GetNotes(userId: Option<string>, tag: Option<string>, search: Option<string>,
                    sort: Option<string>) returns (r: Response)
      requires Valid()
      ensures r.status == 200 && r.body.NoteList?
      ensures forall id :: id in notes ==>
        (notes[id] in r.body.notes <==> Wanted(userId, tag, search, matches, notes[id]))
      ensures forall n :: n in r.body.notes ==>
        n.id in notes && notes[n.id] == n && Wanted(userId, tag, search, matches, n)
      ensures NoDup(r.body.notes)
      ensures InRequestedOrder(r.body.notes, sort)
    {
      var q := BuildQuery(userId, tag, search, matches);
      var s := ChooseSort(sort);
      var found := Collect(notes, q, matches);
      var listed := SortByKey(found, SortKey(s));
      NoDupPermutation(found, listed);
      assert forall n :: n in listed <==> n in found by {
        forall n ensures n in listed <==> n in found {
          assert n in listed <==> n in multiset(listed);
        }
      }
      SortKeyOrder(listed, sort, s);
      r := Response(200, NoteList(listed));
    }

    /** `getNoteById`: a malformed id is refused, an unknown one is not found. */
    function GetNoteById(id: string): (r: Response)
      reads this
      ensures r.status == 400 <==> !isValidId(id)
      ensures r.status == 404 <==> isValidId(id) && id !in notes
      ensures r.status == 200 <==> isValidId(id) && id in notes
      ensures r.status == 200 ==> r.body == OneNote(notes[id])
    {
      if !isValidId(id) then Response(400, Info("Invalid note ID"))
      else if id !in notes then Response(404, Info("Note not found"))
      else Response(200, OneNote(notes[id]))
    }

    /** `updateNote`: the id is checked first, then the user, then the note's existence. */
    method UpdateNote(id: string, title: Option<string>, content: Option<string>, tags: Option<seq<string>>,
                      userId: Option<string>, now: int) returns (r: Response)
      requires Valid()
      modifies this`notes
      ensures Valid()
      ensures !isValidId(id) ==> r == Response(400, Info("Invalid note ID")) && notes == old(notes)
      ensures isValidId(id) && !Truthy(userId) ==>
        r == Response(400, Info("User ID is required")) && notes == old(notes)
      ensures isValidId(id) && Truthy(userId) && id !in old(notes) ==>
        r == Response(404, Info("Note not found")) && notes == old(notes)
      ensures isValidId(id) && Truthy(userId) && id in old(notes) ==>
        && notes == old(notes)[id := Updated(old(notes)[id], title, content, tags, userId.value, now)]
        && r == Response(200, OneNote(notes[id]))
    {
      if !isValidId(id) {
        return Response(400, Info("Invalid note ID"));
      }
      if !Truthy(userId) {
        return Response(400, Info("User ID is required"));
      }
      if id !in notes {
        return Response(404, Info("Note not found"));
      }
      var note := Updated(notes[id], title, content, tags, userId.value, now);
      notes := notes[id := note];
      r := Response(200, OneNote(note));
    }

    /** `deleteNote`: only the creator may delete; a missing user id is never the creator. */
    method DeleteNote(id: string, userId: Option<string>) returns (r: Response)
      requires Valid()
      modifies this`notes
      ensures Valid()
      ensures !isValidId(id) ==> r == Response(400, Info("Invalid note ID")) && notes == old(notes)
      ensures isValidId(id) && id !in old(notes) ==>
        r == Response(404, Info("Note not found")) && notes == old(notes)
      ensures isValidId(id) && id in old(notes) && userId != Some(old(notes)[id].creator) ==>
        r == Response(403, Info("Only the creator can delete this note")) && notes == old(notes)
      ensures isValidId(id) && id in old(notes) && userId == Some(old(notes)[id].creator) ==>
        r == Response(200, Info("Note deleted successfully")) && notes == old(notes) - {id}
      ensures r.status == 200 ==> GetNoteById(id).status == 404
    {
      if !isValidId(id) {
        return Response(400, Info("Invalid note ID"));
      }
      if id !in notes {
        return Response(404, Info("Note not found"));
      }
      if userId != Some(notes[id].creator) {
        return Response(403, Info("Only the creator can delete this note"));
      }
      notes := notes - {id};
      r := Response(200, Info("Note deleted successfully"));
    }
  }

  /** A session on a fresh store: "u1" creates note "A", "u2" edits its content, "u1" deletes
      it, and the note can no longer be found. */
  method CreateEditDelete(isValidId: string -> bool, matches: (string, string) -> bool, id: string, t0: int, t1: int)
    returns (created: Response, edited: Response, deleted: Response, fetched: Response)
    requires isValidId(id)
    ensures created.status == 201 && created.body.OneNote? && created.body.note.editors == ["u1"]
    ensures edited.status == 200 && edited.body.OneNote?
    ensures edited.body.note.editors == ["u1", "u2"] && edited.body.note.content == "x"
    ensures edited.body.note.creator == "u1" && edited.body.note.title == "A"
    ensures deleted.status == 200
    ensures fetched.status == 404
  {
    var store := new NoteStore(isValidId, matches);
    created := store.CreateNote(Some("A"), None, None, Some("u1"), id, t0);
    edited := store.UpdateNote(id, None, Some("x"), None, Some("u2"), t1);
    assert AddIfAbsent(["u1"], "u2") == ["u1", "u2"];
    deleted := store.DeleteNote(id, Some("u1"));
    fetched := store.GetNoteById(id);
  }
}
