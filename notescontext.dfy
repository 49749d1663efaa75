/** The client's note state (`notes`, `currentNote`, `activeNotes`) and the handlers that update
    it, with the socket and HTTP calls they make recorded in order. */
module NotesContext {
  import opened Wrappers
  import opened SeqUtil
  import opened JsString
  import opened ClientTypes

  /** The fields of a `Partial<Note>` update the client sends; an absent field is `None`. */
  datatype Patch = Patch(title: Option<string>, content: Option<string>, tags: Option<seq<string>>)

  /** A call on the socket service. */
  datatype SocketCall = JoinNote(noteId: string) | LeaveNote(noteId: string) | SendContent(noteId: string, content: string)

  /** A call on the notes API. */
  datatype ApiCall =
    | FetchAll
    | Search(query: string)
    | Create(title: string)
    | Persist(noteId: string, patch: Patch)
    | Delete(noteId: string)

  /** `{ ...note, ...updates }`: the given fields replace the note's, the others stay. */
  function MergeNote(n: Note, p: Patch): (r: Note)
    ensures r.id == n.id && r.createdBy == n.createdBy && r.createdAt == n.createdAt && r.updatedAt == n.updatedAt
    ensures r.title == (if p.title.Some? then p.title.value else n.title)
    ensures r.content == (if p.content.Some? then p.content.value else n.content)
    ensures r.tags == (if p.tags.Some? then p.tags.value else n.tags)
  {
    n.(title := p.title.GetOr(n.title), content := p.content.GetOr(n.content), tags := p.tags.GetOr(n.tags))
  }

  /** `prev.map(note => note._id === id ? merge(note) : note)`: every note with that id is
      merged, every other note is left as it was, and the order is kept. */
  function Merged(notes: seq<Note>, id: string, p: Patch): (r: seq<Note>)
    ensures |r| == |notes|
    ensures forall i :: 0 <= i < |notes| && notes[i].id != id ==> r[i] == notes[i]
    ensures forall i :: 0 <= i < |notes| && notes[i].id == id ==> r[i] == MergeNote(notes[i], p)
  {
    if notes == [] then []
    else [if notes[0].id == id then MergeNote(notes[0], p) else notes[0]] + Merged(notes[1..], id, p)
  }

  /** Applying the same update twice is the same as applying it once. */
  lemma {:induction false} MergedIdempotent(notes: seq<Note>, id: string, p: Patch)
    ensures Merged(Merged(notes, id, p), id, p) == Merged(notes, id, p)
  {
    var once := Merged(notes, id, p);
    var twice := Merged(once, id, p);
    forall i | 0 <= i < |notes| ensures twice[i] == once[i] {
      if notes[i].id == id {
        assert MergeNote(MergeNote(notes[i], p), p) == MergeNote(notes[i], p);
      }
    }
  }

  /** The update a remote edit makes: only the content changes. */
  function ContentPatch(content: string): (p: Patch)
    ensures p.content == Some(content) && p.title.None? && p.tags.None?
  {
    Patch(None, Some(content), None)
  }

  /** A remote edit changes only the content of the notes with that id. */
  lemma RemoteEditTouchesOnlyContent(notes: seq<Note>, id: string, content: string)
    ensures var r := Merged(notes, id, ContentPatch(content));
      && |r| == |notes|
      && (forall i :: 0 <= i < |notes| ==> r[i].(content := notes[i].content) == notes[i])
      && (forall i :: 0 <= i < |notes| && notes[i].id == id ==> r[i].content == content)
  {
    var r := Merged(notes, id, ContentPatch(content));
    forall i | 0 <= i < |notes| ensures r[i].(content := notes[i].content) == notes[i] {
      if notes[i].id == id {
        assert r[i] == MergeNote(notes[i], ContentPatch(content));
      }
    }
  }

  /** `prev.filter(note => note._id !== id)`. */
  function Without(notes: seq<Note>, id: string): (r: seq<Note>)
    ensures forall n :: n in r <==> n in notes && n.id != id
    ensures |r| <= |notes|
  {
    Filter(notes, (n: Note) => n.id != id)
  }

  /** Creating a note with a fresh id and then deleting it leaves the list as it was. */
  lemma CreateThenDelete(notes: seq<Note>, note: Note)
    requires forall i :: 0 <= i < |notes| ==> notes[i].id != note.id
    ensures Without([note] + notes, note.id) == notes
  {
    FilterConcat([note], notes, (n: Note) => n.id != note.id);
    assert Filter([note], (n: Note) => n.id != note.id) == [] by {
      assert [note][1..] == [];
    }
  }

  class Provider {
    var notes: seq<Note>
    var currentNote: Option<Note>
    var activeNotes: seq<ActiveNote>
    var socketCalls: seq<SocketCall>
    var apiCalls: seq<ApiCall>

    constructor ()
      ensures notes == [] && currentNote == None && activeNotes == []
      ensures socketCalls == [] && apiCalls == []
    {
      notes, currentNote, activeNotes := [], None, [];
      socketCalls, apiCalls := [], [];
    }

    /** `onActiveNotes`: the presence list is replaced. */
    method OnActiveNotes(list: seq<ActiveNote>)
      modifies this`activeNotes
      ensures activeNotes == list
    {
      activeNotes := list;
    }

    /** `onNoteUpdate`; `storedUser` is the id of the user saved in local storage. An update
        is ignored without a stored user or when it is the local user's own. */
    method OnNoteUpdate(noteId: string, content: string, userId: string, storedUser: Option<string>)
      modifies this`notes, this`currentNote
      ensures storedUser.None? || storedUser == Some(userId) ==>
        notes == old(notes) && currentNote == old(currentNote)
      ensures storedUser.Some? && storedUser != Some(userId) ==>
        && notes == Merged(old(notes), noteId, ContentPatch(content))
        && currentNote == if old(currentNote).Some? && old(currentNote).value.id == noteId
                          then Some(old(currentNote).value.(content := content))
                          else old(currentNote)
    {
      if storedUser.None? || storedUser.value == userId {
        return;
      }
      notes := Merged(notes, noteId, ContentPatch(content));
      if currentNote.Some? && currentNote.value.id == noteId {
        currentNote := Some(currentNote.value.(content := content));
      }
    }

    /** `selectNote`: leave the open note's room, open the new note and join its room. */
    method SelectNote(note: Note)
      modifies this`currentNote, this`socketCalls
      ensures currentNote == Some(note)
      ensures old(currentNote).None? ==> socketCalls == old(socketCalls) + [JoinNote(note.id)]
      ensures old(currentNote).Some? ==>
        socketCalls == old(socketCalls) + [LeaveNote(old(currentNote).value.id), JoinNote(note.id)]
    {
      if currentNote.Some? {
        socketCalls := socketCalls + [LeaveNote(currentNote.value.id)];
      }
      currentNote := Some(note);
      socketCalls := socketCalls + [JoinNote(note.id)];
    }

    /** `createNote`: the creation is requested with the title as given; `created` is the
        note the server returned, absent when the request failed (the error is passed on and
        nothing else changes). */
    method CreateNote(title: string, created: Option<Note>) returns (ok: bool)
      modifies this`notes, this`currentNote, this`socketCalls, this`apiCalls
      ensures apiCalls == old(apiCalls) + [Create(title)]
      ensures ok == created.Some?
      ensures !ok ==> notes == old(notes) && currentNote == old(currentNote) && socketCalls == old(socketCalls)
      ensures ok ==> notes == [created.value] + old(notes) && currentNote == created
      ensures ok && old(currentNote).None? ==> socketCalls == old(socketCalls) + [JoinNote(created.value.id)]
      ensures ok && old(currentNote).Some? ==>
        socketCalls == old(socketCalls) + [LeaveNote(old(currentNote).value.id), JoinNote(created.value.id)]
    {
      apiCalls := apiCalls + [Create(title)];
      if created.None? {
        return false;
      }
      notes := [created.value] + notes;
      SelectNote(created.value);
      ok := true;
    }

    /** `updateNote`: merge into the list and the open note, broadcast new content, and always
        hand the update to the (debounced) persist call. */
    method UpdateNote(id: string, p: Patch)
      modifies this`notes, this`currentNote, this`socketCalls, this`apiCalls
      ensures notes == Merged(old(notes), id, p)
      ensures currentNote == if old(currentNote).Some? && old(currentNote).value.id == id
                             then Some(MergeNote(old(currentNote).value, p))
                             else old(currentNote)
      ensures socketCalls == old(socketCalls) + (if p.content.Some? then [SendContent(id, p.content.value)] else [])
      ensures apiCalls == old(apiCalls) + [Persist(id, p)]
    {
      notes := Merged(notes, id, p);
      if currentNote.Some? && currentNote.value.id == id {
        currentNote := Some(MergeNote(currentNote.value, p));
      }
      if p.content.Some? {
        socketCalls := socketCalls + [SendContent(id, p.content.value)];
      }
      apiCalls := apiCalls + [Persist(id, p)];
    }

    /** `deleteNote`: the deletion is requested first; `succeeded` is its outcome. On
        failure nothing else changes and the error is passed on. */
    method DeleteNote(id: string, succeeded: bool) returns (ok: bool)
      modifies this`notes, this`currentNote, this`apiCalls
      ensures apiCalls == old(apiCalls) + [Delete(id)]
      ensures ok == succeeded
      ensures !ok ==> notes == old(notes) && currentNote == old(currentNote)
      ensures ok ==> notes == Without(old(notes), id)
      ensures ok ==> currentNote == if old(currentNote).Some? && old(currentNote).value.id == id
                                    then None else old(currentNote)
    {
      apiCalls := apiCalls + [Delete(id)];
      if !succeeded {
        return false;
      }
      notes := Without(notes, id);
      if currentNote.Some? && currentNote.value.id == id {
        currentNote := None;
      }
      ok := true;
    }

    /** `refreshNotes`; `fetched` is the server's list, absent when the request failed. */
    method RefreshNotes(fetched: Option<seq<Note>>)
      modifies this`notes, this`apiCalls
      ensures apiCalls == old(apiCalls) + [FetchAll]
      ensures notes == if fetched.Some? then fetched.value else old(notes)
    {
      apiCalls := apiCalls + [FetchAll];
      if fetched.Some? {
        notes := fetched.value;
      }
    }

    /** `searchNotes`; `fetched` is the server's answer to whichever request is made. A blank
        query fetches the full list instead of searching. */
    method SearchNotes(query: string, fetched: Option<seq<Note>>)
      modifies this`notes, this`apiCalls
      ensures Trim(query) == "" ==> apiCalls == old(apiCalls) + [FetchAll]
      ensures Trim(query) != "" ==> apiCalls == old(apiCalls) + [Search(query)]
      ensures notes == if fetched.Some? then fetched.value else old(notes)
    {
      if Trim(query) == "" {
        RefreshNotes(fetched);
        return;
      }
      apiCalls := apiCalls + [Search(query)];
      if fetched.Some? {
        notes := fetched.value;
      }
    }
  }
}
