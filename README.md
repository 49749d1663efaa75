# Collaborative notes: a Dafny model of its core logic

The system is a collaborative note-taking application. An Express/Mongo REST server stores
users and notes. A socket.io layer on the same server tracks who is connected and who is
editing which note, and relays live edits and cursor moves. A React client keeps the note list,
the open note and the presence list in state cells.

This project models the parts of that code that carry decisions. Each is one module whose name
follows the source file it models.

- `Presence` models `noteHandler.ts`, the server's presence registry.
  - `Registry` is a class that holds the roster (`activeUsers`), the per-note editor sets
    (`activeNotes`) and an outbox of every event the handlers emit.
  - A JavaScript `Map` of `Set`s iterates in insertion order, and that order decides the order
    of the disconnect notices. The map is therefore a key order plus a map of duplicate-free
    lists (`NoteSets`).
  - The registry invariant `Clean`: no tracked note has an empty editor set after any handler.
- `NoteController` models `noteController.ts`: the five note handlers over a store
  `map<id, Note>`.
  - `NoteStore` is a class.
  - `isValidId` (for `ObjectId.isValid`) and `matches` (for the case-insensitive `$regex`) are
    opaque function-valued constants of the store.
  - Dates are integers, and the current time `now` is passed in.
- `UserController` models `userController.ts`: find-or-create `login` and `getUsers` over a
  store `map<id, User>`.
- `NoteEditor`, `NotesList`, `NotesContext`, `TagsFilter` and `NoteItem` model the client
  files of the same names.
  - State cells become class fields.
  - The pure `map`/`filter`/splice computations become functions.
  - Socket and HTTP calls are recorded in call lists. Their outcomes, such as a created note or
    a failed request, are parameters.
- Support modules model JavaScript built-ins the core relies on:
  - `SeqUtil`: `filter`, `findIndex`, `Set.add` and `Set.delete` on an insertion-ordered set.
  - `JsString`: `trim` with the ECMAScript whitespace set, `substring` with its clamping and
    swapping, and the default string order.
  - `Sorting`: the library sorts, as stable sorts.
  - `ClientTypes`: the client record shapes.

In these places the model follows the code as written:

- `stop_editing` for a note that is not tracked changes no state. It still emits `note_editors`
  with an empty list, because `get(noteId)?.size === 0` is false for an absent entry.
- A disconnect reports the remaining editors under the payload key `remainingEditors`, not
  `editors` (`Presence.RemainingEditors`).
- A disconnect removes only the first roster entry of the connection. A connection that sent
  `user_join` twice keeps its second entry.
- In `getNotes`, a `search` value replaces the creator-or-editor filter instead of combining
  with it, because both assign `query.$or`.
- `note_edit` forwards its whole payload, including any `cursorPosition`.

## Model

| member | source | states |
|---|---|---|
| Presence.KnownExactly | notes-app-backend/src/socketHandlers/noteHandler.ts:55-58 | the members that survive `.filter(Boolean)` are exactly those with a roster entry |
| Presence.EditorsOfKnown | notes-app-backend/src/socketHandlers/noteHandler.ts:55-58 | one editor entry per rostered member, in set order, named after the member's first roster entry |
| Presence.Started | notes-app-backend/src/socketHandlers/noteHandler.ts:49-52 | the map stays well formed (keys in insertion order, each set duplicate-free); a new note's key goes last and a tracked note keeps its place; `Clean` is preserved |
| Presence.StartedEffect | notes-app-backend/src/socketHandlers/noteHandler.ts:49-52 | afterwards the note is tracked, its set holds the user exactly once next to its previous members, and other notes are untouched |
| Presence.Stopped | notes-app-backend/src/socketHandlers/noteHandler.ts:80-84 | the user leaves the note's set; an emptied set is dropped together with its key in the key order, a non-empty one is kept in place; other notes are untouched; `Clean` is preserved |
| Presence.StartStopRestores | notes-app-backend/src/socketHandlers/noteHandler.ts:49-84 | starting and then stopping a session that was not open restores the presence map exactly |
| Presence.StartIdempotent | notes-app-backend/src/socketHandlers/noteHandler.ts:49-52 | a repeated `start_editing` changes nothing further |
| Presence.Dropped | notes-app-backend/src/socketHandlers/noteHandler.ts:108-111 | the user removed from every set, with keys and key order unchanged; the map stays well formed |
| Presence.Cleaned | notes-app-backend/src/socketHandlers/noteHandler.ts:122-126 | exactly the non-empty sets remain, unchanged; the result satisfies `Clean` |
| Presence.NonEmptyKeysInOrder | notes-app-backend/src/socketHandlers/noteHandler.ts:122-126 | the kept keys are the key order filtered to the non-empty sets |
| Presence.CleanedInOrder | notes-app-backend/src/socketHandlers/noteHandler.ts:122-126 | after the clean-up the key order is the old key order filtered to the non-empty sets |
| Presence.Purged | notes-app-backend/src/socketHandlers/noteHandler.ts:107-126 | after a disconnect no set mentions the user; every other user is in exactly the sets it was in; notes the user was not editing are unchanged; `Clean` holds |
| Presence.DisconnectNotices | notes-app-backend/src/socketHandlers/noteHandler.ts:108-120 | never more notices than keys in the map |
| Presence.DisconnectNoticesInOrder | notes-app-backend/src/socketHandlers/noteHandler.ts:108-120 | the notices are, in map order, one per note whose set held the user, each listing that set's remaining editors |
| Presence.DisconnectNoticesOnce | notes-app-backend/src/socketHandlers/noteHandler.ts:108-120 | in a well-formed map the notified notes are distinct |
| Presence.DisconnectNoticesExactly | notes-app-backend/src/socketHandlers/noteHandler.ts:108-120 | a room is notified exactly when its set held the user, with the remaining editors under `remainingEditors` |
| Presence.DropUser | notes-app-backend/src/socketHandlers/noteHandler.ts:108-120 | the first `forEach` loop computes `Dropped` and emits `DisconnectNotices` in map order |
| Presence.DeleteEmpty | notes-app-backend/src/socketHandlers/noteHandler.ts:122-126 | the clean-up loop over a snapshot of the entries computes `Cleaned` |
| Presence.Registry.constructor | notes-app-backend/src/socketHandlers/noteHandler.ts:18-20 | empty roster, empty presence map, nothing emitted |
| Presence.Registry.UserJoin | notes-app-backend/src/socketHandlers/noteHandler.ts:28-38 | exactly one entry appended at the end, with no deduplication, then the whole roster broadcast to all |
| Presence.Registry.StartEditing | notes-app-backend/src/socketHandlers/noteHandler.ts:44-59 | the map becomes `Started`; the room receives the editors of the note's set |
| Presence.Registry.NoteEditEvent | notes-app-backend/src/socketHandlers/noteHandler.ts:63-69 | no state changes; the payload is forwarded verbatim to the room except the sender |
| Presence.Registry.CursorMoveEvent | notes-app-backend/src/socketHandlers/noteHandler.ts:72-74 | no state changes; the payload is forwarded verbatim to the room except the sender |
| Presence.Registry.StopEditing | notes-app-backend/src/socketHandlers/noteHandler.ts:77-93 | the map becomes `Stopped`; nothing is emitted when the set was emptied; otherwise, including for an untracked note, the remaining editors are emitted |
| Presence.Registry.Disconnect | notes-app-backend/src/socketHandlers/noteHandler.ts:97-130 | an unknown connection changes and emits nothing; otherwise only the first matching entry is spliced out, the map becomes `Purged`, the notices are emitted, then the roster is broadcast |
| NoteController.NewNote | notes-app-backend/src/controllers/noteController.ts:13-19 | content defaults to `''` and tags to `[]`; the creator is the user and the only editor |
| NoteController.Updated | notes-app-backend/src/controllers/noteController.ts:114-122 | a falsy title keeps the old one; given content (even `''`) and given tags replace; the user is appended to the editors only if absent; the editors only grow; id, creator and createdAt are kept; updatedAt is now; creator ∈ editors is preserved |
| NoteController.UpdateEditorsIdempotent | notes-app-backend/src/controllers/noteController.ts:114-117 | a repeated update by the same user leaves the editors unchanged |
| NoteController.BuildQuery | notes-app-backend/src/controllers/noteController.ts:31-51 | the query selects a note exactly when it has the tag (if given) and, when a search is given, the title or content matches it, regardless of the user id; otherwise the user (if given) is creator or editor |
| NoteController.ChooseSort | notes-app-backend/src/controllers/noteController.ts:52-63 | `newest` gives createdAt descending, `oldest` gives createdAt ascending, and any other value gives updatedAt descending |
| NoteController.SortKeyOrder | notes-app-backend/src/controllers/noteController.ts:55-66 | a list sorted by the chosen sort document is in the order requested |
| NoteController.Collect | notes-app-backend/src/controllers/noteController.ts:65 | every stored note the query selects, each once, and nothing else |
| NoteController.NoteStore.CreateNote | notes-app-backend/src/controllers/noteController.ts:5-25 | a falsy title or user id gives 400 and stores nothing; otherwise the new note is stored and returned with 201 |
| NoteController.NoteStore.GetNotes | notes-app-backend/src/controllers/noteController.ts:27-74 | 200 with every stored note the query parameters select, each once, in the requested order |
| NoteController.NoteStore.GetNoteById | notes-app-backend/src/controllers/noteController.ts:75-95 | 400 exactly for a malformed id, 404 exactly for an unknown one, otherwise 200 with the note |
| NoteController.NoteStore.UpdateNote | notes-app-backend/src/controllers/noteController.ts:96-134 | checks in order: malformed id gives 400, missing user gives 400, unknown note gives 404; otherwise the note becomes `Updated` and is returned with 200 |
| NoteController.NoteStore.DeleteNote | notes-app-backend/src/controllers/noteController.ts:135-160 | a malformed id gives 400 and an unknown note 404; anyone but the creator, including a missing user, gets 403 with the store unchanged; otherwise the note is removed and a later lookup gives 404 |
| NoteController.CreateEditDelete | notes-app-backend/src/controllers/noteController.ts:13-156 | the session create-as-u1, edit-as-u2, delete-as-u1 yields editors `[u1]` then `[u1, u2]`, then 200, then 404 |
| UserController.UserStore.Login | notes-app-backend/src/controllers/userController.ts:5-29 | a falsy name gives 400 and no user; a known name returns that user's id and username with the store unchanged; an unknown name stores exactly one new user; the returned id is the only user with that name |
| UserController.UserStore.GetUsers | notes-app-backend/src/controllers/userController.ts:31-38 | 200 with every stored user, each once |
| UserController.LoginTwice | notes-app-backend/src/controllers/userController.ts:14-18 | logging in twice with one name gives the same answer and adds at most that one user |
| NoteEditor.TagsAfterAdd | notes-app-vite/src/components/Notes/NoteEditor.tsx:31-36 | the trimmed input is appended exactly when it is non-empty and not already a tag; a duplicate-free list stays duplicate-free |
| NoteEditor.TagsAfterRemove | notes-app-vite/src/components/Notes/NoteEditor.tsx:38-40 | every occurrence of the tag removed, every other tag kept with its count |
| NoteEditor.AddThenRemove | notes-app-vite/src/components/Notes/NoteEditor.tsx:31-40 | adding a new tag and then removing it restores the list |
| NoteEditor.Wrapped | notes-app-vite/src/components/Notes/NoteEditor.tsx:59-67 | for a selection inside the content: length grows by the two markers, prefix and suffix kept, and the selected text sits between `before` and `after` |
| NoteEditor.NewSelection | notes-app-vite/src/components/Notes/NoteEditor.tsx:72-75 | the restored selection is the old one shifted by the length of `before` |
| NoteEditor.SelectionCoversSelectedText | notes-app-vite/src/components/Notes/NoteEditor.tsx:59-75 | the restored selection covers exactly the previously selected text |
| NoteEditor.EditorPane.constructor | notes-app-vite/src/components/Notes/NoteEditor.tsx:7-10 | all cells start empty |
| NoteEditor.EditorPane.Load | notes-app-vite/src/components/Notes/NoteEditor.tsx:14-26 | the cells take the open note's title, content and tags, after which no autosave is due |
| NoteEditor.AddTagAfterLoad | notes-app-vite/src/components/Notes/NoteEditor.tsx:14-36 | after a note is loaded, adding a tag makes an autosave due exactly when the trimmed input is a new, non-empty tag |
| NoteEditor.RemoveTagAfterLoad | notes-app-vite/src/components/Notes/NoteEditor.tsx:14-40 | after a note is loaded, removing a tag makes an autosave due exactly when the note had that tag |
| NoteEditor.EditorPane.AddTag | notes-app-vite/src/components/Notes/NoteEditor.tsx:31-36 | the tags become `TagsAfterAdd`; the input is cleared exactly when a tag was added; no duplicates appear |
| NoteEditor.EditorPane.RemoveTag | notes-app-vite/src/components/Notes/NoteEditor.tsx:38-40 | the tags become `TagsAfterRemove` |
| NoteEditor.EditorPane.InsertMarkdown | notes-app-vite/src/components/Notes/NoteEditor.tsx:55-77 | without a textarea nothing changes; otherwise the content becomes `Wrapped` and the restored selection is `NewSelection` |
| NotesList.TagFilter | notes-app-vite/src/components/Notes/NotesList.tsx:39-43 | a null or empty selection keeps all notes; otherwise exactly the notes carrying the tag |
| NotesList.TagFilterConcat | notes-app-vite/src/components/Notes/NotesList.tsx:39-43 | the filter keeps the notes' relative order |
| NotesList.CompareIsKeyDifference | notes-app-vite/src/components/Notes/NotesList.tsx:45-55 | the comparator is a difference of keys: createdAt descending for `newest`, createdAt ascending for `oldest`, updatedAt descending otherwise |
| NotesList.OldestReversesNewest | notes-app-vite/src/components/Notes/NotesList.tsx:47-50 | on every pair, `oldest` is the exact negation of `newest` |
| NotesList.Displayed | notes-app-vite/src/components/Notes/NotesList.tsx:37-55 | the displayed list is a permutation of the filtered list, is ordered by the comparator, and keeps notes the comparator ties in their list order |
| NotesList.ListPane.HandleCreateNote | notes-app-vite/src/components/Notes/NotesList.tsx:13-22 | a blank title requests nothing; otherwise one creation is requested and the box is cleared only on success |
| NotesContext.MergeNote | notes-app-vite/src/context/NotesContext.tsx:106 | the given fields replace the note's and all other fields stay |
| NotesContext.Merged | notes-app-vite/src/context/NotesContext.tsx:105-107 | the notes with that id are merged; all the others are unchanged; length and order are kept |
| NotesContext.MergedIdempotent | notes-app-vite/src/context/NotesContext.tsx:105-107 | applying an update twice equals applying it once |
| NotesContext.RemoteEditTouchesOnlyContent | notes-app-vite/src/context/NotesContext.tsx:51-55 | a remote edit changes only the content of the notes with that id |
| NotesContext.Without | notes-app-vite/src/context/NotesContext.tsx:123 | exactly the notes with another id remain |
| NotesContext.CreateThenDelete | notes-app-vite/src/context/NotesContext.tsx:88-123 | prepending a note with a fresh id and then deleting it restores the list |
| NotesContext.Provider.constructor | notes-app-vite/src/context/NotesContext.tsx:33-35 | empty list, no open note, no presence |
| NotesContext.Provider.OnActiveNotes | notes-app-vite/src/context/NotesContext.tsx:40-42 | the presence list is replaced |
| NotesContext.Provider.OnNoteUpdate | notes-app-vite/src/context/NotesContext.tsx:44-60 | ignored without a stored user or for the local user's own edit; otherwise only the content of matching notes changes, and the open note changes only when its id matches |
| NotesContext.Provider.SelectNote | notes-app-vite/src/context/NotesContext.tsx:77-83 | the previous note's room is left before the new one is joined; the new note is open |
| NotesContext.Provider.CreateNote | notes-app-vite/src/context/NotesContext.tsx:85-94 | the creation is requested with the title as given; on success the note is prepended and selected; on failure nothing else changes and the error is reported |
| NotesContext.Provider.UpdateNote | notes-app-vite/src/context/NotesContext.tsx:104-118 | the list and the open note are merged; content is broadcast only when given; the persist call is always made |
| NotesContext.Provider.DeleteNote | notes-app-vite/src/context/NotesContext.tsx:120-131 | the deletion is requested; on success every note with the id is removed and the open note is cleared if it was that note; on failure nothing else changes |
| NotesContext.Provider.RefreshNotes | notes-app-vite/src/context/NotesContext.tsx:68-75 | the full list is fetched and replaces the list when the request succeeds |
| NotesContext.Provider.SearchNotes | notes-app-vite/src/context/NotesContext.tsx:133-144 | a blank query fetches the full list instead of searching |
| TagsFilter.AllTagsListed | notes-app-vite/src/components/Notes/TagsFilter.tsx:14 | the flattened tags hold exactly the tags of all notes |
| TagsFilter.Dedup | notes-app-vite/src/components/Notes/TagsFilter.tsx:13-14 | same elements, each once |
| TagsFilter.AllTags | notes-app-vite/src/components/Notes/TagsFilter.tsx:13-15 | every tag of every note appears, every entry is some note's tag, no duplicates, strictly ascending |
| TagsFilter.OneHighlighted | notes-app-vite/src/components/Notes/TagsFilter.tsx:23-45 | when 'All' is highlighted no tag is, and at most one tag button is highlighted |
| NoteItem.TruncateContent | notes-app/src/components/Notes/NoteItem.tsx:17-20 | short content is unchanged; longer content becomes its first `maxLength` characters plus `...`, exactly `maxLength + 3` long; always a prefix of at most `maxLength + 3` |
| NoteItem.TruncateIdempotent | notes-app/src/components/Notes/NoteItem.tsx:17-20 | truncating twice equals truncating once |
| NoteItem.Preview | notes-app/src/components/Notes/NoteItem.tsx:45 | empty content shows 'Empty note'; other content is truncated to 80 |
| NoteItem.LabelIsJoin | notes-app/src/components/Notes/NoteItem.tsx:65-70 | the rendered label is the usernames joined with `', '`, with a separator between consecutive names and none after the last |
| NoteItem.EditingBanner | notes-app/src/components/Notes/NoteItem.tsx:61-72 | shown exactly when someone is editing, as the joined names followed by ` editing` |
| SeqUtil.FindIndex | notes-app-backend/src/socketHandlers/noteHandler.ts:98 | −1 exactly when nothing matches, otherwise the first match |
| SeqUtil.Filter | notes-app-vite/src/components/Notes/NotesList.tsx:40-42 | exactly the elements satisfying the test, never more than the input |
| SeqUtil.FilterConcat | notes-app-vite/src/components/Notes/NotesList.tsx:40-42 | filtering commutes with concatenation |
| SeqUtil.Remove | notes-app-vite/src/components/Notes/NoteEditor.tsx:39 | the element no longer occurs, and a sequence without it is returned unchanged |
| SeqUtil.RemoveSpec | notes-app-vite/src/components/Notes/NoteEditor.tsx:39 | exactly the other elements remain, each with its count, so no duplicates appear |
| SeqUtil.RemoveConcat | notes-app-backend/src/socketHandlers/noteHandler.ts:80 | removal commutes with concatenation, so the others keep their order |
| SeqUtil.AddIfAbsent | notes-app-backend/src/socketHandlers/noteHandler.ts:52 | an insertion-ordered set add: the old list is a prefix and the element occurs once |
| SeqUtil.AddIfAbsentIdempotent | notes-app-backend/src/socketHandlers/noteHandler.ts:52 | adding twice equals adding once |
| JsString.TrimEnds | notes-app-vite/src/components/Notes/NoteEditor.tsx:32 | the result neither starts nor ends with whitespace |
| JsString.TrimEmptyWhenBlank | notes-app-vite/src/components/Notes/NoteEditor.tsx:32 | the result is empty exactly for input made only of whitespace |
| JsString.TrimSlice | notes-app-vite/src/components/Notes/NoteEditor.tsx:32 | the result is the contiguous slice of the input that starts after its leading whitespace |
| JsString.TrimIdempotent | notes-app-vite/src/components/Notes/NoteEditor.tsx:32 | trimming twice equals trimming once |
| JsString.Substring | notes-app-vite/src/components/Notes/NoteEditor.tsx:61-67 | in range it is the slice; reversed bounds are swapped |
| JsString.LessTransitive | notes-app-vite/src/components/Notes/TagsFilter.tsx:15 | the default string order is transitive |
| JsString.LessTotal | notes-app-vite/src/components/Notes/TagsFilter.tsx:15 | the default string order relates any two distinct strings |
| Sorting.SortByKey | notes-app-vite/src/components/Notes/NotesList.tsx:45-55 | the result is a permutation of the input, sorted by the key |
| Sorting.SortByKeyStable | notes-app-vite/src/components/Notes/NotesList.tsx:45-55 | the sort is stable: for each key, the elements with that key keep their input order |
| Sorting.SortStrings | notes-app-vite/src/components/Notes/TagsFilter.tsx:15 | a permutation of duplicate-free input, strictly ascending |

## Left out

- Room membership (`socket.join` / `socket.leave`) is kept by socket.io. A message records its
  target room, not who is in it. Logging is not modelled.
- Express, socket.io, routing, CORS and database connection set-up: the handlers are called
  directly.
- Persistence failures: the `catch` branches that answer 500 are modelled only for an id clash on
  insert. The store assigns fresh ids, so a clash stands in for a failed insert.
- `populate('creator' / 'editors', 'username')`: responses carry user ids, not user documents.
  Casting user ids to ObjectIds is not modelled either; ids are opaque strings.
- `ObjectId.isValid` and the `$regex` engine (with its `i` option) are opaque predicates.
- NoteController.NoteStore.GetNotes: the order among notes with equal sort keys is not fixed,
  because Mongo does not define it.
- Request values of the wrong type (a number as a title, non-string tags) are not modelled.
  Fields are present strings and lists, or absent.
- The `User` model file is not part of this model. Users are an id and a name. Name uniqueness
  is kept as an invariant of `login` rather than taken from a schema index.
- Strings are sequences of characters, with no UTF-16 encoding:
  - `length`, `substring` positions and the default `sort` order agree with JavaScript only
    for text in the Basic Multilingual Plane;
  - `JsString.Less` compares characters.
- Timers: the 300 ms autosave delay, the 500 ms debounce of the persist call and the
  `setTimeout` around the selection restore.
  - Only the decision is modelled: when a save is due, when a persist or broadcast call is made,
    and what selection is restored.
  - The coalescing of debounced calls and races between saves (last write wins) are not
    modelled.
- The textarea is taken to show the current content. Its selection is a parameter.
- NotesContext.Provider.OnNoteUpdate:
  - The React effect's captured `currentNote` and the functional `setCurrentNote` update are
    treated as one atomic step on the current state.
  - The user in local storage is given as an optional id, so JSON parsing is left out.
- `{ ...note, ...updates }` is modelled for the title, content and tags fields the editor sends.
  A key present with the value `undefined` is not modelled.
- UI-only code is not modelled:
  - JSX and class names;
  - the Enter-key handler;
  - the delete confirmation dialog;
  - export through Blob and URL;
  - the markdown preview;
  - date formatting;
  - the current-editors lookup in the editor header.
- The client transport (`api.ts`, `socket.ts`, `AuthContext.tsx`) is not part of this model.
  Its event names differ from the server's, so no end-to-end protocol is modelled.
