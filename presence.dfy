/** The server's presence registry (notes-app-backend/src/socketHandlers/noteHandler.ts):
    a roster of joined connections and, per note, the insertion-ordered set of users editing it.
    Every socket handler is one atomic step of the `Registry` class; what the handler emits is
    appended to an outbox. Room membership is kept by the transport and is not modelled. */
module Presence {
  import opened Wrappers
  import opened SeqUtil

  /** An element of `activeUsers`. */
  datatype RosterEntry = RosterEntry(userId: string, username: string, socketId: string)

  /** `{ userId, username }` as it appears in an editors list. */
  datatype EditorInfo = EditorInfo(userId: string, username: string)

  datatype NoteEdit = NoteEdit(noteId: string, userId: string, content: string, cursorPosition: Option<int>)
  datatype CursorMove = CursorMove(noteId: string, userId: string, position: int)

  /** Who receives an emitted event: `io.emit`, `io.to(room)`, or `socket.to(room)`, which
      leaves out the sending connection. */
  datatype Target = All | Room(noteId: string) | RoomExceptSender(noteId: string, senderSocket: string)

  /** The payloads the handlers build. A disconnect reports the editors under the key
      `remainingEditors`, the other handlers under `editors`. */
  datatype Payload =
    | ActiveUsers(users: seq<RosterEntry>)
    | NoteEditors(noteId: string, editors: seq<EditorInfo>)
    | RemainingEditors(noteId: string, remainingEditors: seq<EditorInfo>)
    | NoteUpdated(edit: NoteEdit)
    | CursorMoved(move: CursorMove)

  datatype Message = Message(target: Target, event: string, payload: Payload)

  /** `activeNotes`, a JavaScript `Map` from note id to a `Set` of user ids. Both iterate in
      insertion order, so the map is a key order plus the sets, each set a duplicate-free list. */
  datatype NoteSets = NoteSets(order: seq<string>, sets: map<string, seq<string>>)

  ghost predicate WellFormed(a: NoteSets) {
    && NoDup(a.order)
    && (forall n :: n in a.sets <==> n in a.order)
    && (forall n :: n in a.sets ==> NoDup(a.sets[n]))
  }

  /** The registry invariant: no tracked note has an empty editor set. */
  ghost predicate Clean(a: NoteSets) {
    WellFormed(a) && forall n :: n in a.sets ==> a.sets[n] != []
  }

  /** `activeNotes.get(n) || []`, as an array. */
  function Members(a: NoteSets, n: string): (r: seq<string>) {
    if n in a.sets then a.sets[n] else []
  }

  /** Index of the first roster entry of user `u` (`activeUsers.find(user => user.userId === u)`). */
  function UserIndex(roster: seq<RosterEntry>, u: string): (r: int)
    ensures -1 <= r < |roster|
    ensures r != -1 ==> roster[r].userId == u && forall j :: 0 <= j < r ==> roster[j].userId != u
    ensures r == -1 <==> forall j :: 0 <= j < |roster| ==> roster[j].userId != u
  {
    FindIndex(roster, (e: RosterEntry) => e.userId == u)
  }

  /** Index of the first roster entry of connection `sid` (`activeUsers.findIndex(...)`). */
  function SocketIndex(roster: seq<RosterEntry>, sid: string): (r: int)
    ensures -1 <= r < |roster|
    ensures r != -1 ==> roster[r].socketId == sid && forall j :: 0 <= j < r ==> roster[j].socketId != sid
    ensures r == -1 <==> forall j :: 0 <= j < |roster| ==> roster[j].socketId != sid
  {
    FindIndex(roster, (e: RosterEntry) => e.socketId == sid)
  }

  /** The members, in order, that have a roster entry. */
  function Known(members: seq<string>, roster: seq<RosterEntry>): (r: seq<string>) {
    if members == [] then []
    else if UserIndex(roster, members[0]) != -1 then [members[0]] + Known(members[1..], roster)
    else Known(members[1..], roster)
  }

  /** The editors list the handlers emit: each member mapped to its first roster entry, members
      without one dropped (`.map(...).filter(Boolean)`). */
  function EditorsOf(members: seq<string>, roster: seq<RosterEntry>): (r: seq<EditorInfo>) {
    if members == [] then []
    else
      var i := UserIndex(roster, members[0]);
      var rest := EditorsOf(members[1..], roster);
      if i != -1 then [EditorInfo(roster[i].userId, roster[i].username)] + rest else rest
  }

  /** The members kept are exactly those with a roster entry. */
  lemma {:induction false} KnownExactly(members: seq<string>, roster: seq<RosterEntry>)
    ensures |Known(members, roster)| <= |members|
    ensures forall u :: u in Known(members, roster) <==> u in members && UserIndex(roster, u) != -1
    decreases |members|
  {
    if members != [] {
      KnownExactly(members[1..], roster);
      assert members == [members[0]] + members[1..];
    }
  }

  /** The editors list has one entry per kept member, in order, carrying the member's id and
      the username of its first roster entry. */
  lemma EditorsOfKnown(members: seq<string>, roster: seq<RosterEntry>)
    ensures |EditorsOf(members, roster)| == |Known(members, roster)|
    ensures forall k :: 0 <= k < |EditorsOf(members, roster)| ==>
      var u := Known(members, roster)[k];
      0 <= UserIndex(roster, u) < |roster|
      && EditorsOf(members, roster)[k] == EditorInfo(u, roster[UserIndex(roster, u)].username)
  {
    EditorsOfLength(members, roster);
    forall k | 0 <= k < |EditorsOf(members, roster)|
      ensures 0 <= UserIndex(roster, Known(members, roster)[k]) < |roster|
      ensures EditorsOf(members, roster)[k]
              == EditorInfo(Known(members, roster)[k], roster[UserIndex(roster, Known(members, roster)[k])].username)
    {
      EditorsOfAt(members, roster, k);
    }
  }

  lemma {:induction false} EditorsOfLength(members: seq<string>, roster: seq<RosterEntry>)
    ensures |EditorsOf(members, roster)| == |Known(members, roster)|
    decreases |members|
  {
    if members != [] {
      EditorsOfLength(members[1..], roster);
    }
  }

  lemma {:induction false} EditorsOfAt(members: seq<string>, roster: seq<RosterEntry>, k: nat)
    requires k < |EditorsOf(members, roster)|
    ensures k < |Known(members, roster)|
    ensures 0 <= UserIndex(roster, Known(members, roster)[k]) < |roster|
    ensures EditorsOf(members, roster)[k]
            == EditorInfo(Known(members, roster)[k], roster[UserIndex(roster, Known(members, roster)[k])].username)
    decreases |members|
  {
    EditorsOfLength(members, roster);
    var rest := members[1..];
    EditorsOfLength(rest, roster);
    var i := UserIndex(roster, members[0]);
    if i == -1 {
      assert Known(members, roster) == Known(rest, roster);
      assert EditorsOf(members, roster) == EditorsOf(rest, roster);
      EditorsOfAt(rest, roster, k);
    } else {
      assert Known(members, roster) == [members[0]] + Known(rest, roster);
      assert EditorsOf(members, roster) == [EditorInfo(members[0], roster[i].username)] + EditorsOf(rest, roster);
      if k > 0 {
        EditorsOfAt(rest, roster, k - 1);
      }
    }
  }

  /** `activeNotes` after `start_editing(n, u)`. */
  function Started(a: NoteSets, n: string, u: string): (r: NoteSets)
    requires WellFormed(a)
    ensures Clean(a) ==> Clean(r)
    ensures WellFormed(r)
    ensures r.order == if n in a.sets then a.order else a.order + [n]
  {
    var order := if n in a.sets then a.order else a.order + [n];
    NoDupAppend(a.order, n);
    var members := AddIfAbsent(Members(a, n), u);
    assert NoDup(members) && members != [];
    var sets := a.sets[n := members];
    assert forall m :: m in sets <==> m in order;
    NoteSets(order, sets)
  }

  /** `start_editing` tracks the note, puts the user in its set exactly once next to the
      editors already there, and leaves every other note as it was. */
  lemma StartedEffect(a: NoteSets, n: string, u: string)
    requires WellFormed(a)
    ensures var r := Started(a, n, u);
      && n in r.sets && multiset(r.sets[n])[u] == 1
      && (forall v :: v in r.sets[n] <==> v == u || v in Members(a, n))
      && (forall m :: m != n ==> (m in r.sets <==> m in a.sets))
      && (forall m :: m != n && m in a.sets ==> r.sets[m] == a.sets[m])
  {
  }

  /** `activeNotes` after `stop_editing(n, u)`: `u` leaves `n`'s set; an emptied set is dropped. */
  function Stopped(a: NoteSets, n: string, u: string): (r: NoteSets)
    requires WellFormed(a)
    ensures Clean(a) ==> Clean(r)
    ensures WellFormed(r)
    ensures n in r.sets ==> n in a.sets && r.sets[n] == Remove(a.sets[n], u) && r.sets[n] != []
    ensures n !in r.sets ==> n !in a.sets || Remove(a.sets[n], u) == []
    ensures r.order == if n in a.sets && Remove(a.sets[n], u) == [] then Remove(a.order, n) else a.order
    ensures forall m :: m != n ==> (m in r.sets <==> m in a.sets)
    ensures forall m :: m != n && m in a.sets ==> r.sets[m] == a.sets[m]
  {
    if n !in a.sets then a
    else
      var s := Remove(a.sets[n], u);
      RemoveSpec(a.sets[n], u);
      RemoveSpec(a.order, n);
      if s == [] then
        NoteSets(Remove(a.order, n), a.sets - {n})
      else
        NoteSets(a.order, a.sets[n := s])
  }

  /** The note ids of `order` whose set is non-empty, in order. */
  function NonEmptyKeys(order: seq<string>, sets: map<string, seq<string>>): (r: seq<string>)
    ensures forall n :: n in r <==> n in order && n in sets && sets[n] != []
    ensures NoDup(order) ==> NoDup(r)
  {
    if order == [] then []
    else
      var rest := NonEmptyKeys(order[..|order| - 1], sets);
      var n := order[|order| - 1];
      assert order == order[..|order| - 1] + [n];
      assert NoDup(order) ==> n !in order[..|order| - 1];
      if n in sets && sets[n] != [] then rest + [n] else rest
  }

  /** The note ids with a non-empty set in `sets`, as a filter. */
  function NonEmptyIn(sets: map<string, seq<string>>): (p: string -> bool) {
    (n: string) => n in sets && sets[n] != []
  }

  /** `NonEmptyKeys` is `order` filtered to the notes with a non-empty set, so the kept keys
      keep their insertion order. */
  lemma {:induction false} NonEmptyKeysInOrder(order: seq<string>, sets: map<string, seq<string>>)
    ensures NonEmptyKeys(order, sets) == Filter(order, NonEmptyIn(sets))
    decreases |order|
  {
    if order != [] {
      var p := NonEmptyIn(sets);
      var init, n := order[..|order| - 1], order[|order| - 1];
      NonEmptyKeysInOrder(init, sets);
      assert order == init + [n];
      FilterSnoc(init, n, p);
      assert p(n) == (n in sets && sets[n] != []);
      var rest := NonEmptyKeys(init, sets);
      assert NonEmptyKeys(order, sets) == if p(n) then rest + [n] else rest;
    }
  }

  /** `u` taken out of every set (the first `forEach` of `disconnect`). */
  function Dropped(a: NoteSets, u: string): (r: NoteSets)
    requires WellFormed(a)
    ensures r.order == a.order && r.sets.Keys == a.sets.Keys
    ensures forall n :: n in a.sets ==> r.sets[n] == Remove(a.sets[n], u)
    ensures WellFormed(r)
  {
    forall n | n in a.sets
      ensures NoDup(Remove(a.sets[n], u))
    {
      RemoveSpec(a.sets[n], u);
    }
    NoteSets(a.order, map n | n in a.sets :: Remove(a.sets[n], u))
  }

  /** The entries with an empty set deleted (the second `forEach` of `disconnect`). */
  function Cleaned(a: NoteSets): (r: NoteSets)
    requires WellFormed(a)
    ensures Clean(r)
    ensures forall n :: n in r.sets <==> n in a.sets && a.sets[n] != []
    ensures forall n :: n in r.sets ==> r.sets[n] == a.sets[n]
  {
    NoteSets(NonEmptyKeys(a.order, a.sets), map n | n in a.sets && a.sets[n] != [] :: a.sets[n])
  }

  /** The clean-up keeps the surviving keys in their insertion order. */
  lemma CleanedInOrder(a: NoteSets)
    requires WellFormed(a)
    ensures Cleaned(a).order == Filter(a.order, NonEmptyIn(a.sets))
  {
    NonEmptyKeysInOrder(a.order, a.sets);
  }

  /** `activeNotes` after the disconnect of user `u`: no set mentions `u`, every other user stays
      where it was, and the notes whose only editor was `u` are no longer tracked. */
  function Purged(a: NoteSets, u: string): (r: NoteSets)
    requires WellFormed(a)
    ensures Clean(r)
    ensures forall n :: n in r.sets ==> u !in r.sets[n]
    ensures forall n, v :: v != u ==> (n in r.sets && v in r.sets[n] <==> n in a.sets && v in a.sets[n])
    ensures Clean(a) ==> forall n :: n in a.sets && u !in a.sets[n] ==> n in r.sets && r.sets[n] == a.sets[n]
  {
    var d := Dropped(a, u);
    forall n | n in d.sets
      ensures forall v :: v in d.sets[n] <==> v in a.sets[n] && v != u
    {
      RemoveSpec(a.sets[n], u);
    }
    Cleaned(d)
  }

  /** The `note_editors` notices a disconnect of `u` emits, one per note in `order` whose set
      holds `u`, in map order, each listing the remaining editors against the new roster. */
  function DisconnectNotices(order: seq<string>, sets: map<string, seq<string>>, u: string,
                             roster: seq<RosterEntry>): (r: seq<Message>)
    ensures |r| <= |order|
  {
    if order == [] then []
    else
      var n := order[|order| - 1];
      var rest := DisconnectNotices(order[..|order| - 1], sets, u, roster);
      if n in sets && u in sets[n] then rest + [Notice(n, sets[n], u, roster)] else rest
  }

  /** The notes whose set holds `u`, as a filter on note ids. */
  function HoldsUser(sets: map<string, seq<string>>, u: string): (p: string -> bool) {
    (n: string) => n in sets && u in sets[n]
  }

  /** `r` holds one notice per note of `ids`, in the same order, each for that note's set. */
  ghost predicate NoticesFor(ids: seq<string>, r: seq<Message>, sets: map<string, seq<string>>, u: string,
                             roster: seq<RosterEntry>) {
    && |r| == |ids|
    && forall i :: 0 <= i < |r| ==> ids[i] in sets && r[i] == Notice(ids[i], sets[ids[i]], u, roster)
  }

  lemma NoticesForSnoc(ids: seq<string>, r: seq<Message>, n: string, sets: map<string, seq<string>>, u: string,
                       roster: seq<RosterEntry>)
    requires NoticesFor(ids, r, sets, u, roster) && n in sets
    ensures NoticesFor(ids + [n], r + [Notice(n, sets[n], u, roster)], sets, u, roster)
  {
    var ids', r' := ids + [n], r + [Notice(n, sets[n], u, roster)];
    forall i | 0 <= i < |r'| ensures ids'[i] in sets && r'[i] == Notice(ids'[i], sets[ids'[i]], u, roster) {
      if i < |r| {
        assert r'[i] == r[i] && ids'[i] == ids[i];
      }
    }
  }

  /** The notices follow `order` filtered to the notes whose set held the user: one notice per
      such note, in the same order, each for that note's set. */
  lemma {:induction false} DisconnectNoticesInOrder(order: seq<string>, sets: map<string, seq<string>>, u: string,
                                                    roster: seq<RosterEntry>)
    ensures NoticesFor(Filter(order, HoldsUser(sets, u)), DisconnectNotices(order, sets, u, roster), sets, u, roster)
    decreases |order|
  {
    if order != [] {
      var p := HoldsUser(sets, u);
      var init, n := order[..|order| - 1], order[|order| - 1];
      DisconnectNoticesInOrder(init, sets, u, roster);
      var ids0, r0 := Filter(init, p), DisconnectNotices(init, sets, u, roster);
      assert order == init + [n];
      FilterSnoc(init, n, p);
      assert p(n) == (n in sets && u in sets[n]);
      if p(n) {
        assert DisconnectNotices(order, sets, u, roster) == r0 + [Notice(n, sets[n], u, roster)];
        NoticesForSnoc(ids0, r0, n, sets, u, roster);
      } else {
        assert DisconnectNotices(order, sets, u, roster) == r0;
      }
    }
  }

  /** In a well-formed map no note is notified twice by a disconnect. */
  lemma DisconnectNoticesOnce(a: NoteSets, u: string)
    requires WellFormed(a)
    ensures NoDup(Filter(a.order, HoldsUser(a.sets, u)))
  {
    FilterNoDup(a.order, HoldsUser(a.sets, u));
  }

  /** The notice for note `n` after `u` left it. */
  function Notice(n: string, members: seq<string>, u: string, roster: seq<RosterEntry>): (r: Message)
    ensures r.target == Room(n) && r.event == "note_editors" && r.payload.RemainingEditors? && r.payload.noteId == n
  {
    Message(Room(n), "note_editors", RemainingEditors(n, EditorsOf(Remove(members, u), roster)))
  }

  /** A disconnect notifies exactly the notes whose set held the user. */
  lemma {:induction false} DisconnectNoticesExactly(order: seq<string>, sets: map<string, seq<string>>, u: string,
                                                    roster: seq<RosterEntry>)
    ensures var r := DisconnectNotices(order, sets, u, roster);
      && (forall n :: n in order && n in sets && u in sets[n] ==> Notice(n, sets[n], u, roster) in r)
      && (forall m :: m in r ==> m.target.Room? && m.target.noteId in order && m.target.noteId in sets
                                 && u in sets[m.target.noteId] && m == Notice(m.target.noteId, sets[m.target.noteId], u, roster))
    decreases |order|
  {
    if order != [] {
      var init := order[..|order| - 1];
      DisconnectNoticesExactly(init, sets, u, roster);
      assert order == init + [order[|order| - 1]];
    }
  }

  /** `start_editing` creates the set if needed, then adds the user to it. */
  lemma StartSteps(a0: NoteSets, n: string, u: string, a: NoteSets)
    requires WellFormed(a0)
    requires a == if n in a0.sets then a0 else NoteSets(a0.order + [n], a0.sets[n := []])
    ensures n in a.sets && a.sets[n] == Members(a0, n)
    ensures a.(sets := a.sets[n := AddIfAbsent(a.sets[n], u)]) == Started(a0, n, u)
  {
    if n !in a0.sets {
      assert a.sets[n := AddIfAbsent([], u)] == a0.sets[n := AddIfAbsent([], u)];
    }
  }

  /** The two steps of `stop_editing` (delete from the set, then drop the entry if empty)
      compute `Stopped`. */
  lemma StopSteps(a0: NoteSets, n: string, u: string, a: NoteSets)
    requires WellFormed(a0)
    requires a == if n in a0.sets then a0.(sets := a0.sets[n := Remove(a0.sets[n], u)]) else a0
    ensures n in a.sets && a.sets[n] == [] ==> NoteSets(Remove(a.order, n), a.sets - {n}) == Stopped(a0, n, u)
    ensures !(n in a.sets && a.sets[n] == []) ==> a == Stopped(a0, n, u)
  {
    if n in a0.sets && Remove(a0.sets[n], u) == [] {
      assert a.sets - {n} == a0.sets - {n};
    }
  }

  /** Starting and then stopping an edit session that was not already open leaves the presence
      map exactly as it was. */
  lemma StartStopRestores(a: NoteSets, n: string, u: string)
    requires Clean(a)
    requires u !in Members(a, n)
    ensures Stopped(Started(a, n, u), n, u) == a
  {
    if n in a.sets {
      StartStopTracked(a, n, u);
    } else {
      StartStopUntracked(a, n, u);
    }
  }

  lemma StartStopTracked(a: NoteSets, n: string, u: string)
    requires WellFormed(a)
    requires n in a.sets && a.sets[n] != [] && u !in a.sets[n]
    ensures Stopped(Started(a, n, u), n, u) == a
  {
    StartedTracked(a, n, u);
    AppendedWellFormed(a, n, u);
    StopAfterAppend(a, n, u);
  }
  lemma AppendedWellFormed(a: NoteSets, n: string, u: string)
    requires WellFormed(a) && n in a.sets && u !in a.sets[n]
    ensures WellFormed(NoteSets(a.order, a.sets[n := a.sets[n] + [u]]))
  {
    NoDupMultiset(a.sets[n]);
    NoDupMultiset(a.sets[n] + [u]);
  }
  lemma StopAfterAppend(a: NoteSets, n: string, u: string)
    requires WellFormed(a) && n in a.sets && a.sets[n] != [] && u !in a.sets[n]
    requires WellFormed(NoteSets(a.order, a.sets[n := a.sets[n] + [u]]))
    ensures Stopped(NoteSets(a.order, a.sets[n := a.sets[n] + [u]]), n, u) == a
  {
    var b := NoteSets(a.order, a.sets[n := a.sets[n] + [u]]);
    RemoveAppended(a.sets[n], u);
    StoppedKept(b, n, u);
    assert b.sets[n := a.sets[n]] == a.sets;
  }

  lemma StartedTracked(a: NoteSets, n: string, u: string)
    requires WellFormed(a) && n in a.sets && u !in a.sets[n]
    ensures Started(a, n, u) == NoteSets(a.order, a.sets[n := a.sets[n] + [u]])
  {
  }

  lemma StoppedKept(b: NoteSets, n: string, u: string)
    requires WellFormed(b) && n in b.sets && Remove(b.sets[n], u) != []
    ensures Stopped(b, n, u) == NoteSets(b.order, b.sets[n := Remove(b.sets[n], u)])
  {
  }

  lemma StartStopUntracked(a: NoteSets, n: string, u: string)
    requires Clean(a)
    requires n !in a.sets
    ensures Stopped(Started(a, n, u), n, u) == a
  {
    var b := Started(a, n, u);
    assert b == NoteSets(a.order + [n], a.sets[n := [u]]);
    assert b.sets - {n} == a.sets;
    assert Remove([u], u) == [];
    RemoveAppended(a.order, n);
  }

  /** Starting twice is the same as starting once. */
  lemma StartIdempotent(a: NoteSets, n: string, u: string)
    requires WellFormed(a)
    ensures Started(Started(a, n, u), n, u) == Started(a, n, u)
  {
    var b := Started(a, n, u);
    var m := AddIfAbsent(Members(a, n), u);
    assert b.sets == a.sets[n := m];
    assert n in b.sets && Members(b, n) == m;
    AddIfAbsentIdempotent(Members(a, n), u);
    assert b.sets[n := AddIfAbsent(m, u)] == b.sets;
  }

  /** Loop state of the first `forEach` of `disconnect`: the notes before position `k` of the
      map order have had `u` removed, the others are untouched. */
  ghost predicate DroppedUpTo(a: NoteSets, a0: NoteSets, u: string, k: nat)
    requires k <= |a0.order|
  {
    && a.order == a0.order
    && a.sets.Keys == a0.sets.Keys
    && (forall i :: 0 <= i < |a0.order| && a0.order[i] in a0.sets ==>
          a.sets[a0.order[i]] == if i < k then Remove(a0.sets[a0.order[i]], u) else a0.sets[a0.order[i]])
  }

  lemma DropStep(a: NoteSets, a0: NoteSets, u: string, k: nat)
    requires WellFormed(a0) && k < |a0.order| && DroppedUpTo(a, a0, u, k)
    ensures a0.order[k] in a.sets && a.sets[a0.order[k]] == a0.sets[a0.order[k]]
    ensures u in a.sets[a0.order[k]] ==>
      DroppedUpTo(a.(sets := a.sets[a0.order[k] := Remove(a.sets[a0.order[k]], u)]), a0, u, k + 1)
    ensures u !in a.sets[a0.order[k]] ==> DroppedUpTo(a, a0, u, k + 1)
  {
    var n := a0.order[k];
    NoDupAt(a0.order, k);
  }

  lemma NoticesStep(order: seq<string>, sets: map<string, seq<string>>, u: string, roster: seq<RosterEntry>, k: nat)
    requires k < |order| && order[k] in sets
    ensures var n := order[k];
      DisconnectNotices(order[..k + 1], sets, u, roster) == DisconnectNotices(order[..k], sets, u, roster)
        + if u in sets[n] then [Notice(n, sets[n], u, roster)] else []
  {
    var next := order[..k + 1];
    assert next[..|next| - 1] == order[..k];
  }

  /** Loop state of the second `forEach` of `disconnect`: the empty sets among the first `j`
      entries of the snapshot `d` have been deleted. */
  ghost predicate CleanedUpTo(a: NoteSets, d: NoteSets, j: nat)
    requires j <= |d.order|
  {
    && a.order == NonEmptyKeys(d.order[..j], d.sets) + d.order[j..]
    && (forall m :: m in a.sets <==> m in a.order)
    && (forall m :: m in a.sets ==> m in d.sets && a.sets[m] == d.sets[m])
  }

  /** Extending the scanned prefix by one entry extends the kept keys by that entry if its set is
      non-empty. */
  lemma NonEmptyKeysNext(order: seq<string>, j: nat, sets: map<string, seq<string>>)
    requires j < |order|
    ensures NonEmptyKeys(order[..j + 1], sets) ==
      NonEmptyKeys(order[..j], sets) + (if order[j] in sets && sets[order[j]] != [] then [order[j]] else [])
  {
    var next := order[..j + 1];
    assert next[..|next| - 1] == order[..j];
  }

  /** In a duplicate-free sequence an entry occurs neither before nor after its position. */
  lemma NoDupAt(s: seq<string>, j: nat)
    requires NoDup(s) && j < |s|
    ensures s[j] !in s[..j] && s[j] !in s[j + 1..]
  {
  }

  lemma CleanStep(a: NoteSets, d: NoteSets, j: nat)
    requires WellFormed(d) && j < |d.order| && CleanedUpTo(a, d, j)
    ensures d.order[j] in a.sets && a.sets[d.order[j]] == d.sets[d.order[j]]
    ensures a.sets[d.order[j]] != [] ==> CleanedUpTo(a, d, j + 1)
    ensures a.sets[d.order[j]] == [] ==>
      CleanedUpTo(NoteSets(Remove(a.order, d.order[j]), a.sets - {d.order[j]}), d, j + 1)
  {
    var n := d.order[j];
    var entries := d.order;
    var kept := NonEmptyKeys(entries[..j], d.sets);
    assert entries[j..] == [n] + entries[j + 1..];
    assert a.order == kept + [n] + entries[j + 1..];
    assert n in a.order;
    NonEmptyKeysNext(entries, j, d.sets);
    if a.sets[n] == [] {
      CleanStepEmpty(a, d, j, kept);
    }
  }

  lemma CleanStepEmpty(a: NoteSets, d: NoteSets, j: nat, kept: seq<string>)
    requires WellFormed(d) && j < |d.order| && CleanedUpTo(a, d, j)
    requires kept == NonEmptyKeys(d.order[..j], d.sets) == NonEmptyKeys(d.order[..j + 1], d.sets)
    requires a.order == kept + [d.order[j]] + d.order[j + 1..]
    requires d.order[j] in a.sets && a.sets[d.order[j]] == []
    ensures CleanedUpTo(NoteSets(Remove(a.order, d.order[j]), a.sets - {d.order[j]}), d, j + 1)
  {
    var n := d.order[j];
    NoDupAt(d.order, j);
    assert n !in kept;
    RemoveMiddle(kept, n, d.order[j + 1..]);
    RemoveSpec(a.order, n);
  }

  /** The first loop of `disconnect` (`activeNotes.forEach`): take `u` out of every set that
      holds it, in map order, and send that note's room the editors that remain. */
  method DropUser(a0: NoteSets, u: string, roster: seq<RosterEntry>) returns (a: NoteSets, out: seq<Message>)
    requires WellFormed(a0)
    ensures a == Dropped(a0, u)
    ensures out == DisconnectNotices(a0.order, a0.sets, u, roster)
  {
    a, out := a0, [];
    var k := 0;
    while k < |a0.order|
      invariant 0 <= k <= |a0.order|
      invariant DroppedUpTo(a, a0, u, k)
      invariant out == DisconnectNotices(a0.order[..k], a0.sets, u, roster)
    {
      var n := a0.order[k];
      DropUserStep(a, out, a0, u, roster, k);
      if u in a.sets[n] {
        out := out + [Notice(n, a.sets[n], u, roster)];
        a := a.(sets := a.sets[n := Remove(a.sets[n], u)]);
      }
      k := k + 1;
    }
    DroppedAll(a, a0, u);
    assert a0.order[..k] == a0.order;
  }

  /** One iteration of `DropUser` keeps both loop invariants. */
  lemma DropUserStep(a: NoteSets, out: seq<Message>, a0: NoteSets, u: string, roster: seq<RosterEntry>, k: nat)
    requires WellFormed(a0) && k < |a0.order| && DroppedUpTo(a, a0, u, k)
    requires out == DisconnectNotices(a0.order[..k], a0.sets, u, roster)
    ensures a0.order[k] in a.sets
    ensures var n := a0.order[k];
      u in a.sets[n] ==>
        && DroppedUpTo(a.(sets := a.sets[n := Remove(a.sets[n], u)]), a0, u, k + 1)
        && out + [Notice(n, a.sets[n], u, roster)] == DisconnectNotices(a0.order[..k + 1], a0.sets, u, roster)
    ensures var n := a0.order[k];
      u !in a.sets[n] ==>
        && DroppedUpTo(a, a0, u, k + 1)
        && out == DisconnectNotices(a0.order[..k + 1], a0.sets, u, roster)
  {
    DropStep(a, a0, u, k);
    NoticesStep(a0.order, a0.sets, u, roster, k);
  }

  lemma DroppedAll(a: NoteSets, a0: NoteSets, u: string)
    requires WellFormed(a0) && DroppedUpTo(a, a0, u, |a0.order|)
    ensures a == Dropped(a0, u)
  {
    assert a0.order[..|a0.order|] == a0.order;
    assert a.sets == Dropped(a0, u).sets;
  }

  /** The second loop of `disconnect` (`Array.from(activeNotes.entries()).forEach`) over a
      snapshot of the entries: delete every note whose set is empty. */
  method DeleteEmpty(d: NoteSets) returns (a: NoteSets)
    requires WellFormed(d)
    ensures a == Cleaned(d)
  {
    a := d;
    var entries := d.order;
    var j := 0;
    assert entries[..0] == [];
    while j < |entries|
      invariant 0 <= j <= |entries|
      invariant CleanedUpTo(a, d, j)
    {
      var n := entries[j];
      CleanStep(a, d, j);
      if a.sets[n] == [] {
        a := NoteSets(Remove(a.order, n), a.sets - {n});
      }
      j := j + 1;
    }
    CleanedAll(a, d);
  }

  lemma CleanedAll(a: NoteSets, d: NoteSets)
    requires WellFormed(d) && CleanedUpTo(a, d, |d.order|)
    ensures a == Cleaned(d)
  {
    assert d.order[..|d.order|] == d.order;
    assert d.order[|d.order|..] == [];
    assert a.order == NonEmptyKeys(d.order, d.sets);
    assert a.sets == Cleaned(d).sets;
  }

  class Registry {
    /** `activeUsers` */
    var roster: seq<RosterEntry>
    /** `activeNotes` */
    var activeNotes: NoteSets
    /** Every event emitted so far, oldest first. */
    var outbox: seq<Message>

    ghost predicate Valid()
      reads this
    {
      Clean(activeNotes)
    }

    constructor ()
      ensures Valid()
      ensures roster == [] && activeNotes == NoteSets([], map[]) && outbox == []
    {
      roster := [];
      activeNotes := NoteSets([], map[]);
      outbox := [];
    }

    /** `user_join`: append one roster entry (no deduplication) and broadcast the roster. */
    method UserJoin(socketId: string, userId: string, username: string)
      requires Valid()
      modifies this`roster, this`outbox
      ensures Valid()
      ensures roster == old(roster) + [RosterEntry(userId, username, socketId)]
      ensures outbox == old(outbox) + [Message(All, "active_users", ActiveUsers(roster))]
    {
      roster := roster + [RosterEntry(userId, username, socketId)];
      outbox := outbox + [Message(All, "active_users", ActiveUsers(roster))];
    }

    /** `start_editing`: add the user to the note's set and send the note's room its editors. */
    method StartEditing(noteId: string, userId: string)
      requires Valid()
      modifies this`activeNotes, this`outbox
      ensures Valid()
      ensures activeNotes == Started(old(activeNotes), noteId, userId)
      ensures outbox == old(outbox) + [Message(Room(noteId), "note_editors",
                                               NoteEditors(noteId, EditorsOf(activeNotes.sets[noteId], roster)))]
    {
      var a := activeNotes;
      if noteId !in a.sets {
        a := NoteSets(a.order + [noteId], a.sets[noteId := []]);
      }
      var members := AddIfAbsent(a.sets[noteId], userId);
      StartSteps(activeNotes, noteId, userId, a);
      activeNotes := a.(sets := a.sets[noteId := members]);
      var editors := EditorsOf(members, roster);
      outbox := outbox + [Message(Room(noteId), "note_editors", NoteEditors(noteId, editors))];
    }

    /** `note_edit`: forward the edit verbatim to the rest of the note's room. */
    method NoteEditEvent(socketId: string, data: NoteEdit)
      modifies this`outbox
      ensures outbox == old(outbox) + [Message(RoomExceptSender(data.noteId, socketId), "note_updated", NoteUpdated(data))]
    {
      outbox := outbox + [Message(RoomExceptSender(data.noteId, socketId), "note_updated", NoteUpdated(data))];
    }

    /** `cursor_move`: forward the position verbatim to the rest of the note's room. */
    method CursorMoveEvent(socketId: string, data: CursorMove)
      modifies this`outbox
      ensures outbox == old(outbox) + [Message(RoomExceptSender(data.noteId, socketId), "cursor_moved", CursorMoved(data))]
    {
      outbox := outbox + [Message(RoomExceptSender(data.noteId, socketId), "cursor_moved", CursorMoved(data))];
    }

    /** `stop_editing`: remove the user from the note's set; an emptied set is deleted silently,
        otherwise the room gets the remaining editors. `get(noteId)?.size === 0` is false for a
        note that is not tracked, so such a note still gets an (empty) editors notice. */
    method StopEditing(noteId: string, userId: string)
      requires Valid()
      modifies this`activeNotes, this`outbox
      ensures Valid()
      ensures activeNotes == Stopped(old(activeNotes), noteId, userId)
      ensures noteId in old(activeNotes).sets && noteId !in activeNotes.sets ==> outbox == old(outbox)
      ensures noteId in activeNotes.sets || noteId !in old(activeNotes).sets ==>
        outbox == old(outbox) + [Message(Room(noteId), "note_editors",
                                         NoteEditors(noteId, EditorsOf(Members(activeNotes, noteId), roster)))]
    {
      var a := activeNotes;
      if noteId in a.sets {
        a := a.(sets := a.sets[noteId := Remove(a.sets[noteId], userId)]);
      }
      StopSteps(activeNotes, noteId, userId, a);
      if noteId in a.sets && a.sets[noteId] == [] {
        activeNotes := NoteSets(Remove(a.order, noteId), a.sets - {noteId});
      } else {
        activeNotes := a;
        var editors := EditorsOf(Members(a, noteId), roster);
        outbox := outbox + [Message(Room(noteId), "note_editors", NoteEditors(noteId, editors))];
      }
    }

    /** `disconnect`: if the connection joined, drop its first roster entry, take its user out
        of every set (telling each affected room), delete emptied sets, broadcast the roster. */
    method Disconnect(socketId: string)
      requires Valid()
      modifies this
      ensures Valid()
      ensures SocketIndex(old(roster), socketId) == -1 ==>
        roster == old(roster) && activeNotes == old(activeNotes) && outbox == old(outbox)
      ensures SocketIndex(old(roster), socketId) != -1 ==>
        var i := SocketIndex(old(roster), socketId);
        var u := old(roster)[i].userId;
        && roster == old(roster)[..i] + old(roster)[i + 1..]
        && activeNotes == Purged(old(activeNotes), u)
        && outbox == old(outbox)
                     + DisconnectNotices(old(activeNotes).order, old(activeNotes).sets, u, roster)
                     + [Message(All, "active_users", ActiveUsers(roster))]
    {
      var i := SocketIndex(roster, socketId);
      if i == -1 {
        return;
      }
      var u := roster[i].userId;
      roster := roster[..i] + roster[i + 1..];
      var dropped, notices := DropUser(activeNotes, u, roster);
      activeNotes := DeleteEmpty(dropped);
      outbox := outbox + notices;
      outbox := outbox + [Message(All, "active_users", ActiveUsers(roster))];
    }
  }
}
