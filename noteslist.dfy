/** The note list pane: the create-note guard, the tag filter and the sort comparator. */
module NotesList {
  import opened Wrappers
  import opened SeqUtil
  import opened JsString
  import opened Sorting
  import opened ClientTypes

  /** The notes kept by the tag filter: all of them when no tag (or the empty string) is
      selected, otherwise those tagged with it, in their original order. */
  function TagFilter(notes: seq<Note>, selectedTag: Option<string>): (r: seq<Note>)
    ensures selectedTag.None? || selectedTag == Some("") ==> r == notes
    ensures selectedTag.Some? && selectedTag.value != "" ==>
      forall n :: n in r <==> n in notes && selectedTag.value in n.tags
    ensures multiset(r) <= multiset(notes)
  {
    if selectedTag.Some? && selectedTag.value != "" then
      Filter(notes, (n: Note) => selectedTag.value in n.tags)
    else notes
  }

  /** The tag filter is the sequence filter, so it commutes with concatenation: notes keep
      their relative order. */
  lemma TagFilterConcat(a: seq<Note>, b: seq<Note>, selectedTag: Option<string>)
    ensures TagFilter(a + b, selectedTag) == TagFilter(a, selectedTag) + TagFilter(b, selectedTag)
  {
    if selectedTag.Some? && selectedTag.value != "" {
      FilterConcat(a, b, (n: Note) => selectedTag.value in n.tags);
    }
  }

  /** The comparator handed to `sort`: negative when `a` goes first. */
  function Compare(sortBy: string, a: Note, b: Note): (r: int) {
    if sortBy == "newest" then b.createdAt - a.createdAt
    else if sortBy == "oldest" then a.createdAt - b.createdAt
    else b.updatedAt - a.updatedAt
  }

  /** An ascending key that orders notes as the comparator does. */
  function DisplayKey(sortBy: string): (key: Note -> int) {
    (n: Note) =>
      if sortBy == "newest" then -n.createdAt
      else if sortBy == "oldest" then n.createdAt
      else -n.updatedAt
  }

  /** The comparator is the difference of the keys, so sorting by the key sorts by it. */
  lemma CompareIsKeyDifference(sortBy: string, a: Note, b: Note)
    ensures Compare(sortBy, a, b) == DisplayKey(sortBy)(a) - DisplayKey(sortBy)(b)
  {
  }

  /** `'oldest'` is the exact reverse of `'newest'`. */
  lemma OldestReversesNewest(a: Note, b: Note)
    ensures Compare("oldest", a, b) == -Compare("newest", a, b)
  {
  }

  /** The displayed list: a copy of the notes, narrowed by the tag filter and then sorted with
      the comparator, notes the comparator ties keeping their list order; the input list
      itself is a value and is left as it was. */
  method Displayed(notes: seq<Note>, selectedTag: Option<string>, sortBy: string) returns (shown: seq<Note>)
    ensures multiset(shown) == multiset(TagFilter(notes, selectedTag))
    ensures forall i, j :: 0 <= i < j < |shown| ==> Compare(sortBy, shown[i], shown[j]) <= 0
    ensures forall k :: Filter(shown, KeyIs(DisplayKey(sortBy), k)) == Filter(TagFilter(notes, selectedTag), KeyIs(DisplayKey(sortBy), k))
  {
    var filtered := notes;
    if selectedTag.Some? && selectedTag.value != "" {
      filtered := Filter(filtered, (n: Note) => selectedTag.value in n.tags);
    }
    assert filtered == TagFilter(notes, selectedTag);
    forall k ensures Filter(SortByKey(filtered, DisplayKey(sortBy)), KeyIs(DisplayKey(sortBy), k)) == Filter(filtered, KeyIs(DisplayKey(sortBy), k)) {
      SortByKeyStable(filtered, DisplayKey(sortBy), k);
    }
    filtered := SortByKey(filtered, DisplayKey(sortBy));
    forall i, j | 0 <= i < j < |filtered| ensures Compare(sortBy, filtered[i], filtered[j]) <= 0 {
      CompareIsKeyDifference(sortBy, filtered[i], filtered[j]);
    }
    shown := filtered;
  }

  /** The list pane's title box and the note creations it has asked for. */
  class ListPane {
    var title: string
    var created: seq<string>

    constructor ()
      ensures title == "" && created == []
    {
      title, created := "", [];
    }

    /** `handleCreateNote`: a blank title asks for nothing; otherwise the note is requested
        and the box is cleared when the creation succeeds. */
    method HandleCreateNote(succeeded: bool)
      modifies this
      ensures Trim(old(title)) == "" ==> title == old(title) && created == old(created)
      ensures Trim(old(title)) != "" ==>
        && created == old(created) + [old(title)]
        && title == (if succeeded then "" else old(title))
    {
      if Trim(title) == "" {
        return;
      }
      created := created + [title];
      if succeeded {
        title := "";
      }
    }
  }
}
