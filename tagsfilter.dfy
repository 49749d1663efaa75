/** The tag filter bar: the sorted set of every tag in use, and which button is highlighted. */
module TagsFilter {
  import opened Wrappers
  import opened SeqUtil
  import opened JsString
  import opened Sorting
  import opened ClientTypes

  /** `notes.flatMap(note => note.tags)`. */
  function AllTagsListed(notes: seq<Note>): (r: seq<string>)
    ensures forall i, t :: 0 <= i < |notes| && t in notes[i].tags ==> t in r
    ensures forall t :: t in r ==> exists i :: 0 <= i < |notes| && t in notes[i].tags
  {
    if notes == [] then []
    else
      var rest := AllTagsListed(notes[1..]);
      assert forall i :: 1 <= i < |notes| ==> notes[i] == notes[1..][i - 1];
      notes[0].tags + rest
  }

  /** `Array.from(new Set(s))`: the first occurrence of each element, in order. */
  function Dedup(s: seq<string>): (r: seq<string>)
    ensures forall x :: x in r <==> x in s
    ensures NoDup(r)
  {
    if s == [] then []
    else
      var d := Dedup(s[..|s| - 1]);
      assert s == s[..|s| - 1] + [s[|s| - 1]];
      AddIfAbsent(d, s[|s| - 1])
  }

  /** `allTags`: every tag of every note, each once, in ascending string order. */
  function AllTags(notes: seq<Note>): (r: seq<string>)
    ensures forall i, t :: 0 <= i < |notes| && t in notes[i].tags ==> t in r
    ensures forall t :: t in r ==> exists i :: 0 <= i < |notes| && t in notes[i].tags
    ensures NoDup(r)
    ensures StrictlySorted(r)
  {
    var unique := Dedup(AllTagsListed(notes));
    var r := SortStrings(unique);
    assert forall t :: t in r <==> t in unique by {
      forall t ensures t in r <==> t in unique {
        assert t in r <==> t in multiset(r);
      }
    }
    NoDupPermutation(unique, r);
    r
  }

  /** The 'All' button is highlighted exactly when no tag is selected. */
  predicate AllHighlighted(selectedTag: Option<string>) {
    selectedTag.None?
  }

  /** A tag's button is highlighted exactly when it is the selected tag. */
  predicate TagHighlighted(selectedTag: Option<string>, tag: string) {
    selectedTag == Some(tag)
  }

  /** At most one button of the bar is highlighted. */
  lemma {:induction false} OneHighlighted(notes: seq<Note>, selectedTag: Option<string>)
    ensures var tags := AllTags(notes);
      && (AllHighlighted(selectedTag) ==> forall i :: 0 <= i < |tags| ==> !TagHighlighted(selectedTag, tags[i]))
      && (forall i, j ::
            (0 <= i < |tags| && 0 <= j < |tags| && TagHighlighted(selectedTag, tags[i]) && TagHighlighted(selectedTag, tags[j]))
            ==> i == j)
  {
    var tags := AllTags(notes);
    assert NoDup(tags);
  }
}
