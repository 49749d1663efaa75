/** The editor pane's state cells (`title`, `content`, `tags`, `tagInput`) and the helpers that
    compute their new values: tag add and remove, markdown wrapping, and the autosave check. */
module NoteEditor {
  import opened Wrappers
  import opened SeqUtil
  import opened JsString
  import opened ClientTypes

  /** The tag list after `handleAddTag`: the trimmed input is appended when it is non-empty and
      not yet a tag. */
  function TagsAfterAdd(tags: seq<string>, input: string): (r: seq<string>)
    ensures var t := Trim(input);
      if t != "" && t !in tags then r == tags + [t] else r == tags
    ensures forall x :: x in r ==> x in tags || x == Trim(input)
    ensures NoDup(tags) ==> NoDup(r)
  {
    var t := Trim(input);
    if t != "" && t !in tags then tags + [t] else tags
  }

  /** The tag list after `handleRemoveTag`: every occurrence of the tag goes, the rest stay. */
  function TagsAfterRemove(tags: seq<string>, tag: string): (r: seq<string>)
    ensures tag !in r
    ensures forall x :: x != tag ==> multiset(r)[x] == multiset(tags)[x]
    ensures NoDup(tags) ==> NoDup(r)
  {
    RemoveSpec(tags, tag);
    Remove(tags, tag)
  }

  /** Adding a new tag and then removing it gives back the previous list. */
  lemma AddThenRemove(tags: seq<string>, input: string)
    requires Trim(input) !in tags
    ensures TagsAfterRemove(TagsAfterAdd(tags, input), Trim(input)) == tags
  {
    if Trim(input) != "" {
      RemoveAppended(tags, Trim(input));
    }
  }

  /** The content `insertMarkdown` writes: the text between `start` and `end` is wrapped in
      `before` and `after`, with JavaScript's `substring` for every cut. For a selection
      inside the content, the text before and after the selection is kept, the content grows
      by exactly the two markers, and the selected text follows `before`. */
  function Wrapped(content: string, before: string, after: string, start: int, end: int): (r: string)
    ensures 0 <= start <= end <= |content| ==>
      && |r| == |content| + |before| + |after|
      && r[..start] == content[..start]
      && r[start..start + |before|] == before
      && r[start + |before|..end + |before|] == content[start..end]
      && r[end + |before|..end + |before| + |after|] == after
      && r[end + |before| + |after|..] == content[end..]
  {
    var head, selected, tail := Substring(content, 0, start), Substring(content, start, end),
      Substring(content, end, |content|);
    SpliceParts(head, before, selected, after, tail);
    if 0 <= start <= end <= |content| then
      assert content == head + selected + tail;
      head + before + selected + after + tail
    else
      head + before + selected + after + tail
  }

  /** Where each of five concatenated pieces sits in the result. */
  lemma SpliceParts(p: string, b: string, s: string, a: string, q: string)
    ensures var r := p + b + s + a + q;
      && r[..|p|] == p
      && r[|p|..|p| + |b|] == b
      && r[|p| + |b|..|p| + |b| + |s|] == s
      && r[|p| + |b| + |s|..|p| + |b| + |s| + |a|] == a
      && r[|p| + |b| + |s| + |a|..] == q
  {
    var r := p + b + s + a + q;
    assert forall i :: 0 <= i < |p| ==> r[i] == p[i];
    assert forall i :: 0 <= i < |b| ==> r[|p| + i] == b[i];
    assert forall i :: 0 <= i < |s| ==> r[|p| + |b| + i] == s[i];
    assert forall i :: 0 <= i < |a| ==> r[|p| + |b| + |s| + i] == a[i];
    assert forall i :: 0 <= i < |q| ==> r[|p| + |b| + |s| + |a| + i] == q[i];
  }

  /** The selection `insertMarkdown` restores: it starts after `before` and is as long as the
      selected text. */
  function NewSelection(content: string, before: string, start: int, end: int): (r: (int, int))
    ensures 0 <= start <= end <= |content| ==>
      r == (start + |before|, end + |before|)
  {
    var selected := Substring(content, start, end);
    (start + |before|, start + |before| + |selected|)
  }

  /** For a selection inside the content, the restored selection covers exactly the text that
      was selected before. */
  lemma SelectionCoversSelectedText(content: string, before: string, after: string, start: int, end: int)
    requires 0 <= start <= end <= |content|
    ensures var r := Wrapped(content, before, after, start, end);
      var sel := NewSelection(content, before, start, end);
      0 <= sel.0 <= sel.1 <= |r| && r[sel.0..sel.1] == content[start..end]
  {
  }

  /** The editor pane's state cells. */
  class EditorPane {
    var title: string
    var content: string
    var tags: seq<string>
    var tagInput: string

    constructor ()
      ensures title == "" && content == "" && tags == [] && tagInput == ""
    {
      title, content, tags, tagInput := "", "", [], "";
    }

    /** The autosave condition: a note is open and the title, the content or the tags differ
        from it (tags compared as their JSON text, which is equality of the lists). */
    predicate AutosaveDue(current: Option<Note>)
      reads this
    {
      current.Some? &&
      (title != current.value.title || content != current.value.content || tags != current.value.tags)
    }

    /** Copying the current note into the cells; nothing is then due for saving. */
    method Load(current: Option<Note>)
      modifies this`title, this`content, this`tags
      ensures current.None? ==> title == old(title) && content == old(content) && tags == old(tags)
      ensures current.Some? ==>
        title == current.value.title && content == current.value.content && tags == current.value.tags
      ensures !AutosaveDue(current)
    {
      if current.Some? {
        title, content, tags := current.value.title, current.value.content, current.value.tags;
      }
    }

    /** `handleAddTag`: the input is cleared exactly when its trimmed text became a tag. */
    method AddTag()
      modifies this`tags, this`tagInput
      ensures tags == TagsAfterAdd(old(tags), old(tagInput))
      ensures tags != old(tags) ==> tagInput == ""
      ensures tags == old(tags) ==> tagInput == old(tagInput)
      ensures NoDup(old(tags)) ==> NoDup(tags)
    {
      var t := Trim(tagInput);
      if t != "" && t !in tags {
        tags := tags + [t];
        tagInput := "";
      }
    }

    /** `handleRemoveTag`. */
    method RemoveTag(tag: string)
      modifies this`tags
      ensures tags == TagsAfterRemove(old(tags), tag)
    {
      tags := Remove(tags, tag);
    }

    /** `insertMarkdown`; `selection` is the textarea's selection, absent when there is no
        textarea, and the result is the selection to restore. */
    method InsertMarkdown(before: string, after: string, selection: Option<(int, int)>) returns (restored: Option<(int, int)>)
      modifies this`content
      ensures selection.None? ==> content == old(content) && restored.None?
      ensures selection.Some? ==>
        var (start, end) := selection.value;
        && content == Wrapped(old(content), before, after, start, end)
        && restored == Some(NewSelection(old(content), before, start, end))
    {
      if selection.None? {
        return None;
      }
      var (start, end) := selection.value;
      var selected := Substring(content, start, end);
      content := Substring(content, 0, start) + before + selected + after + Substring(content, end, |content|);
      restored := Some((start + |before|, start + |before| + |selected|));
    }
  }

  /** Opening a note and then pressing add-tag: a save becomes due exactly when the trimmed
      input was a new, non-empty tag. */
  method AddTagAfterLoad(pane: EditorPane, n: Note)
    modifies pane`title, pane`content, pane`tags, pane`tagInput
    ensures pane.tags == TagsAfterAdd(n.tags, old(pane.tagInput))
    ensures pane.AutosaveDue(Some(n)) <==> Trim(old(pane.tagInput)) != "" && Trim(old(pane.tagInput)) !in n.tags
  {
    pane.Load(Some(n));
    pane.AddTag();
  }

  /** Opening a note and then removing a tag: a save becomes due exactly when the note had
      that tag. */
  method RemoveTagAfterLoad(pane: EditorPane, n: Note, tag: string)
    modifies pane`title, pane`content, pane`tags
    ensures pane.tags == TagsAfterRemove(n.tags, tag)
    ensures pane.AutosaveDue(Some(n)) <==> tag in n.tags
  {
    pane.Load(Some(n));
    pane.RemoveTag(tag);
  }
}
