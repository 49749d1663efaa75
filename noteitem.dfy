/** The text a note card shows: the truncated preview and the list of its editors. */
module NoteItem {
  import opened Wrappers
  import opened JsString
  import opened ClientTypes

  /** The number of characters the preview keeps. */
  const PreviewLength: nat := 80

  /** `truncateContent`: short content is kept, longer content is cut and marked with `...`. */
  function TruncateContent(content: string, maxLength: nat): (r: string)
    ensures |content| <= maxLength ==> r == content
    ensures |content| > maxLength ==> r == content[..maxLength] + "..." && |r| == maxLength + 3
    ensures |r| <= maxLength + 3
    ensures r == content || r[..maxLength] == content[..maxLength]
  {
    if |content| <= maxLength then content else Substring(content, 0, maxLength) + "..."
  }

  /** Truncating a truncated text changes nothing. */
  lemma TruncateIdempotent(content: string, maxLength: nat)
    ensures TruncateContent(TruncateContent(content, maxLength), maxLength) == TruncateContent(content, maxLength)
  {
    var once := TruncateContent(content, maxLength);
    if |content| > maxLength {
      assert once[..maxLength] == content[..maxLength];
    }
  }

  /** The preview line: empty content reads 'Empty note'. */
  function Preview(content: string): (r: string)
    ensures content == "" ==> r == "Empty note"
    ensures content != "" ==> r == TruncateContent(content, PreviewLength)
  {
    TruncateContent(if content == "" then "Empty note" else content, PreviewLength)
  }

  /** `s.join(sep)`, the reference for the label. */
  function Join(names: seq<string>, sep: string): (r: string) {
    if names == [] then ""
    else if |names| == 1 then names[0]
    else names[0] + sep + Join(names[1..], sep)
  }

  /** The label as the card renders it: each username, followed by `', '` when it is not the
      last one, starting from position `i`. */
  function LabelFrom(editors: seq<Editor>, i: nat): (r: string)
    requires i <= |editors|
    decreases |editors| - i
  {
    if i == |editors| then ""
    else editors[i].username + (if i < |editors| - 1 then ", " else "") + LabelFrom(editors, i + 1)
  }

  function Usernames(editors: seq<Editor>): (r: seq<string>)
    ensures |r| == |editors| && forall i :: 0 <= i < |editors| ==> r[i] == editors[i].username
  {
    if editors == [] then [] else [editors[0].username] + Usernames(editors[1..])
  }

  /** The rendered label is the usernames joined with `', '`: a separator between consecutive
      names and none after the last. */
  lemma {:induction false} LabelIsJoin(editors: seq<Editor>, i: nat)
    requires i <= |editors|
    ensures LabelFrom(editors, i) == Join(Usernames(editors)[i..], ", ")
    decreases |editors| - i
  {
    if i < |editors| {
      LabelIsJoin(editors, i + 1);
      var names := Usernames(editors)[i..];
      assert names[1..] == Usernames(editors)[i + 1..];
    }
  }

  /** The editing banner, shown only when someone is editing. */
  function EditingBanner(editors: seq<Editor>): (r: Option<string>)
    ensures editors == [] <==> r.None?
    ensures r.Some? ==> r.value == Join(Usernames(editors), ", ") + " editing"
  {
    if |editors| > 0 then
      LabelIsJoin(editors, 0);
      assert Usernames(editors)[0..] == Usernames(editors);
      Some(LabelFrom(editors, 0) + " editing")
    else None
  }
}
