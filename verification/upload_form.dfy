/**
 * The multipart form of an upload, read field by field in arrival order.
 * A `file` field sets the file's name, content type and bytes together;
 * `parent_folder_id`, `description` and `tags` fields are read as text;
 * fields with any other name are ignored. A later field of the same name
 * replaces an earlier one. Stream and read errors of the multipart parser
 * are not part of this model.
 */
module UploadForm {
  import opened Wrappers
  import opened Uuids
  import Text

  /**
   * One form field as received: its name, the file name and content type
   * its headers carry (for a file), the number of bytes in its body, and its
   * body read as text.
   */
  datatype Part = Part(name: string, fileName: Option<string>, contentType: Option<string>, size: nat, text: string)

  /** What the upload handler has gathered after reading some fields. */
  datatype Form = Form(
    fileSize: Option<nat>,
    fileName: Option<string>,
    contentType: Option<string>,
    parentFolderId: Option<Uuid>,
    description: Option<string>,
    tags: Option<seq<string>>)

  const EmptyForm: Form := Form(None, None, None, None, None, None)

  /**
   * `value.split(',').map(|s| s.trim())`: one tag per comma-separated piece,
   * each without surrounding whitespace; an empty field gives one empty tag.
   */
  function TagsOf(value: string): (tags: seq<string>)
    ensures |tags| == Text.Count(value, ',') + 1
    ensures forall k :: 0 <= k < |tags| ==> ',' !in tags[k]
    ensures forall k :: 0 <= k < |tags| && |tags[k]| > 0 ==>
              !Text.IsWhitespace(tags[k][0]) && !Text.IsWhitespace(tags[k][|tags[k]| - 1])
    ensures |tags| == |Text.Split(value, ',')|
    ensures forall k :: 0 <= k < |tags| ==> tags[k] == Text.Trim(Text.Split(value, ',')[k])
  {
    var parts := Text.Split(value, ',');
    Text.SplitCount(value, ',');
    var tags := seq(|parts|, k requires 0 <= k < |parts| => Text.Trim(parts[k]));
    assert forall k :: 0 <= k < |tags| ==> ',' !in tags[k] by {
      forall k | 0 <= k < |tags| ensures ',' !in tags[k] {
        var i, j :| 0 <= i <= j <= |parts[k]| && tags[k] == parts[k][i..j];
        assert forall c :: c in tags[k] ==> c in parts[k];
      }
    }
    tags
  }

  /**
   * Tags that hold no comma and no surrounding whitespace survive being
   * joined with commas and read back.
   */
  lemma TagsOfJoin(tags: seq<string>)
    requires |tags| >= 1
    requires forall k :: 0 <= k < |tags| ==> ',' !in tags[k]
    requires forall k :: 0 <= k < |tags| && |tags[k]| > 0 ==>
               !Text.IsWhitespace(tags[k][0]) && !Text.IsWhitespace(tags[k][|tags[k]| - 1])
    ensures TagsOf(Text.Join(tags, ",")) == tags
  {
    Text.SplitJoin(tags, ',');
    var r := TagsOf(Text.Join(tags, ","));
    forall k | 0 <= k < |tags| ensures r[k] == tags[k] {
      Text.TrimOfTrimmed(tags[k]);
    }
  }

  /** Reading one more field. */
  function Step(f: Form, p: Part): (g: Form)
    ensures p.name !in {"file", "parent_folder_id", "description", "tags"} ==> g == f
  {
    if p.name == "file" then f.(fileName := p.fileName, contentType := p.contentType, fileSize := Some(p.size))
    else if p.name == "parent_folder_id" then f.(parentFolderId := Parse(p.text))
    else if p.name == "description" then f.(description := Some(p.text))
    else if p.name == "tags" then f.(tags := Some(TagsOf(p.text)))
    else f
  }

  /** The form after reading every field in order. */
  function ReadForm(parts: seq<Part>): (f: Form)
    decreases |parts|
  {
    if |parts| == 0 then EmptyForm else Step(ReadForm(parts[..|parts| - 1]), parts[|parts| - 1])
  }

  /** The last field with the given name, if any. */
  function LastNamed(parts: seq<Part>, name: string): (r: Option<Part>)
    ensures r.Some? ==> r.value in parts && r.value.name == name
    ensures r.None? <==> forall p :: p in parts ==> p.name != name
    decreases |parts|
  {
    if |parts| == 0 then None
    else if parts[|parts| - 1].name == name then Some(parts[|parts| - 1])
    else
      assert parts == parts[..|parts| - 1] + [parts[|parts| - 1]];
      LastNamed(parts[..|parts| - 1], name)
  }

  /**
   * Each value of the form comes from the last field of its name: a parent
   * folder that does not parse as a UUID is silently no parent at all, the
   * tags are the pieces of the last `tags` field, and the file's name, type
   * and size are those of the last `file` field.
   */
  lemma {:induction false} ReadFormLastWins(parts: seq<Part>)
    ensures var f := ReadForm(parts);
      var pf, pt, pd, pp := LastNamed(parts, "file"), LastNamed(parts, "tags"),
                            LastNamed(parts, "description"), LastNamed(parts, "parent_folder_id");
      f.parentFolderId == (if pp.None? then None else Parse(pp.value.text)) &&
      f.description == (if pd.None? then None else Some(pd.value.text)) &&
      f.tags == (if pt.None? then None else Some(TagsOf(pt.value.text))) &&
      f.fileSize == (if pf.None? then None else Some(pf.value.size)) &&
      f.fileName == (if pf.None? then None else pf.value.fileName) &&
      f.contentType == (if pf.None? then None else pf.value.contentType)
    decreases |parts|
  {
    if |parts| > 0 {
      ReadFormLastWins(parts[..|parts| - 1]);
    }
  }
}
