/**
 * The request side of `search_documents`: query parameters with their
 * defaults, and the filter string built from the optional owner, MIME type
 * and folder parameters. Running the search itself is the search service's
 * business and is not modelled.
 */
module SearchHandler {
  import opened Wrappers
  import Text

  const DefaultLimit: nat := 50
  const DefaultOffset: nat := 0
  const Conjunction: string := " AND "

  /** The query parameters after defaults are applied. */
  datatype SearchParams = SearchParams(
    q: string,
    limit: nat,
    offset: nat,
    ownerId: Option<string>,
    mimeType: Option<string>,
    isFolder: Option<bool>)

  /** Deserializing the query: a missing limit is 50 and a missing offset 0. */
  function ReadParams(q: string, limit: Option<nat>, offset: Option<nat>, ownerId: Option<string>,
                      mimeType: Option<string>, isFolder: Option<bool>): (p: SearchParams)
    ensures limit.None? ==> p.limit == DefaultLimit
    ensures offset.None? ==> p.offset == DefaultOffset
    ensures limit.Some? ==> p.limit == limit.value
    ensures offset.Some? ==> p.offset == offset.value
    ensures p.q == q && p.ownerId == ownerId && p.mimeType == mimeType && p.isFolder == isFolder
  {
    SearchParams(q, limit.GetOr(DefaultLimit), offset.GetOr(DefaultOffset), ownerId, mimeType, isFolder)
  }

  /** `field = "value"`, the value inserted as given, without escaping. */
  function Quoted(field: string, value: string): (c: string)
    ensures |c| == |field| + 5 + |value| && c[..|field|] == field
    ensures c[|field|..|field| + 4] == " = \"" && c[|field| + 4..|c| - 1] == value && c[|c| - 1] == '"'
  {
    var c := field + " = \"" + value + "\"";
    assert c[|field| + 4..|c| - 1] == value;
    c
  }

  /** `is_folder = true` or `is_folder = false`, unquoted. */
  function FolderClause(isFolder: bool): string {
    "is_folder = " + (if isFolder then "true" else "false")
  }

  /** The clauses of the present parameters, in the fixed order owner, MIME type, folder flag. */
  function Clauses(ownerId: Option<string>, mimeType: Option<string>, isFolder: Option<bool>): (cs: seq<string>)
    ensures |cs| == (if ownerId.Some? then 1 else 0) + (if mimeType.Some? then 1 else 0) + (if isFolder.Some? then 1 else 0)
    ensures ownerId.Some? ==> cs[0] == Quoted("owner_id", ownerId.value)
    ensures mimeType.Some? ==> cs[if ownerId.Some? then 1 else 0] == Quoted("mime_type", mimeType.value)
    ensures isFolder.Some? ==> cs[|cs| - 1] == FolderClause(isFolder.value)
  {
    (if ownerId.Some? then [Quoted("owner_id", ownerId.value)] else []) +
    (if mimeType.Some? then [Quoted("mime_type", mimeType.value)] else []) +
    (if isFolder.Some? then [FolderClause(isFolder.value)] else [])
  }

  /** The filter: none without any clause, else the clauses joined by " AND ". */
  function BuildFilter(p: SearchParams): (r: Option<string>)
    ensures r.None? <==> p.ownerId.None? && p.mimeType.None? && p.isFolder.None?
    ensures r.Some? ==> r.value == Text.Join(Clauses(p.ownerId, p.mimeType, p.isFolder), Conjunction)
  {
    var cs := Clauses(p.ownerId, p.mimeType, p.isFolder);
    if |cs| == 0 then None else Some(Text.Join(cs, Conjunction))
  }

  /** A join of two or more pieces begins with the first piece and a separator. */
  lemma JoinStartsWithFirst(parts: seq<string>, sep: string)
    requires |parts| >= 2
    ensures Text.Join(parts, sep) == parts[0] + sep + Text.Join(parts[1..], sep)
  {
  }

  /** A join of two or more pieces ends with a separator and the last piece. */
  lemma {:induction false} JoinEndsWithLast(parts: seq<string>, sep: string)
    requires |parts| >= 2
    ensures Text.Join(parts, sep) == Text.Join(parts[..|parts| - 1], sep) + sep + parts[|parts| - 1]
    decreases |parts|
  {
    if |parts| > 2 {
      JoinEndsWithLast(parts[1..], sep);
      assert parts[1..][..|parts| - 2] == parts[..|parts| - 1][1..];
      assert parts[1..][|parts| - 2] == parts[|parts| - 1];
    } else {
      assert parts[..1] == [parts[0]];
    }
  }

  /**
   * The owner clause, when present, leads the filter, and the folder clause,
   * when present, ends it; a lone parameter is the whole filter.
   */
  lemma FilterShape(p: SearchParams)
    ensures var r := BuildFilter(p);
      var owner := Quoted("owner_id", p.ownerId.GetOr(""));
      (p.ownerId.Some? ==> r.Some? && |owner| <= |r.value| && r.value[..|owner|] == owner)
    ensures var r := BuildFilter(p);
      var folder := FolderClause(p.isFolder.GetOr(false));
      (p.isFolder.Some? ==> r.Some? && |folder| <= |r.value| && r.value[|r.value| - |folder|..] == folder)
    ensures p.ownerId.Some? && p.mimeType.None? && p.isFolder.None? ==> BuildFilter(p) == Some(Quoted("owner_id", p.ownerId.value))
    ensures p.ownerId.None? && p.mimeType.Some? && p.isFolder.None? ==> BuildFilter(p) == Some(Quoted("mime_type", p.mimeType.value))
    ensures p.ownerId.None? && p.mimeType.None? && p.isFolder.Some? ==> BuildFilter(p) == Some(FolderClause(p.isFolder.value))
  {
    var cs := Clauses(p.ownerId, p.mimeType, p.isFolder);
    if |cs| >= 2 {
      JoinStartsWithFirst(cs, Conjunction);
      JoinEndsWithLast(cs, Conjunction);
    }
  }

  /**
   * Values are inserted verbatim: a MIME type value `a" OR b` closes its
   * quote early, so the filter carries an OR of the caller's making right
   * after the text `mime_type = "a`.
   */
  lemma ValuesAreNotEscaped(a: string, b: string)
    ensures var r := BuildFilter(SearchParams("", DefaultLimit, DefaultOffset, None, Some(a + "\" OR " + b), None));
      var start := |"mime_type = \""| + |a|;
      r.Some? && |r.value| >= start + 5 && r.value[..start] == "mime_type = \"" + a && r.value[start..start + 5] == "\" OR "
  {
    var v := a + "\" OR " + b;
    var p := SearchParams("", DefaultLimit, DefaultOffset, None, Some(v), None);
    var q := Quoted("mime_type", v);
    assert Clauses(p.ownerId, p.mimeType, p.isFolder) == [q];
    assert q == "mime_type = \"" + v + "\"";
    var start := |"mime_type = \""| + |a|;
    assert q[..start] == "mime_type = \"" + a;
    assert q[start..start + 5] == v[|a|..|a| + 5] == "\" OR ";
  }
}
