/**
 * The search index as the document handlers see it: a map from a document's
 * id string to its projected entry, with upsert (`index_document`,
 * `update_document`) and removal (`delete_document`).
 */
module SearchIndex {
  import opened Wrappers
  import opened Uuids
  import opened DocumentModel

  /** `DocumentSearchIndex` without the two timestamp fields. */
  datatype SearchEntry = SearchEntry(
    id: string,
    name: string,
    description: Option<string>,
    mimeType: string,
    ownerId: string,
    isFolder: bool,
    tags: seq<string>)

  /** The present entries of a nullable-entry tag array, in order. */
  function PresentTags(tags: seq<Option<string>>): (r: seq<string>)
    ensures |r| <= |tags|
    ensures forall t :: t in r <==> Some(t) in tags
    decreases |tags|
  {
    if |tags| == 0 then []
    else
      var rest := PresentTags(tags[1..]);
      assert tags == [tags[0]] + tags[1..];
      match tags[0]
      case Some(t) => [t] + rest
      case None => rest
  }

  /**
   * Projection distributes over concatenation, so together with the one-entry
   * cases it keeps present tags in their original order.
   */
  lemma {:induction false} PresentTagsAppend(a: seq<Option<string>>, b: seq<Option<string>>)
    ensures PresentTags(a + b) == PresentTags(a) + PresentTags(b)
    decreases |a|
  {
    if |a| > 0 {
      assert (a + b)[0] == a[0];
      assert (a + b)[1..] == a[1..] + b;
      PresentTagsAppend(a[1..], b);
    } else {
      assert a + b == b;
    }
  }

  /** Wrapping every tag as present and projecting back gives the tags unchanged. */
  lemma {:induction false} PresentTagsOfWrapped(tags: seq<string>)
    ensures PresentTags(Wrap(tags)) == tags
    decreases |tags|
  {
    if |tags| > 0 {
      assert Wrap(tags)[1..] == Wrap(tags[1..]);
      PresentTagsOfWrapped(tags[1..]);
    }
  }

  /** `tags.into_iter().map(Some).collect()`: how a request's tag list is stored. */
  function Wrap(tags: seq<string>): (r: seq<Option<string>>)
    ensures |r| == |tags|
    ensures forall i :: 0 <= i < |tags| ==> r[i] == Some(tags[i])
  {
    seq(|tags|, i requires 0 <= i < |tags| => Some(tags[i]))
  }

  /**
   * `From<Document> for DocumentSearchIndex`: ids become their string forms,
   * a null tag array becomes empty, null tag entries are dropped, and the
   * other fields are copied.
   */
  function Project(d: Document): (e: SearchEntry)
    ensures e.id == Uuids.ToString(d.id) && e.ownerId == Uuids.ToString(d.ownerId)
    ensures e.name == d.name && e.description == d.description
    ensures e.mimeType == d.mimeType && e.isFolder == d.isFolder
    ensures d.tags.None? ==> e.tags == []
    ensures d.tags.Some? ==> forall t :: t in e.tags <==> Some(t) in d.tags.value
    ensures d.tags.Some? ==> e.tags == PresentTags(d.tags.value)
  {
    SearchEntry(
      Uuids.ToString(d.id), d.name, d.description, d.mimeType,
      Uuids.ToString(d.ownerId), d.isFolder, PresentTags(d.tags.GetOr([])))
  }

  /** The index's key for a document: its id's string form. */
  function Key(id: Uuid): string {
    Uuids.ToString(id)
  }

  /** The index: entries keyed by document id string. */
  type Index = map<string, SearchEntry>

  /**
   * `index_document`: an upsert keyed by the id string. The document's entry
   * becomes its projection and every other entry is untouched.
   */
  function IndexDocument(idx: Index, d: Document): (r: Index)
    ensures r.Keys == idx.Keys + {Key(d.id)}
    ensures r[Key(d.id)] == Project(d)
    ensures forall k :: k in idx && k != Key(d.id) ==> r[k] == idx[k]
  {
    idx[Key(d.id) := Project(d)]
  }

  /**
   * `update_document` on the index: an upsert of the document's new
   * projection under its id string; every other entry is untouched.
   */
  function UpdateDocument(idx: Index, d: Document): (r: Index)
    ensures r.Keys == idx.Keys + {Key(d.id)}
    ensures r[Key(d.id)] == Project(d)
    ensures forall k :: k in idx && k != Key(d.id) ==> r[k] == idx[k]
  {
    IndexDocument(idx, d)
  }

  /** Re-indexing after an update leaves exactly the entry that indexing afresh would. */
  lemma UpdateIsIndex(idx: Index, d: Document)
    ensures UpdateDocument(idx, d) == IndexDocument(idx, d)
  {
  }

  /** `delete_document`: the entry under the id string is removed, the rest kept. */
  function DeleteDocument(idx: Index, id: Uuid): (r: Index)
    ensures r.Keys == idx.Keys - {Key(id)}
    ensures forall k :: k in r ==> r[k] == idx[k]
  {
    idx - {Key(id)}
  }

  /** A document's index key determines the document id. */
  lemma KeyInjective(a: Uuid, b: Uuid)
    requires Key(a) == Key(b)
    ensures a == b
  {
    Uuids.ToStringInjective(a, b);
  }
}
