/**
 * The state the handlers act on: the database tables (rows in table order),
 * the search index and the set of object-storage keys, together with the
 * table operations the handlers share.
 */
module Db {
  import opened Wrappers
  import opened Uuids
  import opened Errors
  import opened PermissionModel
  import opened DocumentModel
  import SearchIndex
  import Seqs

  datatype Store = Store(
    documents: seq<Document>,
    versions: seq<DocumentVersion>,
    permissions: seq<DocumentPermission>,
    groupPermissions: seq<GroupPermission>,
    groupMembers: seq<GroupMember>,
    shareLinks: seq<ShareLink>,
    index: SearchIndex.Index,
    blobs: set<string>)

  /**
   * The reply of an external collaborator (object storage, the search
   * service, an HTTP download, password hashing, token signing): a value, or
   * a failure with the collaborator's own error text.
   */
  datatype Call<T> = Done(value: T) | Failed(reason: string)

  /**
   * What a handler leaves behind: the state after it returns and its result.
   * The state is returned with errors too, because a handler that fails after
   * a committed write does not undo that write.
   */
  datatype Outcome<T> = Outcome(store: Store, result: Result<T, AppError>)

  predicate HasDocument(s: Store, id: Uuid) {
    exists d :: d in s.documents && d.id == id
  }

  /** The primary key of `documents`: no two rows share an id. */
  predicate UniqueDocumentIds(s: Store) {
    forall i, j :: 0 <= i < j < |s.documents| ==> s.documents[i].id != s.documents[j].id
  }

  /** `documents::table.find(id).first()`: the row with that id, or diesel's not-found error. */
  function FindDocument(s: Store, id: Uuid): (r: Result<Document, AppError>)
    ensures r.Ok? ==> r.value in s.documents && r.value.id == id
    ensures r.Err? <==> !HasDocument(s, id)
    ensures r.Err? ==> r.error == FromDiesel(RecordNotFound)
  {
    match Seqs.Find(s.documents, (d: Document) => d.id == id)
    case Some(d) => Ok(d)
    case None => Err(FromDiesel(RecordNotFound))
  }

  /** With unique ids, the row found is the only row with that id. */
  lemma FindDocumentUnique(s: Store, id: Uuid, i: nat)
    requires UniqueDocumentIds(s)
    requires i < |s.documents| && s.documents[i].id == id
    ensures FindDocument(s, id) == Ok(s.documents[i])
  {
    assert forall j :: 0 <= j < |s.documents| && j != i ==> s.documents[j].id != id;
  }

  const DuplicateDocumentKey: string := "duplicate key value violates unique constraint \"documents_pkey\""

  /** INSERT of a document row: appended, unless its id is taken. */
  function InsertDocument(s: Store, d: Document): (r: Result<Store, AppError>)
    ensures r.Ok? <==> !HasDocument(s, d.id)
    ensures r.Ok? ==> r.value == s.(documents := s.documents + [d])
    ensures r.Ok? && UniqueDocumentIds(s) ==> UniqueDocumentIds(r.value)
    ensures r.Err? ==> r.error.DatabaseError?
  {
    if HasDocument(s, d.id) then Err(DatabaseError(DuplicateDocumentKey))
    else
      var s' := s.(documents := s.documents + [d]);
      assert UniqueDocumentIds(s) ==> UniqueDocumentIds(s') by {
        if UniqueDocumentIds(s) {
          forall i, j | 0 <= i < j < |s'.documents| ensures s'.documents[i].id != s'.documents[j].id {
            if j == |s.documents| {
              assert s.documents[i] in s.documents;
            }
          }
        }
      }
      Ok(s')
  }

  const DuplicateVersionKey: string := "duplicate key value violates unique constraint \"document_versions_pkey\""

  /** INSERT of a version row: appended, unless its id is taken. */
  function InsertVersion(s: Store, v: DocumentVersion): (r: Result<Store, AppError>)
    ensures r.Ok? <==> forall w :: w in s.versions ==> w.id != v.id
    ensures r.Ok? ==> r.value == s.(versions := s.versions + [v])
    ensures r.Err? ==> r.error.DatabaseError?
  {
    if exists w :: w in s.versions && w.id == v.id then Err(DatabaseError(DuplicateVersionKey))
    else Ok(s.(versions := s.versions + [v]))
  }

  /** An update that keeps every id keeps the primary key intact. */
  lemma UpdateKeepsUniqueIds(s: Store, id: Uuid, change: Document -> Document)
    requires UniqueDocumentIds(s)
    requires forall d :: change(d).id == d.id
    ensures UniqueDocumentIds(UpdateDocumentRows(s, id, change))
  {
    var r := UpdateDocumentRows(s, id, change);
    forall i, j | 0 <= i < j < |r.documents| ensures r.documents[i].id != r.documents[j].id {
      assert r.documents[i].id == s.documents[i].id;
      assert r.documents[j].id == s.documents[j].id;
    }
  }

  /**
   * `UPDATE documents SET ... WHERE id = ... RETURNING *` through
   * `get_result`: every row with the id is rewritten by `change`, and the
   * rewritten row is returned; no such row is diesel's not-found error.
   */
  function UpdateDocumentReturning(s: Store, id: Uuid, change: Document -> Document): (r: Result<(Store, Document), AppError>)
    ensures r.Err? <==> !HasDocument(s, id)
    ensures r.Err? ==> r.error == FromDiesel(RecordNotFound)
    ensures r.Ok? ==> r.value.0 == UpdateDocumentRows(s, id, change)
    ensures r.Ok? ==> exists d :: d in s.documents && d.id == id && r.value.1 == change(d)
  {
    match FindDocument(s, id)
    case Ok(d) => Ok((UpdateDocumentRows(s, id, change), change(d)))
    case Err(e) => Err(e)
  }

  /** `UPDATE documents SET ... WHERE id = ...`: only the rows with that id change. */
  function UpdateDocumentRows(s: Store, id: Uuid, change: Document -> Document): (r: Store)
    ensures r == s.(documents := r.documents)
    ensures |r.documents| == |s.documents|
    ensures forall i :: 0 <= i < |s.documents| ==>
      r.documents[i] == if s.documents[i].id == id then change(s.documents[i]) else s.documents[i]
  {
    s.(documents := Seqs.UpdateWhere(s.documents, (d: Document) => d.id == id, change))
  }
}
