/**
 * The document endpoints. Each reads the store, checks one or two
 * permissions, and then writes the database, the object store and the
 * search index in that order. A refusal happens before any write; a failure
 * of a later step leaves the earlier writes in place.
 */
module DocumentHandlers {
  import opened Wrappers
  import opened Uuids
  import opened Errors
  import opened PermissionModel
  import opened DocumentModel
  import opened Db
  import opened PermissionService
  import opened UploadForm
  import SearchIndex
  import Seqs

  const NoCreateFolderMsg: string := "No permission to create folder here"
  const NoFileMsg: string := "No file provided"
  const NoFileNameMsg: string := "No filename provided"
  const DefaultContentType: string := "application/octet-stream"
  const NoUploadMsg: string := "No permission to upload here"
  const NoViewMsg: string := "No permission to view this document"
  const NoUpdateMsg: string := "No permission to update this document"
  const NoFieldsMsg: string := "No fields to update"
  const NoDeleteMsg: string := "No permission to delete this document"
  const DeletedMsg: string := "Document deleted successfully"
  const NoDownloadMsg: string := "No permission to download this document"
  const FolderDownloadMsg: string := "Cannot download a folder"
  const NoMoveMsg: string := "No permission to move this document"
  const NoMoveTargetMsg: string := "No permission to move to target folder"
  const FolderMimeType: string := "inode/directory"
  const UploadFailedPrefix: string := "Failed to upload file: "
  const IndexFailedPrefix: string := "Failed to index document: "
  const UnindexFailedPrefix: string := "Failed to delete document from index: "
  const DeleteFileFailedPrefix: string := "Failed to delete file: "
  const PresignFailedPrefix: string := "Failed to generate presigned URL: "
  const NegativeLimitMsg: string := "LIMIT must not be negative"
  const NegativeOffsetMsg: string := "OFFSET must not be negative"
  /** Stands for the validator's rendering of a broken name rule. */
  const NameRuleMsg: string := "name: length must be between 1 and 255"
  const DefaultLimit: int := 50
  const DefaultOffset: int := 0
  /** Lifetime in seconds of a download link. */
  const DownloadUrlSeconds: nat := 3600

  /** The object-store key of an upload: a fresh UUID, a slash, the file name. */
  function ObjectKey(objectId: Uuid, fileName: string): (k: string)
    ensures |k| == 37 + |fileName| && k[36] == '/'
    ensures k[..36] == ToString(objectId) && k[37..] == fileName
  {
    ToString(objectId) + "/" + fileName
  }

  /** Distinct object ids give distinct keys, whatever the file names. */
  lemma ObjectKeyInjective(a: Uuid, fa: string, b: Uuid, fb: string)
    requires ObjectKey(a, fa) == ObjectKey(b, fb)
    ensures a == b && fa == fb
  {
    assert ToString(a) == ObjectKey(a, fa)[..36];
    ToStringInjective(a, b);
  }

  /** `index_document` against the search service: an upsert, or its failure. */
  function IndexStep(s: Store, d: Document, search: Call<()>): (r: Outcome<Document>)
    ensures search.Done? ==> r == Outcome(s.(index := SearchIndex.IndexDocument(s.index, d)), Ok(d))
    ensures search.Failed? ==> r == Outcome(s, Err(InternalServerError(IndexFailedPrefix + search.reason)))
  {
    match search
    case Done(_) => Outcome(s.(index := SearchIndex.IndexDocument(s.index, d)), Ok(d))
    case Failed(e) => Outcome(s, Err(InternalServerError(IndexFailedPrefix + e)))
  }

  /** `update_document` against the search service: the same upsert, or its failure. */
  function ReindexStep(s: Store, d: Document, search: Call<()>): (r: Outcome<Document>)
    ensures search.Done? ==> r == Outcome(s.(index := SearchIndex.UpdateDocument(s.index, d)), Ok(d))
    ensures search.Failed? ==> r == Outcome(s, Err(InternalServerError(IndexFailedPrefix + search.reason)))
  {
    match search
    case Done(_) => Outcome(s.(index := SearchIndex.UpdateDocument(s.index, d)), Ok(d))
    case Failed(e) => Outcome(s, Err(InternalServerError(IndexFailedPrefix + e)))
  }

  /** The row `create_folder` inserts. */
  function FolderRow(caller: Uuid, req: CreateFolderRequest, newId: Uuid, now: int): (f: Document)
    ensures f.id == newId && f.isFolder && f.fileSize == 0 && f.filePath == "" && f.mimeType == FolderMimeType
    ensures f.ownerId == caller && f.name == req.name && f.description == req.description
    ensures f.parentFolderId == req.parentFolderId && f.tags.None? && f.deletedAt.None?
    ensures f.version == InitialVersion && f.createdAt == now && f.updatedAt == now
  {
    Document(newId, req.name, req.description, "", 0, FolderMimeType, InitialVersion, caller,
             req.parentFolderId, true, None, now, now, None)
  }

  /**
   * `create_folder`: the name is validated first; a parent, when given,
   * needs Write; the folder row is the caller's, empty, and typed
   * `inode/directory`. `newId` and `now` stand for the database's generated
   * id and timestamps. The row stays when indexing then fails.
   */
  function CreateFolder(s: Store, caller: Uuid, req: CreateFolderRequest, newId: Uuid, search: Call<()>, now: int): (r: Outcome<Document>)
    ensures !req.Validate() ==> r == Outcome(s, Err(ValidationError(NameRuleMsg)))
    ensures req.Validate() && req.parentFolderId.Some? && !CheckPermission(s, caller, req.parentFolderId.value, Write, now) ==>
              r == Outcome(s, Err(Forbidden(NoCreateFolderMsg)))
    ensures r.result.Ok? <==> (req.Validate() && !HasDocument(s, newId) && search.Done? &&
              (req.parentFolderId.Some? ==> CheckPermission(s, caller, req.parentFolderId.value, Write, now)))
    ensures r.result.Ok? ==>
              var f := r.result.value;
              f.id == newId && f.isFolder && f.fileSize == 0 && f.filePath == "" && f.mimeType == FolderMimeType &&
              f.ownerId == caller && f.name == req.name && f.description == req.description &&
              f.parentFolderId == req.parentFolderId && f.tags.None? && f.deletedAt.None? &&
              r.store.documents == s.documents + [f] && r.store.index == SearchIndex.IndexDocument(s.index, f)
    ensures r.store.documents != s.documents ==> search.Failed? || r.result.Ok?
    ensures req.Validate() && (req.parentFolderId.Some? ==> CheckPermission(s, caller, req.parentFolderId.value, Write, now)) ==>
              var f := FolderRow(caller, req, newId, now);
              (HasDocument(s, newId) ==> r.store == s && r.result.Err? && r.result.error.DatabaseError?) &&
              (!HasDocument(s, newId) && search.Failed? ==>
                 r == Outcome(s.(documents := s.documents + [f]), Err(InternalServerError(IndexFailedPrefix + search.reason))))
  {
    if !req.Validate() then Outcome(s, Err(ValidationError(NameRuleMsg)))
    else if req.parentFolderId.Some? && !CheckPermission(s, caller, req.parentFolderId.value, Write, now) then
      Outcome(s, Err(Forbidden(NoCreateFolderMsg)))
    else
      var folder := FolderRow(caller, req, newId, now);
      match InsertDocument(s, folder)
      case Err(e) => Outcome(s, Err(e))
      case Ok(s1) => IndexStep(s1, folder, search)
  }

  /**
   * `upload_document`. The form is read first; a missing file or file name
   * is a BadRequest; a parent, when one parsed, needs Write. Then the bytes
   * go to the object store under a fresh key (`upload` stands for that call
   * and yields the key's UUID), the row is inserted, and the index updated.
   */
  function Upload(s: Store, caller: Uuid, parts: seq<Part>, upload: Call<Uuid>, newId: Uuid,
                  search: Call<()>, now: int): (r: Outcome<Document>)
    ensures var f := ReadForm(parts);
      (f.fileSize.None? ==> r == Outcome(s, Err(BadRequest(NoFileMsg)))) &&
      (f.fileSize.Some? && f.fileName.None? ==> r == Outcome(s, Err(BadRequest(NoFileNameMsg)))) &&
      ((f.fileSize.Some? && f.fileName.Some? && f.parentFolderId.Some? &&
        !CheckPermission(s, caller, f.parentFolderId.value, Write, now)) ==> r == Outcome(s, Err(Forbidden(NoUploadMsg))))
    ensures upload.Failed? ==> r.store == s
    ensures r.result.Ok? ==>
              var f := ReadForm(parts);
              var d := r.result.value;
              upload.Done? && d.id == newId && !d.isFolder && d.ownerId == caller &&
              Some(d.name) == f.fileName && f.fileSize.Some? && d.fileSize == f.fileSize.value &&
              d.filePath == ObjectKey(upload.value, d.name) &&
              d.mimeType == f.contentType.GetOr(DefaultContentType) &&
              d.parentFolderId == f.parentFolderId && d.description == f.description &&
              (f.tags.None? ==> d.tags.None?) && (f.tags.Some? ==> d.tags == Some(SearchIndex.Wrap(f.tags.value))) &&
              r.store.documents == s.documents + [d] && r.store.blobs == s.blobs + {d.filePath} &&
              r.store.index == SearchIndex.IndexDocument(s.index, d)
    ensures var f := ReadForm(parts);
      f.fileSize.Some? && f.fileName.Some? &&
      (f.parentFolderId.Some? ==> CheckPermission(s, caller, f.parentFolderId.value, Write, now)) ==>
        (upload.Failed? ==> r == Outcome(s, Err(InternalServerError(UploadFailedPrefix + upload.reason)))) &&
        (upload.Done? ==>
           var key := ObjectKey(upload.value, f.fileName.value);
           (HasDocument(s, newId) ==>
              r.store == s.(blobs := s.blobs + {key}) && r.result.Err? && r.result.error.DatabaseError?) &&
           (!HasDocument(s, newId) && search.Failed? ==>
              r.result == Err(InternalServerError(IndexFailedPrefix + search.reason)) &&
              |r.store.documents| == |s.documents| + 1 && r.store.documents[..|s.documents|] == s.documents &&
              r.store.documents[|s.documents|].id == newId && r.store.documents[|s.documents|].filePath == key &&
              r.store == s.(documents := r.store.documents, blobs := s.blobs + {key}))) &&
        (r.result.Ok? <==> upload.Done? && !HasDocument(s, newId) && search.Done?)
  {
    var f := ReadForm(parts);
    if f.fileSize.None? then Outcome(s, Err(BadRequest(NoFileMsg)))
    else if f.fileName.None? then Outcome(s, Err(BadRequest(NoFileNameMsg)))
    else if f.parentFolderId.Some? && !CheckPermission(s, caller, f.parentFolderId.value, Write, now) then
      Outcome(s, Err(Forbidden(NoUploadMsg)))
    else
      var name := f.fileName.value;
      match upload
      case Failed(e) => Outcome(s, Err(InternalServerError(UploadFailedPrefix + e)))
      case Done(objectId) =>
        var key := ObjectKey(objectId, name);
        var s1 := s.(blobs := s.blobs + {key});
        var tags := if f.tags.None? then None else Some(SearchIndex.Wrap(f.tags.value));
        var d := Document(newId, name, f.description, key, f.fileSize.value, f.contentType.GetOr(DefaultContentType),
                          InitialVersion, caller, f.parentFolderId, false, tags, now, now, None);
        match InsertDocument(s1, d)
        case Err(e) => Outcome(s1, Err(e))
        case Ok(s2) => IndexStep(s2, d, search)
  }

  /**
   * A parent folder field that does not parse is no parent: the upload then
   * needs no permission at all and lands at the root.
   */
  lemma UnparsedParentIsRoot(s: Store, caller: Uuid, parts: seq<Part>, upload: Call<Uuid>, newId: Uuid,
                             search: Call<()>, now: int)
    requires LastNamed(parts, "parent_folder_id").Some?
    requires Parse(LastNamed(parts, "parent_folder_id").value.text).None?
    ensures ReadForm(parts).parentFolderId.None?
    ensures var r := Upload(s, caller, parts, upload, newId, search, now);
      r.result.Ok? ==> r.result.value.parentFolderId.None?
  {
    ReadFormLastWins(parts);
  }

  /**
   * `get_document`: the lookup comes first, so a missing id is NotFound for
   * everyone; an existing document then needs Read. A soft-deleted row is
   * still returned.
   */
  function GetDocument(s: Store, caller: Uuid, id: Uuid, now: int): (r: Result<Document, AppError>)
    ensures !HasDocument(s, id) ==> r == Err(NotFound(ResourceNotFound))
    ensures HasDocument(s, id) && !CheckPermission(s, caller, id, Read, now) ==> r == Err(Forbidden(NoViewMsg))
    ensures r.Ok? <==> HasDocument(s, id) && CheckPermission(s, caller, id, Read, now)
    ensures r.Ok? ==> r.value in s.documents && r.value.id == id
  {
    match FindDocument(s, id)
    case Err(e) => Err(e)
    case Ok(d) => if !CheckPermission(s, caller, id, Read, now) then Err(Forbidden(NoViewMsg)) else Ok(d)
  }

  /** A soft-deleted document stays visible to its owner through `get_document`. */
  lemma DeletedStillVisible(s: Store, d: Document, now: int)
    requires UniqueDocumentIds(s) && d in s.documents && d.deletedAt.Some?
    ensures GetDocument(s, d.ownerId, d.id, now) == Ok(d)
  {
    var i :| 0 <= i < |s.documents| && s.documents[i] == d;
    FindDocumentUnique(s, d.id, i);
  }

  /** The rows `list_documents` selects before ordering. */
  predicate Listed(d: Document, caller: Uuid, folder: Option<Uuid>) {
    d.ownerId == caller && d.deletedAt.None? && d.parentFolderId == folder
  }

  predicate SortedNewestFirst(xs: seq<Document>) {
    forall i, j :: 0 <= i < j < |xs| ==> xs[i].createdAt >= xs[j].createdAt
  }

  /** A row no older than every row of a sorted sequence may go in front of it. */
  lemma SortedCons(x: Document, ys: seq<Document>)
    requires SortedNewestFirst(ys)
    requires forall y :: y in ys ==> y.createdAt <= x.createdAt
    ensures SortedNewestFirst([x] + ys)
  {
    var r := [x] + ys;
    forall i, j | 0 <= i < j < |r| ensures r[i].createdAt >= r[j].createdAt {
      if i > 0 {
        assert r[i] == ys[i - 1] && r[j] == ys[j - 1];
      } else {
        assert r[j] in ys;
      }
    }
  }

  /** Places `d` before the first row not newer than it. */
  function InsertNewestFirst(d: Document, xs: seq<Document>): (r: seq<Document>)
    requires SortedNewestFirst(xs)
    ensures SortedNewestFirst(r)
    ensures multiset(r) == multiset(xs) + multiset{d}
    decreases |xs|
  {
    if |xs| == 0 then [d]
    else if d.createdAt >= xs[0].createdAt then
      SortedCons(d, xs);
      [d] + xs
    else
      var rest := InsertNewestFirst(d, xs[1..]);
      InsertStep(d, xs, rest);
      [xs[0]] + rest
  }

  /** The recursive case of `InsertNewestFirst`: the head of `xs` stays in front. */
  lemma InsertStep(d: Document, xs: seq<Document>, rest: seq<Document>)
    requires SortedNewestFirst(xs) && |xs| > 0 && d.createdAt < xs[0].createdAt
    requires SortedNewestFirst(rest) && multiset(rest) == multiset(xs[1..]) + multiset{d}
    ensures SortedNewestFirst([xs[0]] + rest)
    ensures multiset([xs[0]] + rest) == multiset(xs) + multiset{d}
  {
    assert xs == [xs[0]] + xs[1..];
    forall y | y in rest ensures y.createdAt <= xs[0].createdAt {
      assert y in multiset(rest);
      if y != d {
        assert y in multiset(xs[1..]);
        var k :| 0 <= k < |xs[1..]| && xs[1..][k] == y;
        assert xs[k + 1] == y;
      }
    }
    SortedCons(xs[0], rest);
  }

  /**
   * `ORDER BY created_at DESC`. The database leaves rows with equal
   * timestamps in no particular order; the model fixes them to table order.
   */
  function SortNewestFirst(xs: seq<Document>): (r: seq<Document>)
    ensures SortedNewestFirst(r)
    ensures multiset(r) == multiset(xs)
    decreases |xs|
  {
    if |xs| == 0 then []
    else
      assert xs == [xs[0]] + xs[1..];
      InsertNewestFirst(xs[0], SortNewestFirst(xs[1..]))
  }

  /** `LIMIT limit OFFSET offset` on non-negative values. */
  function Page(xs: seq<Document>, limit: nat, offset: nat): (r: seq<Document>)
    ensures |r| <= limit
    ensures offset >= |xs| ==> r == []
    ensures offset < |xs| ==> r == xs[offset..if offset + limit < |xs| then offset + limit else |xs|]
    ensures forall d :: d in r ==> d in xs
    ensures SortedNewestFirst(xs) ==> SortedNewestFirst(r)
  {
    if offset >= |xs| then []
    else if offset + limit < |xs| then xs[offset..offset + limit]
    else xs[offset..]
  }

  /** The caller's live rows directly in the folder, newest first, before paging. */
  function Listing(s: Store, caller: Uuid, folder: Option<Uuid>): (r: seq<Document>)
    ensures SortedNewestFirst(r)
    ensures multiset(r) == multiset(Seqs.Filter(s.documents, (d: Document) => Listed(d, caller, folder)))
    ensures forall d :: d in r <==> d in s.documents && Listed(d, caller, folder)
    ensures |r| <= |s.documents|
  {
    var selected := Seqs.Filter(s.documents, (d: Document) => Listed(d, caller, folder));
    var r := SortNewestFirst(selected);
    assert forall d :: d in r <==> d in multiset(selected);
    assert |r| == |multiset(r)| == |multiset(selected)| == |selected|;
    r
  }

  /**
   * `list_documents`: the caller's own live rows directly in the folder
   * (at the root when none is given), newest first, one page of them. A
   * negative offset or limit is rejected by the database, the offset first.
   * An absent limit is 50 and an absent offset 0.
   */
  function ListDocuments(s: Store, caller: Uuid, folder: Option<Uuid>, limitParam: Option<int>, offsetParam: Option<int>): (r: Result<seq<Document>, AppError>)
    ensures var limit, offset := limitParam.GetOr(DefaultLimit), offsetParam.GetOr(DefaultOffset);
      (offset < 0 ==> r == Err(DatabaseError(NegativeOffsetMsg))) &&
      (offset >= 0 && limit < 0 ==> r == Err(DatabaseError(NegativeLimitMsg))) &&
      (r.Ok? <==> offset >= 0 && limit >= 0) &&
      (r.Ok? ==> |r.value| <= limit)
    ensures r.Ok? ==> SortedNewestFirst(r.value)
    ensures r.Ok? ==> forall d :: d in r.value ==> d in s.documents && Listed(d, caller, folder)
    ensures r.Ok? && offsetParam.GetOr(DefaultOffset) == 0 && limitParam.GetOr(DefaultLimit) >= |s.documents| ==>
              r.value == Listing(s, caller, folder)
    ensures var limit, offset := limitParam.GetOr(DefaultLimit), offsetParam.GetOr(DefaultOffset);
      r.Ok? && limit >= 0 && offset >= 0 ==> r.value == Page(Listing(s, caller, folder), limit, offset)
  {
    var limit, offset := limitParam.GetOr(DefaultLimit), offsetParam.GetOr(DefaultOffset);
    if offset < 0 then Err(DatabaseError(NegativeOffsetMsg))
    else if limit < 0 then Err(DatabaseError(NegativeLimitMsg))
    else Ok(Page(Listing(s, caller, folder), limit, offset))
  }

  /** What `update_document` writes: the supplied fields, and the update time. */
  function ApplyUpdate(d: Document, req: UpdateDocumentRequest, now: int): (e: Document)
    ensures e.name == req.name.GetOr(d.name)
    ensures e.description == (if req.description.Some? then req.description else d.description)
    ensures e.tags == (if req.tags.Some? then Some(SearchIndex.Wrap(req.tags.value)) else d.tags)
    ensures e.updatedAt == now
    ensures e.(name := d.name, description := d.description, tags := d.tags, updatedAt := d.updatedAt) == d
  {
    d.(name := req.name.GetOr(d.name),
       description := if req.description.Some? then req.description else d.description,
       tags := if req.tags.Some? then Some(SearchIndex.Wrap(req.tags.value)) else d.tags,
       updatedAt := now)
  }

  /**
   * `update_document`: validation, then Write, then the empty-payload check,
   * then the row update (NotFound when the row is missing), then the index.
   * Only the supplied fields and `updated_at` change.
   */
  function UpdateDocument(s: Store, caller: Uuid, id: Uuid, req: UpdateDocumentRequest, search: Call<()>, now: int): (r: Outcome<Document>)
    ensures !req.Validate() ==> r == Outcome(s, Err(ValidationError(NameRuleMsg)))
    ensures req.Validate() && !CheckPermission(s, caller, id, Write, now) ==> r == Outcome(s, Err(Forbidden(NoUpdateMsg)))
    ensures req.Validate() && CheckPermission(s, caller, id, Write, now) && req.IsEmpty() ==>
              r == Outcome(s, Err(BadRequest(NoFieldsMsg)))
    ensures req.Validate() && CheckPermission(s, caller, id, Write, now) && !req.IsEmpty() && !HasDocument(s, id) ==>
              r == Outcome(s, Err(NotFound(ResourceNotFound)))
    ensures r.result.Ok? <==> (req.Validate() && CheckPermission(s, caller, id, Write, now) && !req.IsEmpty() &&
                               HasDocument(s, id) && search.Done?)
    ensures r.result.Err? && !search.Failed? ==> r.store == s
    ensures r.result.Ok? ==>
              r.store == UpdateDocumentRows(s, id, d => ApplyUpdate(d, req, now)).(index := SearchIndex.UpdateDocument(s.index, r.result.value)) &&
              exists d :: d in s.documents && d.id == id && r.result.value == ApplyUpdate(d, req, now)
  {
    if !req.Validate() then Outcome(s, Err(ValidationError(NameRuleMsg)))
    else if !CheckPermission(s, caller, id, Write, now) then Outcome(s, Err(Forbidden(NoUpdateMsg)))
    else if req.IsEmpty() then Outcome(s, Err(BadRequest(NoFieldsMsg)))
    else match UpdateDocumentReturning(s, id, d => ApplyUpdate(d, req, now))
      case Err(e) => Outcome(s, Err(e))
      case Ok((s1, d)) => ReindexStep(s1, d, search)
  }

  /**
   * The write check precedes the lookup: a caller without Write on a
   * missing id hears Forbidden, not NotFound.
   */
  lemma UpdateMissingIsForbidden(s: Store, caller: Uuid, id: Uuid, req: UpdateDocumentRequest, search: Call<()>, now: int)
    requires req.Validate() && !HasDocument(s, id)
    requires forall p :: p in s.permissions ==> p.documentId != id
    requires forall g :: g in s.groupPermissions ==> g.documentId != id
    ensures UpdateDocument(s, caller, id, req, search, now) == Outcome(s, Err(Forbidden(NoUpdateMsg)))
  {
    forall g, m | g in s.groupPermissions && m in s.groupMembers
      ensures !(GroupGrant(g, id, Write, now) && MemberOf(m, caller, g.groupId)) {
    }
  }

  /** The store after the soft delete: every row with the id gets `deleted_at = now`. */
  function SoftDeleted(s: Store, id: Uuid, now: int): (r: Store)
    ensures r == s.(documents := r.documents) && |r.documents| == |s.documents|
    ensures forall i :: 0 <= i < |s.documents| ==>
              r.documents[i] == if s.documents[i].id == id then s.documents[i].(deletedAt := Some(now)) else s.documents[i]
  {
    UpdateDocumentRows(s, id, (e: Document) => e.(deletedAt := Some(now)))
  }

  /**
   * `delete_document`: Delete is checked before the lookup; the row is soft
   * deleted (every row with the id gets `deleted_at = now`), removed from the
   * index, and, unless it is a folder, its object is deleted from storage.
   * Each later failure leaves the earlier steps done.
   */
  function DeleteDocument(s: Store, caller: Uuid, id: Uuid, unindex: Call<()>, removeFile: Call<()>, now: int): (r: Outcome<string>)
    ensures !CheckPermission(s, caller, id, Delete, now) ==> r == Outcome(s, Err(Forbidden(NoDeleteMsg)))
    ensures CheckPermission(s, caller, id, Delete, now) && !HasDocument(s, id) ==> r == Outcome(s, Err(NotFound(ResourceNotFound)))
    ensures r.result.Ok? ==> r.result.value == DeletedMsg && unindex.Done?
    ensures r.result.Ok? ==>
              var d := FindDocument(s, id).value;
              CheckPermission(s, caller, id, Delete, now) && (!d.isFolder ==> removeFile.Done?) &&
              r.store.documents == SoftDeleted(s, id, now).documents &&
              r.store.index == SearchIndex.DeleteDocument(s.index, id) &&
              r.store.blobs == (if d.isFolder then s.blobs else s.blobs - {d.filePath}) &&
              r.store == s.(documents := r.store.documents, index := r.store.index, blobs := r.store.blobs)
    ensures r.result.Ok? <==>
              CheckPermission(s, caller, id, Delete, now) && HasDocument(s, id) && unindex.Done? &&
              (FindDocument(s, id).value.isFolder || removeFile.Done?)
    ensures CheckPermission(s, caller, id, Delete, now) && HasDocument(s, id) ==>
              var d := FindDocument(s, id).value;
              (unindex.Failed? ==>
                 r == Outcome(SoftDeleted(s, id, now), Err(InternalServerError(UnindexFailedPrefix + unindex.reason)))) &&
              (unindex.Done? && !d.isFolder && removeFile.Failed? ==>
                 r == Outcome(SoftDeleted(s, id, now).(index := SearchIndex.DeleteDocument(s.index, id)),
                              Err(InternalServerError(DeleteFileFailedPrefix + removeFile.reason))))
  {
    if !CheckPermission(s, caller, id, Delete, now) then Outcome(s, Err(Forbidden(NoDeleteMsg)))
    else match FindDocument(s, id)
      case Err(e) => Outcome(s, Err(e))
      case Ok(d) =>
        var s1 := SoftDeleted(s, id, now);
        match unindex
        case Failed(e) => Outcome(s1, Err(InternalServerError(UnindexFailedPrefix + e)))
        case Done(_) =>
          var s2 := s1.(index := SearchIndex.DeleteDocument(s1.index, id));
          if d.isFolder then Outcome(s2, Ok(DeletedMsg))
          else match removeFile
            case Failed(e) => Outcome(s2, Err(InternalServerError(DeleteFileFailedPrefix + e)))
            case Done(_) => Outcome(s2.(blobs := s2.blobs - {d.filePath}), Ok(DeletedMsg))
  }

  /** A folder's delete never touches storage, whatever the storage would say. */
  lemma FolderDeleteKeepsBlobs(s: Store, caller: Uuid, id: Uuid, unindex: Call<()>, removeFile: Call<()>, now: int)
    requires HasDocument(s, id) && FindDocument(s, id).value.isFolder
    ensures DeleteDocument(s, caller, id, unindex, removeFile, now).store.blobs == s.blobs
    ensures DeleteDocument(s, caller, id, unindex, removeFile, now) == DeleteDocument(s, caller, id, unindex, Failed("unused"), now)
  {
  }

  /**
   * `download_document`: lookup, then Read, then folders are refused; a
   * file yields a link valid for an hour (`presign` stands for the storage's
   * signer). Nothing is written.
   */
  function Download(s: Store, caller: Uuid, id: Uuid, presign: (string, nat) -> Call<string>, now: int): (r: Result<string, AppError>)
    ensures !HasDocument(s, id) ==> r == Err(NotFound(ResourceNotFound))
    ensures HasDocument(s, id) && !CheckPermission(s, caller, id, Read, now) ==> r == Err(Forbidden(NoDownloadMsg))
    ensures HasDocument(s, id) && CheckPermission(s, caller, id, Read, now) && FindDocument(s, id).value.isFolder ==>
              r == Err(BadRequest(FolderDownloadMsg))
    ensures r.Ok? <==> (HasDocument(s, id) && CheckPermission(s, caller, id, Read, now) &&
                        !FindDocument(s, id).value.isFolder &&
                        presign(FindDocument(s, id).value.filePath, DownloadUrlSeconds).Done?)
    ensures r.Ok? ==> r.value == presign(FindDocument(s, id).value.filePath, DownloadUrlSeconds).value
  {
    match FindDocument(s, id)
    case Err(e) => Err(e)
    case Ok(d) =>
      if !CheckPermission(s, caller, id, Read, now) then Err(Forbidden(NoDownloadMsg))
      else if d.isFolder then Err(BadRequest(FolderDownloadMsg))
      else match presign(d.filePath, DownloadUrlSeconds)
        case Failed(e) => Err(InternalServerError(PresignFailedPrefix + e))
        case Done(url) => Ok(url)
  }

  /**
   * `move_document`: Write on the document, then Write on the target when
   * there is one, then the row update; only `parent_folder_id` changes.
   */
  function MoveDocument(s: Store, caller: Uuid, id: Uuid, req: MoveDocumentRequest, now: int): (r: Outcome<Document>)
    ensures !CheckPermission(s, caller, id, Write, now) ==> r == Outcome(s, Err(Forbidden(NoMoveMsg)))
    ensures (CheckPermission(s, caller, id, Write, now) && req.targetFolderId.Some? &&
             !CheckPermission(s, caller, req.targetFolderId.value, Write, now)) ==> r == Outcome(s, Err(Forbidden(NoMoveTargetMsg)))
    ensures r.result.Err? ==> r.store == s
    ensures r.result.Ok? <==> (CheckPermission(s, caller, id, Write, now) && HasDocument(s, id) &&
                               (req.targetFolderId.Some? ==> CheckPermission(s, caller, req.targetFolderId.value, Write, now)))
    ensures r.result.Ok? ==> r.store == s.(documents := r.store.documents) && |r.store.documents| == |s.documents|
    ensures r.result.Ok? ==> forall i :: 0 <= i < |s.documents| ==>
              r.store.documents[i] == if s.documents[i].id == id then s.documents[i].(parentFolderId := req.targetFolderId)
                                      else s.documents[i]
    ensures r.result.Ok? ==> r.result.value.id == id && r.result.value.parentFolderId == req.targetFolderId
  {
    if !CheckPermission(s, caller, id, Write, now) then Outcome(s, Err(Forbidden(NoMoveMsg)))
    else if req.targetFolderId.Some? && !CheckPermission(s, caller, req.targetFolderId.value, Write, now) then
      Outcome(s, Err(Forbidden(NoMoveTargetMsg)))
    else match UpdateDocumentReturning(s, id, (d: Document) => d.(parentFolderId := req.targetFolderId))
      case Err(e) => Outcome(s, Err(e))
      case Ok((s1, d)) => Outcome(s1, Ok(d))
  }

  /** There is no cycle check: an owner may move a folder into itself. */
  lemma MoveIntoItself(s: Store, f: Document, now: int)
    requires f in s.documents && f.isFolder
    ensures var r := MoveDocument(s, f.ownerId, f.id, MoveDocumentRequest(Some(f.id)), now);
      r.result.Ok? && r.result.value.parentFolderId == Some(f.id)
  {
    assert Owns(f, f.ownerId, f.id);
  }
}
