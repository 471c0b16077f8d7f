/**
 * The two editor endpoints: the configuration handed to the browser's
 * document editor, and the callback through which the editor server
 * reports edits and saved files.
 */
module OnlyOfficeHandlers {
  import opened Wrappers
  import opened Uuids
  import opened Errors
  import opened PermissionModel
  import opened DocumentModel
  import opened Db
  import opened PermissionService
  import opened OnlyOfficeService
  import DocumentHandlers

  const CannotEditFolderMsg: string := "Cannot edit a folder"
  const PresignFailedPrefix: string := "Failed to generate presigned URL: "
  const JwtFailedPrefix: string := "Failed to generate OnlyOffice JWT: "
  const DocumentNotFoundMsg: string := "Document not found"
  const DownloadFailedPrefix: string := "Failed to download updated file: "
  const ReadFailedPrefix: string := "Failed to read file data: "
  const UploadFailedPrefix: string := "Failed to upload file: "
  const SavedVersionComment: string := "Updated via OnlyOffice"
  /** Lifetime in seconds of the link the editor server fetches the file from. */
  const EditorUrlSeconds: nat := 3600
  /** The extension assumed for a name that has none. */
  const DefaultExtension: string := "docx"

  /** The reply of the configuration endpoint: the signed editor configuration and the editor server's address. */
  datatype EditorReply = EditorReply(config: EditorResponse, documentType: string, token: string, server: string)

  /** The file type the editor is told, from the document's name. */
  function FileTypeOfName(name: string): string {
    FileTypeFromExtension(Extension(name).GetOr(DefaultExtension))
  }

  /**
   * `get_editor_config`. The lookup comes first, then folders are refused,
   * and only then is Read checked, so anyone learns whether an id is a
   * folder. Editing rights follow the Write check. `presign` stands for the
   * object store's signer, `sign` for signing the configuration and its
   * document type with the editor's shared secret.
   */
  function GetEditorConfig(s: Store, caller: Uuid, username: string, id: Uuid,
                           presign: (string, nat) -> Call<string>, sign: (EditorResponse, string) -> Call<string>,
                           appUrl: string, server: string, now: int): (r: Result<EditorReply, AppError>)
    ensures !HasDocument(s, id) ==> r == Err(NotFound(ResourceNotFound))
    ensures HasDocument(s, id) && FindDocument(s, id).value.isFolder ==> r == Err(BadRequest(CannotEditFolderMsg))
    ensures HasDocument(s, id) && !FindDocument(s, id).value.isFolder && !CheckPermission(s, caller, id, Read, now) ==>
              r == Err(Forbidden(DocumentHandlers.NoViewMsg))
    ensures r.Ok? ==> HasDocument(s, id) && !FindDocument(s, id).value.isFolder && CheckPermission(s, caller, id, Read, now)
    ensures r.Ok? ==>
              var d := FindDocument(s, id).value;
              var c := r.value.config;
              var fileType := FileTypeOfName(d.name);
              presign(d.filePath, EditorUrlSeconds).Done? && c.document.url == presign(d.filePath, EditorUrlSeconds).value &&
              c.document.permissions.edit == CheckPermission(s, caller, id, Write, now) &&
              c.editorConfig.mode == (if CheckPermission(s, caller, id, Write, now) then "edit" else "view") &&
              c.document.fileType == fileType && r.value.documentType == FamilyOf(fileType) &&
              c.document.title == d.name && Parse(c.document.key) == Some(id) &&
              Parse(c.editorConfig.user.id) == Some(caller) && c.editorConfig.user.name == username &&
              sign(c, r.value.documentType) == Done(r.value.token) && r.value.server == server
    ensures HasDocument(s, id) && !FindDocument(s, id).value.isFolder && CheckPermission(s, caller, id, Read, now) ==>
              var d := FindDocument(s, id).value;
              var url := presign(d.filePath, EditorUrlSeconds);
              (url.Failed? ==> r == Err(InternalServerError(PresignFailedPrefix + url.reason))) &&
              (url.Done? ==>
                 var ext := Extension(d.name).GetOr(DefaultExtension);
                 var config := GenerateEditorConfig(id, d.name, FileTypeFromExtension(ext), url.value, caller, username,
                                                    CheckPermission(s, caller, id, Write, now), appUrl);
                 var token := sign(config, DocumentTypeFromExtension(ext));
                 (token.Failed? ==> r == Err(InternalServerError(JwtFailedPrefix + token.reason))) &&
                 (r.Ok? <==> token.Done?) &&
                 (r.Ok? ==> r.value.config == config))
  {
    match FindDocument(s, id)
    case Err(e) => Err(e)
    case Ok(d) =>
      if d.isFolder then Err(BadRequest(CannotEditFolderMsg))
      else if !CheckPermission(s, caller, id, Read, now) then Err(Forbidden(DocumentHandlers.NoViewMsg))
      else
        var canEdit := CheckPermission(s, caller, id, Write, now);
        match presign(d.filePath, EditorUrlSeconds)
        case Failed(e) => Err(InternalServerError(PresignFailedPrefix + e))
        case Done(url) =>
          var extension := Extension(d.name).GetOr(DefaultExtension);
          var fileType := FileTypeFromExtension(extension);
          var documentType := DocumentTypeFromExtension(extension);
          DocumentTypeFollowsFileType(extension);
          var config := GenerateEditorConfig(id, d.name, fileType, url, caller, username, canEdit, appUrl);
          match sign(config, documentType)
          case Failed(e) => Err(InternalServerError(JwtFailedPrefix + e))
          case Done(token) => Ok(EditorReply(config, documentType, token, server))
  }

  /**
   * Levels are not ordered: a user whose only grant is Write cannot open
   * the editor at all, although the editor would let them edit.
   */
  lemma WriteOnlyGrantCannotOpenEditor(s: Store, p: DocumentPermission, d: Document, username: string,
                                       presign: (string, nat) -> Call<string>, sign: (EditorResponse, string) -> Call<string>,
                                       appUrl: string, server: string, now: int)
    requires s.documents == [d] && !d.isFolder && d.ownerId != p.userId
    requires s.permissions == [p] && s.groupPermissions == []
    requires p.documentId == d.id && p.permission == "write" && Live(p.expiresAt, now)
    ensures CheckPermission(s, p.userId, d.id, Write, now)
    ensures GetEditorConfig(s, p.userId, username, d.id, presign, sign, appUrl, server, now) == Err(Forbidden(DocumentHandlers.NoViewMsg))
  {
    assert DirectGrant(p, p.userId, d.id, Write, now);
    assert !IsOwner(s, p.userId, d.id) by {
      forall e | e in s.documents ensures !Owns(e, p.userId, d.id) { }
    }
    assert !HasLiveDirectGrant(s, p.userId, d.id, Read, now) by {
      forall q | q in s.permissions ensures !DirectGrant(q, p.userId, d.id, Read, now) {
        assert q.permission != AsStr(Read);
      }
    }
    assert d in s.documents;
  }

  /** Whether a version row already has this id, so that inserting another under it fails. */
  predicate VersionIdTaken(s: Store, versionId: Uuid) {
    exists w :: w in s.versions && w.id == versionId
  }

  /** What the editor server's file URL gave back. */
  datatype Fetch = Fetched(size: nat) | SendFailed(reason: string) | ReadFailed(reason: string)

  /** The version row a save appends. Its author is the document's owner, whoever edited. */
  function SavedVersion(d: Document, versionId: Uuid, key: string, size: nat, now: int): (v: DocumentVersion)
    ensures v.documentId == d.id && v.version == d.version + 1 && v.filePath == key && v.fileSize == size
    ensures v.createdBy == d.ownerId && v.comment == Some(SavedVersionComment)
  {
    DocumentVersion(versionId, d.id, d.version + 1, key, size, Some(SavedVersionComment), d.ownerId, now)
  }

  /** The document row after a save: the new file, its size, the next version number. */
  function Saved(e: Document, d: Document, key: string, size: nat, now: int): (f: Document)
    ensures f.id == e.id
  {
    e.(filePath := key, fileSize := size, version := d.version + 1, updatedAt := now)
  }

  /**
   * `onlyoffice_callback`. The endpoint takes no caller. The lookup failing
   * is always "Document not found"; the status is dispatched next. For a
   * save, the file is fetched from the given URL (`download`), stored under
   * a fresh key (`upload`), a version row is appended, the document row
   * points at the new file with the next version number, and the old object
   * is deleted, a failure there being ignored. Each failure leaves the
   * earlier steps done.
   */
  function Callback(s: Store, id: Uuid, data: CallbackData, download: string -> Fetch, upload: Call<Uuid>,
                    versionId: Uuid, removeOld: Call<()>, now: int): (r: Outcome<CallbackResponse>)
    ensures !HasDocument(s, id) ==> r == Outcome(s, Err(NotFound(DocumentNotFoundMsg)))
    ensures HasDocument(s, id) && (HandleCallback(data).Err? || !IsSaveStatus(data.status)) ==>
              r == Outcome(s, HandleCallback(data))
    ensures r.result.Ok? ==> r.result == HandleCallback(data)
    ensures r.store != s ==> HasDocument(s, id) && IsSaveStatus(data.status) && data.url.Some? &&
                             download(data.url.value).Fetched? && upload.Done?
    ensures r.result.Ok? && IsSaveStatus(data.status) ==>
              HasDocument(s, id) && data.url.Some? && upload.Done? && download(data.url.value).Fetched? &&
              var d := FindDocument(s, id).value;
              var size := download(data.url.value).size;
              var key := DocumentHandlers.ObjectKey(upload.value, d.name);
              r.store.versions == s.versions + [SavedVersion(d, versionId, key, size, now)] &&
              r.store.documents == UpdateDocumentRows(s, id, (e: Document) => Saved(e, d, key, size, now)).documents &&
              r.store.blobs == (if removeOld.Done? then (s.blobs + {key}) - {d.filePath} else s.blobs + {key}) &&
              r.store == s.(versions := r.store.versions, documents := r.store.documents, blobs := r.store.blobs)
    ensures HasDocument(s, id) && IsSaveStatus(data.status) && data.url.Some? ==>
              var d := FindDocument(s, id).value;
              var fetch := download(data.url.value);
              (fetch.SendFailed? ==> r == Outcome(s, Err(InternalServerError(DownloadFailedPrefix + fetch.reason)))) &&
              (fetch.ReadFailed? ==> r == Outcome(s, Err(InternalServerError(ReadFailedPrefix + fetch.reason)))) &&
              (fetch.Fetched? && upload.Failed? ==> r == Outcome(s, Err(InternalServerError(UploadFailedPrefix + upload.reason)))) &&
              (fetch.Fetched? && upload.Done? && VersionIdTaken(s, versionId) ==>
                 r.store == s.(blobs := s.blobs + {DocumentHandlers.ObjectKey(upload.value, d.name)}) &&
                 r.result.Err? && r.result.error.DatabaseError?) &&
              (r.result.Ok? <==> fetch.Fetched? && upload.Done? && !VersionIdTaken(s, versionId))
    ensures r.result.Ok? <==>
              HasDocument(s, id) && HandleCallback(data).Ok? &&
              (IsSaveStatus(data.status) ==> download(data.url.value).Fetched? && upload.Done? && !VersionIdTaken(s, versionId))
  {
    match FindDocument(s, id)
    case Err(_) => Outcome(s, Err(NotFound(DocumentNotFoundMsg)))
    case Ok(d) =>
      match HandleCallback(data)
      case Err(e) => Outcome(s, Err(e))
      case Ok(response) =>
        if IsSaveStatus(data.status) && response.downloadUrl.Some? then
          match download(response.downloadUrl.value)
          case SendFailed(e) => Outcome(s, Err(InternalServerError(DownloadFailedPrefix + e)))
          case ReadFailed(e) => Outcome(s, Err(InternalServerError(ReadFailedPrefix + e)))
          case Fetched(size) =>
            match upload
            case Failed(e) => Outcome(s, Err(InternalServerError(UploadFailedPrefix + e)))
            case Done(objectId) =>
              var key := DocumentHandlers.ObjectKey(objectId, d.name);
              var s1 := s.(blobs := s.blobs + {key});
              match InsertVersion(s1, SavedVersion(d, versionId, key, size, now))
              case Err(e) => Outcome(s1, Err(e))
              case Ok(s2) =>
                var s3 := UpdateDocumentRows(s2, id, (e: Document) => Saved(e, d, key, size, now));
                var s4 := if removeOld.Done? then s3.(blobs := s3.blobs - {d.filePath}) else s3;
                Outcome(s4, Ok(response))
        else Outcome(s, Ok(response))
  }

  /**
   * After a successful save the document, looked up again, carries the next
   * version number and the new file, and the newest version row describes
   * that same file.
   */
  lemma SaveBumpsVersion(s: Store, id: Uuid, data: CallbackData, download: string -> Fetch, upload: Call<Uuid>,
                         versionId: Uuid, removeOld: Call<()>, now: int)
    requires UniqueDocumentIds(s)
    requires IsSaveStatus(data.status)
    requires Callback(s, id, data, download, upload, versionId, removeOld, now).result.Ok?
    ensures var r := Callback(s, id, data, download, upload, versionId, removeOld, now);
      var before := FindDocument(s, id).value;
      HasDocument(r.store, id) && UniqueDocumentIds(r.store) &&
      var after := FindDocument(r.store, id).value;
      after.version == before.version + 1 &&
      |r.store.versions| == |s.versions| + 1 &&
      var v := r.store.versions[|s.versions|];
      v.documentId == id && v.version == after.version && v.filePath == after.filePath && v.fileSize == after.fileSize &&
      after.name == before.name && after.ownerId == before.ownerId
  {
    var r := Callback(s, id, data, download, upload, versionId, removeOld, now);
    var d := FindDocument(s, id).value;
    var size := download(data.url.value).size;
    var key := DocumentHandlers.ObjectKey(upload.value, d.name);
    var change := (e: Document) => Saved(e, d, key, size, now);
    var i :| 0 <= i < |s.documents| && s.documents[i] == d;
    UpdateKeepsUniqueIds(s, id, change);
    var u := UpdateDocumentRows(s, id, change);
    assert u.documents[i] == change(d);
    assert r.store.documents == u.documents;
    FindDocumentUnique(u, id, i);
    FindDocumentUnique(r.store, id, i);
  }

  /** Whether the old object could be deleted changes nothing but the object store. */
  lemma OldFileDeleteIsBestEffort(s: Store, id: Uuid, data: CallbackData, download: string -> Fetch, upload: Call<Uuid>,
                                  versionId: Uuid, removeOld: Call<()>, now: int)
    ensures var a := Callback(s, id, data, download, upload, versionId, removeOld, now);
      var b := Callback(s, id, data, download, upload, versionId, Failed("unreachable"), now);
      a.result == b.result && a.store.documents == b.store.documents && a.store.versions == b.store.versions &&
      a.store.blobs <= b.store.blobs
  {
  }

  /** A callback with no document behind it changes nothing, whatever it reports. */
  lemma UnknownDocumentCallback(s: Store, id: Uuid, data: CallbackData, download: string -> Fetch, upload: Call<Uuid>,
                                versionId: Uuid, removeOld: Call<()>, now: int)
    requires !HasDocument(s, id)
    ensures Callback(s, id, data, download, upload, versionId, removeOld, now) == Outcome(s, Err(NotFound(DocumentNotFoundMsg)))
  {
  }
}
