/**
 * The pure helpers of the editor integration: the extension to file-type
 * and document-type maps, the editable-MIME test, the editor configuration,
 * the callback status dispatch, and the extension of a file name as
 * `std::path::Path::extension` finds it.
 */
module OnlyOfficeService {
  import opened Wrappers
  import opened Uuids
  import opened Errors
  import Text

  /** The file types the editor is told about. */
  const FileTypes: set<string> := {"docx", "xlsx", "pptx", "txt", "pdf"}

  /** The editor families. */
  const DocumentTypes: set<string> := {"word", "cell", "slide"}

  /**
   * `get_file_type_from_extension`: case is ignored; the legacy formats map
   * to their successors and anything unknown is treated as a word document.
   */
  function FileTypeFromExtension(extension: string): (r: string)
    ensures r in FileTypes
    ensures Text.Lower(extension) in {"docx", "doc"} ==> r == "docx"
    ensures Text.Lower(extension) in {"xlsx", "xls"} ==> r == "xlsx"
    ensures Text.Lower(extension) in {"pptx", "ppt"} ==> r == "pptx"
    ensures Text.Lower(extension) in {"txt", "pdf"} ==> r == Text.Lower(extension)
    ensures Text.Lower(extension) !in {"docx", "doc", "xlsx", "xls", "pptx", "ppt", "txt", "pdf"} ==> r == "docx"
  {
    var e := Text.Lower(extension);
    if e == "docx" || e == "doc" then "docx"
    else if e == "xlsx" || e == "xls" then "xlsx"
    else if e == "pptx" || e == "ppt" then "pptx"
    else if e == "txt" then "txt"
    else if e == "pdf" then "pdf"
    else "docx"
  }

  /**
   * `get_document_type_from_extension`: spreadsheets are cells,
   * presentations slides, and everything else, PDF and unknown included,
   * is a word document.
   */
  function DocumentTypeFromExtension(extension: string): (r: string)
    ensures r in DocumentTypes
    ensures r == "cell" <==> Text.Lower(extension) in {"xlsx", "xls"}
    ensures r == "slide" <==> Text.Lower(extension) in {"pptx", "ppt"}
  {
    var e := Text.Lower(extension);
    if e == "docx" || e == "doc" || e == "txt" then "word"
    else if e == "xlsx" || e == "xls" then "cell"
    else if e == "pptx" || e == "ppt" then "slide"
    else if e == "pdf" then "word"
    else "word"
  }

  /** The editor family of a file type. */
  function FamilyOf(fileType: string): string {
    if fileType == "xlsx" then "cell" else if fileType == "pptx" then "slide" else "word"
  }

  /** The two maps agree: the document type is always the family of the file type. */
  lemma DocumentTypeFollowsFileType(extension: string)
    ensures DocumentTypeFromExtension(extension) == FamilyOf(FileTypeFromExtension(extension))
  {
  }

  /** Both maps ignore case. */
  lemma ExtensionMapsIgnoreCase(extension: string)
    ensures FileTypeFromExtension(extension) == FileTypeFromExtension(Text.Lower(extension))
    ensures DocumentTypeFromExtension(extension) == DocumentTypeFromExtension(Text.Lower(extension))
  {
    Text.LowerIsLowercase(extension);
  }

  const WordMime: string := "application/vnd.openxmlformats-officedocument.wordprocessingml.document"
  const SheetMime: string := "application/vnd.openxmlformats-officedocument.spreadsheetml.sheet"
  const SlidesMime: string := "application/vnd.openxmlformats-officedocument.presentationml.presentation"
  const TextMime: string := "text/plain"

  /** `can_edit_file`: exactly the three OOXML types and plain text, compared verbatim. */
  function CanEditFile(mimeType: string): (r: bool)
    ensures r <==> mimeType in {WordMime, SheetMime, SlidesMime, TextMime}
  {
    mimeType == WordMime || mimeType == SheetMime || mimeType == SlidesMime || mimeType == TextMime
  }

  /** The MIME comparison is exact: a differently cased type is not editable. */
  lemma CanEditFileIsCaseSensitive()
    ensures !CanEditFile("TEXT/PLAIN")
  {
    assert "TEXT/PLAIN"[0] != TextMime[0];
  }

  datatype Permissions = Permissions(download: bool, edit: bool, printing: bool, review: bool, comment: bool)
  datatype DocumentConfig = DocumentConfig(fileType: string, key: string, title: string, url: string, permissions: Permissions)
  datatype EditorUser = EditorUser(id: string, name: string)
  datatype EditorConfig = EditorConfig(callbackUrl: string, mode: string, user: EditorUser)
  datatype EditorResponse = EditorResponse(document: DocumentConfig, editorConfig: EditorConfig)

  const CallbackPath: string := "/api/onlyoffice/callback/"

  /**
   * `generate_editor_config`: every editing right follows `canEdit`, while
   * download and print are always granted; the document key and the user id
   * are the ids' hyphenated lower-case string forms, which parse back to the
   * ids, and the callback URL ends in the document id's string form.
   */
  function GenerateEditorConfig(documentId: Uuid, documentName: string, fileType: string, fileUrl: string,
                                userId: Uuid, userName: string, canEdit: bool, appUrl: string): (r: EditorResponse)
    ensures var p := r.document.permissions;
      p.edit == canEdit && p.review == canEdit && p.comment == canEdit && p.download && p.printing
    ensures r.editorConfig.mode == (if canEdit then "edit" else "view")
    ensures Parse(r.document.key) == Some(documentId)
    ensures var u := r.editorConfig.callbackUrl;
      |u| == |appUrl| + |CallbackPath| + 36 && u[..|appUrl|] == appUrl &&
      u[|appUrl|..|appUrl| + |CallbackPath|] == CallbackPath &&
      Parse(u[|appUrl| + |CallbackPath|..]) == Some(documentId)
    ensures r.document.fileType == fileType && r.document.title == documentName && r.document.url == fileUrl
    ensures Parse(r.editorConfig.user.id) == Some(userId) && r.editorConfig.user.name == userName
    ensures r.document.key == ToString(documentId) && r.editorConfig.user.id == ToString(userId)
    ensures r.editorConfig.callbackUrl == appUrl + CallbackPath + ToString(documentId)
  {
    ParseToString(documentId);
    ParseToString(userId);
    var permissions := Permissions(true, canEdit, true, canEdit, canEdit);
    var u := appUrl + CallbackPath + ToString(documentId);
    assert u[|appUrl| + |CallbackPath|..] == ToString(documentId);
    assert u[..|appUrl|] == appUrl;
    EditorResponse(
      DocumentConfig(fileType, ToString(documentId), documentName, fileUrl, permissions),
      EditorConfig(u, if canEdit then "edit" else "view", EditorUser(ToString(userId), userName)))
  }

  /** The body the editor posts back. */
  datatype CallbackData = CallbackData(key: string, status: int, url: Option<string>, users: Option<seq<string>>)

  datatype CallbackResponse = CallbackResponse(error: int, message: string, downloadUrl: Option<string>)

  const MissingUrlMsg: string := "Missing document URL in callback"
  const SavedMsg: string := "Document saved"
  const ClosedMsg: string := "Document closed"
  const StatusReceivedMsg: string := "Status received"

  /** Statuses 2 (ready for saving) and 6 (force-save timeout) carry a file to store. */
  predicate IsSaveStatus(status: int) {
    status == 2 || status == 6
  }

  /**
   * `handle_callback`: a save status needs a URL, and hands it on; every
   * other status is acknowledged without one. Every answer has error 0.
   */
  function HandleCallback(data: CallbackData): (r: Result<CallbackResponse, AppError>)
    ensures r.Err? <==> IsSaveStatus(data.status) && data.url.None?
    ensures r.Err? ==> r.error == BadRequest(MissingUrlMsg)
    ensures r.Ok? ==> r.value.error == 0
    ensures r.Ok? ==> (r.value.downloadUrl.Some? <==> IsSaveStatus(data.status))
    ensures r.Ok? && IsSaveStatus(data.status) ==> r.value.downloadUrl == data.url && r.value.message == SavedMsg
    ensures r.Ok? && data.status in {1, 4} ==> r.value.message == ClosedMsg
    ensures r.Ok? && !IsSaveStatus(data.status) && data.status !in {1, 4} ==> r.value.message == StatusReceivedMsg
  {
    if IsSaveStatus(data.status) then
      match data.url
      case Some(url) => Ok(CallbackResponse(0, SavedMsg, Some(url)))
      case None => Err(BadRequest(MissingUrlMsg))
    else if data.status == 1 || data.status == 4 then Ok(CallbackResponse(0, ClosedMsg, None))
    else Ok(CallbackResponse(0, StatusReceivedMsg, None))
  }

  /** The last path component that names something: not empty and not ".". */
  function LastComponent(segments: seq<string>): (r: Option<string>)
    ensures r.Some? ==> r.value in segments && r.value != "" && r.value != "."
    ensures r.None? <==> forall c :: c in segments ==> c == "" || c == "."
    decreases |segments|
  {
    if |segments| == 0 then None
    else
      var last := segments[|segments| - 1];
      assert segments == segments[..|segments| - 1] + [last];
      if last != "" && last != "." then Some(last) else LastComponent(segments[..|segments| - 1])
  }

  /**
   * `Path::new(name).file_name()` on Unix: the last component, read past
   * trailing slashes and "." components; none for a parent reference "..".
   */
  function FileName(name: string): (r: Option<string>)
    ensures r.Some? ==> '/' !in r.value && r.value !in {"", ".", ".."}
  {
    var parts := Text.Split(name, '/');
    match LastComponent(parts)
    case None => None
    case Some(c) =>
      assert exists k :: 0 <= k < |parts| && parts[k] == c;
      if c == ".." then None else Some(c)
  }

  /** The text after the last dot of a file name, unless the only dot leads the name. */
  function ExtensionOfFileName(f: string): (r: Option<string>)
    ensures r.Some? ==> '.' !in r.value
  {
    var k := LastDot(f);
    if k.None? || k.value == 0 then None else Some(f[k.value + 1..])
  }

  /** The position of the last '.', if any. */
  function LastDot(f: string): (k: Option<nat>)
    ensures k.Some? ==> k.value < |f| && f[k.value] == '.' && '.' !in f[k.value + 1..]
    ensures k.None? <==> '.' !in f
    decreases |f|
  {
    if |f| == 0 then None
    else if f[|f| - 1] == '.' then Some(|f| - 1)
    else
      assert f == f[..|f| - 1] + [f[|f| - 1]];
      var k := LastDot(f[..|f| - 1]);
      if k.Some? then
        assert f[k.value + 1..] == f[..|f| - 1][k.value + 1..] + [f[|f| - 1]];
        k
      else k
  }

  /** `Path::new(name).extension()`. */
  function Extension(name: string): (r: Option<string>)
    ensures r.Some? ==> '.' !in r.value && '/' !in r.value
  {
    match FileName(name)
    case None => None
    case Some(f) =>
      var e := ExtensionOfFileName(f);
      assert e.Some? ==> forall c :: c in e.value ==> c in f;
      e
  }

  /** A plain file name `base.ext` other than ".." has extension `ext`. */
  lemma ExtensionOfPlainName(base: string, ext: string)
    requires base != "" && '/' !in base && '/' !in ext && '.' !in ext
    requires base + "." + ext != ".."
    ensures Extension(base + "." + ext) == Some(ext)
  {
    var name := base + "." + ext;
    assert name != "" && name != ".";
    assert '/' !in name by {
      forall i | 0 <= i < |name| ensures name[i] != '/' {
        if i < |base| { assert name[i] == base[i]; }
        else if i > |base| { assert name[i] == ext[i - |base| - 1]; }
      }
    }
    Text.IndexOfAbsent(name, '/');
    assert Text.Split(name, '/') == [name];
    assert LastDot(name) == Some(|base|) by {
      assert name[|base| + 1..] == ext;
      assert name == name[..|name| - 0];
      LastDotOfSuffix(base + ".", ext);
    }
    assert name[|base| + 1..] == ext;
  }

  /** Appending dot-free text after a dot keeps that dot as the last one. */
  lemma {:induction false} LastDotOfSuffix(p: string, q: string)
    requires |p| > 0 && p[|p| - 1] == '.' && '.' !in q
    ensures LastDot(p + q) == Some(|p| - 1)
    decreases |q|
  {
    if |q| == 0 {
      assert p + q == p;
    } else {
      var f := p + q;
      assert f[|f| - 1] == q[|q| - 1];
      assert f[..|f| - 1] == p + q[..|q| - 1];
      assert '.' !in q[..|q| - 1] by {
        forall c | c in q[..|q| - 1] ensures c in q { }
      }
      LastDotOfSuffix(p, q[..|q| - 1]);
    }
  }
}
