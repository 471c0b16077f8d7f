/** Documents, their version history, and the request bodies of the document handlers. */
module DocumentModel {
  import opened Wrappers
  import opened Uuids

  /**
   * A row of `documents`. A folder is a document with `isFolder` set;
   * `parentFolderId` is `None` at the root and `deletedAt` is set by a soft
   * delete. `tags` is a nullable array of nullable strings.
   */
  datatype Document = Document(
    id: Uuid,
    name: string,
    description: Option<string>,
    filePath: string,
    fileSize: int,
    mimeType: string,
    version: int,
    ownerId: Uuid,
    parentFolderId: Option<Uuid>,
    isFolder: bool,
    tags: Option<seq<Option<string>>>,
    createdAt: int,
    updatedAt: int,
    deletedAt: Option<int>)

  /**
   * The `version` a new row gets from the table default. The migrations are
   * not part of this model; the first version is taken to be 1.
   */
  const InitialVersion: int := 1

  /** A row of `document_versions`: one saved revision of a document's file. */
  datatype DocumentVersion = DocumentVersion(
    id: Uuid,
    documentId: Uuid,
    version: int,
    filePath: string,
    fileSize: int,
    comment: Option<string>,
    createdBy: Uuid,
    createdAt: int)

  /** The `length(min = 1, max = 255)` rule on document and folder names, counted in characters. */
  predicate NameLengthOk(name: string) {
    1 <= |name| <= 255
  }

  datatype CreateDocumentRequest = CreateDocumentRequest(
    name: string,
    description: Option<string>,
    parentFolderId: Option<Uuid>,
    tags: Option<seq<string>>)
  {
    /** `validate()`: the name rule. */
    predicate Validate() {
      NameLengthOk(name)
    }
  }

  /** Every field is optional; an absent field is left unchanged by the update. */
  datatype UpdateDocumentRequest = UpdateDocumentRequest(
    name: Option<string>,
    description: Option<string>,
    tags: Option<seq<string>>)
  {
    /** `validate()`: the name rule applies only when a name is given. */
    predicate Validate() {
      name.Some? ==> NameLengthOk(name.value)
    }

    predicate IsEmpty() {
      name.None? && description.None? && tags.None?
    }
  }

  datatype CreateFolderRequest = CreateFolderRequest(
    name: string,
    description: Option<string>,
    parentFolderId: Option<Uuid>)
  {
    /** `validate()`: the name rule. */
    predicate Validate() {
      NameLengthOk(name)
    }
  }

  /** `None` moves the document to the root. */
  datatype MoveDocumentRequest = MoveDocumentRequest(targetFolderId: Option<Uuid>)

  /**
   * The boundaries of the name rule: an empty name and a 256-character name
   * are refused, a one- and a 255-character name accepted, in every request
   * that carries the rule, while an update without a name passes.
   */
  lemma NameRuleBoundaries(c: CreateDocumentRequest, u: UpdateDocumentRequest, f: CreateFolderRequest)
    ensures |c.name| == 0 || |c.name| == 256 ==> !c.Validate()
    ensures |c.name| == 1 || |c.name| == 255 ==> c.Validate()
    ensures |f.name| == 0 || |f.name| == 256 ==> !f.Validate()
    ensures |f.name| == 1 || |f.name| == 255 ==> f.Validate()
    ensures u.name.None? ==> u.Validate()
    ensures u.name.Some? && (|u.name.value| == 0 || |u.name.value| == 256) ==> !u.Validate()
    ensures u.name.Some? && (|u.name.value| == 1 || |u.name.value| == 255) ==> u.Validate()
  {
  }
}
