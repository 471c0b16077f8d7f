# Document authorization and sharing engine, modelled in Dafny

This project models the core of a document-management backend and its web
client's route guard. The backend is written in Rust with axum and diesel;
the route guard is Vue. The model covers:

- the permission resolver: owner, then a live direct grant of the exact
  level, then a live group grant of the exact level;
- the permission-level codec;
- the share-link lifecycle: create, redeem, list and delete;
- the permission-gated document handlers: create folder, upload, get, list,
  update, soft delete, download and move;
- the editor integration: the editor configuration and the save callback;
- the error taxonomy and its HTTP mapping;
- the search filter string and the search-index projection;
- the user-role codec and the client's navigation guard.

The database is a `Store` value: every table is a sequence of rows in table
order, together with the search index as a map and the object store as a set
of keys.

A handler is a function from the store to an `Outcome`, which holds the store
it leaves behind and its `Result`. The store is returned with errors as well.
The source commits a database write before calling the search service or the
object store, and a later failure does not undo the write.

Each collaborator call is a parameter of type `Call<T>`: either `Done(value)`
or `Failed(reason)`. This covers object storage, the search service, bcrypt,
JWT signing and the HTTP download of a saved file. The clock is an integer
`now`. Generated ids and random tokens are parameters too.

The permission strings in the database are compared exactly, while
`PermissionType::from_str` folds case first. The model keeps both, and
`PermissionService.NonCanonicalListedButDenied` shows where they part.

Case folding is modelled for ASCII only. Every keyword the codecs match is
lower-case ASCII without the letter k. Under Rust's Unicode `to_lowercase`,
exactly one character outside ASCII folds to an ASCII string: the Kelvin
sign folds to k, and no keyword holds a k. U+0130 folds to i followed by a
combining dot above, and the dot stays in the result. So ASCII folding
accepts exactly the same strings.

Three behaviours are modelled as the code does them:

- **Share-link passwords.** A link can carry a password hash, yet
  redemption never consults `password_hash`.
  `PermissionHandlers.RedeemIgnoresPassword` proves that.
- **Share-link use counts.** The count is read, then written back plus one,
  rather than incremented by one conditional update. The write goes to
  every row with the token. Only sequential redemption is modelled, and the
  cap is proved for that case alone (`PermissionHandlers.RedeemAllBounded`).
- **Handler atomicity.** The handlers are not atomic with their storage and
  search side effects. The contracts of `DocumentHandlers.CreateFolder`,
  `DocumentHandlers.Upload`, `DocumentHandlers.DeleteDocument` and
  `OnlyOfficeHandlers.Callback` state the store that each later failure
  leaves behind: a kept row, an orphaned object, a soft delete without its
  unindexing.

## Model

| member | source | states |
|---|---|---|
| `Errors.StatusCode` | server/src/error.rs:36-47 | 404, 401 and 403 are exactly NotFound, Unauthorized and Forbidden; 400 is exactly BadRequest or ValidationError; 500 is exactly DatabaseError or InternalServerError; 4xx is exactly a client error |
| `Errors.IntoResponse` | server/src/error.rs:36-53 | the response carries the variant's status and a one-key JSON body `error` holding the message unchanged |
| `Errors.Display` | server/src/error.rs:20-31 | the displayed text ends with the message |
| `Errors.DisplayInjective` | server/src/error.rs:20-31 | the displayed text determines the variant and the message |
| `Errors.FromDiesel` | server/src/error.rs:56-63 | only diesel's not-found becomes NotFound ("Resource not found"); any other diesel error becomes DatabaseError with its text |
| `Errors.FromPoolError` | server/src/error.rs:65-69 | a pool failure is a DatabaseError with its text, hence a 500 |
| `PermissionModel.AsStr` | server/src/models/permission.rs:18-26 | every level's name is a non-empty lower-case word |
| `PermissionModel.FromStr` | server/src/models/permission.rs:28-37 | parsing succeeds exactly on the five names, in any case, and then yields the level whose name is the lower-cased input |
| `PermissionModel.FromStrAsStr` | server/src/models/permission.rs:18-37 | parsing a level's name gives that level back |
| `PermissionModel.AsStrInjective` | server/src/models/permission.rs:18-26 | distinct levels have distinct names |
| `PermissionModel.FromStrIgnoresCase` | server/src/models/permission.rs:28-29 | parsing a string and parsing its lower-case form agree |
| `PermissionModel.FromStrIff` | server/src/models/permission.rs:28-37 | a string parses to a level exactly when its lower-case form is that level's name |
| `PermissionModel.CanonicalParse` | server/src/models/permission.rs:28-37 | on a canonical string, parsing to a level is the same as equality with its name |
| `PermissionModel.SerializePermission` | server/src/models/permission.rs:67-76 | a parseable stored string is sent in canonical form; any other is passed through verbatim |
| `PermissionModel.DeserializePermission` | server/src/models/permission.rs:78-84 | incoming JSON is accepted exactly when it is a canonical level name, and stored unchanged |
| `PermissionModel.SerdeRoundTrip` | server/src/models/permission.rs:63-85 | serializing then deserializing a parseable value yields its canonical name; deserializing then serializing is the identity |
| `PermissionModel.PermissionTypeOfRows` | server/src/models/permission.rs:56-59 | `permission_type()` on a direct grant or a share link is the codec applied to the stored string, whatever its case |
| `DocumentModel.NameRuleBoundaries` | server/src/models/document.rs:46-66 | names of 0 or 256 characters are refused and names of 1 or 255 accepted, for create, folder and update requests; an update without a name passes |
| `UserModel.ToResponse` | server/src/models/user.rs:70-82 | the response copies id, username, email, full name, role, active flag and creation time |
| `UserModel.ResponseHidesPassword` | server/src/models/user.rs:60-82 | the response does not depend on the password hash |
| `UserModel.RoleAsStr` | server/src/models/user.rs:93-99 | every role name is a non-empty lower-case word |
| `UserModel.RoleFromStr` | server/src/models/user.rs:101-108 | parsing succeeds exactly when the lower-cased input names a role, and yields that role |
| `UserModel.RoleRoundTrip` | server/src/models/user.rs:93-108 | parsing a role's name gives the role back, and parsing ignores case |
| `UserModel.RequestBoundaries` | server/src/models/user.rs:35-51 | usernames of 2 or 101 characters and passwords of 5 are refused, and 3, 100 and 6 are accepted; login and registration apply the same rules |
| `Db.FindDocument` | server/src/handlers/document.rs:200-203 | a lookup fails exactly when no row has the id, and then fails with diesel's not-found; a success is a row with that id |
| `Db.FindDocumentUnique` | server/src/handlers/document.rs:200-203 | with unique ids the lookup returns the one row that has the id |
| `Db.InsertDocument` | server/src/handlers/document.rs:82-85 | an insert succeeds exactly when the id is new and appends the row; it preserves id uniqueness; a clash is a DatabaseError |
| `Db.InsertVersion` | server/src/handlers/onlyoffice.rs:159-161 | a version insert succeeds exactly when its id is new and appends the row |
| `Db.UpdateDocumentRows` | server/src/handlers/document.rs:393-395 | exactly the rows with the id are rewritten; nothing else in the store changes |
| `Db.UpdateKeepsUniqueIds` | server/src/handlers/onlyoffice.rs:164-171 | an update that keeps ids keeps them unique |
| `Db.UpdateDocumentReturning` | server/src/handlers/document.rs:483-486 | an update-returning fails exactly when no row has the id; otherwise it returns the rewritten row and the updated store |
| `PermissionService.CheckPermission` | server/src/services/permission.rs:13-66 | the check passes exactly when the user owns the document, or holds a live direct grant of that exact level, or belongs to a group holding a live grant of that exact level; the store is only read |
| `PermissionService.CheckAdminPermission` | server/src/services/permission.rs:69-75 | the admin check is exactly the resolver at the Admin level |
| `PermissionService.OwnerAlwaysPasses` | server/src/services/permission.rs:19-29 | the owner passes every level, whatever the grant tables hold |
| `PermissionService.ExpiredGrantsDeny` | server/src/services/permission.rs:31-65 | a non-owner whose direct grants on the document, and whose groups' grants on it, have all expired fails every check |
| `PermissionService.ExpiryIsStrict` | server/src/services/permission.rs:37-41 | a grant expiring exactly at now is dead, and it was live one tick earlier |
| `PermissionService.OtherLevelIrrelevant` | server/src/services/permission.rs:31-65 | adding grants of other levels never changes a check, so no level implies another |
| `PermissionService.AdminDoesNotImplyRead` | server/src/services/permission.rs:31-48 | an Admin grant alone does not pass a Read check for a non-owner |
| `PermissionService.GetUserPermissions` | server/src/services/permission.rs:78-100 | a level is listed exactly when some live direct grant row of the user on the document parses to it; owners and groups contribute nothing |
| `PermissionService.ListedIffDirectGrant` | server/src/services/permission.rs:78-100 | on a canonical store, a level is listed exactly when the direct tier of the resolver grants it |
| `PermissionService.NonCanonicalListedButDenied` | server/src/services/permission.rs:37-95 | a row stored as "READ" is listed as Read, yet the resolver's exact comparison denies Read |
| `PermissionService.GrantPermission` | server/src/services/permission.rs:103-124 | a grant always appends one new row, with the given id, the canonical level name, the grantor and the expiry, and changes nothing else |
| `PermissionService.GrantKeepsChecks` | server/src/services/permission.rs:103-124 | a grant never makes a passing check fail |
| `PermissionService.GrantThenCheck` | server/src/services/permission.rs:103-124 | after a grant the user passes that level while the grant is live |
| `PermissionService.GrantOtherLevel` | server/src/services/permission.rs:103-124 | a grant of one level leaves every check of another level unchanged |
| `PermissionService.RevokePermission` | server/src/services/permission.rs:127-145 | the rows removed are exactly those of that document, user and level, expired or not; every other row stays, with its multiplicity, in the model's table order |
| `PermissionService.RevokeUndoesGrant` | server/src/services/permission.rs:103-145 | revoking a level just granted leaves the grant table exactly as revoking alone would |
| `Seqs.FilterAppend` | server/src/handlers/permission.rs:92-106 | a row filter keeps the model's table order: filtering a concatenation concatenates the filtered parts |
| `PermissionService.RevokeThenCheck` | server/src/services/permission.rs:127-145 | after a revoke, the level passes only through ownership or a group grant |
| `PermissionService.RevokeKeepsOthers` | server/src/services/permission.rs:127-145 | a revoke leaves checks of other levels and of other users or documents unchanged |
| `PermissionService.ActionLevel` | server/src/services/permission.rs:148-158 | read, view and download need Read; edit, update and upload need Write; delete needs Delete; share needs Share; admin and permissions need Admin; nothing else is known |
| `PermissionService.CanPerformAction` | server/src/services/permission.rs:148-164 | an unknown action is a BadRequest naming it, before any lookup; a known one is the resolver at its level |
| `PermissionService.ActionIsCaseSensitive` | server/src/services/permission.rs:148-164 | an action beginning with a capital letter is unknown |
| `PermissionHandlers.Grant` | server/src/handlers/permission.rs:21-52 | a non-Admin caller is Forbidden and nothing changes; an Admin caller's grant is appended with the caller as grantor |
| `PermissionHandlers.Revoke` | server/src/handlers/permission.rs:54-82 | the Admin check comes first; only then is an unparseable level a BadRequest; both refusals change nothing; otherwise the matching rows go |
| `PermissionHandlers.List` | server/src/handlers/permission.rs:84-109 | an Admin caller gets every direct grant row of the document, each as often as stored, in the model's table order (the query has no ORDER BY); others are Forbidden |
| `PermissionHandlers.ListAfterGrant` | server/src/handlers/permission.rs:21-109 | after a successful grant the listing is the earlier one with the new row at its end, in the model's table order |
| `PermissionHandlers.ListShowsExpired` | server/src/handlers/permission.rs:92-106 | the listing includes grants the resolver no longer honours |
| `PermissionHandlers.CreateShareLink` | server/src/handlers/permission.rs:111-154 | only a caller holding Share may create a link; the link is the caller's, has the canonical level name and no uses, and stores the hash of the password exactly when one was given; a hashing failure writes nothing |
| `PermissionHandlers.LinkByToken` | server/src/handlers/permission.rs:162-165 | the lookup returns a link with the token (the first in the model's table order), or nothing when no link has it |
| `PermissionHandlers.GetShareLink` | server/src/handlers/permission.rs:156-186 | an unknown token is NotFound; an expiry strictly before now, then a reached cap, is a BadRequest that changes nothing; otherwise every row with the token gets the read count plus one and the link as read is returned |
| `PermissionHandlers.RedeemIgnoresPassword` | server/src/handlers/permission.rs:156-186 | stores that differ only in password hashes redeem alike |
| `PermissionHandlers.LinkByTokenUnique` | server/src/handlers/permission.rs:162-165 | with unique tokens, the link found by a token is the one at its position |
| `PermissionHandlers.RedeemKeepsCap` | server/src/handlers/permission.rs:173-185 | sequentially and with unique tokens, a redemption keeps every link within its cap |
| `PermissionHandlers.RedeemAll` | server/src/handlers/permission.rs:156-186 | repeated redemption counts its successes, which never exceed the attempts |
| `PermissionHandlers.RedeemAllBounded` | server/src/handlers/permission.rs:173-185 | however many sequential redemptions run, a capped link succeeds at most cap minus count times, and each success adds exactly one |
| `PermissionHandlers.CreateThenRedeem` | server/src/handlers/permission.rs:111-186 | a new link with a fresh token, a cap of at least one and no past expiry redeems to itself |
| `PermissionHandlers.ListShareLinks` | server/src/handlers/permission.rs:188-213 | a caller holding Share gets the document's links, each as often as stored, in the model's table order (the query has no ORDER BY); others are Forbidden |
| `PermissionHandlers.ListAfterCreate` | server/src/handlers/permission.rs:111-213 | after a link is created the listing is the earlier one with the new link at its end, in the model's table order |
| `PermissionHandlers.DeleteShareLink` | server/src/handlers/permission.rs:215-252 | a missing link, or a link of another document, is NotFound; the creator may always delete; anyone else needs Admin; refusals change nothing; success removes exactly the rows with that id and keeps the rest in table order |
| `PermissionHandlers.CreatorMayDelete` | server/src/handlers/permission.rs:227-247 | the creator of a link on the document deletes it, whatever the grants say |
| `UploadForm.TagsOf` | server/src/handlers/document.rs:132-137 | tag k is piece k of the comma split with surrounding whitespace trimmed, so no tag holds a comma or starts or ends with whitespace |
| `UploadForm.TagsOfJoin` | server/src/handlers/document.rs:132-137 | trimmed, comma-free tags joined with commas read back as the same tags |
| `UploadForm.LastNamed` | server/src/handlers/document.rs:108-140 | the result is the last field of that name, or nothing when no field has it |
| `UploadForm.ReadFormLastWins` | server/src/handlers/document.rs:108-140 | every form value comes from the last field of its name; an unparseable parent id is no parent |
| `SearchIndex.PresentTags` | server/src/services/search.rs:35-39 | a tag is projected exactly when it is present in the nullable array |
| `SearchIndex.PresentTagsAppend` | server/src/services/search.rs:35-39 | the projection distributes over concatenation, so the order of present tags is kept |
| `SearchIndex.PresentTagsOfWrapped` | server/src/services/search.rs:35-39 | tags stored from a request project back unchanged |
| `SearchIndex.Project` | server/src/services/search.rs:26-44 | the ids become their string forms; name, description, MIME type and folder flag are copied; a null tag array projects to no tags; otherwise the tags are the present entries in their original order and multiplicity, with null entries dropped |
| `SearchIndex.IndexDocument` | server/src/services/search.rs:90-100 | indexing is an upsert under the id string; every other entry is untouched |
| `SearchIndex.UpdateDocument` | server/src/services/search.rs:102-104 | re-indexing upserts the document's projection under its id string and leaves every other entry |
| `SearchIndex.UpdateIsIndex` | server/src/services/search.rs:90-104 | re-indexing and indexing afresh leave the same index |
| `SearchIndex.DeleteDocument` | server/src/services/search.rs:106-115 | the entry under the id string is removed and the rest kept |
| `SearchIndex.KeyInjective` | server/src/services/search.rs:29 | distinct documents have distinct index keys |
| `DocumentHandlers.ObjectKey` | server/src/services/storage.rs:43 | an object key is the UUID's string form, a slash and the file name |
| `DocumentHandlers.ObjectKeyInjective` | server/src/services/storage.rs:43 | the key determines the object id and the file name |
| `DocumentHandlers.CreateFolder` | server/src/handlers/document.rs:44-92 | validation comes first, then Write on a given parent; refusals and a taken id change nothing; the new row is the caller's folder with size 0 and MIME `inode/directory`; an indexing failure keeps the row and reports the failure |
| `DocumentHandlers.Upload` | server/src/handlers/document.rs:94-190 | a missing file, then a missing file name, is a BadRequest, then Write is needed on a parent; refusals and a failed object upload change nothing; a failed insert leaves the object orphaned; a failed indexing keeps object and row; success is exactly an admitted upload whose three steps succeed, and its row records the upload's name, size, type, parent, description and tags under a fresh object key |
| `DocumentHandlers.UnparsedParentIsRoot` | server/src/handlers/document.rs:121-126 | a parent folder field that does not parse lands the upload at the root, with no permission check |
| `DocumentHandlers.GetDocument` | server/src/handlers/document.rs:192-218 | a missing id is NotFound for everyone; an existing document needs Read; a success is the document's row |
| `DocumentHandlers.DeletedStillVisible` | server/src/handlers/document.rs:200-217 | a soft-deleted document is still returned to a reader |
| `DocumentHandlers.InsertNewestFirst` | server/src/handlers/document.rs:241 | inserting into a newest-first list keeps it sorted and adds exactly that row |
| `DocumentHandlers.SortNewestFirst` | server/src/handlers/document.rs:241 | the result is sorted newest first and is a permutation of the input |
| `DocumentHandlers.Page` | server/src/handlers/document.rs:242-243 | a page is the slice after skipping `offset` rows, at most `limit` rows long, and keeps the order |
| `DocumentHandlers.Listing` | server/src/handlers/document.rs:228-241 | the listed rows are exactly the caller's undeleted rows in the given folder, or at the root when none is given, newest first |
| `DocumentHandlers.ListDocuments` | server/src/handlers/document.rs:220-247 | a negative offset, then a negative limit, is a DatabaseError; a missing limit is 50 and a missing offset 0; otherwise the result is that page of the listing |
| `DocumentHandlers.UpdateDocument` | server/src/handlers/document.rs:249-365 | validation comes first, then Write, then the empty-payload BadRequest, then the lookup; refusals change nothing; only the supplied fields and `updated_at` change, and the index is re-indexed with the updated row |
| `DocumentHandlers.UpdateMissingIsForbidden` | server/src/handlers/document.rs:262-271 | for a missing id, a non-owner is Forbidden rather than NotFound |
| `DocumentHandlers.DeleteDocument` | server/src/handlers/document.rs:367-410 | Delete is checked before the lookup; success is exactly Delete, an existing row, a successful unindexing and, for a file, a successful object delete; the delete is soft; a failed unindexing leaves the soft delete; a failed object delete leaves the soft delete and the unindexing |
| `DocumentHandlers.FolderDeleteKeepsBlobs` | server/src/handlers/document.rs:401-405 | deleting a folder never touches the object store |
| `DocumentHandlers.Download` | server/src/handlers/document.rs:412-446 | lookup, then Read, then folders are refused; a file yields the signer's hour-long link; nothing is written |
| `DocumentHandlers.MoveDocument` | server/src/handlers/document.rs:448-489 | Write on the document, then on a given target; refusals change nothing; on success only `parent_folder_id` changes |
| `DocumentHandlers.MoveIntoItself` | server/src/handlers/document.rs:469-486 | there is no cycle check: an owner may move a folder into itself |
| `OnlyOfficeService.FileTypeFromExtension` | server/src/services/onlyoffice.rs:120-129 | the result is one of docx, xlsx, pptx, txt and pdf; doc, xls and ppt map to their successors, in any case; anything unknown is docx |
| `OnlyOfficeService.DocumentTypeFromExtension` | server/src/services/onlyoffice.rs:131-139 | the result is one of word, cell and slide; it is cell exactly for xlsx and xls, and slide exactly for pptx and ppt |
| `OnlyOfficeService.DocumentTypeFollowsFileType` | server/src/services/onlyoffice.rs:120-139 | the document type is always the family of the file type |
| `OnlyOfficeService.ExtensionMapsIgnoreCase` | server/src/services/onlyoffice.rs:121-132 | both maps give the same answer for an extension and its lower-case form |
| `OnlyOfficeService.CanEditFile` | server/src/services/onlyoffice.rs:141-149 | exactly the three OOXML types and plain text are editable |
| `OnlyOfficeService.CanEditFileIsCaseSensitive` | server/src/services/onlyoffice.rs:141-149 | a differently cased MIME type is not editable |
| `OnlyOfficeService.GenerateEditorConfig` | server/src/services/onlyoffice.rs:67-107 | edit, review and comment equal the edit flag while download and print are always on; the mode is "edit" exactly when editing is allowed; the key and the user id are exactly the UUIDs' hyphenated lower-case strings and parse back to the UUIDs; the callback URL is exactly the app URL, then the callback path, then the document id's string |
| `OnlyOfficeService.HandleCallback` | server/src/services/onlyoffice.rs:151-191 | a save status (2 or 6) without a URL is a BadRequest; a save hands its URL on; statuses 1 and 4 are "Document closed", others "Status received"; every answer has error 0 and no URL unless it is a save |
| `OnlyOfficeService.Extension` | server/src/handlers/onlyoffice.rs:62-65 | an extension contains neither a dot nor a slash |
| `OnlyOfficeService.ExtensionOfPlainName` | server/src/handlers/onlyoffice.rs:62-65 | the extension of a plain name `base.ext` is `ext` |
| `OnlyOfficeHandlers.GetEditorConfig` | server/src/handlers/onlyoffice.rs:18-107 | lookup, then the folder BadRequest, then Read, then the presigner and the token signer, each failure reported with its prefix; success is exactly a readable file whose URL and token were both signed; the edit flag and mode follow the Write check; the file and document types come from the name's extension (docx by default) |
| `OnlyOfficeHandlers.WriteOnlyGrantCannotOpenEditor` | server/src/handlers/onlyoffice.rs:36-54 | a user whose only grant is Write is refused the editor, although they hold Write |
| `OnlyOfficeHandlers.Callback` | server/src/handlers/onlyoffice.rs:109-179 | a missing document is "Document not found"; anything but a save with a URL leaves the store unchanged; a failed download, read or upload changes nothing; a taken version id leaves the uploaded object orphaned; success is exactly a save whose steps all succeed, or any other valid status; a save appends one version row and points the document at the new file with the next version number; the old object goes only when its delete succeeds |
| `OnlyOfficeHandlers.SaveBumpsVersion` | server/src/handlers/onlyoffice.rs:150-171 | after a save the document reads back with version plus one, and the one new version row, owned by the document's owner, describes the same file and size |
| `OnlyOfficeHandlers.OldFileDeleteIsBestEffort` | server/src/handlers/onlyoffice.rs:173-174 | whether the old object's delete fails changes neither the result nor the tables |
| `OnlyOfficeHandlers.UnknownDocumentCallback` | server/src/handlers/onlyoffice.rs:116-121 | a callback for a missing document changes nothing, whatever it reports |
| `SearchHandler.ReadParams` | server/src/handlers/search.rs:14-28 | a missing limit is 50 and a missing offset 0; given values are kept |
| `SearchHandler.Quoted` | server/src/handlers/search.rs:41-45 | a string clause is the field, ` = "`, the value verbatim and a closing quote |
| `SearchHandler.Clauses` | server/src/handlers/search.rs:37-50 | there is one clause per present parameter, with the owner first and the folder flag last |
| `SearchHandler.BuildFilter` | server/src/handlers/search.rs:52-56 | there is no filter exactly when no parameter is present; otherwise the clauses are joined by " AND " |
| `SearchHandler.JoinEndsWithLast` | server/src/handlers/search.rs:55 | a join of two or more pieces ends with the separator and the last piece |
| `SearchHandler.FilterShape` | server/src/handlers/search.rs:40-56 | the owner clause leads and the folder clause ends the filter; a lone parameter is the whole filter |
| `SearchHandler.ValuesAreNotEscaped` | server/src/handlers/search.rs:44-46 | a MIME type value holding a quote injects an OR of the caller's making |
| `Router.MatchedFor` | web/src/router/index.ts:4-66 | a navigation to a name matches a chain of the table ending in that name, or nothing when there is none |
| `Router.RequiresAuth` | web/src/router/index.ts:76 | sign-in is needed exactly when some matched record does not say `requiresAuth: false` |
| `Router.Guard` | web/src/router/index.ts:74-85 | a guest heading for a protected page goes to login with the path to come back to; a signed-in user heading for login or register goes home; anything else proceeds |
| `Router.PublicRoutesAreExactlyThese` | web/src/router/index.ts:4-66 | of the named routes, exactly login, register and share-access need no sign-in |
| `Router.NoRedirectLoop` | web/src/router/index.ts:74-85 | wherever the guard redirects, it lets the user through |
| `Router.UnmatchedPathIsOpen` | web/src/router/index.ts:76-83 | a path that matches no route is open to a guest |

## Left out

- I/O is out: object storage, the search service, the editor server, bcrypt
  and JWT signing. Their answers are parameters, and their failures are
  `Failed` values carrying the collaborator's own text.
- Database availability is out. The store always answers, so a pool
  failure (`From<PoolError>`) or a failed query never happens in the
  handlers. The only database errors modelled are a missing row, a
  duplicate primary key and a negative `LIMIT` or `OFFSET`.
  `Errors.FromPoolError` and `Errors.FromDiesel` model the conversions
  alone.
- Row order of unordered queries is out. The grant, share-link and
  token-lookup queries have no ORDER BY, and the listing's `created_at DESC`
  leaves equal timestamps unordered. The database may return such rows in
  any order; the model fixes them to table order, the order in which rows
  were inserted. The ordering clauses of `PermissionHandlers.List`,
  `PermissionHandlers.ListShareLinks`, `PermissionHandlers.ListAfterGrant`,
  `PermissionHandlers.ListAfterCreate`, `PermissionHandlers.LinkByToken`
  and `DocumentHandlers.Listing` hold for that fixed choice. The membership
  and multiplicity clauses hold for any order.
- Concurrency is out. Every handler runs alone on the store. In particular,
  nothing is claimed about concurrent share-link redemptions.
- Integer width is out. `access_count`, `max_access_count` and `version` are
  32-bit in the table, `file_size` and pagination are 64-bit. The model uses
  unbounded integers, so a version or use count at the 32-bit maximum does
  not overflow here.
- Clocks are out. The database clock and the server clock are the same `now`
  in the model, and timestamps are integers.
- Bearer-token parsing and the caller's id are out. The caller is given as a
  UUID, and a token whose subject does not parse is not modelled.
- Validator messages are out. A broken name rule gives a `ValidationError`
  with one fixed message standing for the validator's text.
- Multipart stream errors are out. The "Failed to parse multipart" and
  "Failed to read ..." errors of `upload_document` are not modelled, and
  fields are already-read values.
- The search itself is out. `SearchService::search`, `initialize_index` and
  `batch_index_documents` belong to the search service. The search handler
  applies no ownership filter of its own, and the model does not cover the
  query's hits.
- Failures to construct the search and storage clients are out. These are
  the "Failed to create ... client" errors.
- Email syntax validation is out, in both registration and the user row.
- The `status` and `metadata` columns are out. No core operation reads them.
- The URL rewriting in `get_file_url_for_onlyoffice` is out. It is a
  signer's choice and is a parameter together with the signer.
- Timestamp conversion is out. The search projection drops `created_at` and
  `updated_at`.
- Foreign keys are out. Database constraints other than primary keys are not
  modelled: a grant may name a document that does not exist.
- Route matching is out. Matching a URL against the route paths is the
  router library's job. The model takes the matched records of each named
  route from the table.
- `PermissionHandlers.RedeemAllBounded` holds for sequential redemption only,
  because the source's read-then-write increment does not hold the cap under
  concurrent redeemers.
- `Db.InsertDocument` rejects only a duplicate id. Database constraints other
  than primary keys are not part of this model.
