/**
 * Permission levels and the rows that carry them. The database keeps the
 * level as free text; the closed enumeration is used at the API boundary,
 * with `AsStr`/`FromStr` translating between the two.
 */
module PermissionModel {
  import opened Wrappers
  import opened Uuids
  import Text

  /** The five levels. None implies another: each is granted and checked on its own. */
  datatype PermissionType = Read | Write | Delete | Share | Admin

  /** The stored (and serialised) name of a level: a non-empty lower-case word. */
  function AsStr(p: PermissionType): (r: string)
    ensures |r| > 0 && Text.IsLowercase(r)
  {
    match p
    case Read => "read"
    case Write => "write"
    case Delete => "delete"
    case Share => "share"
    case Admin => "admin"
  }

  /**
   * Case-insensitive parse: a level is returned exactly when the folded input
   * is that level's name, and `None` when it is no level's name.
   */
  function FromStr(s: string): (r: Option<PermissionType>)
    ensures r.Some? ==> AsStr(r.value) == Text.Lower(s)
    ensures r.None? ==> forall p: PermissionType :: AsStr(p) != Text.Lower(s)
    ensures r.Some? <==> Text.Lower(s) in {"read", "write", "delete", "share", "admin"}
  {
    var l := Text.Lower(s);
    if l == "read" then Some(Read)
    else if l == "write" then Some(Write)
    else if l == "delete" then Some(Delete)
    else if l == "share" then Some(Share)
    else if l == "admin" then Some(Admin)
    else None
  }

  /** Parsing a level's name gives the level back. */
  lemma FromStrAsStr(p: PermissionType)
    ensures FromStr(AsStr(p)) == Some(p)
  {
    Text.LowerIsLowercase(AsStr(p));
  }

  /** Distinct levels have distinct names. */
  lemma AsStrInjective(p: PermissionType, q: PermissionType)
    requires AsStr(p) == AsStr(q)
    ensures p == q
  {
    FromStrAsStr(p);
    FromStrAsStr(q);
  }

  /** Parsing ignores case. */
  lemma FromStrIgnoresCase(s: string)
    ensures FromStr(s) == FromStr(Text.Lower(s))
  {
    Text.LowerIsLowercase(s);
  }

  /** For a stored string: it parses to `p` exactly when it is `p`'s name up to case. */
  lemma FromStrIff(s: string, p: PermissionType)
    ensures FromStr(s) == Some(p) <==> Text.Lower(s) == AsStr(p)
  {
    if Text.Lower(s) == AsStr(p) {
      var r := FromStr(s);
      if r.Some? {
        AsStrInjective(r.value, p);
      }
    }
  }

  /** A canonical stored string is one written by `AsStr`. */
  predicate IsCanonical(s: string) {
    exists p: PermissionType :: AsStr(p) == s
  }

  /** On canonical strings, parsing is the exact inverse of `AsStr`. */
  lemma CanonicalParse(s: string, p: PermissionType)
    requires IsCanonical(s)
    ensures FromStr(s) == Some(p) <==> s == AsStr(p)
  {
    var q :| AsStr(q) == s;
    FromStrAsStr(q);
    if s == AsStr(p) {
      AsStrInjective(p, q);
    }
  }

  /**
   * The `permission_string` serializer: a stored string that parses is
   * written as its level's canonical name; any other string passes through
   * verbatim.
   */
  function SerializePermission(stored: string): (out: string)
    ensures FromStr(stored).Some? ==> out == AsStr(FromStr(stored).value) && out == Text.Lower(stored)
    ensures FromStr(stored).None? ==> out == stored
  {
    match FromStr(stored)
    case Some(p) => AsStr(p)
    case None => stored
  }

  /**
   * The `permission_string` deserializer: the derived `PermissionType`
   * deserializer accepts exactly the five lower-case names, and the stored
   * string is that level's canonical name. `None` is a deserialisation error.
   */
  function DeserializePermission(json: string): (r: Option<string>)
    ensures r.Some? <==> IsCanonical(json)
    ensures r.Some? ==> r.value == json
  {
    if json == "read" then Some(AsStr(Read))
    else if json == "write" then Some(AsStr(Write))
    else if json == "delete" then Some(AsStr(Delete))
    else if json == "share" then Some(AsStr(Share))
    else if json == "admin" then Some(AsStr(Admin))
    else None
  }

  /**
   * Round trips through the JSON form: a stored string that parses comes back
   * as its canonical name, and an accepted JSON name is written out unchanged.
   */
  lemma SerdeRoundTrip(stored: string, json: string)
    ensures FromStr(stored).Some? ==> DeserializePermission(SerializePermission(stored)) == Some(Text.Lower(stored))
    ensures DeserializePermission(json).Some? ==> SerializePermission(DeserializePermission(json).value) == json
  {
    if FromStr(stored).Some? {
      assert IsCanonical(AsStr(FromStr(stored).value));
    }
    if DeserializePermission(json).Some? {
      var p :| AsStr(p) == json;
      FromStrAsStr(p);
    }
  }

  /** A row of `document_permissions`: a direct grant to one user. */
  datatype DocumentPermission = DocumentPermission(
    id: Uuid,
    documentId: Uuid,
    userId: Uuid,
    permission: string,
    grantedBy: Uuid,
    grantedAt: int,
    expiresAt: Option<int>)
  {
    /** `permission_type()`: the parsed level of the stored string. */
    function PermissionTypeOf(): (r: Option<PermissionType>)
      ensures r.Some? <==> Text.Lower(permission) in {"read", "write", "delete", "share", "admin"}
      ensures r.Some? ==> AsStr(r.value) == Text.Lower(permission)
    {
      FromStr(permission)
    }
  }

  /** A row of `group_permissions`: a grant to every member of a group. */
  datatype GroupPermission = GroupPermission(
    id: Uuid,
    documentId: Uuid,
    groupId: Uuid,
    permission: string,
    grantedBy: Uuid,
    grantedAt: int,
    expiresAt: Option<int>)

  /** A row of `group_members`. */
  datatype GroupMember = GroupMember(id: Uuid, groupId: Uuid, userId: Uuid, role: string)

  /**
   * A row of `share_links`. `maxAccessCount` and `accessCount` are 32-bit
   * integers in the table; `passwordHash` is set only when the creator gave
   * a password.
   */
  datatype ShareLink = ShareLink(
    id: Uuid,
    documentId: Uuid,
    token: string,
    createdBy: Uuid,
    permission: string,
    passwordHash: Option<string>,
    maxAccessCount: Option<int>,
    accessCount: int,
    expiresAt: Option<int>,
    createdAt: int)
  {
    /** `permission_type()`: the parsed level of the stored string. */
    function PermissionTypeOf(): (r: Option<PermissionType>)
      ensures r.Some? <==> Text.Lower(permission) in {"read", "write", "delete", "share", "admin"}
      ensures r.Some? ==> AsStr(r.value) == Text.Lower(permission)
    {
      FromStr(permission)
    }
  }

  /** Body of a grant request. */
  datatype GrantPermissionRequest = GrantPermissionRequest(
    userId: Uuid,
    permission: PermissionType,
    expiresAt: Option<int>)

  /** Body of a share-link creation request. */
  datatype CreateShareLinkRequest = CreateShareLinkRequest(
    permission: PermissionType,
    password: Option<string>,
    maxAccessCount: Option<int>,
    expiresAt: Option<int>)

  /**
   * Both `permission_type()` helpers are the codec applied to the stored
   * string, so a row written with a level's canonical name reads back as
   * that level, and a differently cased spelling reads back as it too.
   */
  lemma PermissionTypeOfRows(p: DocumentPermission, l: ShareLink, level: PermissionType)
    ensures p.PermissionTypeOf() == FromStr(p.permission) && l.PermissionTypeOf() == FromStr(l.permission)
    ensures Text.Lower(p.permission) == AsStr(level) ==> p.PermissionTypeOf() == Some(level)
    ensures Text.Lower(l.permission) == AsStr(level) ==> l.PermissionTypeOf() == Some(level)
  {
    FromStrIff(p.permission, level);
    FromStrIff(l.permission, level);
  }
}
