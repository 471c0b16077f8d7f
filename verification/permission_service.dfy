/**
 * The permission resolver. A user holds a level on a document when they own
 * it, when a live direct grant of exactly that level names them, or when a
 * live group grant of exactly that level names a group they belong to.
 * "Live" means no expiry, or an expiry strictly after now. Levels are
 * compared as the stored strings, so no level implies another.
 */
module PermissionService {
  import opened Wrappers
  import opened Uuids
  import opened Errors
  import opened PermissionModel
  import opened DocumentModel
  import opened Db
  import Seqs
  import Text

  /** `expires_at IS NULL OR expires_at > now`. */
  predicate Live(expiresAt: Option<int>, now: int) {
    expiresAt.None? || now < expiresAt.value
  }

  /** The owner test: some row of `documents` has this id and this owner. */
  predicate Owns(d: Document, user: Uuid, doc: Uuid) {
    d.id == doc && d.ownerId == user
  }

  /** A direct grant row that grants `level` on `doc` to `user` at `now`. */
  predicate DirectGrant(p: DocumentPermission, user: Uuid, doc: Uuid, level: PermissionType, now: int) {
    p.documentId == doc && p.userId == user && p.permission == AsStr(level) && Live(p.expiresAt, now)
  }

  /** A group grant row that grants `level` on `doc` to the group's members at `now`. */
  predicate GroupGrant(g: GroupPermission, doc: Uuid, level: PermissionType, now: int) {
    g.documentId == doc && g.permission == AsStr(level) && Live(g.expiresAt, now)
  }

  predicate MemberOf(m: GroupMember, user: Uuid, group: Uuid) {
    m.groupId == group && m.userId == user
  }

  ghost predicate IsOwner(s: Store, user: Uuid, doc: Uuid) {
    exists d :: d in s.documents && Owns(d, user, doc)
  }

  ghost predicate HasLiveDirectGrant(s: Store, user: Uuid, doc: Uuid, level: PermissionType, now: int) {
    exists p :: p in s.permissions && DirectGrant(p, user, doc, level, now)
  }

  ghost predicate HasLiveGroupGrant(s: Store, user: Uuid, doc: Uuid, level: PermissionType, now: int) {
    exists g, m :: g in s.groupPermissions && m in s.groupMembers &&
      GroupGrant(g, doc, level, now) && MemberOf(m, user, g.groupId)
  }

  /**
   * `check_permission`: the owner short-circuits, then a live direct grant of
   * the exact level, then a live group grant of the exact level joined with
   * the user's memberships. The store is only read.
   */
  function CheckPermission(s: Store, user: Uuid, doc: Uuid, level: PermissionType, now: int): (r: bool)
    ensures r <==> IsOwner(s, user, doc) || HasLiveDirectGrant(s, user, doc, level, now) ||
                   HasLiveGroupGrant(s, user, doc, level, now)
  {
    if Seqs.Any(s.documents, (d: Document) => Owns(d, user, doc)) then true
    else if Seqs.Any(s.permissions, (p: DocumentPermission) => DirectGrant(p, user, doc, level, now)) then true
    else
      var r := Seqs.Any(s.groupPermissions, (g: GroupPermission) =>
        GroupGrant(g, doc, level, now) && Seqs.Any(s.groupMembers, (m: GroupMember) => MemberOf(m, user, g.groupId)));
      assert r ==> HasLiveGroupGrant(s, user, doc, level, now) by {
        if r {
          var g :| g in s.groupPermissions && GroupGrant(g, doc, level, now) &&
            Seqs.Any(s.groupMembers, (m: GroupMember) => MemberOf(m, user, g.groupId));
          var m :| m in s.groupMembers && MemberOf(m, user, g.groupId);
        }
      }
      assert HasLiveGroupGrant(s, user, doc, level, now) ==> r by {
        if HasLiveGroupGrant(s, user, doc, level, now) {
          var g, m :| g in s.groupPermissions && m in s.groupMembers &&
            GroupGrant(g, doc, level, now) && MemberOf(m, user, g.groupId);
          assert Seqs.Any(s.groupMembers, (m: GroupMember) => MemberOf(m, user, g.groupId));
        }
      }
      r
  }

  /** `check_admin_permission`: the Admin level through the same resolver. */
  function CheckAdminPermission(s: Store, user: Uuid, doc: Uuid, now: int): (r: bool)
    ensures r <==> IsOwner(s, user, doc) || HasLiveDirectGrant(s, user, doc, Admin, now) ||
                   HasLiveGroupGrant(s, user, doc, Admin, now)
    ensures r == CheckPermission(s, user, doc, Admin, now)
  {
    CheckPermission(s, user, doc, Admin, now)
  }

  /** The owner passes for every level, whatever the grant tables hold. */
  lemma OwnerAlwaysPasses(s: Store, user: Uuid, doc: Uuid, level: PermissionType, now: int)
    requires IsOwner(s, user, doc)
    ensures CheckPermission(s, user, doc, level, now)
    ensures forall ps, gs, ms :: CheckPermission(s.(permissions := ps, groupPermissions := gs, groupMembers := ms), user, doc, level, now)
  {
    var d :| d in s.documents && Owns(d, user, doc);
    forall ps, gs, ms ensures CheckPermission(s.(permissions := ps, groupPermissions := gs, groupMembers := ms), user, doc, level, now) {
      var s' := s.(permissions := ps, groupPermissions := gs, groupMembers := ms);
      assert d in s'.documents;
    }
  }

  /**
   * A grant whose expiry is at or before now is inert: for a non-owner
   * whose direct grants on the document, and whose groups' grants on it,
   * have all expired, every check fails.
   */
  lemma ExpiredGrantsDeny(s: Store, user: Uuid, doc: Uuid, level: PermissionType, now: int)
    requires !IsOwner(s, user, doc)
    requires forall p :: p in s.permissions && p.documentId == doc && p.userId == user ==>
      p.expiresAt.Some? && p.expiresAt.value <= now
    requires forall g, m ::
               g in s.groupPermissions && m in s.groupMembers && g.documentId == doc && MemberOf(m, user, g.groupId) ==>
               g.expiresAt.Some? && g.expiresAt.value <= now
    ensures !CheckPermission(s, user, doc, level, now)
  {
    forall p | p in s.permissions ensures !DirectGrant(p, user, doc, level, now) {
    }
    forall g, m | g in s.groupPermissions && m in s.groupMembers
      ensures !(GroupGrant(g, doc, level, now) && MemberOf(m, user, g.groupId)) {
    }
  }

  /** A grant expiring exactly at now no longer counts; one tick earlier it did. */
  lemma ExpiryIsStrict(p: DocumentPermission, user: Uuid, doc: Uuid, level: PermissionType, e: int)
    requires p.documentId == doc && p.userId == user && p.permission == AsStr(level) && p.expiresAt == Some(e)
    ensures !DirectGrant(p, user, doc, level, e)
    ensures DirectGrant(p, user, doc, level, e - 1)
  {
  }

  /** Rows of another level leave a check for `level` unchanged: no level implies another. */
  lemma OtherLevelIrrelevant(s: Store, extra: seq<DocumentPermission>, gextra: seq<GroupPermission>,
                             user: Uuid, doc: Uuid, level: PermissionType, now: int)
    requires forall p :: p in extra ==> p.permission != AsStr(level)
    requires forall g :: g in gextra ==> g.permission != AsStr(level)
    ensures CheckPermission(s.(permissions := s.permissions + extra, groupPermissions := s.groupPermissions + gextra), user, doc, level, now)
         == CheckPermission(s, user, doc, level, now)
  {
    var s' := s.(permissions := s.permissions + extra, groupPermissions := s.groupPermissions + gextra);
    if HasLiveDirectGrant(s', user, doc, level, now) {
      var p :| p in s'.permissions && DirectGrant(p, user, doc, level, now);
      assert p in s.permissions;
    }
    if HasLiveGroupGrant(s', user, doc, level, now) {
      var g, m :| g in s'.groupPermissions && m in s'.groupMembers &&
        GroupGrant(g, doc, level, now) && MemberOf(m, user, g.groupId);
      assert g in s.groupPermissions;
    }
    if HasLiveDirectGrant(s, user, doc, level, now) {
      var p :| p in s.permissions && DirectGrant(p, user, doc, level, now);
      assert p in s'.permissions;
    }
    if HasLiveGroupGrant(s, user, doc, level, now) {
      var g, m :| g in s.groupPermissions && m in s.groupMembers &&
        GroupGrant(g, doc, level, now) && MemberOf(m, user, g.groupId);
      assert g in s'.groupPermissions;
    }
  }

  /** Concretely: an Admin grant alone does not pass a Read check for a non-owner. */
  lemma AdminDoesNotImplyRead(user: Uuid, doc: Uuid, grantor: Uuid, rowId: Uuid, now: int)
    ensures !CheckPermission(
      Store([], [], [DocumentPermission(rowId, doc, user, AsStr(Admin), grantor, now, None)], [], [], [], map[], {}),
      user, doc, Read, now)
  {
    var s := Store([], [], [DocumentPermission(rowId, doc, user, AsStr(Admin), grantor, now, None)], [], [], [], map[], {});
    if HasLiveDirectGrant(s, user, doc, Read, now) {
      var p :| p in s.permissions && DirectGrant(p, user, doc, Read, now);
      AsStrInjective(Admin, Read);
    }
  }

  /** The live direct grant rows of (`user`, `doc`), in table order. */
  function LiveDirectRows(s: Store, user: Uuid, doc: Uuid, now: int): (r: seq<DocumentPermission>)
    ensures forall p :: p in r <==> p in s.permissions && p.documentId == doc && p.userId == user && Live(p.expiresAt, now)
  {
    Seqs.Filter(s.permissions, (p: DocumentPermission) => p.documentId == doc && p.userId == user && Live(p.expiresAt, now))
  }

  /** `filter_map(|p| p.permission_type())`: the parseable levels, in order. */
  function ParsedLevels(rows: seq<DocumentPermission>): (r: seq<PermissionType>)
    ensures |r| <= |rows|
    ensures forall l :: l in r <==> exists p :: p in rows && FromStr(p.permission) == Some(l)
    decreases |rows|
  {
    if |rows| == 0 then []
    else
      assert rows == [rows[0]] + rows[1..];
      match FromStr(rows[0].permission)
      case Some(l) => [l] + ParsedLevels(rows[1..])
      case None => ParsedLevels(rows[1..])
  }

  /**
   * `get_user_permissions`: the levels of the user's live direct grants on
   * the document, unparseable strings dropped. Neither ownership nor group
   * grants contribute.
   */
  function GetUserPermissions(s: Store, user: Uuid, doc: Uuid, now: int): (r: seq<PermissionType>)
    ensures forall l :: l in r <==> exists p :: p in s.permissions && p.documentId == doc && p.userId == user &&
                                               Live(p.expiresAt, now) && FromStr(p.permission) == Some(l)
  {
    ParsedLevels(LiveDirectRows(s, user, doc, now))
  }

  /** Every stored grant string is the canonical name of a level, as `grant_permission` writes it. */
  predicate Canonical(s: Store) {
    (forall p :: p in s.permissions ==> IsCanonical(p.permission)) &&
    (forall g :: g in s.groupPermissions ==> IsCanonical(g.permission))
  }

  /**
   * On a canonical store the listing agrees with the direct tier of the
   * resolver: a level is listed exactly when a live direct grant of it exists.
   */
  lemma ListedIffDirectGrant(s: Store, user: Uuid, doc: Uuid, level: PermissionType, now: int)
    requires Canonical(s)
    ensures level in GetUserPermissions(s, user, doc, now) <==> HasLiveDirectGrant(s, user, doc, level, now)
  {
    if level in GetUserPermissions(s, user, doc, now) {
      var p :| p in s.permissions && p.documentId == doc && p.userId == user &&
               Live(p.expiresAt, now) && FromStr(p.permission) == Some(level);
      CanonicalParse(p.permission, level);
      assert DirectGrant(p, user, doc, level, now);
    }
    if HasLiveDirectGrant(s, user, doc, level, now) {
      var p :| p in s.permissions && DirectGrant(p, user, doc, level, now);
      FromStrAsStr(level);
    }
  }

  /**
   * Off canonical stores the two disagree: a row holding "READ" is listed as
   * Read, yet the resolver's exact string comparison does not honour it.
   */
  lemma NonCanonicalListedButDenied(user: Uuid, doc: Uuid, grantor: Uuid, rowId: Uuid, now: int)
    ensures var s := Store([], [], [DocumentPermission(rowId, doc, user, "READ", grantor, now, None)], [], [], [], map[], {});
      Read in GetUserPermissions(s, user, doc, now) && !CheckPermission(s, user, doc, Read, now)
  {
    var s := Store([], [], [DocumentPermission(rowId, doc, user, "READ", grantor, now, None)], [], [], [], map[], {});
    var p := s.permissions[0];
    assert Text.Lower("READ") == "read";
    assert FromStr(p.permission) == Some(Read);
    assert p in s.permissions;
  }

  /**
   * `grant_permission`: always inserts a new row (no de-duplication) with
   * the canonical level string; `rowId` and `now` stand for the database's
   * generated id and `granted_at` default.
   */
  function GrantPermission(s: Store, doc: Uuid, user: Uuid, level: PermissionType, granter: Uuid,
                           expiresAt: Option<int>, rowId: Uuid, now: int): (r: (Store, DocumentPermission))
    ensures r.0.permissions == s.permissions + [r.1]
    ensures r.0 == s.(permissions := r.0.permissions)
    ensures r.1.documentId == doc && r.1.userId == user && r.1.grantedBy == granter
    ensures r.1.expiresAt == expiresAt && FromStr(r.1.permission) == Some(level)
    ensures r.1.permission == AsStr(level) && IsCanonical(r.1.permission)
    ensures r.1.id == rowId && r.1.grantedAt == now
    ensures Canonical(s) ==> Canonical(r.0)
  {
    var row := DocumentPermission(rowId, doc, user, AsStr(level), granter, now, expiresAt);
    FromStrAsStr(level);
    (s.(permissions := s.permissions + [row]), row)
  }

  /** After a grant the user passes that level while the grant is live. */
  lemma GrantThenCheck(s: Store, doc: Uuid, user: Uuid, level: PermissionType, granter: Uuid,
                       expiresAt: Option<int>, rowId: Uuid, now: int, t: int)
    requires Live(expiresAt, t)
    ensures CheckPermission(GrantPermission(s, doc, user, level, granter, expiresAt, rowId, now).0, user, doc, level, t)
  {
    var r := GrantPermission(s, doc, user, level, granter, expiresAt, rowId, now);
    assert r.1 in r.0.permissions;
    assert DirectGrant(r.1, user, doc, level, t);
  }

  /** A grant of one level changes no check of another level. */
  lemma GrantOtherLevel(s: Store, doc: Uuid, user: Uuid, level: PermissionType, granter: Uuid,
                        expiresAt: Option<int>, rowId: Uuid, now: int,
                        u: Uuid, d: Uuid, other: PermissionType, t: int)
    requires other != level
    ensures CheckPermission(GrantPermission(s, doc, user, level, granter, expiresAt, rowId, now).0, u, d, other, t)
         == CheckPermission(s, u, d, other, t)
  {
    var r := GrantPermission(s, doc, user, level, granter, expiresAt, rowId, now);
    assert r.1.permission != AsStr(other) by {
      if r.1.permission == AsStr(other) {
        AsStrInjective(level, other);
      }
    }
    OtherLevelIrrelevant(s, [r.1], [], u, d, other, t);
    assert s.(permissions := s.permissions + [r.1], groupPermissions := s.groupPermissions + []) == r.0;
  }

  /** A grant only adds a row, so every check that passed still passes. */
  lemma GrantKeepsChecks(s: Store, doc: Uuid, user: Uuid, level: PermissionType, granter: Uuid,
                         expiresAt: Option<int>, rowId: Uuid, now: int,
                         u: Uuid, d: Uuid, l: PermissionType, t: int)
    requires CheckPermission(s, u, d, l, t)
    ensures CheckPermission(GrantPermission(s, doc, user, level, granter, expiresAt, rowId, now).0, u, d, l, t)
  {
    var r := GrantPermission(s, doc, user, level, granter, expiresAt, rowId, now).0;
    if HasLiveDirectGrant(s, u, d, l, t) {
      var p :| p in s.permissions && DirectGrant(p, u, d, l, t);
      assert p in r.permissions;
    }
  }

  /** The resolver reads neither the share links nor the search index nor the object store. */
  lemma CheckIgnoresLinks(s: Store, links: seq<ShareLink>, user: Uuid, doc: Uuid, level: PermissionType, now: int)
    ensures CheckPermission(s.(shareLinks := links), user, doc, level, now) == CheckPermission(s, user, doc, level, now)
  {
  }

  predicate RevokeMatch(p: DocumentPermission, doc: Uuid, user: Uuid, level: PermissionType) {
    p.documentId == doc && p.userId == user && p.permission == AsStr(level)
  }

  /**
   * `revoke_permission`: deletes every row of (`doc`, `user`, exact level),
   * expired or not; every other row stays, with its multiplicity and order.
   */
  function RevokePermission(s: Store, doc: Uuid, user: Uuid, level: PermissionType): (r: Store)
    ensures r == s.(permissions := r.permissions)
    ensures forall p :: p in r.permissions <==> p in s.permissions && !RevokeMatch(p, doc, user, level)
    ensures forall p :: multiset(r.permissions)[p] == if RevokeMatch(p, doc, user, level) then 0 else multiset(s.permissions)[p]
    ensures r.permissions == Seqs.Filter(s.permissions, (p: DocumentPermission) => !RevokeMatch(p, doc, user, level))
  {
    s.(permissions := Seqs.Filter(s.permissions, (p: DocumentPermission) => !RevokeMatch(p, doc, user, level)))
  }

  /**
   * Revoking a level right after granting it leaves the grant table as
   * revoking alone would: the new row goes, and the surviving rows keep
   * their order.
   */
  lemma RevokeUndoesGrant(s: Store, doc: Uuid, user: Uuid, level: PermissionType, granter: Uuid,
                          expiresAt: Option<int>, rowId: Uuid, now: int)
    ensures RevokePermission(GrantPermission(s, doc, user, level, granter, expiresAt, rowId, now).0, doc, user, level)
         == RevokePermission(s, doc, user, level)
  {
    var g := GrantPermission(s, doc, user, level, granter, expiresAt, rowId, now);
    var keep := (p: DocumentPermission) => !RevokeMatch(p, doc, user, level);
    Seqs.FilterAppend(s.permissions, [g.1], keep);
    Seqs.FilterSingle(g.1, keep);
  }

  /**
   * After a revoke only the other two tiers can grant that level, and
   * checks of other levels or of other (user, document) pairs are unchanged.
   */
  lemma RevokeThenCheck(s: Store, doc: Uuid, user: Uuid, level: PermissionType, t: int)
    ensures CheckPermission(RevokePermission(s, doc, user, level), user, doc, level, t)
        <==> IsOwner(s, user, doc) || HasLiveGroupGrant(s, user, doc, level, t)
  {
    var r := RevokePermission(s, doc, user, level);
    forall p | p in r.permissions ensures !DirectGrant(p, user, doc, level, t) {
      assert !RevokeMatch(p, doc, user, level);
    }
  }

  lemma RevokeKeepsOthers(s: Store, doc: Uuid, user: Uuid, level: PermissionType,
                          u: Uuid, d: Uuid, other: PermissionType, t: int)
    requires other != level || u != user || d != doc
    ensures CheckPermission(RevokePermission(s, doc, user, level), u, d, other, t) == CheckPermission(s, u, d, other, t)
  {
    var r := RevokePermission(s, doc, user, level);
    if HasLiveDirectGrant(s, u, d, other, t) {
      var p :| p in s.permissions && DirectGrant(p, u, d, other, t);
      if RevokeMatch(p, doc, user, level) {
        AsStrInjective(level, other);
      }
      assert p in r.permissions;
    }
  }

  /** The action names `can_perform_action` knows, and the level each needs. */
  function ActionLevel(action: string): (r: Option<PermissionType>)
    ensures r == Some(Read) <==> action in {"read", "view", "download"}
    ensures r == Some(Write) <==> action in {"edit", "update", "upload"}
    ensures r == Some(Delete) <==> action == "delete"
    ensures r == Some(Share) <==> action == "share"
    ensures r == Some(Admin) <==> action in {"admin", "permissions"}
  {
    if action in {"read", "view", "download"} then Some(Read)
    else if action in {"edit", "update", "upload"} then Some(Write)
    else if action == "delete" then Some(Delete)
    else if action == "share" then Some(Share)
    else if action in {"admin", "permissions"} then Some(Admin)
    else None
  }

  /**
   * `can_perform_action`: an unknown action is a BadRequest before any
   * lookup; a known one is the resolver at its level.
   */
  function CanPerformAction(s: Store, user: Uuid, doc: Uuid, action: string, now: int): (r: Result<bool, AppError>)
    ensures r.Err? <==> ActionLevel(action).None?
    ensures r.Err? ==> r.error == BadRequest("Unknown action: " + action)
    ensures r.Ok? ==> r.value == CheckPermission(s, user, doc, ActionLevel(action).value, now)
  {
    match ActionLevel(action)
    case None => Err(BadRequest("Unknown action: " + action))
    case Some(level) => Ok(CheckPermission(s, user, doc, level, now))
  }

  /** Action names are matched exactly: one starting with a capital is unknown. */
  lemma ActionIsCaseSensitive(s: Store, user: Uuid, doc: Uuid, action: string, now: int)
    requires |action| > 0 && Text.IsAsciiUpper(action[0])
    ensures CanPerformAction(s, user, doc, action, now) == Err(BadRequest("Unknown action: " + action))
  {
    assert forall name :: (name in {"read", "view", "download", "edit", "update", "upload", "delete", "share", "admin", "permissions"}
      ==> name[0] != action[0]);
  }
}
