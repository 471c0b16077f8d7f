/**
 * The permission and share-link endpoints. Grant, revoke and list of direct
 * grants are gated on Admin; creating and listing share links on Share;
 * deleting a link is open to its creator and otherwise gated on Admin.
 * Redeeming a link needs no login: it checks the link's expiry, then its use
 * cap, then increments the use count. It never consults the link's password
 * hash, and the increment writes the count read earlier rather than
 * incrementing in place.
 */
module PermissionHandlers {
  import opened Wrappers
  import opened Uuids
  import opened Errors
  import opened PermissionModel
  import opened Db
  import opened PermissionService
  import Seqs
  import Text

  const NoGrantMsg: string := "No permission to grant permissions"
  const NoRevokeMsg: string := "No permission to revoke permissions"
  const NoListMsg: string := "No permission to list permissions"
  const InvalidPermissionMsg: string := "Invalid permission type"
  const RevokedMsg: string := "Permission revoked successfully"
  const NoShareMsg: string := "No permission to share this document"
  const HashFailedPrefix: string := "Failed to hash password: "
  const ExpiredMsg: string := "Share link has expired"
  const LimitMsg: string := "Share link access limit reached"
  const NoViewLinksMsg: string := "No permission to view share links"
  const WrongDocumentMsg: string := "Share link not found for this document"
  const NoDeleteLinkMsg: string := "No permission to delete this share link"
  const LinkDeletedMsg: string := "Share link deleted successfully"

  /**
   * `grant_permission` handler: an Admin caller's grant is inserted with the
   * caller as grantor; anyone else is refused and nothing is written.
   */
  function Grant(s: Store, caller: Uuid, doc: Uuid, req: GrantPermissionRequest, rowId: Uuid, now: int): (r: Outcome<DocumentPermission>)
    ensures r.result.Err? <==> !CheckPermission(s, caller, doc, Admin, now)
    ensures r.result.Err? ==> r.store == s && r.result.error == Forbidden(NoGrantMsg)
    ensures r.result.Ok? ==> (r.store, r.result.value) == GrantPermission(s, doc, req.userId, req.permission, caller, req.expiresAt, rowId, now)
    ensures r.result.Ok? ==> r.result.value.grantedBy == caller && r.result.value.userId == req.userId
    ensures r.result.Ok? && Live(req.expiresAt, now) ==> CheckPermission(r.store, req.userId, doc, req.permission, now)
  {
    if !CheckPermission(s, caller, doc, Admin, now) then Outcome(s, Err(Forbidden(NoGrantMsg)))
    else
      var g := GrantPermission(s, doc, req.userId, req.permission, caller, req.expiresAt, rowId, now);
      assert Live(req.expiresAt, now) ==> CheckPermission(g.0, req.userId, doc, req.permission, now) by {
        if Live(req.expiresAt, now) {
          GrantThenCheck(s, doc, req.userId, req.permission, caller, req.expiresAt, rowId, now, now);
        }
      }
      Outcome(g.0, Ok(g.1))
  }

  /**
   * `revoke_permission` handler: the Admin check comes first; only then is
   * the level segment parsed (ignoring case), an unknown one being a
   * BadRequest; a known one deletes that user's rows of that level.
   */
  function Revoke(s: Store, caller: Uuid, doc: Uuid, target: Uuid, permission: string, now: int): (r: Outcome<string>)
    ensures !CheckPermission(s, caller, doc, Admin, now) ==> r == Outcome(s, Err(Forbidden(NoRevokeMsg)))
    ensures CheckPermission(s, caller, doc, Admin, now) && FromStr(permission).None? ==>
              r == Outcome(s, Err(BadRequest(InvalidPermissionMsg)))
    ensures r.result.Ok? ==> CheckPermission(s, caller, doc, Admin, now) && r.result.value == RevokedMsg
    ensures r.result.Ok? <==> CheckPermission(s, caller, doc, Admin, now) && FromStr(permission).Some?
    ensures r.result.Ok? ==> forall p :: p in r.store.permissions <==>
              p in s.permissions && !(p.documentId == doc && p.userId == target && p.permission == Text.Lower(permission))
    ensures r.result.Ok? ==> r.store == RevokePermission(s, doc, target, FromStr(permission).value)
  {
    if !CheckPermission(s, caller, doc, Admin, now) then Outcome(s, Err(Forbidden(NoRevokeMsg)))
    else match FromStr(permission)
      case None => Outcome(s, Err(BadRequest(InvalidPermissionMsg)))
      case Some(level) => Outcome(RevokePermission(s, doc, target, level), Ok(RevokedMsg))
  }

  /**
   * `list_permissions` handler: for an Admin caller, every direct grant row of
   * the document, expired ones included, in table order.
   */
  function List(s: Store, caller: Uuid, doc: Uuid, now: int): (r: Result<seq<DocumentPermission>, AppError>)
    ensures r.Err? <==> !CheckPermission(s, caller, doc, Admin, now)
    ensures r.Err? ==> r.error == Forbidden(NoListMsg)
    ensures r.Ok? ==> forall p :: p in r.value <==> p in s.permissions && p.documentId == doc
    ensures r.Ok? ==> forall p :: multiset(r.value)[p] == if p.documentId == doc then multiset(s.permissions)[p] else 0
    ensures r.Ok? ==> r.value == Seqs.Filter(s.permissions, (p: DocumentPermission) => p.documentId == doc)
  {
    if !CheckPermission(s, caller, doc, Admin, now) then Err(Forbidden(NoListMsg))
    else Ok(Seqs.Filter(s.permissions, (p: DocumentPermission) => p.documentId == doc))
  }

  /**
   * Table order: after a successful grant the listing is the earlier one
   * with the new row at its end.
   */
  lemma ListAfterGrant(s: Store, caller: Uuid, doc: Uuid, req: GrantPermissionRequest, rowId: Uuid, now: int)
    requires Grant(s, caller, doc, req, rowId, now).result.Ok?
    ensures var g := Grant(s, caller, doc, req, rowId, now);
      List(g.store, caller, doc, now) == Ok(List(s, caller, doc, now).value + [g.result.value])
  {
    var g := Grant(s, caller, doc, req, rowId, now);
    var keep := (p: DocumentPermission) => p.documentId == doc;
    Seqs.FilterAppend(s.permissions, [g.result.value], keep);
    Seqs.FilterSingle(g.result.value, keep);
    assert g.store.groupPermissions == s.groupPermissions && g.store.groupMembers == s.groupMembers;
    assert g.store.documents == s.documents;
    assert CheckPermission(g.store, caller, doc, Admin, now) by {
      GrantKeepsChecks(s, doc, req.userId, req.permission, caller, req.expiresAt, rowId, now, caller, doc, Admin, now);
    }
  }

  /** The listing shows grants the resolver no longer honours. */
  lemma ListShowsExpired(s: Store, caller: Uuid, doc: Uuid, now: int, p: DocumentPermission)
    requires CheckPermission(s, caller, doc, Admin, now)
    requires p in s.permissions && p.documentId == doc && p.expiresAt == Some(now)
    ensures p in List(s, caller, doc, now).value
    ensures forall level :: !DirectGrant(p, p.userId, doc, level, now)
  {
  }

  predicate HasLinkId(s: Store, id: Uuid) {
    exists l :: l in s.shareLinks && l.id == id
  }

  const DuplicateLinkKey: string := "duplicate key value violates unique constraint \"share_links_pkey\""

  /**
   * `create_share_link` handler. `token` stands for the fresh random UUID,
   * `linkId` and `now` for the database's generated id and `created_at`, and
   * `hash` for bcrypt. The stored link is the caller's, carries the canonical
   * level name, a hash exactly when a password was given, and no uses yet.
   */
  function CreateShareLink(s: Store, caller: Uuid, doc: Uuid, req: CreateShareLinkRequest,
                           token: Uuid, linkId: Uuid, hash: string -> Call<string>, now: int): (r: Outcome<ShareLink>)
    ensures r.result.Err? ==> r.store == s
    ensures !CheckPermission(s, caller, doc, Share, now) ==> r.result == Err(Forbidden(NoShareMsg))
    ensures r.result.Ok? <==> (CheckPermission(s, caller, doc, Share, now) && !HasLinkId(s, linkId) &&
                               (req.password.Some? ==> hash(req.password.value).Done?))
    ensures CheckPermission(s, caller, doc, Share, now) && req.password.Some? && hash(req.password.value).Failed? ==>
              r.result == Err(InternalServerError(HashFailedPrefix + hash(req.password.value).reason))
    ensures r.result.Ok? ==> r.store == s.(shareLinks := s.shareLinks + [r.result.value])
    ensures r.result.Ok? ==>
              var l := r.result.value;
              l.id == linkId && l.documentId == doc && l.token == ToString(token) && l.createdBy == caller &&
              l.PermissionTypeOf() == Some(req.permission) && IsCanonical(l.permission) &&
              (l.passwordHash.Some? <==> req.password.Some?) &&
              (req.password.Some? ==> l.passwordHash == Some(hash(req.password.value).value)) &&
              l.maxAccessCount == req.maxAccessCount && l.expiresAt == req.expiresAt && l.accessCount == 0
  {
    if !CheckPermission(s, caller, doc, Share, now) then Outcome(s, Err(Forbidden(NoShareMsg)))
    else
      var hashed: Result<Option<string>, AppError> :=
        match req.password
        case None => Ok(None)
        case Some(pw) =>
          (match hash(pw)
           case Done(h) => Ok(Some(h))
           case Failed(e) => Err(InternalServerError(HashFailedPrefix + e)));
      match hashed
      case Err(e) => Outcome(s, Err(e))
      case Ok(passwordHash) =>
        if HasLinkId(s, linkId) then Outcome(s, Err(DatabaseError(DuplicateLinkKey)))
        else
          var link := ShareLink(linkId, doc, ToString(token), caller, AsStr(req.permission), passwordHash,
                                req.maxAccessCount, 0, req.expiresAt, now);
          FromStrAsStr(req.permission);
          Outcome(s.(shareLinks := s.shareLinks + [link]), Ok(link))
  }

  predicate TokenIs(l: ShareLink, token: string) {
    l.token == token
  }

  /** The filter keeping every link but the one with the given id. */
  function OtherThanLink(shareId: Uuid): ShareLink -> bool {
    (l: ShareLink) => l.id != shareId
  }

  /** The `token = ...` filter. */
  function ByToken(token: string): ShareLink -> bool {
    (l: ShareLink) => TokenIs(l, token)
  }

  /**
   * `share_links.filter(token = ...).first()`: a link with the token. The
   * query has no ORDER BY; the model takes the first in table order.
   */
  function LinkByToken(links: seq<ShareLink>, token: string): (r: Option<ShareLink>)
    ensures r.Some? ==> r.value in links && r.value.token == token
    ensures r.None? <==> forall l :: l in links ==> l.token != token
  {
    Seqs.Find(links, ByToken(token))
  }

  /** The link has an expiry strictly before now. */
  predicate Expired(l: ShareLink, now: int) {
    l.expiresAt.Some? && l.expiresAt.value < now
  }

  /** The link has a cap and has been used that many times or more. */
  predicate Exhausted(l: ShareLink) {
    l.maxAccessCount.Some? && l.accessCount >= l.maxAccessCount.value
  }

  /**
   * `get_share_link`: redeems a link by token. The first link with the
   * token is checked for expiry (strictly before now), then for its cap;
   * either failure changes nothing. Otherwise every row with the token gets
   * the count read plus one, and the link as read is returned.
   */
  function GetShareLink(s: Store, token: string, now: int): (r: Outcome<ShareLink>)
    ensures r.result.Err? ==> r.store == s
    ensures LinkByToken(s.shareLinks, token).None? ==> r.result == Err(NotFound(ResourceNotFound))
    ensures LinkByToken(s.shareLinks, token).Some? ==>
              var l := LinkByToken(s.shareLinks, token).value;
              (Expired(l, now) ==> r.result == Err(BadRequest(ExpiredMsg))) &&
              (!Expired(l, now) && Exhausted(l) ==> r.result == Err(BadRequest(LimitMsg))) &&
              (r.result.Ok? <==> !Expired(l, now) && !Exhausted(l)) &&
              (r.result.Ok? ==> r.result.value == l)
    ensures r.store == s.(shareLinks := r.store.shareLinks)
    ensures |r.store.shareLinks| == |s.shareLinks|
    ensures forall i :: 0 <= i < |s.shareLinks| ==>
              r.store.shareLinks[i] == s.shareLinks[i].(accessCount := r.store.shareLinks[i].accessCount)
    ensures r.result.Ok? ==> forall i :: 0 <= i < |s.shareLinks| ==>
              r.store.shareLinks[i].accessCount ==
                if s.shareLinks[i].token == token then r.result.value.accessCount + 1 else s.shareLinks[i].accessCount
  {
    match LinkByToken(s.shareLinks, token)
    case None => Outcome(s, Err(FromDiesel(RecordNotFound)))
    case Some(link) =>
      if Expired(link, now) then Outcome(s, Err(BadRequest(ExpiredMsg)))
      else if Exhausted(link) then Outcome(s, Err(BadRequest(LimitMsg)))
      else
        var links := Seqs.UpdateWhere(s.shareLinks, ByToken(token),
                                      (l: ShareLink) => l.(accessCount := link.accessCount + 1));
        Outcome(s.(shareLinks := links), Ok(link))
  }

  /** Two link tables that differ at most in their password hashes. */
  predicate SameButHashes(a: seq<ShareLink>, b: seq<ShareLink>) {
    |a| == |b| && forall i :: 0 <= i < |a| ==> a[i].(passwordHash := None) == b[i].(passwordHash := None)
  }

  /**
   * Redemption never looks at the password hash: stores that differ only in
   * hashes give the same verdict, the same link up to its hash, and
   * resulting tables that again differ only in hashes.
   */
  lemma RedeemIgnoresPassword(s: Store, links: seq<ShareLink>, token: string, now: int)
    requires SameButHashes(s.shareLinks, links)
    ensures var r1, r2 := GetShareLink(s, token, now), GetShareLink(s.(shareLinks := links), token, now);
      r1.result.Ok? == r2.result.Ok? &&
      (r1.result.Err? ==> r1.result == r2.result) &&
      (r1.result.Ok? ==> r1.result.value.(passwordHash := None) == r2.result.value.(passwordHash := None)) &&
      SameButHashes(r1.store.shareLinks, r2.store.shareLinks)
  {
    var s2 := s.(shareLinks := links);
    var p := ByToken(token);
    forall i | 0 <= i < |links| ensures p(s.shareLinks[i]) == p(links[i]) {
      assert s.shareLinks[i].(passwordHash := None).token == s.shareLinks[i].token;
    }
    Seqs.FirstIndexAgree(s.shareLinks, p, links, p);
    var r1, r2 := GetShareLink(s, token, now), GetShareLink(s2, token, now);
    var i := Seqs.FirstIndex(s.shareLinks, p);
    if i < |links| {
      var a, b := s.shareLinks[i], links[i];
      assert a.(passwordHash := None) == b.(passwordHash := None);
      assert a.expiresAt == b.expiresAt && a.maxAccessCount == b.maxAccessCount && a.accessCount == b.accessCount;
      forall k | 0 <= k < |links|
        ensures r1.store.shareLinks[k].(passwordHash := None) == r2.store.shareLinks[k].(passwordHash := None)
      {
        assert s.shareLinks[k].(passwordHash := None) == links[k].(passwordHash := None);
      }
    }
  }

  /** No two links share a token. */
  predicate UniqueTokens(links: seq<ShareLink>) {
    forall i, j :: 0 <= i < j < |links| ==> links[i].token != links[j].token
  }

  /** A link's use count is within its cap, when it has one. */
  predicate WithinCap(l: ShareLink) {
    l.maxAccessCount.Some? ==> l.accessCount <= l.maxAccessCount.value
  }

  /** With unique tokens, the link found by a token is the one at its position. */
  lemma LinkByTokenUnique(links: seq<ShareLink>, i: nat)
    requires UniqueTokens(links) && i < |links|
    ensures LinkByToken(links, links[i].token) == Some(links[i])
    ensures Seqs.FirstIndex(links, ByToken(links[i].token)) == i
  {
    var p := ByToken(links[i].token);
    var j := Seqs.FirstIndex(links, p);
    assert p(links[i]);
    assert j == i;
    assert Seqs.Find(links, p) == Some(links[j]);
  }

  /**
   * Sequentially, with unique tokens, a redemption keeps every link within
   * its cap: the redeemed link was below its cap and grows by exactly one.
   */
  lemma RedeemKeepsCap(s: Store, token: string, now: int)
    requires UniqueTokens(s.shareLinks)
    requires forall l :: l in s.shareLinks ==> WithinCap(l)
    ensures var r := GetShareLink(s, token, now);
      UniqueTokens(r.store.shareLinks) && forall l :: l in r.store.shareLinks ==> WithinCap(l)
  {
    var r := GetShareLink(s, token, now);
    forall l | l in r.store.shareLinks ensures WithinCap(l) {
      var k :| 0 <= k < |r.store.shareLinks| && r.store.shareLinks[k] == l;
      if r.result.Ok? && s.shareLinks[k].token == token {
        LinkByTokenUnique(s.shareLinks, k);
      } else {
        assert s.shareLinks[k] in s.shareLinks;
      }
    }
  }

  /** Redeems a token once per time in `times`, in order; counts the successes. */
  function RedeemAll(s: Store, token: string, times: seq<int>): (r: (Store, nat))
    ensures r.1 <= |times|
    ensures r.0 == s.(shareLinks := r.0.shareLinks)
    ensures |r.0.shareLinks| == |s.shareLinks|
    ensures forall i :: 0 <= i < |s.shareLinks| ==>
              r.0.shareLinks[i] == s.shareLinks[i].(accessCount := r.0.shareLinks[i].accessCount)
    decreases |times|
  {
    if |times| == 0 then (s, 0)
    else
      var o := GetShareLink(s, token, times[0]);
      var rest := RedeemAll(o.store, token, times[1..]);
      (rest.0, rest.1 + if o.result.Ok? then 1 else 0)
  }

  /**
   * However many sequential redemptions are attempted, with unique tokens a
   * capped link succeeds at most cap − count times, and each success adds
   * exactly one to its count.
   */
  lemma {:induction false} RedeemAllBounded(s: Store, token: string, times: seq<int>, i: nat)
    requires UniqueTokens(s.shareLinks) && i < |s.shareLinks| && s.shareLinks[i].token == token
    requires s.shareLinks[i].maxAccessCount.Some?
    ensures var r := RedeemAll(s, token, times);
      var l := s.shareLinks[i];
      r.0.shareLinks[i].accessCount == l.accessCount + r.1 &&
      r.1 <= if l.accessCount < l.maxAccessCount.value then l.maxAccessCount.value - l.accessCount else 0
    decreases |times|
  {
    if |times| > 0 {
      var o := GetShareLink(s, token, times[0]);
      LinkByTokenUnique(s.shareLinks, i);
      assert UniqueTokens(o.store.shareLinks) by {
        forall a, b | 0 <= a < b < |o.store.shareLinks|
          ensures o.store.shareLinks[a].token != o.store.shareLinks[b].token
        {
          assert o.store.shareLinks[a].token == s.shareLinks[a].token;
          assert o.store.shareLinks[b].token == s.shareLinks[b].token;
        }
      }
      RedeemAllBounded(o.store, token, times[1..], i);
    }
  }

  /** A freshly created link with a fresh token, no cap below one and no past expiry, redeems to itself. */
  lemma CreateThenRedeem(s: Store, caller: Uuid, doc: Uuid, req: CreateShareLinkRequest,
                         token: Uuid, linkId: Uuid, hash: string -> Call<string>, now: int, t: int)
    requires forall l :: l in s.shareLinks ==> l.token != ToString(token)
    requires req.expiresAt.None? || t <= req.expiresAt.value
    requires req.maxAccessCount.None? || req.maxAccessCount.value > 0
    ensures var c := CreateShareLink(s, caller, doc, req, token, linkId, hash, now);
      c.result.Ok? ==> GetShareLink(c.store, ToString(token), t).result == c.result
  {
    var c := CreateShareLink(s, caller, doc, req, token, linkId, hash, now);
    if c.result.Ok? {
      var links := c.store.shareLinks;
      var p := ByToken(ToString(token));
      assert forall k :: 0 <= k < |s.shareLinks| ==> !p(links[k]) by {
        forall k | 0 <= k < |s.shareLinks| ensures !p(links[k]) {
          assert links[k] == s.shareLinks[k];
          assert s.shareLinks[k] in s.shareLinks;
        }
      }
      assert p(links[|s.shareLinks|]);
      assert Seqs.FirstIndex(links, p) == |s.shareLinks|;
    }
  }

  /**
   * `list_share_links` handler: for a caller holding Share, the document's
   * links in table order.
   */
  function ListShareLinks(s: Store, caller: Uuid, doc: Uuid, now: int): (r: Result<seq<ShareLink>, AppError>)
    ensures r.Err? <==> !CheckPermission(s, caller, doc, Share, now)
    ensures r.Err? ==> r.error == Forbidden(NoViewLinksMsg)
    ensures r.Ok? ==> forall l :: l in r.value <==> l in s.shareLinks && l.documentId == doc
    ensures r.Ok? ==> forall l :: multiset(r.value)[l] == if l.documentId == doc then multiset(s.shareLinks)[l] else 0
    ensures r.Ok? ==> r.value == Seqs.Filter(s.shareLinks, (l: ShareLink) => l.documentId == doc)
  {
    if !CheckPermission(s, caller, doc, Share, now) then Err(Forbidden(NoViewLinksMsg))
    else Ok(Seqs.Filter(s.shareLinks, (l: ShareLink) => l.documentId == doc))
  }

  /**
   * Table order: after a link is created the creator's listing is the
   * earlier one with the new link at its end.
   */
  lemma ListAfterCreate(s: Store, caller: Uuid, doc: Uuid, req: CreateShareLinkRequest,
                        token: Uuid, linkId: Uuid, hash: string -> Call<string>, now: int)
    requires CreateShareLink(s, caller, doc, req, token, linkId, hash, now).result.Ok?
    ensures var c := CreateShareLink(s, caller, doc, req, token, linkId, hash, now);
      ListShareLinks(c.store, caller, doc, now) == Ok(ListShareLinks(s, caller, doc, now).value + [c.result.value])
  {
    var c := CreateShareLink(s, caller, doc, req, token, linkId, hash, now);
    var keep := (l: ShareLink) => l.documentId == doc;
    Seqs.FilterAppend(s.shareLinks, [c.result.value], keep);
    Seqs.FilterSingle(c.result.value, keep);
    assert c.store.(shareLinks := s.shareLinks) == s;
    CheckIgnoresLinks(s, c.store.shareLinks, caller, doc, Share, now);
  }

  /**
   * `delete_share_link` handler: a missing link is NotFound; one of another
   * document is NotFound too; its creator may delete it without any check;
   * anyone else needs Admin on the document. Every refusal changes nothing;
   * success removes exactly the rows with that id.
   */
  function DeleteShareLink(s: Store, caller: Uuid, doc: Uuid, shareId: Uuid, now: int): (r: Outcome<string>)
    ensures r.result.Err? ==> r.store == s
    ensures !HasLinkId(s, shareId) ==> r.result == Err(NotFound(ResourceNotFound))
    ensures HasLinkId(s, shareId) ==>
              var l := Seqs.Find(s.shareLinks, (l: ShareLink) => l.id == shareId).value;
              (l.documentId != doc ==> r.result == Err(NotFound(WrongDocumentMsg))) &&
              (l.documentId == doc && l.createdBy != caller && !CheckPermission(s, caller, doc, Admin, now) ==>
                 r.result == Err(Forbidden(NoDeleteLinkMsg))) &&
              (r.result.Ok? <==> l.documentId == doc && (l.createdBy == caller || CheckPermission(s, caller, doc, Admin, now)))
    ensures r.result.Ok? ==> r.result.value == LinkDeletedMsg && r.store == s.(shareLinks := r.store.shareLinks)
    ensures r.result.Ok? ==> forall l :: l in r.store.shareLinks <==> l in s.shareLinks && l.id != shareId
    ensures r.result.Ok? ==> r.store.shareLinks == Seqs.Filter(s.shareLinks, OtherThanLink(shareId))
  {
    match Seqs.Find(s.shareLinks, (l: ShareLink) => l.id == shareId)
    case None => Outcome(s, Err(FromDiesel(RecordNotFound)))
    case Some(link) =>
      if link.documentId != doc then Outcome(s, Err(NotFound(WrongDocumentMsg)))
      else if link.createdBy != caller && !CheckPermission(s, caller, link.documentId, Admin, now) then
        Outcome(s, Err(Forbidden(NoDeleteLinkMsg)))
      else
        Outcome(s.(shareLinks := Seqs.Filter(s.shareLinks, OtherThanLink(shareId))), Ok(LinkDeletedMsg))
  }

  /** The creator of a link on a document may always delete it, whatever the grants say. */
  lemma CreatorMayDelete(s: Store, caller: Uuid, doc: Uuid, shareId: Uuid, now: int)
    requires forall l :: l in s.shareLinks && l.id == shareId ==> l.documentId == doc && l.createdBy == caller
    requires HasLinkId(s, shareId)
    ensures DeleteShareLink(s, caller, doc, shareId, now).result.Ok?
  {
  }
}
