/**
 * The web client's route table and its navigation guard. A navigation
 * needs a signed-in user when any record it matched does not explicitly
 * opt out with `requiresAuth: false`; a record with no flag at all, such as
 * every child of the layout route, therefore needs one. Whether the user is
 * signed in (the store holds a non-empty token) is an input.
 */
module Router {
  import opened Wrappers
  import Seqs

  /** One route record: its path, its name if it has one, and its `meta.requiresAuth` flag if set. */
  datatype Record = Record(path: string, name: Option<string>, requiresAuth: Option<bool>)

  const LoginRoute: Record := Record("/login", Some("login"), Some(false))
  const RegisterRoute: Record := Record("/register", Some("register"), Some(false))
  /** The layout route: it has no name of its own, only its children do. */
  const LayoutRoute: Record := Record("/", None, Some(true))
  const ShareRoute: Record := Record("/share/:token", Some("share-access"), Some(false))
  const EditorRoute: Record := Record("/editor/:id", Some("editor"), Some(true))

  /** The layout's children, none of which sets the flag. */
  const LayoutChildren: seq<Record> := [
    Record("", Some("home"), None),
    Record("documents", Some("documents"), None),
    Record("documents/:id", Some("document-detail"), None),
    Record("search", Some("search"), None),
    Record("shared", Some("shared"), None),
    Record("profile", Some("profile"), None)
  ]

  /**
   * What each navigation matches, in table order: a top-level route alone,
   * or the layout followed by one of its children. The layout never matches
   * alone, since "/" reaches its child with the empty path.
   */
  const Table: seq<seq<Record>> := [
    [LoginRoute],
    [RegisterRoute],
    [LayoutRoute, LayoutChildren[0]],
    [LayoutRoute, LayoutChildren[1]],
    [LayoutRoute, LayoutChildren[2]],
    [LayoutRoute, LayoutChildren[3]],
    [LayoutRoute, LayoutChildren[4]],
    [LayoutRoute, LayoutChildren[5]],
    [ShareRoute],
    [EditorRoute]
  ]

  /** The names whose navigation needs no sign-in. */
  const PublicNames: set<string> := {"login", "register", "share-access"}

  /** The name of the route a chain ends in. */
  function Leaf(chain: seq<Record>): Option<string> {
    if |chain| == 0 then None else chain[|chain| - 1].name
  }

  /** `to.matched` for a navigation to the route called `name`. */
  function MatchedFor(name: string): (m: Option<seq<Record>>)
    ensures m.Some? ==> m.value in Table && Leaf(m.value) == Some(name)
    ensures m.None? <==> forall c :: c in Table ==> Leaf(c) != Some(name)
  {
    Seqs.Find(Table, (c: seq<Record>) => Leaf(c) == Some(name))
  }

  /** `to.matched.some(record => record.meta.requiresAuth !== false)`. */
  function RequiresAuth(matched: seq<Record>): (r: bool)
    ensures r <==> exists rec :: rec in matched && rec.requiresAuth != Some(false)
  {
    Seqs.Any(matched, (rec: Record) => rec.requiresAuth != Some(false))
  }

  /** The target of a navigation. */
  datatype Target = Target(name: Option<string>, fullPath: string, matched: seq<Record>)

  /** What the guard tells the router: go on, or go to a named route instead. */
  datatype Decision = Proceed | Redirect(to: string, redirect: Option<string>)

  /**
   * `router.beforeEach`: a guest heading for a protected page goes to the
   * login page, which is told where to come back to; a signed-in user
   * heading for the login or registration page goes home; everything else
   * proceeds.
   */
  function Guard(to: Target, isLoggedIn: bool): (d: Decision)
    ensures d == Redirect("login", Some(to.fullPath)) <==> RequiresAuth(to.matched) && !isLoggedIn
    ensures d == Redirect("home", None) <==> isLoggedIn && to.name in {Some("login"), Some("register")}
    ensures d.Proceed? <==> (isLoggedIn || !RequiresAuth(to.matched)) &&
                            !(isLoggedIn && to.name in {Some("login"), Some("register")})
  {
    if RequiresAuth(to.matched) && !isLoggedIn then Redirect("login", Some(to.fullPath))
    else if (to.name == Some("login") || to.name == Some("register")) && isLoggedIn then Redirect("home", None)
    else Proceed
  }

  /** The navigation to a named route, as the router resolves it. */
  function NavigateTo(name: string, fullPath: string): Target
    requires MatchedFor(name).Some?
  {
    Target(Some(name), fullPath, MatchedFor(name).value)
  }

  /**
   * Of the routes in the table exactly login, registration and the share-link
   * page are public; the layout's children inherit nothing and still need a
   * sign-in, and so does the editor.
   */
  lemma PublicRoutesAreExactlyThese()
    ensures forall c :: c in Table && Leaf(c).Some? ==> (!RequiresAuth(c) <==> Leaf(c).value in PublicNames)
  {
    forall i | 0 <= i < |Table| && Leaf(Table[i]).Some?
      ensures !RequiresAuth(Table[i]) <==> Leaf(Table[i]).value in PublicNames
    {
      var c := Table[i];
      if |c| == 2 {
        assert c[1] in c && c[1].requiresAuth.None?;
        assert Leaf(c).value[0] !in {'l', 'r', 's'} || Leaf(c).value in {"search", "shared"};
      } else {
        assert c[0] in c;
      }
    }
  }

  /** The guard never bounces a user twice: wherever it redirects, the guard lets the user through. */
  lemma NoRedirectLoop(to: Target, isLoggedIn: bool, fullPath: string)
    requires Guard(to, isLoggedIn).Redirect?
    ensures var d := Guard(to, isLoggedIn);
      MatchedFor(d.to).Some? && Guard(NavigateTo(d.to, fullPath), isLoggedIn).Proceed?
  {
    var d := Guard(to, isLoggedIn);
    assert Leaf(Table[0]) == Some("login") && Leaf(Table[2]) == Some("home");
    PublicRoutesAreExactlyThese();
  }

  /** A path that matches no route needs no sign-in: the guard lets a guest through to it. */
  lemma UnmatchedPathIsOpen(fullPath: string)
    ensures Guard(Target(None, fullPath, []), false) == Proceed
  {
  }
}
