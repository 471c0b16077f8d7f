/** Users, the role codec and the user request bodies. */
module UserModel {
  import opened Wrappers
  import opened Uuids
  import Text

  /** A row of `users`; `passwordHash` is never serialised. */
  datatype User = User(
    id: Uuid,
    username: string,
    email: string,
    passwordHash: string,
    fullName: Option<string>,
    role: string,
    isActive: bool,
    createdAt: int,
    updatedAt: int)

  /** What the API returns for a user: every public field, and no password hash. */
  datatype UserResponse = UserResponse(
    id: Uuid,
    username: string,
    email: string,
    fullName: Option<string>,
    role: string,
    isActive: bool,
    createdAt: int)

  /**
   * `From<User> for UserResponse`: the public fields are copied unchanged.
   */
  function ToResponse(u: User): (r: UserResponse)
    ensures r.id == u.id && r.username == u.username && r.email == u.email
    ensures r.fullName == u.fullName && r.role == u.role
    ensures r.isActive == u.isActive && r.createdAt == u.createdAt
  {
    UserResponse(u.id, u.username, u.email, u.fullName, u.role, u.isActive, u.createdAt)
  }

  /** The response never depends on the password hash. */
  lemma ResponseHidesPassword(u: User, h: string)
    ensures ToResponse(u.(passwordHash := h)) == ToResponse(u)
  {
  }

  datatype UserRole = Admin | User | Guest

  /** The stored name of a role: a non-empty lower-case word. */
  function RoleAsStr(r: UserRole): (s: string)
    ensures |s| > 0 && Text.IsLowercase(s)
  {
    if r.Admin? then "admin" else if r.User? then "user" else "guest"
  }

  /** Case-insensitive parse of a role name; `None` for anything else. */
  function RoleFromStr(s: string): (r: Option<UserRole>)
    ensures r.Some? ==> RoleAsStr(r.value) == Text.Lower(s)
    ensures r.None? ==> forall q: UserRole :: RoleAsStr(q) != Text.Lower(s)
  {
    var l := Text.Lower(s);
    if l == "admin" then Some(Admin)
    else if l == "user" then Some(UserRole.User)
    else if l == "guest" then Some(Guest)
    else None
  }

  /** Parsing a role's name gives the role back; parsing ignores case. */
  lemma RoleRoundTrip(r: UserRole, s: string)
    ensures RoleFromStr(RoleAsStr(r)) == Some(r)
    ensures RoleFromStr(s) == RoleFromStr(Text.Lower(s))
  {
    Text.LowerIsLowercase(RoleAsStr(r));
    Text.LowerIsLowercase(s);
  }

  /** Registration body; the email-format rule is not part of this model. */
  datatype CreateUserRequest = CreateUserRequest(
    username: string,
    email: string,
    password: string,
    fullName: Option<string>)
  {
    /** The length rules: a username of 3 to 100 characters, a password of at least 6. */
    predicate LengthsValid() {
      3 <= |username| <= 100 && 6 <= |password|
    }
  }

  /** Login body, with the same length rules as registration. */
  datatype LoginRequest = LoginRequest(username: string, password: string)
  {
    predicate LengthsValid() {
      3 <= |username| <= 100 && 6 <= |password|
    }
  }

  /**
   * The boundaries of the length rules: usernames of 2 and 101 characters
   * and passwords of 5 are refused; 3, 100 and 6 are the extremes accepted.
   * A login body passes exactly when a registration with the same username
   * and password would.
   */
  lemma RequestBoundaries(c: CreateUserRequest, l: LoginRequest)
    ensures |c.username| == 2 || |c.username| == 101 || |c.password| == 5 ==> !c.LengthsValid()
    ensures (|c.username| == 3 || |c.username| == 100) && |c.password| == 6 ==> c.LengthsValid()
    ensures l.LengthsValid() <==> CreateUserRequest(l.username, "", l.password, None).LengthsValid()
  {
  }
}
