/** `AuthService` of src/utils/auth.ts: the request context, the bearer-header
    parser, the authentication and admin guards and the order-number format.
    Hashing, signing and verifying are foreign and appear as parameters of the
    members that use them. */
module Auth {
  import opened Errors
  import opened Strings
  import opened Domain

  /** `Context`: who is calling. `user` is the user-table row the token named. */
  datatype Context = Context(user: Option<User>, isAuthenticated: bool, isAdmin: bool)

  /** `JWTPayload`. */
  datatype JwtPayload = JwtPayload(userId: Id, email: string, role: Role)

  /** The payload `register` and `login` sign for a user. */
  function PayloadFor(u: User): (p: JwtPayload)
    ensures p.userId == u.id && p.email == u.email && p.role == u.role
  {
    JwtPayload(u.id, u.email, u.role)
  }

  /** `extractTokenFromHeader(authHeader)`: `None` is a missing header. */
  function ExtractTokenFromHeader(authHeader: Option<string>): Option<string> {
    if authHeader == None || authHeader.value == "" then None
    else
      var parts := Split(authHeader.value, ' ');
      if |parts| != 2 || parts[0] != "Bearer" then None else Some(parts[1])
  }

  /** The parser accepts exactly the headers "Bearer " + t with t free of
      spaces, and returns that t. */
  lemma ExtractTokenExactly(authHeader: Option<string>, t: string)
    ensures ExtractTokenFromHeader(authHeader) == Some(t) <==>
      authHeader == Some("Bearer " + t) && ' ' !in t
  {
    if authHeader.Some? {
      var h := authHeader.value;
      var parts := Split(h, ' ');
      if ExtractTokenFromHeader(authHeader) == Some(t) {
        JoinSplit(h, ' ');
        SplitFreeOf(h, ' ');
        assert parts == ["Bearer", t];
        assert ' ' !in parts[1];
      }
      if h == "Bearer " + t && ' ' !in t {
        assert FreeOf(["Bearer", t], ' ');
        SplitJoin(["Bearer", t], ' ');
        assert Join(["Bearer", t], " ") == h;
      }
    }
  }

  /** Round trip: a space-free token put behind "Bearer " is read back. */
  lemma ExtractTokenRoundTrip(t: string)
    requires ' ' !in t
    ensures ExtractTokenFromHeader(Some("Bearer " + t)) == Some(t)
  {
    ExtractTokenExactly(Some("Bearer " + t), t);
  }

  /** A missing or empty header, a lower-case scheme and an extra space all
      give no token. */
  lemma ExtractTokenRejects(t: string)
    ensures ExtractTokenFromHeader(None) == None
    ensures ExtractTokenFromHeader(Some("")) == None
    ensures ExtractTokenFromHeader(Some("bearer " + t)) == None
    ensures ExtractTokenFromHeader(Some("Bearer a b")) == None
  {
    var h := "bearer " + t;
    var r := ExtractTokenFromHeader(Some(h));
    var x := r.GetOr("");
    ExtractTokenExactly(Some(h), x);
    assert h[0] != ("Bearer " + x)[0];
  }

  /** `requireAuth(context)`: the calling user, or AuthenticationError. */
  function RequireAuth(ctx: Context): (r: Result<User>)
    ensures r.Ok? <==> ctx.isAuthenticated && ctx.user.Some?
    ensures r.Ok? ==> Some(r.value) == ctx.user
    ensures r.Err? ==> r.error == Error(Authentication, "Authentication required")
  {
    if !ctx.isAuthenticated || ctx.user.None? then Fail(Authentication, "Authentication required")
    else Ok(ctx.user.value)
  }

  /** `requireAdmin(context)`: `requireAuth` first, then ForbiddenError for a
      caller who is not an admin. */
  function RequireAdmin(ctx: Context): (r: Result<User>)
    ensures r.Ok? <==> RequireAuth(ctx).Ok? && ctx.isAdmin
    ensures r.Ok? ==> r == RequireAuth(ctx)
    ensures RequireAuth(ctx).Err? ==> r == RequireAuth(ctx)
    ensures RequireAuth(ctx).Ok? && !ctx.isAdmin ==> r.error == Error(Forbidden, "Admin access required")
  {
    var user :- RequireAuth(ctx);
    if !ctx.isAdmin then Fail(Forbidden, "Admin access required") else Ok(user)
  }

  /** An unauthenticated caller is told to authenticate, never that it is
      forbidden; an authenticated non-admin is forbidden. */
  lemma RequireAdminErrorKinds(ctx: Context)
    ensures !ctx.isAuthenticated ==> FailedWith(RequireAdmin(ctx), Authentication)
    ensures ctx.isAuthenticated && ctx.user.Some? && !ctx.isAdmin ==> FailedWith(RequireAdmin(ctx), Forbidden)
  {
  }

  /** `generateOrderNumber()`: "NA-" + the clock in base 36 + "-" + characters
      2 to 8 of a random number printed in base 36, all upper-cased.
      `nowMs` is `Date.now()`, `randomText` is `Math.random().toString(36)`. */
  function GenerateOrderNumber(nowMs: nat, randomText: string): (r: string)
    ensures |r| >= 5 && r[..3] == "NA-"
    ensures forall i :: 0 <= i < |r| ==> !IsAsciiLower(r[i])
    ensures |r| == 4 + |ToBase36(nowMs)| + |Substring(randomText, 2, 8)|
    ensures |Substring(randomText, 2, 8)| <= 6
    ensures var stamp := ToBase36(nowMs);
      && r[3..3 + |stamp|] == ToUpper(stamp)
      && r[3 + |stamp|] == '-'
      && r[4 + |stamp|..] == ToUpper(Substring(randomText, 2, 8))
  {
    var stamp := ToBase36(nowMs);
    var tail := Substring(randomText, 2, 8);
    ToUpperAppend("NA-" + stamp + "-", tail);
    ToUpperAppend("NA-" + stamp, "-");
    ToUpperAppend("NA-", stamp);
    assert ToUpper("NA-") == "NA-";
    assert ToUpper("-") == "-";
    ToUpper("NA-" + stamp + "-" + tail)
  }
}
