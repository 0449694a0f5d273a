/** `createContext` of src/context.ts: the per-request caller, resolved from the
    Authorization header. JWT verification is the parameter `verifyToken`
    (`None` where `jwt.verify` throws: bad signature, expired, malformed), and
    `users` is the user table the token's user id is looked up in. */
module RequestContext {
  import opened Errors
  import opened Domain
  import opened Auth

  /** The context every request starts from. */
  const Anonymous := Context(None, false, false)

  /** Builds the context step by step; a verification failure is caught and
      leaves the starting context, so the result is always a context. */
  method CreateContext(authorization: Option<string>, verifyToken: string -> Option<JwtPayload>,
                       users: map<Id, User>)
    returns (context: Context)
    // no token, or the empty token "Bearer " gives: the defaults
    ensures var token := ExtractTokenFromHeader(authorization);
      token == None || token == Some("") ==> context == Anonymous
    // a token that does not verify, or names no user, gives: the defaults
    ensures var token := ExtractTokenFromHeader(authorization);
      token.Some? && token.value != "" &&
      (verifyToken(token.value).None? || verifyToken(token.value).value.userId !in users)
      ==> context == Anonymous
    // authenticated exactly when the token verifies and its user exists
    ensures context.isAuthenticated <==>
      var token := ExtractTokenFromHeader(authorization);
      token.Some? && token.value != "" && verifyToken(token.value).Some?
      && verifyToken(token.value).value.userId in users
    ensures context.isAuthenticated ==>
      context.user == Some(users[verifyToken(ExtractTokenFromHeader(authorization).value).value.userId])
    ensures context.isAuthenticated <==> context.user.Some?
    ensures context.isAdmin <==> context.user.Some? && context.user.value.role == Admin
    ensures context.isAdmin ==> context.isAuthenticated
  {
    context := Anonymous;
    var token := ExtractTokenFromHeader(authorization);
    if token.Some? && token.value != "" {
      var payload := verifyToken(token.value);
      if payload.Some? {
        var userId := payload.value.userId;
        if userId in users {
          var user := users[userId];
          context := context.(user := Some(user));
          context := context.(isAuthenticated := true);
          context := context.(isAdmin := user.role == Admin);
        }
      }
    }
  }
}
