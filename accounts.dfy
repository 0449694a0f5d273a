/** The account resolvers of src/resolvers/authResolvers.ts. bcrypt and JWT
    are foreign: `hash` is `AuthService.hashPassword`, `compare` is
    `AuthService.comparePassword` and `sign` is `AuthService.generateToken`. */
module AccountResolvers {
  import opened Errors
  import opened Strings
  import opened Domain
  import opened Auth
  import opened Validation
  import opened Store

  /** A user as the resolvers return it: every column but the password. */
  datatype UserView = UserView(id: Id, email: string, username: string, phone: string, role: Role)

  /** `AuthPayload`: a token and the user it was issued for. */
  datatype AuthPayload = AuthPayload(token: string, user: UserView)

  function View(u: User): (v: UserView)
    ensures v.id == u.id && v.email == u.email && v.username == u.username
    ensures v.phone == u.phone && v.role == u.role
  {
    UserView(u.id, u.email, u.username, u.phone, u.role)
  }

  /** The unique indexes on e-mail and username, and rows under their ids. */
  predicate UsersUnique(users: map<Id, User>) {
    && (forall id :: id in users ==> users[id].id == id)
    && (forall a, b :: a in users && b in users && users[a].email == users[b].email ==> a == b)
    && (forall a, b :: a in users && b in users && users[a].username == users[b].username ==> a == b)
  }

  // ---------------------------------------------------------------- queries

  /** `me`: the caller's own row. */
  function Me(ctx: Context): (r: Result<User>)
    ensures r.Ok? <==> ctx.isAuthenticated && ctx.user.Some?
    ensures r.Ok? ==> Some(r.value) == ctx.user
    ensures r.Err? ==> r == Fail(Authentication, "Authentication required")
  {
    RequireAuth(ctx)
  }

  /** `users`: every user, for an admin. */
  function Users(ctx: Context, users: map<Id, User>): (r: Result<set<User>>)
    ensures r.Ok? <==> RequireAdmin(ctx).Ok?
    ensures r.Ok? ==> r.value == users.Values
    ensures r.Err? ==> r.error == RequireAdmin(ctx).error
  {
    var _ :- RequireAdmin(ctx);
    Ok(users.Values)
  }

  // ---------------------------------------------------------------- register

  /** Some user already has this e-mail address or this username. */
  predicate Clashes(users: map<Id, User>, input: RegisterInput) {
    exists k :: k in users && (users[k].email == input.email || users[k].username == input.username)
  }

  /** When `register(input)` goes through. */
  predicate RegistrationAllowed(users: map<Id, User>, input: RegisterInput, checks: Checks) {
    RegisterInputErrors(input, checks) == [] && !Clashes(users, input)
  }

  /** The row `register` creates: a CUSTOMER whose password column holds the
      hash of the password. */
  function NewUser(input: RegisterInput, hash: string -> string, newId: Id): User {
    User(newId, input.email, input.username, input.phone, hash(input.password), Customer)
  }

  /** `register(input)`. The clashing user is whichever the store's
      `findFirst` meets first, so when one user has the e-mail address and
      another the username, either message may be reported. */
  method Register(db: Database, input: RegisterInput, checks: Checks,
                  hash: string -> string, sign: JwtPayload -> string, newId: Id)
    returns (r: Result<AuthPayload>)
    requires newId !in db.users
    modifies db`users
    ensures r.Ok? <==> RegistrationAllowed(old(db.users), input, checks)
    ensures RegisterInputErrors(input, checks) != [] ==>
      r == Fail(Validation, Join(RegisterInputErrors(input, checks), ", "))
    ensures RegisterInputErrors(input, checks) == [] && Clashes(old(db.users), input) ==>
      r == Fail(Conflict, "Email already registered") || r == Fail(Conflict, "Username already taken")
    ensures RegisterInputErrors(input, checks) == [] && Clashes(old(db.users), input)
            && (forall k :: k in old(db.users) && old(db.users)[k].username == input.username ==>
                  old(db.users)[k].email == input.email) ==>
      r == Fail(Conflict, "Email already registered")
    ensures RegisterInputErrors(input, checks) == [] && Clashes(old(db.users), input)
            && (forall k :: k in old(db.users) ==> old(db.users)[k].email != input.email) ==>
      r == Fail(Conflict, "Username already taken")
    ensures r.Ok? ==>
      var user := NewUser(input, hash, newId);
      && db.users == old(db.users)[newId := user]
      && r.value == AuthPayload(sign(PayloadFor(user)), View(user))
    ensures r.Err? ==> db.users == old(db.users)
    ensures old(UsersUnique(db.users)) ==> UsersUnique(db.users)
  {
    var validated := ValidateInput(RegisterInputErrors(input, checks), input);
    if validated.Err? {
      return Err(validated.error);
    }
    if Clashes(db.users, input) {
      var k :| k in db.users && (db.users[k].email == input.email || db.users[k].username == input.username);
      var existingUser := db.users[k];
      if existingUser.email == input.email {
        return Fail(Conflict, "Email already registered");
      }
      return Fail(Conflict, "Username already taken");
    }
    var hashedPassword := hash(input.password);
    var user := User(newId, input.email, input.username, input.phone, hashedPassword, Customer);
    db.users := db.users[newId := user];
    var token := sign(JwtPayload(user.id, user.email, user.role));
    r := Ok(AuthPayload(token, View(user)));
  }

  // ---------------------------------------------------------------- login

  predicate EmailRegistered(users: map<Id, User>, email: string) {
    exists k :: k in users && users[k].email == email
  }

  /** `login(input)`: the user with that e-mail address (unique by index),
      checked against the stored hash. */
  ghost function Login(input: LoginInput, checks: Checks, users: map<Id, User>,
                       compare: (string, string) -> bool, sign: JwtPayload -> string)
    : (r: Result<AuthPayload>)
    ensures LoginInputErrors(input, checks) != [] ==>
      r == Fail(Validation, Join(LoginInputErrors(input, checks), ", "))
    ensures r.Ok? ==>
      exists k :: k in users && users[k].email == input.email
        && compare(input.password, users[k].password)
        && r.value == AuthPayload(sign(PayloadFor(users[k])), View(users[k]))
    ensures UsersUnique(users) && LoginInputErrors(input, checks) == [] ==>
      forall k :: k in users && users[k].email == input.email && compare(input.password, users[k].password) ==>
        r == Ok(AuthPayload(sign(PayloadFor(users[k])), View(users[k])))
  {
    var _ :- ValidateInput(LoginInputErrors(input, checks), input);
    if !EmailRegistered(users, input.email) then Fail(Authentication, "Invalid email or password")
    else
      var k :| k in users && users[k].email == input.email;
      var user := users[k];
      if !compare(input.password, user.password) then Fail(Authentication, "Invalid email or password")
      else Ok(AuthPayload(sign(PayloadFor(user)), View(user)))
  }

  /** Login failures do not tell an unknown address from a wrong password:
      both are the same AuthenticationError. */
  lemma LoginFailuresUniform(input: LoginInput, checks: Checks, users: map<Id, User>,
                             compare: (string, string) -> bool, sign: JwtPayload -> string)
    requires UsersUnique(users)
    requires LoginInputErrors(input, checks) == []
    ensures !EmailRegistered(users, input.email) ==>
      Login(input, checks, users, compare, sign) == Fail(Authentication, "Invalid email or password")
    ensures forall k :: k in users && users[k].email == input.email && !compare(input.password, users[k].password) ==>
      Login(input, checks, users, compare, sign) == Fail(Authentication, "Invalid email or password")
    ensures Login(input, checks, users, compare, sign).Err? ==>
      Login(input, checks, users, compare, sign) == Fail(Authentication, "Invalid email or password")
  {
  }

  /** Registering and then logging in with the same address and password
      issues a token for the new user, provided the hash checks against the
      password it was made from. */
  lemma {:induction false} RegisterThenLogin(users: map<Id, User>, input: RegisterInput, checks: Checks,
                                             hash: string -> string, compare: (string, string) -> bool,
                                             sign: JwtPayload -> string, newId: Id)
    requires UsersUnique(users) && newId !in users
    requires RegistrationAllowed(users, input, checks)
    requires compare(input.password, hash(input.password))
    ensures var user := NewUser(input, hash, newId);
      Login(LoginInput(input.email, input.password), checks, users[newId := user], compare, sign)
        == Ok(AuthPayload(sign(PayloadFor(user)), View(user)))
  {
    var user := NewUser(input, hash, newId);
    var after := users[newId := user];
    var login := LoginInput(input.email, input.password);
    assert EmailErrors("email", input.email, checks) == [] && PasswordErrors(input.password) == [] by {
      var e := EmailErrors("email", input.email, checks);
      var rest := (if input.username == "" then [EmptyMessage("username")]
                   else
                     (if IsAlphanumeric(input.username) then []
                      else [Label("username") + " must only contain alpha-numeric characters"])
                     + StringErrors("username", input.username, 3, 30))
                  + PhoneErrors("phone", input.phone);
      assert RegisterInputErrors(input, checks) == e + rest + PasswordErrors(input.password);
    }
    assert input.password != "";
    assert LoginInputErrors(login, checks) == [];
    assert after[newId].email == input.email;
  }
}
