/** The login route: authenticate the bearer token, complete the username and email from the
    provider's profile endpoint when the token lacks them, and make sure a user row exists
    for the token's subject id (get-or-create). */
module Auth {
  import opened Python
  import opened UserModel
  import opened Database
  import opened Cognito
  import UserCrud

  const MissingFields := HTTPException(500, "Required user fields are missing")

  /** The identity a successful login resolves. */
  datatype Profile = Profile(username: string, email: string, cognitoId: string)

  /** The body of a successful login. */
  datatype LoginResponse = LoginResponse(message: string, username: string, email: string)

  /** All three fields must be truthy, or login fails with 500. */
  function RequireFields(username: Option<string>, email: Option<string>, cognitoId: Option<string>): (r: Outcome<Profile>)
    ensures r.Ok? <==> Truthy(username) && Truthy(email) && Truthy(cognitoId)
    ensures r.Raise? ==> r.error == MissingFields
    ensures r.Ok? ==> Some(r.value.username) == username && Some(r.value.email) == email
                      && Some(r.value.cognitoId) == cognitoId
  {
    if !Truthy(username) || !Truthy(email) || !Truthy(cognitoId) then Raise(MissingFields)
    else Ok(Profile(username.value, email.value, cognitoId.value))
  }

  /** The claim merge of `login`: the token's `cognito:username`, `email` and `sub`; only when
      the username or the email is missing or empty is the profile endpoint called (and its
      failure propagated), and it then fills only the missing ones. */
  function ResolveProfile(claims: Claims, token: string, userInfo: string -> Outcome<Claims>): (r: Outcome<Profile>)
    // the subject id always comes from the token
    ensures r.Ok? ==> "sub" in claims && r.value.cognitoId == claims["sub"]
    ensures r.Ok? ==> r.value.username != "" && r.value.email != "" && r.value.cognitoId != ""
    // a non-empty username or email in the token is kept
    ensures r.Ok? && Truthy(Get(claims, "cognito:username")) ==> r.value.username == claims["cognito:username"]
    ensures r.Ok? && Truthy(Get(claims, "email")) ==> r.value.email == claims["email"]
    // with both in the token, success depends on the subject id alone
    ensures Truthy(Get(claims, "cognito:username")) && Truthy(Get(claims, "email")) ==>
      (r.Ok? <==> Truthy(Get(claims, "sub")))
    // otherwise the profile endpoint is asked: its failure propagates ...
    ensures (!Truthy(Get(claims, "cognito:username")) || !Truthy(Get(claims, "email"))) && userInfo(token).Raise? ==>
      r == Raise(userInfo(token).error)
    // ... and its answer fills in what the token lacks
    ensures (!Truthy(Get(claims, "cognito:username")) || !Truthy(Get(claims, "email"))) && userInfo(token).Ok? ==>
      var fetched := userInfo(token).value;
      (r.Ok? <==> && Truthy(Get(claims, "sub"))
                  && (Truthy(Get(claims, "cognito:username")) || Truthy(Get(fetched, "username")))
                  && (Truthy(Get(claims, "email")) || Truthy(Get(fetched, "email"))))
    ensures !Truthy(Get(claims, "cognito:username")) && userInfo(token).Ok? && r.Ok? ==>
      "username" in userInfo(token).value && r.value.username == userInfo(token).value["username"]
    ensures !Truthy(Get(claims, "email")) && userInfo(token).Ok? && r.Ok? ==>
      "email" in userInfo(token).value && r.value.email == userInfo(token).value["email"]
    // the only failures are the endpoint's own and the 500 for missing fields
    ensures r.Raise? ==> r.error == MissingFields || (userInfo(token).Raise? && r.error == userInfo(token).error)
  {
    var username := Get(claims, "cognito:username");
    var email := Get(claims, "email");
    var cognitoId := Get(claims, "sub");
    if !Truthy(username) || !Truthy(email) then
      match userInfo(token)
      case Raise(e) => Raise(e)
      case Ok(fetched) =>
        RequireFields(Or(username, Get(fetched, "username")), Or(email, Get(fetched, "email")), cognitoId)
    else RequireFields(username, email, cognitoId)
  }

  /** When the token carries both username and email, the profile endpoint is not consulted:
      its answer, whatever it is, makes no difference. */
  lemma TokenClaimsPreferred(claims: Claims, token: string, userInfo1: string -> Outcome<Claims>, userInfo2: string -> Outcome<Claims>)
    requires Truthy(Get(claims, "cognito:username")) && Truthy(Get(claims, "email"))
    ensures ResolveProfile(claims, token, userInfo1) == ResolveProfile(claims, token, userInfo2)
  {
  }

  /** A token that carries the username but not the email gets the email of the profile
      endpoint's answer. */
  lemma EmailFromProfileEndpoint(claims: Claims, token: string, userInfo: string -> Outcome<Claims>)
    requires Truthy(Get(claims, "cognito:username")) && !Truthy(Get(claims, "email")) && Truthy(Get(claims, "sub"))
    requires userInfo(token).Ok? && Truthy(Get(userInfo(token).value, "email"))
    ensures ResolveProfile(claims, token, userInfo)
         == Ok(Profile(claims["cognito:username"], userInfo(token).value["email"], claims["sub"]))
  {
  }

  /** The stored users with that subject id. */
  function WithCognitoId(users: seq<User>, cognitoId: string): seq<User> {
    Filter(users, (u: User) => u.cognitoId == cognitoId)
  }

  /** The get-or-create at the end of `login`: answer with the stored user of that subject
      id, or add one user with the resolved fields and answer with it. */
  function GetOrCreateStep(s: Tables, p: Profile): (r: Step<LoginResponse>)
    requires TablesValid(s)
    ensures TablesValid(r.after) && r.after.tasks == s.tasks
    ensures r.result.Ok?
    ensures forall i :: 0 <= i < |s.users| && s.users[i].cognitoId == p.cognitoId ==>
      r == Step(Ok(LoginResponse("Login successful", s.users[i].username, s.users[i].email)), s)
    ensures (forall i :: 0 <= i < |s.users| ==> s.users[i].cognitoId != p.cognitoId) ==>
      && r.result.value == LoginResponse("Login successful", p.username, p.email)
      && r.after.users == s.users + [User(s.nextUserId, p.cognitoId, p.username, p.email)]
  {
    var rows := WithCognitoId(s.users, p.cognitoId);
    FilterAtMostOne(s.users, (u: User) => u.cognitoId == p.cognitoId);
    assert |rows| != 0 ==> rows[0] in s.users && rows[0].cognitoId == p.cognitoId;
    match ScalarOneOrNone(rows)
    case Raise(e) => Step(Raise(e), s)
    case Ok(Some(dbUser)) => Step(Ok(LoginResponse("Login successful", dbUser.username, dbUser.email)), s)
    case Ok(None) =>
      var created := UserCrud.CreateUserStep(s, NewUser(p.cognitoId, p.username, p.email));
      match created.result
      case Raise(e) => Step(Raise(e), created.after)
      case Ok(dbUser) => Step(Ok(LoginResponse("Login successful", dbUser.username, dbUser.email)), created.after)
  }

  /** Header check, token validation with ValueError answered 401, and the claim merge. */
  function LoginProfile(authorization: string, keys: seq<Jwk>, config: Config, jose: Jose,
                        userInfo: string -> Outcome<Claims>): (r: Outcome<Profile>)
    ensures !StartsWith(authorization, BearerPrefix) ==> r == Raise(BadHeader)
    ensures StartsWith(authorization, BearerPrefix) ==>
      var token := BearerToken(authorization).value;
      var validated := ValidateJwtToken(token, keys, config, jose);
      && (validated.Raise? && validated.error.ValueError? ==> r == Raise(InvalidToken))
      && (validated.Raise? && !validated.error.ValueError? ==> r == Raise(validated.error))
      && (validated.Ok? ==> r == ResolveProfile(validated.value, token, userInfo))
  {
    match BearerToken(authorization)
    case Raise(e) => Raise(e)
    case Ok(token) =>
      match CatchValueError(ValidateJwtToken(token, keys, config, jose))
      case Raise(e) => Raise(e)
      case Ok(claims) => ResolveProfile(claims, token, userInfo)
  }

  /** `login`: every failure before the get-or-create leaves the users as they were. */
  function LoginStep(s: Tables, authorization: string, keys: seq<Jwk>, config: Config, jose: Jose,
                     userInfo: string -> Outcome<Claims>): (r: Step<LoginResponse>)
    requires TablesValid(s)
    ensures TablesValid(r.after) && r.after.tasks == s.tasks
    ensures !StartsWith(authorization, BearerPrefix) ==> r == Step(Raise(BadHeader), s)
    ensures LoginProfile(authorization, keys, config, jose, userInfo).Raise? ==>
      r == Step(Raise(LoginProfile(authorization, keys, config, jose, userInfo).error), s)
    ensures LoginProfile(authorization, keys, config, jose, userInfo).Ok? ==>
      r == GetOrCreateStep(s, LoginProfile(authorization, keys, config, jose, userInfo).value)
    ensures |s.users| <= |r.after.users| <= |s.users| + 1
  {
    match LoginProfile(authorization, keys, config, jose, userInfo)
    case Raise(e) => Step(Raise(e), s)
    case Ok(p) => GetOrCreateStep(s, p)
  }

  method Login(db: Db, authorization: string, keys: seq<Jwk>, config: Config, jose: Jose,
               userInfo: string -> Outcome<Claims>) returns (r: Outcome<LoginResponse>)
    requires db.Valid()
    modifies db
    ensures db.Valid()
    ensures Step(r, db.Snapshot()) == LoginStep(old(db.Snapshot()), authorization, keys, config, jose, userInfo)
  {
    var token := BearerToken(authorization);
    if token.Raise? {
      return Raise(token.error);
    }
    var userInfoClaims := CatchValueError(ValidateJwtToken(token.value, keys, config, jose));
    if userInfoClaims.Raise? {
      return Raise(userInfoClaims.error);
    }
    var profile := ResolveProfile(userInfoClaims.value, token.value, userInfo);
    if profile.Raise? {
      return Raise(profile.error);
    }
    var p := profile.value;
    ghost var s := db.Snapshot();
    FilterAtMostOne(db.users, (u: User) => u.cognitoId == p.cognitoId);
    var rows := WithCognitoId(db.users, p.cognitoId);
    assert |rows| != 0 ==> rows[0] in db.users && rows[0].cognitoId == p.cognitoId;
    var dbUser := ScalarOneOrNone(rows);
    if dbUser.Raise? {
      return Raise(dbUser.error);
    }
    var user: User;
    if dbUser.value.None? {
      var newUser := UserCrud.CreateUser(db, NewUser(p.cognitoId, p.username, p.email));
      if newUser.Raise? {
        return Raise(newUser.error);
      }
      user := newUser.value;
    } else {
      user := dbUser.value.value;
    }
    r := Ok(LoginResponse("Login successful", user.username, user.email));
  }

  /** Logging in again with the same header and provider answers adds nothing and gives the
      same answer. */
  lemma LoginIdempotent(s: Tables, authorization: string, keys: seq<Jwk>, config: Config, jose: Jose,
                        userInfo: string -> Outcome<Claims>)
    requires TablesValid(s)
    ensures var first := LoginStep(s, authorization, keys, config, jose, userInfo);
      LoginStep(first.after, authorization, keys, config, jose, userInfo) == Step(first.result, first.after)
  {
    var first := LoginStep(s, authorization, keys, config, jose, userInfo);
    var profile := LoginProfile(authorization, keys, config, jose, userInfo);
    if profile.Ok? {
      var p := profile.value;
      if exists i :: 0 <= i < |s.users| && s.users[i].cognitoId == p.cognitoId {
        var i :| 0 <= i < |s.users| && s.users[i].cognitoId == p.cognitoId;
        assert first.after == s;
      } else {
        var after := first.after.users;
        assert after[|s.users|].cognitoId == p.cognitoId;
      }
    }
  }
  /** A successful login leaves a stored user for the token's subject id, and the answer
      carries that user's username and email. */
  lemma LoggedInUserIsStored(s: Tables, authorization: string, keys: seq<Jwk>, config: Config, jose: Jose,
                             userInfo: string -> Outcome<Claims>)
    requires TablesValid(s)
    requires LoginProfile(authorization, keys, config, jose, userInfo).Ok?
    ensures var p := LoginProfile(authorization, keys, config, jose, userInfo).value;
      var r := LoginStep(s, authorization, keys, config, jose, userInfo);
      && r.result.Ok?
      && exists i :: 0 <= i < |r.after.users| && r.after.users[i].cognitoId == p.cognitoId
           && r.result.value == LoginResponse("Login successful", r.after.users[i].username, r.after.users[i].email)
  {
    var p := LoginProfile(authorization, keys, config, jose, userInfo).value;
    var r := LoginStep(s, authorization, keys, config, jose, userInfo);
    if exists i :: 0 <= i < |s.users| && s.users[i].cognitoId == p.cognitoId {
      var i :| 0 <= i < |s.users| && s.users[i].cognitoId == p.cognitoId;
      assert r.after.users[i] == s.users[i];
    } else {
      assert r.after.users[|s.users|].cognitoId == p.cognitoId;
    }
  }
}
