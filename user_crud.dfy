/** The user queries and writes: create a user, look a user up by email or by subject id. */
module UserCrud {
  import opened Python
  import opened UserModel
  import opened Database

  /** `create_user`: insert a row with exactly the given subject id, username and email and a
      fresh id. The subject id is unique, so the database refuses a second row with the same one. */
  function CreateUserStep(s: Tables, user: NewUser): (r: Step<User>)
    requires TablesValid(s)
    ensures TablesValid(r.after)
    ensures r.after.tasks == s.tasks && r.after.nextTaskId == s.nextTaskId
    ensures r.result.Ok? <==> user.cognitoId !in CognitoIds(s.users)
    ensures r.result.Raise? ==> r.result.error == IntegrityError && r.after == s
    ensures r.result.Ok? ==>
      var u := r.result.value;
      && u.cognitoId == user.cognitoId && u.username == user.username && u.email == user.email
      && (forall i :: 0 <= i < |s.users| ==> s.users[i].id != u.id)
      && r.after.users == s.users + [u]
  {
    if user.cognitoId in CognitoIds(s.users) then Step(Raise(IntegrityError), s)
    else
      var u := User(s.nextUserId, user.cognitoId, user.username, user.email);
      assert CognitoIds(s.users + [u]) == CognitoIds(s.users) + {u.cognitoId} by {
        assert forall x :: x in s.users + [u] <==> x in s.users || x == u;
      }
      Step(Ok(u), s.(users := s.users + [u], nextUserId := s.nextUserId + 1))
  }

  method CreateUser(db: Db, user: NewUser) returns (r: Outcome<User>)
    requires db.Valid()
    modifies db
    ensures db.Valid()
    ensures Step(r, db.Snapshot()) == CreateUserStep(old(db.Snapshot()), user)
  {
    if user.cognitoId in CognitoIds(db.users) {
      return Raise(IntegrityError);
    }
    var userDb := User(db.nextUserId, user.cognitoId, user.username, user.email);
    assert CognitoIds(db.users + [userDb]) == CognitoIds(db.users) + {userDb.cognitoId} by {
      assert forall x :: x in db.users + [userDb] <==> x in db.users || x == userDb;
    }
    db.users := db.users + [userDb];
    db.nextUserId := db.nextUserId + 1;
    r := Ok(userDb);
  }

  /** `get_user_by_email`: the first stored user with that email, or None when there is none. */
  function GetUserByEmail(users: seq<User>, email: string): (r: Option<User>)
    ensures r.None? <==> forall i :: 0 <= i < |users| ==> users[i].email != email
    ensures r.Some? ==> exists i :: 0 <= i < |users| && users[i] == r.value && r.value.email == email
                                    && forall j :: 0 <= j < i ==> users[j].email != email
  {
    match First(users, (u: User) => u.email == email)
    case None => None
    case Some(i) => Some(users[i])
  }

  /** `get_user_by_cognito_id`: the first stored user with that subject id, or None. */
  function GetUserByCognitoId(users: seq<User>, cognitoId: string): (r: Option<User>)
    ensures r.None? <==> forall i :: 0 <= i < |users| ==> users[i].cognitoId != cognitoId
    ensures r.Some? ==> exists i :: 0 <= i < |users| && users[i] == r.value && r.value.cognitoId == cognitoId
                                    && forall j :: 0 <= j < i ==> users[j].cognitoId != cognitoId
  {
    match First(users, (u: User) => u.cognitoId == cognitoId)
    case None => None
    case Some(i) => Some(users[i])
  }

  /** After a successful `create_user`, looking the subject id up finds the new user. */
  lemma CreatedUserIsFound(s: Tables, user: NewUser)
    requires TablesValid(s)
    ensures var r := CreateUserStep(s, user);
      r.result.Ok? ==> GetUserByCognitoId(r.after.users, user.cognitoId) == Some(r.result.value)
  {
    var r := CreateUserStep(s, user);
    if r.result.Ok? {
      var users := r.after.users;
      var found := GetUserByCognitoId(users, user.cognitoId);
      assert users[|s.users|] == r.result.value;
      assert forall i :: 0 <= i < |s.users| ==> users[i] in s.users;
    }
  }
}
