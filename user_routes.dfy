/** The user routes: register a user unless the email is taken, read a user by id. */
module UserRoutes {
  import opened Python
  import opened UserModel
  import opened Database
  import UserCrud

  const EmailRegistered := HTTPException(400, "Email already registered")
  const UserNotFound := HTTPException(404, "User not found")

  /** The stored users with that email, in table order. */
  function WithEmail(users: seq<User>, email: string): seq<User> {
    Filter(users, (u: User) => u.email == email)
  }

  /** No two stored users share an email. */
  ghost predicate EmailsUnique(users: seq<User>) {
    forall i, j :: 0 <= i < |users| && 0 <= j < |users| && users[i].email == users[j].email ==> i == j
  }

  /** `create_user`: refuse with 400 when a user with the same email is stored, changing
      nothing; otherwise add exactly one user with the given fields and return it. */
  function CreateUserStep(s: Tables, user: NewUser): (r: Step<User>)
    requires TablesValid(s)
    ensures TablesValid(r.after)
    ensures r.after.tasks == s.tasks
    ensures r.result.Raise? ==> r.after == s
    ensures (exists i :: 0 <= i < |s.users| && s.users[i].email == user.email) ==> r.result.Raise?
    ensures (forall i :: 0 <= i < |s.users| ==> s.users[i].email != user.email) ==>
      r == UserCrud.CreateUserStep(s, user)
  {
    var sameEmail := WithEmail(s.users, user.email);
    assert |sameEmail| != 0 ==> sameEmail[0] in s.users && sameEmail[0].email == user.email;
    match ScalarOneOrNone(sameEmail)
    case Raise(e) => Step(Raise(e), s)
    case Ok(found) =>
      if found.Some? then Step(Raise(EmailRegistered), s)
      else UserCrud.CreateUserStep(s, user)
  }

  method CreateUser(db: Db, user: NewUser) returns (r: Outcome<User>)
    requires db.Valid()
    modifies db
    ensures db.Valid()
    ensures Step(r, db.Snapshot()) == CreateUserStep(old(db.Snapshot()), user)
  {
    var sameEmail := WithEmail(db.users, user.email);
    var dbUser := ScalarOneOrNone(sameEmail);
    if dbUser.Raise? {
      return Raise(dbUser.error);
    }
    if dbUser.value.Some? {
      return Raise(EmailRegistered);
    }
    r := UserCrud.CreateUser(db, user);
  }

  /** A stored email is refused with 400 and nothing changed. */
  lemma StoredEmailRefused(s: Tables, user: NewUser, i: int)
    requires TablesValid(s) && EmailsUnique(s.users)
    requires 0 <= i < |s.users| && s.users[i].email == user.email
    ensures CreateUserStep(s, user) == Step(Raise(EmailRegistered), s)
  {
    var p := (u: User) => u.email == user.email;
    FilterAtMostOne(s.users, p);
    assert s.users[i] in WithEmail(s.users, user.email);
  }

  /** A new email is never answered 400, and whatever is appended keeps the emails unique. */
  lemma NewEmailKeepsUnique(s: Tables, user: NewUser)
    requires TablesValid(s) && EmailsUnique(s.users)
    requires forall i :: 0 <= i < |s.users| ==> s.users[i].email != user.email
    ensures var r := CreateUserStep(s, user);
      EmailsUnique(r.after.users) && r.result != Raise(EmailRegistered)
  {
    var r := UserCrud.CreateUserStep(s, user);
    if r.result.Ok? {
      var after := r.after.users;
      assert after == s.users + [r.result.value];
      assert forall i :: 0 <= i < |s.users| ==> after[i] == s.users[i];
    }
  }

  /** On a table whose emails are unique, creation refuses exactly the emails already
      registered, with 400, and keeps the emails unique. */
  lemma CreateUserKeepsEmailsUnique(s: Tables, user: NewUser)
    requires TablesValid(s) && EmailsUnique(s.users)
    ensures var r := CreateUserStep(s, user);
      && EmailsUnique(r.after.users)
      && ((exists i :: 0 <= i < |s.users| && s.users[i].email == user.email) <==> r.result == Raise(EmailRegistered))
  {
    if exists i :: 0 <= i < |s.users| && s.users[i].email == user.email {
      var i :| 0 <= i < |s.users| && s.users[i].email == user.email;
      StoredEmailRefused(s, user, i);
    } else {
      NewEmailKeepsUnique(s, user);
    }
  }

  /** `read_user`: the stored user with that id, or 404. */
  function ReadUser(users: seq<User>, userId: int): (r: Outcome<User>)
    ensures r.Ok? ==> r.value in users && r.value.id == userId
    ensures (forall i :: 0 <= i < |users| ==> users[i].id != userId) ==> r == Raise(UserNotFound)
  {
    var rows := Filter(users, (u: User) => u.id == userId);
    assert |rows| != 0 ==> rows[0] in users && rows[0].id == userId;
    match ScalarOneOrNone(rows)
    case Raise(e) => Raise(e)
    case Ok(None) => Raise(UserNotFound)
    case Ok(Some(u)) => Ok(u)
  }

  /** With unique primary keys, reading an id that is stored returns that user. */
  lemma ReadStoredUser(s: Tables, i: int)
    requires TablesValid(s) && 0 <= i < |s.users|
    ensures ReadUser(s.users, s.users[i].id) == Ok(s.users[i])
  {
    var userId := s.users[i].id;
    var p := (u: User) => u.id == userId;
    FilterAtMostOne(s.users, p);
    assert s.users[i] in Filter(s.users, p);
  }
}
