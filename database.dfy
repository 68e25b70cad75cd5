/** The two tables the application stores, held in memory in place of a database session.
    The database is assumed to enforce the declared schema: the string column lengths, the
    foreign key from `tasks.user_id` to `users.cognito_id`, unique `cognito_id`, and
    auto-incremented integer primary keys starting at 1. */
module Database {
  import opened Python
  import opened TaskModel
  import opened UserModel

  /** A snapshot of both tables and their auto-increment counters. */
  datatype Tables = Tables(tasks: map<int, Task>, nextTaskId: int, users: seq<User>, nextUserId: int)

  /** What a request returns (or raises) and the tables it leaves behind. */
  datatype Step<T> = Step(result: Outcome<T>, after: Tables)

  /** The subject ids of the stored users: the values `tasks.user_id` may refer to. */
  function CognitoIds(users: seq<User>): set<string> {
    set u | u in users :: u.cognitoId
  }

  /** Users are stored in primary-key order, below the counter, with distinct subject ids. */
  ghost predicate UsersValid(users: seq<User>, nextUserId: int) {
    && (forall i :: 0 <= i < |users| ==> 1 <= users[i].id < nextUserId)
    && (forall i, j :: 0 <= i < j < |users| ==> users[i].id < users[j].id)
    && (forall i, j :: 0 <= i < j < |users| ==> users[i].cognitoId != users[j].cognitoId)
  }

  /** Each task is stored under its own primary key. */
  predicate KeyedById(tasks: map<int, Task>) {
    forall id :: id in tasks ==> tasks[id].id == id
  }

  /** Every task is stored under its own id, below the counter, fits its columns and
      belongs to a stored user. */
  ghost predicate TasksValid(tasks: map<int, Task>, nextTaskId: int, owners: set<string>) {
    && KeyedById(tasks)
    && forall id :: id in tasks ==>
      && 1 <= id < nextTaskId
      && FitsColumns(tasks[id])
      && tasks[id].userId in owners
  }

  ghost predicate TablesValid(s: Tables) {
    && 1 <= s.nextTaskId
    && 1 <= s.nextUserId
    && UsersValid(s.users, s.nextUserId)
    && TasksValid(s.tasks, s.nextTaskId, CognitoIds(s.users))
  }

  /** `db.commit()` after a fetched task's attributes were assigned: the modified row is
      written back under its id, or the database refuses it when it no longer fits its columns. */
  function CommitTaskStep(s: Tables, t: Task): (r: Step<Task>)
    requires TablesValid(s) && t.id in s.tasks && t.userId == s.tasks[t.id].userId
    ensures TablesValid(r.after) && r.after.users == s.users
    ensures r.result.Ok? <==> FitsColumns(t)
    ensures r.result.Ok? ==> r.result.value == t && r.after == s.(tasks := s.tasks[t.id := t])
    ensures r.result.Raise? ==> r.result.error == DataError && r.after == s
  {
    if FitsColumns(t) then Step(Ok(t), s.(tasks := s.tasks[t.id := t]))
    else Step(Raise(DataError), s)
  }

  /** The database a request's session works on. */
  class Db {
    var tasks: map<int, Task>
    var nextTaskId: int
    var users: seq<User>
    var nextUserId: int

    function Snapshot(): Tables
      reads this
    {
      Tables(tasks, nextTaskId, users, nextUserId)
    }

    ghost predicate Valid()
      reads this
    {
      TablesValid(Snapshot())
    }

    /** Freshly created, empty tables. */
    constructor ()
      ensures Valid()
      ensures tasks == map[] && users == []
    {
      tasks := map[];
      nextTaskId := 1;
      users := [];
      nextUserId := 1;
    }
  }

  method CommitTask(db: Db, t: Task) returns (r: Outcome<Task>)
    requires db.Valid() && t.id in db.tasks && t.userId == db.tasks[t.id].userId
    modifies db
    ensures db.Valid()
    ensures Step(r, db.Snapshot()) == CommitTaskStep(old(db.Snapshot()), t)
  {
    if !FitsColumns(t) {
      return Raise(DataError);
    }
    db.tasks := db.tasks[t.id := t];
    r := Ok(t);
  }
}
