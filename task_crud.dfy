/** The task queries and writes: create a task for an owner, list an owner's tasks,
    fetch or delete a task by id and owner. */
module TaskCrud {
  import opened Python
  import opened TaskStatus
  import opened TaskModel
  import opened TaskSchema
  import opened Database

  /** The row `create_task` builds from the body, with the given id, owner and creation time. */
  function NewRow(id: int, task: TaskCreate, userId: string, now: int): Task {
    Task(id, task.title, task.description, task.category, task.deadline, task.priority, userId, now, Todo, None)
  }

  /** `create_task`: insert a row holding the body's fields and the given owner, with a
      fresh id, the creation time and status TODO; the database refuses a row that does not
      fit its columns or whose owner is not a stored user. */
  function CreateTaskStep(s: Tables, task: TaskCreate, userId: string, now: int): (r: Step<Task>)
    requires TablesValid(s)
    ensures TablesValid(r.after) && r.after.users == s.users
    ensures r.result.Ok? <==> FitsColumns(NewRow(s.nextTaskId, task, userId, now)) && userId in CognitoIds(s.users)
    ensures !FitsColumns(NewRow(s.nextTaskId, task, userId, now)) ==> r.result == Raise(DataError)
    ensures FitsColumns(NewRow(s.nextTaskId, task, userId, now)) && userId !in CognitoIds(s.users) ==>
      r.result == Raise(IntegrityError)
    ensures r.result.Raise? ==> r.after == s
    ensures r.result.Ok? ==>
      var t := r.result.value;
      && t.title == task.title && t.description == task.description && t.category == task.category
      && t.deadline == task.deadline && t.priority == task.priority
      && t.userId == userId && t.createdAt == now && t.status == Todo && t.lastUpdated == None
      && t.id !in s.tasks
      && r.after.tasks == s.tasks[t.id := t]
  {
    var t := NewRow(s.nextTaskId, task, userId, now);
    if !FitsColumns(t) then Step(Raise(DataError), s)
    else if userId !in CognitoIds(s.users) then Step(Raise(IntegrityError), s)
    else Step(Ok(t), s.(tasks := s.tasks[t.id := t], nextTaskId := s.nextTaskId + 1))
  }

  method CreateTask(db: Db, task: TaskCreate, userId: string, now: int) returns (r: Outcome<Task>)
    requires db.Valid()
    modifies db
    ensures db.Valid()
    ensures Step(r, db.Snapshot()) == CreateTaskStep(old(db.Snapshot()), task, userId, now)
  {
    var dbTask := NewRow(db.nextTaskId, task, userId, now);
    if !FitsColumns(dbTask) {
      return Raise(DataError);
    }
    if userId !in CognitoIds(db.users) {
      return Raise(IntegrityError);
    }
    db.tasks := db.tasks[dbTask.id := dbTask];
    db.nextTaskId := db.nextTaskId + 1;
    r := Ok(dbTask);
  }

  /** `get_user_tasks`: exactly the stored tasks whose owner is `userId`, keyed by id. */
  function GetUserTasks(tasks: map<int, Task>, userId: string): (rows: map<int, Task>)
    ensures forall id :: id in rows <==> id in tasks && tasks[id].userId == userId
    ensures forall id :: id in rows ==> rows[id] == tasks[id] && rows[id].userId == userId
  {
    map id | id in tasks && tasks[id].userId == userId :: tasks[id]
  }

  /** The task with id `taskId` if its owner is `userId`: the filter on id and owner that
      `delete_task` applies, which the task routes also use to fetch a task. */
  function GetTask(tasks: map<int, Task>, taskId: int, userId: string): (r: Option<Task>)
    requires KeyedById(tasks)
    ensures r.Some? ==> r.value in tasks.Values && r.value.id == taskId && r.value.userId == userId
    ensures r.None? <==> forall id :: id in tasks ==> tasks[id].id != taskId || tasks[id].userId != userId
  {
    if taskId in tasks && tasks[taskId].userId == userId then Some(tasks[taskId]) else None
  }

  /** `delete_task`: remove and return the task matching both id and owner; with no such
      task, return None and change nothing. */
  function DeleteTaskStep(s: Tables, taskId: int, userId: string): (r: Step<Option<Task>>)
    requires TablesValid(s)
    ensures TablesValid(r.after) && r.after.users == s.users
    ensures r.result.Ok?
    ensures r.result.value.Some? ==>
      && taskId in s.tasks
      && r.result.value.value == s.tasks[taskId]
      && s.tasks[taskId].userId == userId
      && r.after.tasks == s.tasks - {taskId}
    ensures r.result.value.None? ==>
      && r.after == s
      && (taskId !in s.tasks || s.tasks[taskId].userId != userId)
  {
    var task := GetTask(s.tasks, taskId, userId);
    if task.Some? then Step(Ok(task), s.(tasks := s.tasks - {taskId}))
    else Step(Ok(None), s)
  }

  method DeleteTask(db: Db, taskId: int, userId: string) returns (r: Option<Task>)
    requires db.Valid()
    modifies db
    ensures db.Valid()
    ensures Step(Ok(r), db.Snapshot()) == DeleteTaskStep(old(db.Snapshot()), taskId, userId)
  {
    r := GetTask(db.tasks, taskId, userId);
    if r.Some? {
      db.tasks := db.tasks - {taskId};
    }
  }

  /** Creating a task for one owner leaves every other owner's tasks as they were. */
  lemma CreateTaskKeepsOthers(s: Tables, task: TaskCreate, userId: string, now: int, other: string)
    requires TablesValid(s) && other != userId
    ensures GetUserTasks(CreateTaskStep(s, task, userId, now).after.tasks, other) == GetUserTasks(s.tasks, other)
  {
  }

  /** After a successful create, listing the owner's tasks gives the earlier ones plus the new one. */
  lemma CreatedTaskIsListed(s: Tables, task: TaskCreate, userId: string, now: int)
    requires TablesValid(s)
    ensures var r := CreateTaskStep(s, task, userId, now);
      r.result.Ok? ==>
        GetUserTasks(r.after.tasks, userId) == GetUserTasks(s.tasks, userId)[r.result.value.id := r.result.value]
  {
  }

  /** Deleting with one owner leaves every other owner's tasks as they were. */
  lemma DeleteTaskKeepsOthers(s: Tables, taskId: int, userId: string, other: string)
    requires TablesValid(s) && other != userId
    ensures GetUserTasks(DeleteTaskStep(s, taskId, userId).after.tasks, other) == GetUserTasks(s.tasks, other)
  {
  }
}
