/** The task routes: every request acts for the authenticated caller, whose subject id is the
    owner filter of every query and the owner of every created task. */
module TaskRoutes {
  import opened Python
  import opened TaskStatus
  import opened TaskModel
  import opened TaskSchema
  import opened Database
  import opened TaskCrud

  const DeadlineError := HTTPException(400, "Deadline must be a future date")
  const NoTasksFound := HTTPException(404, "No tasks found")
  const TaskNotFound := HTTPException(404, "Task not found")

  /** The create route refuses a deadline strictly before the current time. */
  predicate DeadlineInPast(deadline: Option<int>, now: int) {
    deadline.Some? && deadline.value < now
  }

  /** `create_task_route`: refuse a past deadline with 400, otherwise create the task with the
      caller as owner. */
  function CreateTaskRouteStep(s: Tables, task: TaskCreate, caller: string, now: int): (r: Step<Task>)
    requires TablesValid(s)
    ensures TablesValid(r.after) && r.after.users == s.users
    ensures r.result == Raise(DeadlineError) <==> DeadlineInPast(task.deadline, now)
    ensures DeadlineInPast(task.deadline, now) ==> r.after == s
    ensures !DeadlineInPast(task.deadline, now) ==> r == CreateTaskStep(s, task, caller, now)
    ensures r.result.Ok? <==>
      !DeadlineInPast(task.deadline, now) && FitsColumns(NewRow(s.nextTaskId, task, caller, now))
      && caller in CognitoIds(s.users)
    ensures r.result.Ok? ==> r.result.value.userId == caller
  {
    if DeadlineInPast(task.deadline, now) then Step(Raise(DeadlineError), s)
    else CreateTaskStep(s, task, caller, now)
  }

  method CreateTaskRoute(db: Db, task: TaskCreate, caller: string, now: int) returns (r: Outcome<Task>)
    requires db.Valid()
    modifies db
    ensures db.Valid()
    ensures Step(r, db.Snapshot()) == CreateTaskRouteStep(old(db.Snapshot()), task, caller, now)
  {
    if task.deadline.Some? && task.deadline.value < now {
      return Raise(DeadlineError);
    }
    r := CreateTask(db, task, caller, now);
  }

  /** `get_user_tasks_route`: the caller's tasks, or 404 when the caller owns none. */
  function GetUserTasksRoute(tasks: map<int, Task>, caller: string): (r: Outcome<map<int, Task>>)
    ensures r.Raise? <==> forall id :: id in tasks ==> tasks[id].userId != caller
    ensures r.Raise? ==> r.error == NoTasksFound
    ensures r.Ok? ==> r.value == GetUserTasks(tasks, caller) && r.value != map[]
    ensures r.Ok? ==> forall id :: id in r.value ==> r.value[id].userId == caller
  {
    var rows := GetUserTasks(tasks, caller);
    if exists id :: id in rows then Ok(rows) else Raise(NoTasksFound)
  }

  /** `delete_task_route`: delete and return the caller's task with that id, or 404 when the
      caller owns no such task (a task of another user included), changing nothing. */
  function DeleteTaskRouteStep(s: Tables, taskId: int, caller: string): (r: Step<Task>)
    requires TablesValid(s)
    ensures TablesValid(r.after) && r.after.users == s.users
    ensures r.result.Raise? <==> taskId !in s.tasks || s.tasks[taskId].userId != caller
    ensures r.result.Raise? ==> r.result.error == TaskNotFound && r.after == s
    ensures r.result.Ok? ==>
      && taskId in s.tasks
      && r.result.value == s.tasks[taskId]
      && r.result.value.userId == caller
      && r.after == s.(tasks := s.tasks - {taskId})
  {
    var deleted := DeleteTaskStep(s, taskId, caller);
    match deleted.result.value
    case None => Step(Raise(TaskNotFound), deleted.after)
    case Some(task) => Step(Ok(task), deleted.after)
  }

  method DeleteTaskRoute(db: Db, taskId: int, caller: string) returns (r: Outcome<Task>)
    requires db.Valid()
    modifies db
    ensures db.Valid()
    ensures Step(r, db.Snapshot()) == DeleteTaskRouteStep(old(db.Snapshot()), taskId, caller)
  {
    var task := DeleteTask(db, taskId, caller);
    if task.None? {
      return Raise(TaskNotFound);
    }
    r := Ok(task.value);
  }

  /** `update_task_status`: mark the caller's task with that id DONE, changing nothing else,
      or 404 when the caller owns no such task. */
  function UpdateTaskStatusStep(s: Tables, taskId: int, caller: string): (r: Step<Task>)
    requires TablesValid(s)
    ensures TablesValid(r.after) && r.after.users == s.users
    ensures r.result.Raise? <==> taskId !in s.tasks || s.tasks[taskId].userId != caller
    ensures r.result.Raise? ==> r.result.error == TaskNotFound && r.after == s
    ensures r.result.Ok? ==>
      && taskId in s.tasks
      && r.result.value == s.tasks[taskId].(status := Done)
      && r.after == s.(tasks := s.tasks[taskId := r.result.value])
  {
    match GetTask(s.tasks, taskId, caller)
    case None => Step(Raise(TaskNotFound), s)
    case Some(task) => CommitTaskStep(s, task.(status := Done))
  }

  method UpdateTaskStatus(db: Db, taskId: int, caller: string) returns (r: Outcome<Task>)
    requires db.Valid()
    modifies db
    ensures db.Valid()
    ensures Step(r, db.Snapshot()) == UpdateTaskStatusStep(old(db.Snapshot()), taskId, caller)
  {
    var found := GetTask(db.tasks, taskId, caller);
    if found.None? {
      return Raise(TaskNotFound);
    }
    var task := found.value;
    task := task.(status := Done);
    r := CommitTask(db, task);
  }

  /** `update_task_route`: overwrite title, description, priority and deadline of the caller's
      task with those of the body and stamp the update time; the category, owner, id, creation
      time and status are kept, and the deadline is not checked. 404 when the caller owns no
      such task; the database refuses values that do not fit the columns. */
  function UpdateTaskRouteStep(s: Tables, taskId: int, task: TaskCreate, caller: string, now: int): (r: Step<Task>)
    requires TablesValid(s)
    ensures TablesValid(r.after) && r.after.users == s.users
    ensures r.result == Raise(TaskNotFound) <==> taskId !in s.tasks || s.tasks[taskId].userId != caller
    ensures r.result.Ok? <==>
      && taskId in s.tasks && s.tasks[taskId].userId == caller
      && |task.title| <= TitleLength && |task.description| <= DescriptionLength
    ensures r.result.Raise? ==> r.after == s
    ensures r.result.Ok? ==>
      var old_ := s.tasks[taskId];
      var t := r.result.value;
      && t.title == task.title && t.description == task.description
      && t.priority == task.priority && t.deadline == task.deadline && t.lastUpdated == Some(now)
      && t.id == taskId && t.category == old_.category && t.userId == caller
      && t.createdAt == old_.createdAt && t.status == old_.status
      && r.after == s.(tasks := s.tasks[taskId := t])
  {
    match GetTask(s.tasks, taskId, caller)
    case None => Step(Raise(TaskNotFound), s)
    case Some(existing) =>
      CommitTaskStep(s, existing.(title := task.title, description := task.description,
                                  priority := task.priority, deadline := task.deadline,
                                  lastUpdated := Some(now)))
  }

  method UpdateTaskRoute(db: Db, taskId: int, task: TaskCreate, caller: string, now: int) returns (r: Outcome<Task>)
    requires db.Valid()
    modifies db
    ensures db.Valid()
    ensures Step(r, db.Snapshot()) == UpdateTaskRouteStep(old(db.Snapshot()), taskId, task, caller, now)
  {
    var found := GetTask(db.tasks, taskId, caller);
    if found.None? {
      return Raise(TaskNotFound);
    }
    var existing := found.value;
    existing := existing.(title := task.title);
    existing := existing.(description := task.description);
    existing := existing.(priority := task.priority);
    existing := existing.(deadline := task.deadline);
    existing := existing.(lastUpdated := Some(now));
    r := CommitTask(db, existing);
  }

  /** A request to one of the task routes, made by an authenticated caller. */
  datatype TaskRequest =
    | CreateRequest(task: TaskCreate, now: int)
    | ListRequest
    | DeleteRequest(taskId: int)
    | MarkDoneRequest(taskId: int)
    | UpdateRequest(taskId: int, body: TaskCreate, now: int)

  datatype Request = Request(caller: string, request: TaskRequest)

  /** The tables after serving one request. */
  function Serve(s: Tables, req: Request): (after: Tables)
    requires TablesValid(s)
    ensures TablesValid(after)
  {
    match req.request
    case CreateRequest(task, now) => CreateTaskRouteStep(s, task, req.caller, now).after
    case ListRequest => s
    case DeleteRequest(taskId) => DeleteTaskRouteStep(s, taskId, req.caller).after
    case MarkDoneRequest(taskId) => UpdateTaskStatusStep(s, taskId, req.caller).after
    case UpdateRequest(taskId, body, now) => UpdateTaskRouteStep(s, taskId, body, req.caller, now).after
  }

  /** The tables after serving a sequence of requests in order. */
  function ServeAll(s: Tables, reqs: seq<Request>): (after: Tables)
    requires TablesValid(s)
    ensures TablesValid(after)
    decreases |reqs|
  {
    if reqs == [] then s else ServeAll(Serve(s, reqs[0]), reqs[1..])
  }

  /** One request never changes the tasks of anyone but its caller, nor the users. */
  lemma ServeKeepsOthers(s: Tables, req: Request, other: string)
    requires TablesValid(s) && req.caller != other
    ensures GetUserTasks(Serve(s, req).tasks, other) == GetUserTasks(s.tasks, other)
    ensures Serve(s, req).users == s.users
  {
    match req.request
    case CreateRequest(task, now) =>
      if !DeadlineInPast(task.deadline, now) {
        CreateTaskKeepsOthers(s, task, req.caller, now, other);
      }
    case ListRequest =>
    case DeleteRequest(taskId) =>
      DeleteTaskKeepsOthers(s, taskId, req.caller, other);
    case MarkDoneRequest(taskId) =>
    case UpdateRequest(taskId, body, now) =>
  }

  /** Ownership isolation: however the requests of other callers are interleaved, a user's
      tasks are exactly what they were. */
  lemma {:induction false} OthersCannotTouch(s: Tables, reqs: seq<Request>, user: string)
    requires TablesValid(s)
    requires forall k :: 0 <= k < |reqs| ==> reqs[k].caller != user
    ensures GetUserTasks(ServeAll(s, reqs).tasks, user) == GetUserTasks(s.tasks, user)
    decreases |reqs|
  {
    if reqs != [] {
      ServeKeepsOthers(s, reqs[0], user);
      OthersCannotTouch(Serve(s, reqs[0]), reqs[1..], user);
    }
  }
}
