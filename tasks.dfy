/** The task lifecycle engine: create, fetch (through the response cache),
    filter, update and delete tasks, with the assignment mails and the task
    events these operations emit. */
module Tasks {
  import opened Domain
  import opened TaskFilter

  /** The request body of create and update. */
  datatype TaskRequest = TaskRequest(
    title: Option<string>,
    description: Option<string>,
    projectId: Option<Id>,
    assigneeId: Option<Id>,
    status: Option<Status>,
    priority: Option<Priority>,
    dueDate: Option<Time>,
    tags: Option<seq<string>>,
    estimatedHours: Option<int>)

  /** The response body; `attachments` exists in the shape but is never
      filled. */
  datatype TaskResponse = TaskResponse(
    id: Option<Id>,
    title: Option<string>,
    description: Option<string>,
    projectId: Id,
    projectName: Option<string>,
    assignee: Option<UserSummary>,
    creator: Option<UserSummary>,
    status: Status,
    priority: Option<Priority>,
    dueDate: Option<Time>,
    tags: Option<seq<string>>,
    estimatedHours: Option<int>,
    attachments: Option<seq<Id>>,
    createdAt: Time,
    updatedAt: Time)

  /** A user as the task response shows it: id, username and full name. */
  function Summary(u: User): (s: UserSummary)
    ensures s.id == u.id && s.username == u.username && s.fullName == u.fullName
    ensures s.email.None?
  {
    UserSummary(u.id, u.username, None, u.fullName)
  }

  /** The projection of a task document to its response. */
  function MapToResponse(t: Task): (r: TaskResponse)
    ensures r.id == t.id && r.title == t.title && r.description == t.description
    ensures r.projectId == t.project.id && r.projectName == t.project.name
    ensures r.status == t.status && r.priority == t.priority && r.dueDate == t.dueDate
    ensures r.tags == t.tags && r.estimatedHours == t.estimatedHours
    ensures r.createdAt == t.createdAt && r.updatedAt == t.updatedAt
    ensures r.creator.Some? <==> t.creator.Some?
    ensures r.creator.Some? ==> r.creator.value == Summary(t.creator.value)
    ensures r.assignee.Some? <==> t.assignee.Some?
    ensures r.assignee.Some? ==> r.assignee.value == Summary(t.assignee.value)
    ensures r.attachments.None?
  {
    TaskResponse(
      t.id, t.title, t.description, t.project.id, t.project.name,
      if t.assignee.Some? then Some(Summary(t.assignee.value)) else None,
      if t.creator.Some? then Some(Summary(t.creator.value)) else None,
      t.status, t.priority, t.dueDate, t.tags, t.estimatedHours, None,
      t.createdAt, t.updatedAt)
  }

  /** The response shows neither the attachments nor the completion time, so
      changing them never makes a cached response stale. */
  lemma ResponseHidesAttachmentsAndCompletion(t: Task, attachments: seq<Id>, completedAt: Option<Time>)
    ensures MapToResponse(t.(attachments := attachments, completedAt := completedAt)) == MapToResponse(t)
  {
  }

  datatype EventType = TaskAssigned | TaskCreated | TaskStatusChanged | TaskReassigned | TaskDeleted

  /** A message on the task-events topic: its type, its partition key and its
      metadata. */
  datatype TaskEvent = TaskEvent(eventType: EventType, key: Option<Id>, metadata: Option<string>)

  /** One externally visible step of an operation, in the order it happens. */
  datatype Effect =
    | Mailed(mail: Mail)
    | Published(event: TaskEvent)
    | Saved(task: Task)
    | Removed(id: Id)

  /** The full-replace part of an update: the plain fields take the request's
      values, nulls included, and the update time is stamped. */
  function Overwrite(t: Task, req: TaskRequest, now: Time): (u: Task)
    ensures u.title == req.title && u.description == req.description
    ensures u.priority == req.priority && u.dueDate == req.dueDate
    ensures u.tags == req.tags && u.estimatedHours == req.estimatedHours
    ensures u.updatedAt == now
    ensures u.id == t.id && u.project == t.project && u.creator == t.creator
    ensures u.assignee == t.assignee && u.status == t.status
    ensures u.createdAt == t.createdAt && u.completedAt == t.completedAt
    ensures u.attachments == t.attachments
  {
    t.(title := req.title, description := req.description, priority := req.priority,
       dueDate := req.dueDate, tags := req.tags, estimatedHours := req.estimatedHours,
       updatedAt := now)
  }

  /** The status gate: a non-null status different from the current one. */
  predicate ChangesStatus(t: Task, req: TaskRequest)
  {
    req.status.Some? && req.status.value != t.status
  }

  /** The assignee gate: a non-null assignee id, and the task has no
      assignee or a different one. */
  predicate ChangesAssignee(t: Task, req: TaskRequest)
  {
    req.assigneeId.Some? && (t.assignee.None? || t.assignee.value.id != req.assigneeId.value)
  }

  /** The task after a status change: entering COMPLETED stamps the
      completion time; no transition clears it. */
  function EnterStatus(t: Task, s: Status, now: Time): (u: Task)
    ensures u.status == s
    ensures s == Completed ==> u.completedAt == Some(now)
    ensures s != Completed ==> u.completedAt == t.completedAt
    ensures u == t.(status := s, completedAt := u.completedAt)
  {
    if s == Completed then t.(status := s, completedAt := Some(now)) else t.(status := s)
  }

  /** Once a task has been completed its completion time stays set, whatever
      statuses follow. */
  lemma {:induction false} CompletionIsNeverCleared(t: Task, statuses: seq<Status>, times: seq<Time>)
    requires |statuses| == |times|
    requires t.completedAt.Some? || Completed in statuses
    decreases statuses
    ensures EnterAll(t, statuses, times).completedAt.Some?
  {
    if statuses != [] {
      var u := EnterStatus(t, statuses[0], times[0]);
      assert u.completedAt.Some? || Completed in statuses[1..];
      CompletionIsNeverCleared(u, statuses[1..], times[1..]);
    }
  }

  /** The task after a sequence of status changes. */
  function EnterAll(t: Task, statuses: seq<Status>, times: seq<Time>): Task
    requires |statuses| == |times|
    decreases statuses
  {
    if statuses == [] then t else EnterAll(EnterStatus(t, statuses[0], times[0]), statuses[1..], times[1..])
  }

  /** The status-change event of an update, if its gate opens. */
  function StatusEvents(t: Task, req: TaskRequest): seq<TaskEvent>
  {
    if ChangesStatus(t, req)
    then [TaskEvent(TaskStatusChanged, t.id, Some(TransitionText(t.status, req.status.value)))]
    else []
  }

  /** The stored task with the given id. */
  function Stored(tasks: seq<Task>, id: Id): (t: Task)
    requires TaskIndex(tasks, id).Some?
    ensures t in tasks && t.id == Some(id)
  {
    tasks[TaskIndex(tasks, id).value]
  }

  /** The task after the full replace and the gated status change. */
  function Revised(t: Task, req: TaskRequest, now: Time): Task
  {
    if ChangesStatus(t, req) then EnterStatus(Overwrite(t, req, now), req.status.value, now)
    else Overwrite(t, req, now)
  }

  /** The trace entries of publishing the given events. */
  function Announced(es: seq<TaskEvent>): (r: seq<Effect>)
    ensures |r| == |es| && forall k :: 0 <= k < |es| ==> r[k] == Published(es[k])
  {
    seq(|es|, k requires 0 <= k < |es| => Published(es[k]))
  }

  /** Whether an update reassigns the task: the gate opens and the new
      assignee exists. */
  predicate Reassigns(t: Task, req: TaskRequest, users: seq<User>)
  {
    ChangesAssignee(t, req) && FindUser(users, req.assigneeId.value).Some?
  }

  /** The task an update makes of the stored task `t`, or the failed lookup
      of the new assignee. */
  function Updated(t: Task, req: TaskRequest, now: Time, users: seq<User>): (r: Result<Task>)
    ensures r.Err? <==> ChangesAssignee(t, req) && FindUser(users, req.assigneeId.value).None?
    ensures r.Err? ==> r.error == NotFound("User", "id", req.assigneeId.value)
    // The plain fields are replaced, the identity and history kept.
    ensures r.Ok? ==> r.value.(assignee := t.assignee, status := t.status, completedAt := t.completedAt)
                      == Overwrite(t, req, now)
    // Only a non-null, different status changes it; completion is never
    // cleared.
    ensures r.Ok? ==> r.value.status == if ChangesStatus(t, req) then req.status.value else t.status
    ensures r.Ok? && ChangesStatus(t, req) && req.status.value == Completed ==> r.value.completedAt == Some(now)
    ensures r.Ok? && !(ChangesStatus(t, req) && req.status.value == Completed) ==> r.value.completedAt == t.completedAt
    // Only a non-null, different assignee changes it; a null never
    // unassigns.
    ensures r.Ok? && !ChangesAssignee(t, req) ==> r.value.assignee == t.assignee
    ensures r.Ok? && ChangesAssignee(t, req) ==> r.value.assignee == FindUser(users, req.assigneeId.value)
  {
    if !ChangesAssignee(t, req) then Ok(Revised(t, req, now))
    else match FindUser(users, req.assigneeId.value)
      case None => Err(NotFound("User", "id", req.assigneeId.value))
      case Some(u) => Ok(Revised(t, req, now).(assignee := Some(u)))
  }

  /** The assignment mail of an update that reassigns. */
  function ReassignMail(t: Task, req: TaskRequest, users: seq<User>): Mail
    requires Reassigns(t, req, users)
  {
    var u := FindUser(users, req.assigneeId.value).value;
    AssignmentMail(u.email, u.fullName, req.title, t.project.name)
  }

  /** The TASK_REASSIGNED event of an update that reassigns. */
  function ReassignEvent(t: Task, req: TaskRequest, users: seq<User>): TaskEvent
    requires Reassigns(t, req, users)
  {
    TaskEvent(TaskReassigned, t.id, Some(req.assigneeId.value))
  }

  /** The mails of an update: one to the new assignee, if it reassigns. */
  function UpdateMails(t: Task, req: TaskRequest, users: seq<User>): (ms: seq<Mail>)
    ensures |ms| == if Reassigns(t, req, users) then 1 else 0
    ensures Reassigns(t, req, users) ==> ms[0].to == FindUser(users, req.assigneeId.value).value.email
  {
    if Reassigns(t, req, users) then [ReassignMail(t, req, users)] else []
  }

  /** The events of an update: the status change, then the reassignment. */
  function UpdateEvents(t: Task, req: TaskRequest, users: seq<User>): (es: seq<TaskEvent>)
    ensures |es| == (if ChangesStatus(t, req) then 1 else 0) + (if Reassigns(t, req, users) then 1 else 0)
    ensures forall k :: 0 <= k < |es| ==> es[k].key == t.id
    ensures ChangesStatus(t, req) ==>
      es[0] == TaskEvent(TaskStatusChanged, t.id, Some(TransitionText(t.status, req.status.value)))
    ensures Reassigns(t, req, users) ==>
      es[|es| - 1] == TaskEvent(TaskReassigned, t.id, Some(req.assigneeId.value))
  {
    StatusEvents(t, req) + if Reassigns(t, req, users) then [ReassignEvent(t, req, users)] else []
  }

  /** The steps of an update before its save: the status event, then the
      mail, then the reassignment event. */
  function UpdateSteps(t: Task, req: TaskRequest, users: seq<User>): seq<Effect>
  {
    Announced(StatusEvents(t, req))
    + if Reassigns(t, req, users) then [Mailed(ReassignMail(t, req, users)), Published(ReassignEvent(t, req, users))]
      else []
  }

  /** The project createTask reads: none for a null or unknown id. */
  function RequestedProject(projects: map<Id, Project>, req: TaskRequest): (p: Option<Project>)
    ensures p.Some? <==> req.projectId.Some? && req.projectId.value in projects
    ensures p.Some? ==> p.value == projects[req.projectId.value] && p.value in projects.Values
  {
    if req.projectId.Some? && req.projectId.value in projects then Some(projects[req.projectId.value]) else None
  }

  /** The assignee createTask looks up: none without an assignee id. */
  function NewAssignee(users: seq<User>, req: TaskRequest): (a: Option<User>)
    ensures req.assigneeId.None? ==> a.None?
    ensures a.Some? ==> a.value in users && a.value.id == req.assigneeId.value
  {
    if req.assigneeId.Some? then FindUser(users, req.assigneeId.value) else None
  }

  /** The task createTask saves: the request's fields, the status defaulted
      to TODO, the actor as creator, nothing attached, not completed, and
      created and updated at the same instant. */
  function NewTask(req: TaskRequest, project: Project, actor: User, assignee: Option<User>, id: Id, now: Time): (t: Task)
    ensures t.id == Some(id) && t.project == project && t.assignee == assignee
    ensures t.title == req.title && t.description == req.description
    ensures t.priority == req.priority && t.dueDate == req.dueDate
    ensures t.tags == req.tags && t.estimatedHours == req.estimatedHours
    ensures t.creator == Some(actor)
    ensures req.status.None? ==> t.status == Todo
    ensures req.status.Some? ==> t.status == req.status.value
    ensures t.attachments == [] && t.completedAt.None?
    ensures t.createdAt == now && t.updatedAt == now
  {
    Task(Some(id), req.title, req.description, project, Some(actor), assignee,
         if req.status.Some? then req.status.value else Todo,
         req.priority, req.dueDate, req.tags, req.estimatedHours, [], now, now, None)
  }

  /** Whether every cached response is the projection of the stored task with
      that id. */
  ghost predicate CacheCoherent(tasks: seq<Task>, cache: map<Id, TaskResponse>)
  {
    forall id :: id in cache ==>
      TaskIndex(tasks, id).Some? && cache[id] == MapToResponse(tasks[TaskIndex(tasks, id).value])
  }

  class TaskService {
    /** The task collection, in natural order. */
    var tasks: seq<Task>
    /** The project and user collections, which this service only reads. */
    var projects: map<Id, Project>
    var users: seq<User>
    /** The messages published on the task-events topic. */
    var events: seq<TaskEvent>
    /** The mails handed to the mail sender. */
    var mails: seq<Mail>
    /** The "tasks" cache of single-task responses. */
    var cache: map<Id, TaskResponse>
    /** Every mail, publish, save and delete, in the order performed. */
    ghost var trace: seq<Effect>

    ghost predicate Valid()
      reads this
    {
      WellKeyed(tasks) && CacheCoherent(tasks, cache)
    }

    constructor (projects: map<Id, Project>, users: seq<User>)
      ensures Valid()
      ensures this.projects == projects && this.users == users
      ensures tasks == [] && events == [] && mails == [] && cache == map[] && trace == []
    {
      this.tasks := [];
      this.projects := projects;
      this.users := users;
      this.events := [];
      this.mails := [];
      this.cache := map[];
      this.trace := [];
    }

    /** Publishing never fails the caller: a send failure is caught and
        logged, so the model appends the message unconditionally. */
    method PublishTaskEvent(eventType: EventType, key: Option<Id>, metadata: Option<string>)
      modifies this`events, this`trace
      ensures events == old(events) + [TaskEvent(eventType, key, metadata)]
      ensures trace == old(trace) + [Published(TaskEvent(eventType, key, metadata))]
    {
      events := events + [TaskEvent(eventType, key, metadata)];
      trace := trace + [Published(TaskEvent(eventType, key, metadata))];
    }

    /** Hands an assignment mail to the asynchronous mail sender. */
    method SendAssignmentMail(to: User, taskTitle: Option<string>, projectName: Option<string>)
      modifies this`mails, this`trace
      ensures mails == old(mails) + [AssignmentMail(to.email, to.fullName, taskTitle, projectName)]
      ensures trace == old(trace) + [Mailed(AssignmentMail(to.email, to.fullName, taskTitle, projectName))]
    {
      mails := mails + [AssignmentMail(to.email, to.fullName, taskTitle, projectName)];
      trace := trace + [Mailed(AssignmentMail(to.email, to.fullName, taskTitle, projectName))];
    }

    /** The last steps of createTask: the save of the new task, then
        TASK_CREATED keyed by its id, and the eviction of the whole cache. */
    method SaveCreated(task: Task, actor: User)
      requires WellKeyed(tasks)
      requires task.id.Some? && TaskIndex(tasks, task.id.value).None?
      modifies this`tasks, this`events, this`trace, this`cache
      ensures WellKeyed(tasks) && cache == map[]
      ensures tasks == old(tasks) + [task]
      ensures events == old(events) + [TaskEvent(TaskCreated, task.id, Some(actor.id))]
      ensures trace == old(trace) + [Saved(task), Published(TaskEvent(TaskCreated, task.id, Some(actor.id)))]
    {
      AppendKeepsKeys(tasks, task);
      tasks := tasks + [task];
      trace := trace + [Saved(task)];
      PublishTaskEvent(TaskCreated, task.id, Some(actor.id));
      cache := map[];
    }

    /** createTask by `actor`; `newId` is the id the store gives the new
        document and `now` the clock reading. */
    method CreateTask(req: TaskRequest, actor: User, newId: Id, now: Time) returns (r: Result<TaskResponse>)
      requires Valid()
      requires TaskIndex(tasks, newId).None?
      modifies this
      ensures Valid()
      ensures projects == old(projects) && users == old(users)
      // A null project id, an unknown project or an unknown assignee fails
      // before any mail, event or save.
      ensures req.projectId.None? ==>
        && r == Err(InvalidArgument("The given id must not be null"))
        && tasks == old(tasks) && events == old(events) && mails == old(mails)
        && cache == old(cache) && trace == old(trace)
      ensures req.projectId.Some? && req.projectId.value !in projects ==>
        && r == Err(NotFound("Project", "id", req.projectId.value))
        && tasks == old(tasks) && events == old(events) && mails == old(mails)
        && cache == old(cache) && trace == old(trace)
      ensures RequestedProject(projects, req).Some? && req.assigneeId.Some? && FindUser(users, req.assigneeId.value).None? ==>
        && r == Err(NotFound("User", "id", req.assigneeId.value))
        && tasks == old(tasks) && events == old(events) && mails == old(mails)
        && cache == old(cache) && trace == old(trace)
      ensures r.Ok? <==>
        RequestedProject(projects, req).Some? && (req.assigneeId.Some? ==> FindUser(users, req.assigneeId.value).Some?)
      // On success: one new task is appended and the whole cache evicted.
      ensures r.Ok? ==>
        var t := NewTask(req, RequestedProject(projects, req).value, actor, NewAssignee(users, req), newId, now);
        && tasks == old(tasks) + [t]
        && r.value == MapToResponse(t)
        && cache == map[]
      // Without an assignee: save, then TASK_CREATED.
      ensures r.Ok? && req.assigneeId.None? ==>
        var t := NewTask(req, RequestedProject(projects, req).value, actor, None, newId, now);
        var created := TaskEvent(TaskCreated, Some(newId), Some(actor.id));
        && mails == old(mails)
        && events == old(events) + [created]
        && trace == old(trace) + [Saved(t), Published(created)]
      // With an assignee: mail, then TASK_ASSIGNED keyed by the id read before
      // the save (none yet), then save, then TASK_CREATED.
      ensures r.Ok? && req.assigneeId.Some? ==>
        var u := FindUser(users, req.assigneeId.value).value;
        var t := NewTask(req, RequestedProject(projects, req).value, actor, Some(u), newId, now);
        var m := AssignmentMail(u.email, u.fullName, req.title, RequestedProject(projects, req).value.name);
        var assignment := TaskEvent(TaskAssigned, None, Some(u.id));
        var created := TaskEvent(TaskCreated, Some(newId), Some(actor.id));
        && mails == old(mails) + [m]
        && events == old(events) + [assignment, created]
        && trace == old(trace) + [Mailed(m), Published(assignment), Saved(t), Published(created)]
    {
      if req.projectId.None? {
        return Err(InvalidArgument("The given id must not be null"));
      }
      if req.projectId.value !in projects {
        return Err(NotFound("Project", "id", req.projectId.value));
      }
      var project := projects[req.projectId.value];

      var task := Task(None, req.title, req.description, project, Some(actor), None,
                       if req.status.Some? then req.status.value else Todo,
                       req.priority, req.dueDate, req.tags, req.estimatedHours,
                       [], now, now, None);

      if req.assigneeId.Some? {
        var withAssignee := Assign(task, req.assigneeId.value, TaskAssigned);
        if withAssignee.Err? {
          return Err(withAssignee.error);
        }
        task := withAssignee.value;
      }

      task := task.(id := Some(newId));
      assert task == NewTask(req, project, actor, task.assignee, newId, now);
      SaveCreated(task, actor);
      r := Ok(MapToResponse(task));
    }

    /** getTaskById: a cached response is returned without reading the store;
        otherwise the stored task is projected and cached. A missing task is
        reported and nothing is cached. */
    method GetTaskById(id: Id) returns (r: Result<TaskResponse>)
      requires Valid()
      modifies this`cache
      ensures Valid()
      ensures id in old(cache) ==> r == Ok(old(cache)[id]) && cache == old(cache)
      ensures id !in old(cache) && TaskIndex(tasks, id).None? ==>
        r == Err(NotFound("Task", "id", id)) && cache == old(cache)
      ensures id !in old(cache) && TaskIndex(tasks, id).Some? ==>
        r == Ok(MapToResponse(tasks[TaskIndex(tasks, id).value])) && cache == old(cache)[id := r.value]
      // Whether cached or not, the answer is the current stored task's.
      ensures r.Ok? <==> TaskIndex(tasks, id).Some?
      ensures r.Ok? ==> r.value == MapToResponse(tasks[TaskIndex(tasks, id).value])
    {
      if id in cache {
        return Ok(cache[id]);
      }
      var i := TaskIndex(tasks, id);
      if i.None? {
        return Err(NotFound("Task", "id", id));
      }
      var response := MapToResponse(tasks[i.value]);
      cache := cache[id := response];
      r := Ok(response);
    }

    /** filterTasks: the page of matching tasks, as responses. */
    method FilterTasks(f: TaskFilterRequest, key: Task -> int) returns (r: Result<TaskPage>, responses: seq<TaskResponse>)
      ensures r == Query(tasks, f, key)
      ensures r.Err? <==> PagingError(f).Some?
      ensures r.Ok? ==> |responses| == |r.value.content| <= f.size
      ensures r.Ok? ==> forall k :: 0 <= k < |responses| ==>
        responses[k] == MapToResponse(r.value.content[k]) &&
        r.value.content[k] in tasks && Wanted(f, r.value.content[k])
      ensures r.Ok? ==> r.value.totalElements == |Select(tasks, Criteria(f))|
      ensures r.Err? ==> responses == []
    {
      r := Query(tasks, f, key);
      if r.Err? {
        return r, [];
      }
      responses := seq(|r.value.content|, k requires 0 <= k < |r.value.content| => MapToResponse(r.value.content[k]));
    }

    /** The status step of updateTask: when the gate opens, the status is
        set, entering COMPLETED stamps the completion time, and one
        TASK_STATUS_CHANGED event carries "old->new". */
    method ChangeStatus(task: Task, req: TaskRequest, now: Time) returns (u: Task)
      modifies this`events, this`trace
      ensures u == if ChangesStatus(task, req) then EnterStatus(task, req.status.value, now) else task
      ensures events == old(events) + StatusEvents(task, req)
      ensures trace == old(trace) + if ChangesStatus(task, req) then [Published(StatusEvents(task, req)[0])] else []
    {
      u := task;
      if req.status.Some? && req.status.value != u.status {
        var oldStatus := u.status;
        u := u.(status := req.status.value);
        if req.status.value == Completed {
          u := u.(completedAt := Some(now));
        }
        PublishTaskEvent(TaskStatusChanged, u.id, Some(TransitionText(oldStatus, req.status.value)));
      }
    }

    /** The assignment step shared by createTask and updateTask: the
        assignee is looked up; if found, it is set, mailed, and announced by
        one event of the given kind, keyed by the task's current id. */
    method Assign(task: Task, assigneeId: Id, kind: EventType) returns (r: Result<Task>)
      modifies this`events, this`mails, this`trace
      ensures FindUser(users, assigneeId).None? ==>
        r == Err(NotFound("User", "id", assigneeId))
        && events == old(events) && mails == old(mails) && trace == old(trace)
      ensures FindUser(users, assigneeId).Some? ==>
        var u := FindUser(users, assigneeId).value;
        var m := AssignmentMail(u.email, u.fullName, task.title, task.project.name);
        var e := TaskEvent(kind, task.id, Some(u.id));
        && r == Ok(task.(assignee := Some(u)))
        && mails == old(mails) + [m]
        && events == old(events) + [e]
        && trace == old(trace) + [Mailed(m), Published(e)]
    {
      var found := FindUser(users, assigneeId);
      if found.None? {
        return Err(NotFound("User", "id", assigneeId));
      }
      var newAssignee := found.value;
      var updated := task.(assignee := Some(newAssignee));
      SendAssignmentMail(newAssignee, updated.title, updated.project.name);
      PublishTaskEvent(kind, updated.id, Some(newAssignee.id));
      r := Ok(updated);
    }

    /** The first two steps of updateTask on a loaded task: the full
        replace of the plain fields and the gated status change. */
    method ReviseFields(task: Task, req: TaskRequest, now: Time) returns (t: Task)
      modifies this`events, this`trace
      ensures t == Revised(task, req, now) && t.assignee == task.assignee
      ensures events == old(events) + StatusEvents(task, req)
      ensures trace == old(trace) + Announced(StatusEvents(task, req))
    {
      t := task.(title := req.title, description := req.description, priority := req.priority,
                 dueDate := req.dueDate, tags := req.tags, estimatedHours := req.estimatedHours,
                 updatedAt := now);
      assert t == Overwrite(task, req, now);
      t := ChangeStatus(t, req, now);
    }

    /** The in-memory part of updateTask on a loaded task: the full replace,
        the gated status change and the gated reassignment, with their mails
        and events, but not the save. */
    method Revise(task: Task, req: TaskRequest, now: Time) returns (r: Result<Task>)
      modifies this`events, this`mails, this`trace
      ensures r == Updated(task, req, now, users)
      ensures mails == old(mails) + UpdateMails(task, req, users)
      ensures events == old(events) + UpdateEvents(task, req, users)
      ensures trace == old(trace) + UpdateSteps(task, req, users)
    {
      var t := ReviseFields(task, req, now);
      assert ChangesAssignee(t, req) == ChangesAssignee(task, req);
      if ChangesAssignee(t, req) {
        var reassigned := Assign(t, req.assigneeId.value, TaskReassigned);
        if reassigned.Err? {
          return Err(reassigned.error);
        }
        t := reassigned.value;
      }
      r := Ok(t);
    }

    /** The last steps of updateTask: the save of the updated task in place
        and the eviction of the whole cache. */
    method SaveUpdated(i: nat, task: Task)
      requires WellKeyed(tasks) && i < |tasks| && task.id == tasks[i].id
      modifies this`tasks, this`trace, this`cache
      ensures WellKeyed(tasks) && cache == map[]
      ensures tasks == old(tasks)[i := task]
      ensures trace == old(trace) + [Saved(task)]
    {
      ReplaceKeepsKeys(tasks, i, task);
      tasks := tasks[i := task];
      trace := trace + [Saved(task)];
      cache := map[];
    }

    /** updateTask: full replace of the plain fields, then the gated status
        change and the gated reassignment, then the save. */
    method UpdateTask(id: Id, req: TaskRequest, now: Time) returns (r: Result<TaskResponse>)
      requires Valid()
      modifies this
      ensures Valid()
      ensures projects == old(projects) && users == old(users)
      ensures TaskIndex(old(tasks), id).None? ==>
        && r == Err(NotFound("Task", "id", id))
        && tasks == old(tasks) && events == old(events) && mails == old(mails)
        && cache == old(cache) && trace == old(trace)
      // The status event and the reassignment mail and event go out before
      // the save, so a failed assignee lookup leaves them behind.
      ensures TaskIndex(old(tasks), id).Some? ==>
        var t0 := Stored(old(tasks), id);
        && mails == old(mails) + UpdateMails(t0, req, users)
        && events == old(events) + UpdateEvents(t0, req, users)
      ensures TaskIndex(old(tasks), id).Some? && Updated(Stored(old(tasks), id), req, now, users).Err? ==>
        var t0 := Stored(old(tasks), id);
        && r == Err(Updated(t0, req, now, users).error)
        && tasks == old(tasks) && cache == old(cache)
        && trace == old(trace) + UpdateSteps(t0, req, users)
      // Otherwise the updated task is saved in place and the cache evicted.
      ensures TaskIndex(old(tasks), id).Some? && Updated(Stored(old(tasks), id), req, now, users).Ok? ==>
        var t0 := Stored(old(tasks), id);
        var t := Updated(t0, req, now, users).value;
        && r == Ok(MapToResponse(t))
        && tasks == old(tasks)[TaskIndex(old(tasks), id).value := t] && cache == map[]
        && trace == old(trace) + UpdateSteps(t0, req, users) + [Saved(t)]
    {
      var i := TaskIndex(tasks, id);
      if i.None? {
        return Err(NotFound("Task", "id", id));
      }
      var revised := Revise(tasks[i.value], req, now);
      if revised.Err? {
        return Err(revised.error);
      }
      var task := revised.value;
      SaveUpdated(i.value, task);
      r := Ok(MapToResponse(task));
    }

    /** deleteTask: a hard delete followed by one TASK_DELETED event. */
    method DeleteTask(id: Id) returns (r: Outcome)
      requires Valid()
      modifies this
      ensures Valid()
      ensures projects == old(projects) && users == old(users) && mails == old(mails)
      ensures TaskIndex(old(tasks), id).None? ==>
        && r == Fail(NotFound("Task", "id", id))
        && tasks == old(tasks) && events == old(events) && cache == old(cache) && trace == old(trace)
      ensures TaskIndex(old(tasks), id).Some? ==>
        && r == Pass
        && tasks == RemoveAt(old(tasks), TaskIndex(old(tasks), id).value)
        && TaskIndex(tasks, id).None?
        && events == old(events) + [TaskEvent(TaskDeleted, Some(id), None)]
        && trace == old(trace) + [Removed(id), Published(TaskEvent(TaskDeleted, Some(id), None))]
        && cache == map[]
    {
      var i := TaskIndex(tasks, id);
      if i.None? {
        return Fail(NotFound("Task", "id", id));
      }
      RemoveAtKeepsKeys(tasks, i.value);
      tasks := RemoveAt(tasks, i.value);
      trace := trace + [Removed(id)];
      PublishTaskEvent(TaskDeleted, Some(id), None);
      cache := map[];
      r := Pass;
    }
  }
}
