/** Shared vocabulary of the task-management services: identifiers, the
    documents stored in the collections (users, projects, tasks), the
    failures the services raise, and lookups over the collections. */
module Domain {

  /** Document identifiers (MongoDB ids, carried as strings). */
  type Id = string

  /** A point in time (LocalDateTime), as a totally ordered number. */
  type Time = int

  /** A Java reference that may be null. */
  datatype Option<+T> = None | Some(value: T)

  /** The exceptions the services throw, by kind. */
  datatype Error =
    | NotFound(resource: string, field: string, value: string)  // ResourceNotFoundException(resource, field, value)
    | BadRequest(message: string)                               // BadRequestException(message)
    | InvalidArgument(message: string)                          // IllegalArgumentException from a library argument check
    | BadCredentials                                            // the authentication manager rejected the login

  /** A value or the exception that ended the operation. */
  datatype Result<+T> = Ok(value: T) | Err(error: Error)

  /** Success of an operation without a result, or its exception. */
  datatype Outcome = Pass | Fail(error: Error)

  datatype Status = Todo | InProgress | InReview | Completed
  datatype Priority = Low | Medium | High | Urgent

  /** A security role; only its enum constant name is used. */
  datatype Role = Role(name: string)

  datatype User = User(id: Id, username: string, email: string, password: string,
                       fullName: Option<string>, roles: set<Role>)

  datatype Project = Project(
    id: Id,
    name: Option<string>,
    description: Option<string>,
    owner: User,
    members: Option<seq<User>>,
    archived: bool,
    startDate: Option<Time>,
    endDate: Option<Time>,
    createdAt: Time,
    updatedAt: Time)

  /** A task document. Its project, creator and assignee are references that
      the store resolves when the task is loaded; they are held here as the
      documents they resolve to. The id is absent until the first save. */
  datatype Task = Task(
    id: Option<Id>,
    title: Option<string>,
    description: Option<string>,
    project: Project,
    creator: Option<User>,
    assignee: Option<User>,
    status: Status,
    priority: Option<Priority>,
    dueDate: Option<Time>,
    tags: Option<seq<string>>,
    estimatedHours: Option<int>,
    attachments: seq<Id>,
    createdAt: Time,
    updatedAt: Time,
    completedAt: Option<Time>)

  /** The short form of a user in responses; the email is left null where
      the response mapping does not copy it. */
  datatype UserSummary = UserSummary(id: Id, username: string, email: Option<string>, fullName: Option<string>)

  /** A message handed to the mail sender. */
  datatype Mail =
    | AssignmentMail(to: string, assigneeName: Option<string>, taskTitle: Option<string>, projectName: Option<string>)
    | WelcomeMail(to: string, fullName: Option<string>)

  /** The enum constant name of a status, as String.valueOf prints it. */
  function StatusName(s: Status): string
  {
    match s
    case Todo => "TODO"
    case InProgress => "IN_PROGRESS"
    case InReview => "IN_REVIEW"
    case Completed => "COMPLETED"
  }

  /** The metadata of a status-change event: "OLD->NEW". */
  function TransitionText(from: Status, to: Status): string
  {
    StatusName(from) + ("->" + StatusName(to))
  }

  /** The position of the first '-' in a string. */
  function FirstDash(s: string): Option<nat>
  {
    if s == [] then None
    else if s[0] == '-' then Some(0)
    else match FirstDash(s[1..])
      case None => None
      case Some(i) => Some(i + 1)
  }

  /** A text without '-' followed by one that starts with '-': the first '-'
      sits right after the first part. */
  lemma {:induction false} FirstDashAfter(x: string, y: string)
    requires '-' !in x && |y| > 0 && y[0] == '-'
    ensures FirstDash(x + y) == Some(|x|)
  {
    if x == [] {
      assert x + y == y;
    } else {
      assert (x + y)[0] == x[0];
      assert (x + y)[1..] == x[1..] + y;
      FirstDashAfter(x[1..], y);
    }
  }

  /** Two texts that each split into a part without '-' and a part that
      starts with '-' split at the same place. */
  lemma SplitAtDash(x1: string, y1: string, x2: string, y2: string)
    requires '-' !in x1 && |y1| > 0 && y1[0] == '-'
    requires '-' !in x2 && |y2| > 0 && y2[0] == '-'
    requires x1 + y1 == x2 + y2
    ensures x1 == x2 && y1 == y2
  {
    FirstDashAfter(x1, y1);
    FirstDashAfter(x2, y2);
    assert x1 == (x1 + y1)[..|x1|];
    assert x2 == (x2 + y2)[..|x2|];
    assert y1 == (x1 + y1)[|x1|..];
    assert y2 == (x2 + y2)[|x2|..];
  }

  /** Status names never contain '-', and no two statuses share one. */
  lemma StatusNameFacts(a: Status, c: Status)
    ensures '-' !in StatusName(a)
    ensures StatusName(a) == StatusName(c) ==> a == c
  {
  }

  /** The metadata of a status-change event determines both statuses, so a
      consumer of the event stream can recover the transition. */
  lemma TransitionTextInjective(a: Status, b: Status, c: Status, d: Status)
    requires TransitionText(a, b) == TransitionText(c, d)
    ensures a == c && b == d
  {
    StatusNameFacts(a, c);
    StatusNameFacts(c, a);
    StatusNameFacts(b, d);
    SplitAtDash(StatusName(a), "->" + StatusName(b), StatusName(c), "->" + StatusName(d));
    assert StatusName(b) == ("->" + StatusName(b))[2..];
    assert StatusName(d) == ("->" + StatusName(d))[2..];
  }

  /** findById on the user collection: the first user with the id. */
  function FindUser(users: seq<User>, id: Id): (r: Option<User>)
    ensures r.Some? ==> r.value in users && r.value.id == id
    ensures r.None? <==> forall u :: u in users ==> u.id != id
  {
    if |users| == 0 then None
    else if users[0].id == id then Some(users[0])
    else FindUser(users[1..], id)
  }

  /** The position of the task with the given id in the task collection. */
  function TaskIndex(tasks: seq<Task>, id: Id): (r: Option<nat>)
    ensures r.Some? ==> r.value < |tasks| && tasks[r.value].id == Some(id)
    ensures r.None? <==> forall i :: 0 <= i < |tasks| ==> tasks[i].id != Some(id)
  {
    if |tasks| == 0 then None
    else if tasks[0].id == Some(id) then Some(0)
    else match TaskIndex(tasks[1..], id)
      case None => None
      case Some(k) => Some(k + 1)
  }

  /** Every stored task has an id, and no two share one. */
  ghost predicate WellKeyed(tasks: seq<Task>)
  {
    && (forall i :: 0 <= i < |tasks| ==> tasks[i].id.Some?)
    && (forall i, j :: 0 <= i < j < |tasks| ==> tasks[i].id != tasks[j].id)
  }

  /** In a well-keyed collection the index of an id is the only position
      holding it. */
  lemma TaskIndexUnique(tasks: seq<Task>, id: Id, k: nat)
    requires WellKeyed(tasks)
    requires k < |tasks| && tasks[k].id == Some(id)
    ensures TaskIndex(tasks, id) == Some(k)
  {
  }

  /** The collection after deleting the document at position i. */
  function RemoveAt(tasks: seq<Task>, i: nat): (r: seq<Task>)
    requires i < |tasks|
    ensures |r| == |tasks| - 1
    ensures forall k :: 0 <= k < i ==> r[k] == tasks[k]
    ensures forall k :: i <= k < |r| ==> r[k] == tasks[k + 1]
  {
    tasks[..i] + tasks[i + 1..]
  }

  /** Deleting a task keeps the collection well keyed, and its id is gone. */
  lemma RemoveAtKeepsKeys(tasks: seq<Task>, i: nat)
    requires WellKeyed(tasks) && i < |tasks|
    ensures WellKeyed(RemoveAt(tasks, i))
    ensures TaskIndex(RemoveAt(tasks, i), tasks[i].id.value).None?
  {
    var r := RemoveAt(tasks, i);
    forall a, b | 0 <= a < b < |r| ensures r[a].id != r[b].id {
      var a' := if a < i then a else a + 1;
      var b' := if b < i then b else b + 1;
      assert r[a] == tasks[a'] && r[b] == tasks[b'] && a' < b';
    }
    forall k | 0 <= k < |r| ensures r[k].id != tasks[i].id {
      if k < i { assert r[k] == tasks[k]; } else { assert r[k] == tasks[k + 1]; }
    }
  }

  /** Replacing a task by one with the same id keeps the collection well
      keyed. */
  lemma ReplaceKeepsKeys(tasks: seq<Task>, i: nat, t: Task)
    requires WellKeyed(tasks) && i < |tasks| && t.id == tasks[i].id
    ensures WellKeyed(tasks[i := t])
  {
  }

  /** Appending a task with a fresh id keeps the collection well keyed. */
  lemma AppendKeepsKeys(tasks: seq<Task>, t: Task)
    requires WellKeyed(tasks) && t.id.Some? && TaskIndex(tasks, t.id.value).None?
    ensures WellKeyed(tasks + [t])
  {
  }
}
