/** Projects and their ownership rules: only the owner may update or delete a
    project, existence is checked before ownership, and the member list
    follows different rules on create and on update. */
module Projects {
  import opened Domain

  /** The request body of create and update. */
  datatype ProjectRequest = ProjectRequest(
    name: Option<string>,
    description: Option<string>,
    memberIds: Option<seq<Id>>,
    startDate: Option<Time>,
    endDate: Option<Time>)

  /** The no-argument constructor: every field null except the member list,
      which starts empty. */
  function EmptyProjectRequest(): (r: ProjectRequest)
    ensures r.memberIds == Some([])
    ensures r.name.None? && r.description.None? && r.startDate.None? && r.endDate.None?
  {
    ProjectRequest(None, None, Some([]), None, None)
  }

  /** The all-arguments constructor: a null member list becomes an empty one,
      so a request built this way always carries a member list. */
  function NewProjectRequest(name: Option<string>, description: Option<string>, memberIds: Option<seq<Id>>,
                             startDate: Option<Time>, endDate: Option<Time>): (r: ProjectRequest)
    ensures r.memberIds.Some?
    ensures memberIds.Some? ==> r.memberIds == memberIds
    ensures memberIds.None? ==> r.memberIds == Some([])
    ensures r.name == name && r.description == description
    ensures r.startDate == startDate && r.endDate == endDate
  {
    ProjectRequest(name, description, if memberIds.Some? then memberIds else Some([]), startDate, endDate)
  }

  /** The response body; `owner` and `taskStatistics` exist in the shape but
      are never filled. */
  datatype ProjectResponse = ProjectResponse(
    id: Id,
    name: Option<string>,
    description: Option<string>,
    owner: Option<UserSummary>,
    members: seq<UserSummary>,
    archived: bool,
    startDate: Option<Time>,
    endDate: Option<Time>,
    createdAt: Time,
    updatedAt: Time,
    taskStatistics: Option<map<string, int>>)

  /** A member as the project response shows it, email included. */
  function MemberSummary(u: User): (s: UserSummary)
    ensures s.id == u.id && s.username == u.username
    ensures s.email == Some(u.email) && s.fullName == u.fullName
  {
    UserSummary(u.id, u.username, Some(u.email), u.fullName)
  }

  /** The projection of a project document to its response. */
  function MapToResponse(p: Project): (r: ProjectResponse)
    ensures r.id == p.id && r.name == p.name && r.description == p.description
    ensures r.archived == p.archived && r.startDate == p.startDate && r.endDate == p.endDate
    ensures r.createdAt == p.createdAt && r.updatedAt == p.updatedAt
    // Null members show as an empty list; otherwise one summary per member,
    // in the same order.
    ensures p.members.None? ==> r.members == []
    ensures p.members.Some? ==> |r.members| == |p.members.value|
    ensures p.members.Some? ==>
      forall k :: 0 <= k < |r.members| ==> r.members[k] == MemberSummary(p.members.value[k])
    ensures r.owner.None? && r.taskStatistics.None?
  {
    ProjectResponse(
      p.id, p.name, p.description, None,
      if p.members.Some? then seq(|p.members.value|, k requires 0 <= k < |p.members.value| => MemberSummary(p.members.value[k]))
      else [],
      p.archived, p.startDate, p.endDate, p.createdAt, p.updatedAt, None)
  }

  /** The response never reveals the owner, and an unset member list looks
      the same as an empty one. */
  lemma ResponseHidesOwnerAndNullMembers(p: Project, owner: User)
    requires p.members.None?
    ensures MapToResponse(p.(owner := owner)) == MapToResponse(p.(members := Some([])))
  {
  }

  /** findAllById on the user collection: the users whose id is listed, in
      collection order; unknown ids are skipped and repeated ids add
      nothing. */
  function FindAllById(users: seq<User>, ids: seq<Id>): (r: seq<User>)
    ensures |r| <= |users|
    ensures forall u :: u in r <==> u in users && u.id in ids
    ensures ids == [] ==> r == []
  {
    if users == [] then []
    else (if users[0].id in ids then [users[0]] else []) + FindAllById(users[1..], ids)
  }

  /** The member list of a new project: looked up only for a non-null,
      non-empty id list; otherwise left unset. */
  function CreatedMembers(users: seq<User>, memberIds: Option<seq<Id>>): (m: Option<seq<User>>)
    ensures m.Some? <==> memberIds.Some? && memberIds.value != []
    ensures m.Some? ==> m.value == FindAllById(users, memberIds.value)
  {
    if memberIds.Some? && memberIds.value != [] then Some(FindAllById(users, memberIds.value)) else None
  }

  /** The member list after an update: any non-null id list replaces it,
      an empty one included; a null list keeps it. */
  function UpdatedMembers(current: Option<seq<User>>, users: seq<User>, memberIds: Option<seq<Id>>): (m: Option<seq<User>>)
    ensures memberIds.None? ==> m == current
    ensures memberIds.Some? ==> m == Some(FindAllById(users, memberIds.value))
  {
    if memberIds.Some? then Some(FindAllById(users, memberIds.value)) else current
  }

  /** An empty id list clears the members on update but leaves them unset on
      create, so the two operations disagree on the same request. */
  lemma EmptyMemberListRule(current: Option<seq<User>>, users: seq<User>)
    ensures CreatedMembers(users, Some([])).None?
    ensures UpdatedMembers(current, users, Some([])) == Some([])
  {
  }

  /** Every stored project sits under its own id. */
  ghost predicate Keyed(projects: map<Id, Project>)
  {
    forall id :: id in projects ==> projects[id].id == id
  }

  class ProjectService {
    /** The project collection, by id. */
    var projects: map<Id, Project>
    /** The user collection, which this service only reads. */
    var users: seq<User>
    /** The task collection, which this service never changes. */
    var tasks: seq<Task>

    ghost predicate Valid()
      reads this
    {
      Keyed(projects)
    }

    constructor (users: seq<User>, tasks: seq<Task>)
      ensures Valid()
      ensures projects == map[] && this.users == users && this.tasks == tasks
    {
      this.projects := map[];
      this.users := users;
      this.tasks := tasks;
    }

    /** createProject by `actor`; `newId` is the id the store gives the new
        document and `now` the clock reading. */
    method CreateProject(req: ProjectRequest, actor: User, newId: Id, now: Time) returns (r: ProjectResponse)
      requires Valid()
      requires newId !in projects
      modifies this`projects
      ensures Valid()
      ensures newId in projects && projects == old(projects)[newId := projects[newId]]
      ensures
        var p := projects[newId];
        && p.owner == actor
        && p.name == req.name && p.description == req.description
        && p.startDate == req.startDate && p.endDate == req.endDate
        && p.members == CreatedMembers(users, req.memberIds)
        && !p.archived && p.createdAt == now && p.updatedAt == now
        && r == MapToResponse(p)
    {
      var project := Project(newId, req.name, req.description, actor, None, false,
                             req.startDate, req.endDate, now, now);
      if req.memberIds.Some? && req.memberIds.value != [] {
        var members := FindAllById(users, req.memberIds.value);
        project := project.(members := Some(members));
      }
      projects := projects[newId := project];
      r := MapToResponse(project);
    }

    /** updateProject by `actor` at clock reading `now`. */
    method UpdateProject(id: Id, req: ProjectRequest, actor: User, now: Time) returns (r: Result<ProjectResponse>)
      requires Valid()
      modifies this`projects
      ensures Valid()
      // Existence is checked first, then ownership; a rejection changes
      // nothing.
      ensures id !in old(projects) ==>
        r == Err(NotFound("Project", "id", id)) && projects == old(projects)
      ensures id in old(projects) && old(projects)[id].owner.id != actor.id ==>
        r == Err(BadRequest("Only project owner can update the project")) && projects == old(projects)
      ensures r.Ok? <==> id in old(projects) && old(projects)[id].owner.id == actor.id
      // The owner's update: the plain fields are overwritten, nulls
      // included, the members follow the update rule, and the owner,
      // archive flag and creation time stay.
      ensures r.Ok? ==> id in projects
      ensures r.Ok? ==>
        var p := old(projects)[id];
        var q := projects[id];
        && projects == old(projects)[id := q]
        && q.name == req.name && q.description == req.description
        && q.startDate == req.startDate && q.endDate == req.endDate
        && q.updatedAt == now
        && q.members == UpdatedMembers(p.members, users, req.memberIds)
        && q.id == p.id && q.owner == p.owner && q.archived == p.archived && q.createdAt == p.createdAt
        && r.value == MapToResponse(q)
    {
      if id !in projects {
        return Err(NotFound("Project", "id", id));
      }
      var project := projects[id];
      if project.owner.id != actor.id {
        return Err(BadRequest("Only project owner can update the project"));
      }
      project := project.(name := req.name);
      project := project.(description := req.description);
      project := project.(startDate := req.startDate);
      project := project.(endDate := req.endDate);
      project := project.(updatedAt := now);
      if req.memberIds.Some? {
        var members := FindAllById(users, req.memberIds.value);
        project := project.(members := Some(members));
      }
      projects := projects[id := project];
      r := Ok(MapToResponse(project));
    }

    /** deleteProject by `actor`: a hard delete that leaves the project's
        tasks in place. */
    method DeleteProject(id: Id, actor: User) returns (r: Outcome)
      requires Valid()
      modifies this`projects
      ensures Valid()
      ensures id !in old(projects) ==>
        r == Fail(NotFound("Project", "id", id)) && projects == old(projects)
      ensures id in old(projects) && old(projects)[id].owner.id != actor.id ==>
        r == Fail(BadRequest("Only project owner can delete the project")) && projects == old(projects)
      ensures r.Pass? <==> id in old(projects) && old(projects)[id].owner.id == actor.id
      ensures r.Pass? ==> projects == old(projects) - {id} && id !in projects
      ensures tasks == old(tasks)
    {
      if id !in projects {
        return Fail(NotFound("Project", "id", id));
      }
      var project := projects[id];
      if project.owner.id != actor.id {
        return Fail(BadRequest("Only project owner can delete the project"));
      }
      projects := projects - {id};
      r := Pass;
    }
  }
}
