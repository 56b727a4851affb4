# Task management services — a Dafny model

This project models the service layer of a Spring task-management backend.
It covers five parts:

- **Task lifecycle** (`tasks.dfy`, module `Tasks`). Creating, fetching, updating and deleting tasks, with what each one does around the change:
  - the assignment mails handed to the mail sender;
  - the events published on the `task-events` topic;
  - the `tasks` response cache.
- **Task query builder** (`task_filter.dfy`, module `TaskFilter`):
  - the filter record and its defaults;
  - the criteria list built from the present filter fields, and a pure evaluator for it;
  - sorting, paging and the reported total.
- **Project ownership rules** (`projects.dfy`, module `Projects`).
- **Attachment bookkeeping** (`files.dfy`, module `Files`): uploading and deleting files, and deriving the stored file name's extension.
- **Registration and login** (`auth.dfy`, module `Auth`).

`domain.dfy` (module `Domain`) holds the shared documents, the failures, and lookups by id.

## How the model is built

- **Services are classes.** Each service is a class whose fields are the collections it reads or writes:
  - tasks and users are sequences in natural order;
  - projects and file documents are maps by id;
  - the event log, the mail log and the cache are fields as well.
- **Methods state their whole new state.** Each service method changes its fields in place and states the entire new state in `ensures`.
- **Pure specification functions.** Every method is stated against pure functions: `Query`, `Overwrite`, `EnterStatus`, `RemoveFirst`, `Extension`, `FindAllById`, `Authorities`. Lemmas prove what the source promises about those functions.
- **Effect trace.** `TaskService` keeps a ghost `trace`. It records mails, publishes, saves and deletes in one sequence, so the order across the logs can be stated.
- **Environment as parameters.** Whatever comes from outside the service is a parameter:
  - the clock reading (`now`);
  - the ids the store assigns (`newId`, `docId`), with a requirement that they are fresh;
  - the random file name (`uuid`);
  - disk failures (`diskError`);
  - the path join;
  - the password encoder, the token generator and the authentication verdict;
  - the sort key.
- **Failures are values.** An exception is an `Err`/`Fail` value of `Domain.Error`, and each `ensures` states what a failing call left unchanged.

## Behaviour as the code has it

- **Events precede the save.** `createTask` publishes TASK_ASSIGNED before the save. Its key is the id the new task does not have yet, so the event is keyed by nothing (`None`). `updateTask` publishes its events before the save too. So an unknown new assignee fails after TASK_STATUS_CHANGED has gone out, with nothing saved.
- **completedAt is never cleared.** A task that leaves COMPLETED keeps its completedAt; the code never clears it.
- **Non-owner rejection.** A non-owner's update or delete of a project raises `BadRequestException`, not a forbidden error.
- **Unknown task on upload.** `uploadFile` on an unknown task raises `BadRequestException("Task not found")`, not a not-found error.
- **Date ranges.** A date range filters only when both of its bounds are present.
- **Late failure in register.** An empty username passes both uniqueness checks. The user is saved and the welcome mail is handed to the asynchronous mail sender. Then building the user details refuses the empty name with an IllegalArgumentException. The saved user stays and the mail has gone out, yet the caller gets a failure.
- **Cache on failure.** The `tasks` cache is evicted only when a mutation returns normally. Spring's eviction runs after the method by default, so a failed update keeps the cache.

## Model

| member | source | states |
|---|---|---|
| Domain.TransitionTextInjective | src/main/java/com/taskmanagement/service/TaskService.java:199-200 | the "OLD->NEW" metadata of a status event determines both statuses |
| Domain.FindUser | src/main/java/com/taskmanagement/service/TaskService.java:79-80 | the user lookup returns a stored user with that id, and nothing exactly when no user has it |
| Domain.TaskIndex | src/main/java/com/taskmanagement/service/TaskService.java:180-181 | the task lookup finds a position holding that id, and nothing exactly when no task has it |
| Domain.RemoveAtKeepsKeys | src/main/java/com/taskmanagement/service/TaskService.java:230 | a hard delete keeps task ids unique and the deleted id is no longer found |
| TaskFilter.DefaultFilter | src/main/java/com/taskmanagement/dto/TaskFilterRequest.java:10-22 | a fresh filter has page 0, size 10, sort "createdAt" "DESC" and every criterion absent |
| TaskFilter.DefaultFilterMatchesAll | src/main/java/com/taskmanagement/dto/TaskFilterRequest.java:10-18 | a default filter yields no criteria and wants every task |
| TaskFilter.Criteria | src/main/java/com/taskmanagement/service/TaskService.java:118-153 | at most one criterion per filter field, and none exactly when no field is effectively present |
| TaskFilter.HoldsAllAppend | src/main/java/com/taskmanagement/service/TaskService.java:151-153 | the AND of a concatenated criteria list is the AND of its parts |
| TaskFilter.EqualitiesMeaning | src/main/java/com/taskmanagement/service/TaskService.java:120-134 | a task satisfies the project, assignee, status and priority criteria iff it equals each field that is present |
| TaskFilter.RangesAndSearchMeaning | src/main/java/com/taskmanagement/service/TaskService.java:136-149 | a task satisfies the date-range and search criteria iff each range with both bounds holds inclusively and a non-empty term occurs in the title or the description, ignoring case |
| TaskFilter.CriteriaMeaning | src/main/java/com/taskmanagement/service/TaskService.java:118-153 | a task satisfies the built criteria iff it meets the filter field by field: equalities, inclusive ranges only with both bounds, case-insensitive title-or-description match for a non-empty term |
| TaskFilter.AscendingSpellings | src/main/java/com/taskmanagement/service/TaskService.java:155-157 | the direction is ascending exactly for the twelve spellings equalsIgnoreCase matches with "ASC" (each letter in either case, and the long s U+017F for the S), descending otherwise |
| TaskFilter.InsertCorrect | src/main/java/com/taskmanagement/service/TaskService.java:159-166 | inserting one task into a sorted sequence adds exactly that task and keeps the order |
| TaskFilter.SortTasksCorrect | src/main/java/com/taskmanagement/service/TaskService.java:159-166 | the sorted matches are a permutation of the matches, ordered by the key in the chosen direction |
| TaskFilter.Select | src/main/java/com/taskmanagement/service/TaskService.java:166-167 | the selected tasks are exactly the stored tasks satisfying every criterion |
| TaskFilter.SelectCounts | src/main/java/com/taskmanagement/service/TaskService.java:166-167 | every task satisfying the criteria is selected as often as it is stored, and no other task is selected |
| TaskFilter.SelectAppend | src/main/java/com/taskmanagement/service/TaskService.java:166-167 | selection keeps the stored order: selecting from two concatenated parts concatenates the selections |
| TaskFilter.WindowLength | src/main/java/com/taskmanagement/service/TaskService.java:159-166 | a page window holds at most size items, stays inside the sequence, and is empty exactly when it starts past the end or the size is zero |
| TaskFilter.PageContent | src/main/java/com/taskmanagement/service/TaskService.java:159-166 | the page is the window of at most size items starting at page*size, so every item on it comes from the sequence |
| TaskFilter.PageTotalIsCount | src/main/java/com/taskmanagement/service/TaskService.java:167-172 | the total getPage reports equals the number of all matches, whether taken from the page or from the count |
| TaskFilter.PageOfSorted | src/main/java/com/taskmanagement/service/TaskService.java:159-166 | a page of a sorted sequence stays sorted |
| TaskFilter.PageOfMatches | src/main/java/com/taskmanagement/service/TaskService.java:155-172 | the sorted matches are as many as the matches; the page holds at most size tasks, all stored and wanted, in key order, and the total is the match count |
| TaskFilter.Query | src/main/java/com/taskmanagement/service/TaskService.java:116-175 | filterTasks fails exactly on a blank sort property, a negative page or a size below one; otherwise the content is exactly the window at page*size of the matches sorted by the key, with the exact window length, and the total is the full match count; it echoes page and size |
| TaskFilter.TotalPagesCover | src/main/java/com/taskmanagement/service/TaskService.java:169-174 | the reported page count covers the total with a non-empty last page, and is zero exactly for no matches |
| TaskFilter.TotalCountsWanted | src/main/java/com/taskmanagement/service/TaskService.java:167 | a task is counted iff it is stored and wanted by the filter |
| Tasks.MapToResponse | src/main/java/com/taskmanagement/service/TaskService.java:247-281 | the response copies the plain fields and project id/name, summarises creator and assignee without email, and never fills attachments |
| Tasks.ResponseHidesAttachmentsAndCompletion | src/main/java/com/taskmanagement/service/TaskService.java:247-281 | changing a task's attachments or completion time leaves its response unchanged |
| Tasks.Overwrite | src/main/java/com/taskmanagement/service/TaskService.java:183-189 | update overwrites title, description, priority, dueDate, tags and estimatedHours (nulls included), stamps updatedAt, and keeps id, project, creator, assignee, status, createdAt, completedAt and attachments |
| Tasks.EnterStatus | src/main/java/com/taskmanagement/service/TaskService.java:191-197 | a status change sets the status, stamps completedAt on entering COMPLETED and otherwise leaves it as it was |
| Tasks.CompletionIsNeverCleared | src/main/java/com/taskmanagement/service/TaskService.java:191-197 | once completed, a task keeps a completion time through any later sequence of status changes |
| Tasks.RequestedProject | src/main/java/com/taskmanagement/service/TaskService.java:64-65 | the project is found exactly when the request names a stored project id, and is that stored project |
| Tasks.NewAssignee | src/main/java/com/taskmanagement/service/TaskService.java:78-81 | createTask looks up an assignee only for a non-null id, and one found is a stored user with that id |
| Tasks.NewTask | src/main/java/com/taskmanagement/service/TaskService.java:67-76 | the new task copies the request's fields, defaults the status to TODO, has the actor as creator, no attachments and no completion time |
| Tasks.Stored | src/main/java/com/taskmanagement/service/TaskService.java:180-181 | the task an update loads is a stored task with the requested id |
| Tasks.Updated | src/main/java/com/taskmanagement/service/TaskService.java:183-216 | an update fails exactly when the assignee gate opens on an unknown user; otherwise it is the overwrite plus the status rule, completedAt stamped only on entering COMPLETED, and an assignee changed only through the gate |
| Tasks.UpdateMails | src/main/java/com/taskmanagement/service/TaskService.java:203-213 | an update sends one mail, to the new assignee, exactly when it reassigns |
| Tasks.UpdateEvents | src/main/java/com/taskmanagement/service/TaskService.java:191-216 | an update publishes the status event first when the status changes and TASK_REASSIGNED last when it reassigns, all keyed by the task id |
| Tasks.TaskService.PublishTaskEvent | src/main/java/com/taskmanagement/service/TaskService.java:236-245 | publishing always appends exactly one (type, key, metadata) event and never fails the caller |
| Tasks.TaskService.SendAssignmentMail | src/main/java/com/taskmanagement/service/TaskService.java:84-88 | one assignment mail to the assignee's email with their name, the task title and the project name |
| Tasks.TaskService.Assign | src/main/java/com/taskmanagement/service/TaskService.java:78-91 | an unknown assignee fails with nothing sent; a known one is set, mailed with the task title and project name, and announced by one event of the given kind keyed by the task's current id (also lines 203-215) |
| Tasks.TaskService.SaveCreated | src/main/java/com/taskmanagement/service/TaskService.java:94-98 | the new task is appended with its fresh id kept unique, then one TASK_CREATED keyed by that id with the actor as metadata; the cache is emptied |
| Tasks.TaskService.CreateTask | src/main/java/com/taskmanagement/service/TaskService.java:59-101 | a null project id fails with InvalidArgument, then an unknown project, then an unknown assignee, each with nothing changed; success appends one task with status defaulted to TODO and the actor as creator; order: mail, TASK_ASSIGNED (unkeyed), save, TASK_CREATED, or save then TASK_CREATED without assignee; cache evicted |
| Tasks.TaskService.GetTaskById | src/main/java/com/taskmanagement/service/TaskService.java:103-109 | a cached answer is returned as is, a miss projects and caches the stored task, a missing task is NotFound and nothing is cached; the answer always equals the current stored task's projection |
| Tasks.TaskService.FilterTasks | src/main/java/com/taskmanagement/service/TaskService.java:116-175 | the page is the query result, and each response is the projection of the page's task at the same position |
| Tasks.TaskService.ChangeStatus | src/main/java/com/taskmanagement/service/TaskService.java:191-201 | only a non-null, different status changes the task, with exactly one TASK_STATUS_CHANGED "old->new" event |
| Tasks.TaskService.ReviseFields | src/main/java/com/taskmanagement/service/TaskService.java:183-201 | the loaded task becomes the overwrite followed by the gated status change, with the status event and nothing else published |
| Tasks.TaskService.Revise | src/main/java/com/taskmanagement/service/TaskService.java:183-216 | the in-memory update equals Updated, and its mails, events and trace are exactly the update's mails, events and steps |
| Tasks.TaskService.SaveUpdated | src/main/java/com/taskmanagement/service/TaskService.java:218 | the updated task replaces the stored one at its position, ids stay unique, and the cache is emptied |
| Tasks.TaskService.UpdateTask | src/main/java/com/taskmanagement/service/TaskService.java:177-222 | unknown task fails with nothing changed; fields overwritten, gated status change, gated reassignment (mail then TASK_REASSIGNED) only for a non-null different assignee, a null never unassigns; an unknown assignee fails after the status event with nothing saved; otherwise saved and cache evicted |
| Tasks.TaskService.DeleteTask | src/main/java/com/taskmanagement/service/TaskService.java:224-234 | unknown id fails with store, events and cache unchanged; otherwise the task is removed, then one TASK_DELETED keyed by the id with no metadata, cache evicted |
| Projects.EmptyProjectRequest | src/main/java/com/taskmanagement/dto/ProjectRequest.java:11-22 | a new request has every field null except an empty member list |
| Projects.NewProjectRequest | src/main/java/com/taskmanagement/dto/ProjectRequest.java:24-31 | the all-arguments constructor turns a null member list into an empty one and copies the rest |
| Projects.MapToResponse | src/main/java/com/taskmanagement/service/ProjectService.java:129-156 | null members become an empty list, otherwise one summary (with email) per member in order; owner and task statistics are never set |
| Projects.ResponseHidesOwnerAndNullMembers | src/main/java/com/taskmanagement/service/ProjectService.java:129-150 | the response does not depend on the owner, and unset members look like an empty list |
| Projects.FindAllById | src/main/java/com/taskmanagement/service/ProjectService.java:104 | the users found are exactly the stored users whose id is listed, none for an empty list |
| Projects.CreatedMembers | src/main/java/com/taskmanagement/service/ProjectService.java:58-61 | create sets members only for a non-null, non-empty id list |
| Projects.UpdatedMembers | src/main/java/com/taskmanagement/service/ProjectService.java:103-106 | update replaces members for any non-null id list and keeps them for a null one |
| Projects.EmptyMemberListRule | src/main/java/com/taskmanagement/service/ProjectService.java:103-106 | an empty id list leaves members unset on create but clears them on update |
| Projects.ProjectService.CreateProject | src/main/java/com/taskmanagement/service/ProjectService.java:45-67 | one new project owned by the actor, with the request's fields and the create member rule; the response is its projection |
| Projects.ProjectService.UpdateProject | src/main/java/com/taskmanagement/service/ProjectService.java:86-112 | unknown id is NotFound before the owner check; a non-owner gets BadRequest with nothing changed; the owner's update overwrites name, description and dates, stamps updatedAt, applies the update member rule and keeps owner, archived and createdAt |
| Projects.ProjectService.DeleteProject | src/main/java/com/taskmanagement/service/ProjectService.java:114-127 | same checks in the same order; the owner's delete removes exactly that project and leaves the tasks unchanged |
| Files.LastIndexOf | src/main/java/com/taskmanagement/service/FileStorageService.java:63 | the position found holds the character and none after it does; nothing exactly when it is absent |
| Files.Extension | src/main/java/com/taskmanagement/service/FileStorageService.java:61-64 | empty for a null or dot-free name, otherwise a suffix of the name starting with '.' and containing no other '.' |
| Files.ExtensionUnique | src/main/java/com/taskmanagement/service/FileStorageService.java:62-64 | that suffix is the only one of its kind, so the extension is exactly the text from the last '.' |
| Files.StoredName | src/main/java/com/taskmanagement/service/FileStorageService.java:65 | the stored name is the random id followed by the extension |
| Files.RemoveFirst | src/main/java/com/taskmanagement/service/FileStorageService.java:119 | removal drops one occurrence of the id when present and nothing otherwise |
| Files.RemoveFirstCounts | src/main/java/com/taskmanagement/service/FileStorageService.java:119 | removal takes away one copy of the id and leaves every other id's count unchanged |
| Files.RemoveFirstAt | src/main/java/com/taskmanagement/service/FileStorageService.java:119 | the occurrence removed is the first, and the rest keeps its order |
| Files.RemoveFirstUndoesAppend | src/main/java/com/taskmanagement/service/FileStorageService.java:116-121 | deleting an uploaded document restores the attachment list it was appended to |
| Files.FileStorageService.UploadFile | src/main/java/com/taskmanagement/service/FileStorageService.java:42-95 | checks in order: empty file, unknown task, disk failure, each with nothing changed; success stores the document under the random name plus extension and appends its id to the end of the task's attachments |
| Files.FileStorageService.DeleteFile | src/main/java/com/taskmanagement/service/FileStorageService.java:106-132 | unknown document, then disk failure, change nothing; success removes the id's first occurrence from its task's attachments when the task exists, and deletes the document |
| Auth.Authority | src/main/java/com/taskmanagement/service/AuthService.java:76 | an authority is "ROLE_" followed by the role name |
| Auth.Authorities | src/main/java/com/taskmanagement/service/AuthService.java:75-77 | every role gives its authority and every authority comes from a role |
| Auth.AuthoritiesCount | src/main/java/com/taskmanagement/service/AuthService.java:75-77 | the role-to-authority mapping is one to one |
| Auth.FindByUsername | src/main/java/com/taskmanagement/service/AuthService.java:101-103 | the lookup returns a stored user with that username, and nothing exactly when none exists |
| Auth.FindByUsernameUnique | src/main/java/com/taskmanagement/service/AuthService.java:101-103 | with unique usernames the lookup finds the one user holding it |
| Auth.AppendKeepsDistinct | src/main/java/com/taskmanagement/service/AuthService.java:50-65 | adding a user with new id, username and email keeps all three unique |
| Auth.AuthService.Register | src/main/java/com/taskmanagement/service/AuthService.java:46-87 | taken username is reported before taken email, with nothing saved or mailed; once both checks pass, exactly one user is added with the encoded password and findable by username, and a welcome mail is sent; an empty username then fails with InvalidArgument; otherwise the call answers with a Bearer token for its authorities, username, email and roles |
| Auth.AuthService.Login | src/main/java/com/taskmanagement/service/AuthService.java:89-108 | rejected credentials fail; after authentication an unknown username is NotFound; otherwise the answer carries the stored user's email and roles |

## Left out

- Controllers, the Kafka transport, the mail sender's internals, analytics, rate limiting and the external API client: they only forward, transport or aggregate. A publish is an append to the event log; a mail is an append to the mail log.
- The JSON text of an event and its timestamp: an event is the triple (type, key, metadata).
- Clock readings: `updateTask` reads the clock twice, once for updatedAt and once for completedAt; the model uses one reading `now` for both.
- The services' stores: each service has its own copy of the collections it touches, so the model does not state how, for example, an upload's attachment change is seen by the task service. Such a change does not make a cached task response stale, because the response hides attachments (`Tasks.ResponseHidesAttachmentsAndCompletion`).
- Tasks.TaskService.GetTaskById: the model's task holds its project as a value, frozen when the task was created. So the model does not show two staleness effects of the source. First, updateProject renames a project but evicts only the `projects` cache, so a cached task response keeps the old project name. Second, deleteProject leaves tasks that reference the deleted project.
- References between documents are held as the documents they resolve to (task → project, creator, assignee). A file document's task reference is an id, resolved against the current task collection; a dangling reference counts as no task.
- getProjectById, getAllProjects, getAllTasks, getFileById and getFilesByTask are not part of this model. With them goes the `projects` cache, whose only reader is getProjectById. The task counts read in the project response mapping are discarded by the source and are not modelled.
- The Task, Project and User model classes are not part of this model. Five things about them are therefore assumed:
  - the status members TODO, IN_PROGRESS, IN_REVIEW and COMPLETED, and the priority members LOW to URGENT;
  - that a new task or project has createdAt and updatedAt set to the creation time;
  - that a new project is not archived and starts with its members unset;
  - that a new task starts with an empty, non-null attachment list (the upload appends to it);
  - that a new user starts with the role set passed as `defaultRoles`.
- TaskFilter.Query: the searchTerm is a case-insensitive regular expression in the source. The model reads it as a case-insensitive substring with ASCII case folding, which agrees only for terms without regular-expression metacharacters.
- TaskFilter.Query: sorting by a named field is abstracted to an integer key function. Among tasks with equal keys, the model's insertion sort fixes one order; the store's order for ties is not modelled.
- TaskFilter.EqualsIgnoreCase: case folding covers the ASCII letters and the long s (U+017F, whose upper case is S) only. For the one comparison the source makes, with "ASC", no other character matters.
- TaskFilter.PagingError: Spring's blank-text test is modelled with the characters space, tab, newline and carriage return only.
- TaskFilter.TaskFilterRequest: a null sortBy or sortDirection is not modelled; both are plain strings.
- Files.FileStorageService.UploadFile: the upload directory, the file contents and the disk are not modelled. A disk failure is the given message. The path join is the given `resolve` function.
- Auth.AuthService.Login: the token is a given function of the username. The principal the authentication manager returns is not modelled.
- Request validation annotations are not part of this model. A task request's project id may be null and is an optional value; so are the request string fields the services test for null. The registration fields are plain strings.
- Transactions and the concurrency of the stores and the cache are not modelled; each operation runs alone. The one call that fails after a save is register with an empty username. The model keeps that save: the store is MongoDB, and `@Transactional` rolls it back only when a MongoDB transaction manager is configured, and none is part of this model.
