/** The task query builder: a filter record of optional criteria becomes a
    conjunction of typed criteria; the store selects the matching tasks,
    orders them by the sort key, cuts out one page and reports the number of
    all matches. */
module TaskFilter {
  import opened Domain

  /** The filter record with its field initialisers. */
  datatype TaskFilterRequest = TaskFilterRequest(
    projectId: Option<Id>,
    assigneeId: Option<Id>,
    status: Option<Status>,
    priority: Option<Priority>,
    dueDateFrom: Option<Time>,
    dueDateTo: Option<Time>,
    createdFrom: Option<Time>,
    createdTo: Option<Time>,
    searchTerm: Option<string>,
    page: int,
    size: int,
    sortBy: string,
    sortDirection: string)

  /** A freshly constructed filter: no criterion, first page of ten, newest
      first by creation time. */
  function DefaultFilter(): (f: TaskFilterRequest)
    ensures f.page == 0 && f.size == 10
    ensures f.sortBy == "createdAt" && f.sortDirection == "DESC"
    ensures f.projectId.None? && f.assigneeId.None? && f.status.None? && f.priority.None?
    ensures f.dueDateFrom.None? && f.dueDateTo.None? && f.createdFrom.None? && f.createdTo.None?
    ensures f.searchTerm.None?
  {
    TaskFilterRequest(None, None, None, None, None, None, None, None, None, 0, 10, "createdAt", "DESC")
  }

  datatype TimeField = DueDate | CreatedAt
  datatype TextField = Title | Description

  /** One query criterion on a task document. */
  datatype Criterion =
    | ProjectIs(projectId: Id)
    | AssigneeIs(assigneeId: Id)
    | StatusIs(status: Status)
    | PriorityIs(priority: Priority)
    | Between(field: TimeField, from: Time, to: Time)     // inclusive on both ends
    | Mentions(text: TextField, term: string)            // case-insensitive match
    | Either(left: Criterion, right: Criterion)

  /** ASCII case folding to lower case. */
  function Lower(c: char): char
  {
    if 'A' <= c <= 'Z' then (c as int + 32) as char else c
  }

  /** Character.toUpperCase on the ASCII letters and on the long s, which
      upper-cases to 'S'; every other character is left as it is. */
  function Upper(c: char): char
  {
    if 'a' <= c <= 'z' then (c as int - 32) as char
    else if c == '\U{017F}' then 'S'
    else c
  }

  /** String.equalsIgnoreCase, folding the characters Upper folds. */
  predicate EqualsIgnoreCase(a: string, b: string)
  {
    |a| == |b| && forall k :: 0 <= k < |a| ==> Upper(a[k]) == Upper(b[k])
  }

  /** Whether `term` occurs in `text` at position `at`, ignoring case. */
  predicate OccursAt(text: string, term: string, at: int)
  {
    0 <= at && at + |term| <= |text| &&
    forall k :: 0 <= k < |term| ==> Lower(text[at + k]) == Lower(term[k])
  }

  /** A case-insensitive match of `term` in a field; a null field matches
      nothing. */
  predicate ContainsIgnoreCase(text: Option<string>, term: string)
  {
    text.Some? && exists at | 0 <= at <= |text.value| - |term| :: OccursAt(text.value, term, at)
  }

  function TimeOf(t: Task, field: TimeField): Option<Time>
  {
    match field
    case DueDate => t.dueDate
    case CreatedAt => Some(t.createdAt)
  }

  function TextOf(t: Task, field: TextField): Option<string>
  {
    match field
    case Title => t.title
    case Description => t.description
  }

  /** Whether a task satisfies one criterion. */
  predicate Holds(c: Criterion, t: Task)
  {
    match c
    case ProjectIs(p) => t.project.id == p
    case AssigneeIs(a) => t.assignee.Some? && t.assignee.value.id == a
    case StatusIs(s) => t.status == s
    case PriorityIs(p) => t.priority == Some(p)
    case Between(field, from, to) =>
      TimeOf(t, field).Some? && from <= TimeOf(t, field).value <= to
    case Mentions(field, term) => ContainsIgnoreCase(TextOf(t, field), term)
    case Either(l, r) => Holds(l, t) || Holds(r, t)
  }

  /** The AND of a list of criteria; the empty list matches every task. */
  predicate HoldsAll(cs: seq<Criterion>, t: Task)
  {
    if cs == [] then true else Holds(cs[0], t) && HoldsAll(cs[1..], t)
  }

  /** HoldsAll is the conjunction of its members. */
  lemma {:induction false} HoldsAllEach(cs: seq<Criterion>, t: Task)
    ensures HoldsAll(cs, t) <==> forall k :: 0 <= k < |cs| ==> Holds(cs[k], t)
  {
    if cs != [] {
      HoldsAllEach(cs[1..], t);
      assert forall k :: 1 <= k < |cs| ==> cs[k] == cs[1..][k - 1];
    }
  }

  /** The AND over two concatenated lists is the AND of the two. */
  lemma HoldsAllAppend(a: seq<Criterion>, b: seq<Criterion>, t: Task)
    ensures HoldsAll(a + b, t) <==> HoldsAll(a, t) && HoldsAll(b, t)
  {
    HoldsAllEach(a + b, t);
    HoldsAllEach(a, t);
    HoldsAllEach(b, t);
    assert forall k :: 0 <= k < |a| ==> (a + b)[k] == a[k];
    assert forall k :: 0 <= k < |b| ==> (a + b)[|a| + k] == b[k];
  }

  /** Equality on the project reference, when a project id is given. */
  function ProjectCriterion(projectId: Option<Id>): seq<Criterion>
  {
    if projectId.Some? then [ProjectIs(projectId.value)] else []
  }

  function AssigneeCriterion(assigneeId: Option<Id>): seq<Criterion>
  {
    if assigneeId.Some? then [AssigneeIs(assigneeId.value)] else []
  }

  function StatusCriterion(status: Option<Status>): seq<Criterion>
  {
    if status.Some? then [StatusIs(status.value)] else []
  }

  function PriorityCriterion(priority: Option<Priority>): seq<Criterion>
  {
    if priority.Some? then [PriorityIs(priority.value)] else []
  }

  /** The date range applies only when both of its bounds are given. */
  function RangeCriterion(field: TimeField, from: Option<Time>, to: Option<Time>): seq<Criterion>
  {
    if from.Some? && to.Some? then [Between(field, from.value, to.value)] else []
  }

  /** The title-or-description match, for a non-null, non-empty term. */
  function SearchCriterion(term: Option<string>): seq<Criterion>
  {
    if term.Some? && term.value != ""
    then [Either(Mentions(Title, term.value), Mentions(Description, term.value))]
    else []
  }

  /** The non-null, non-empty search term, if there is one. */
  predicate Searches(f: TaskFilterRequest)
  {
    f.searchTerm.Some? && f.searchTerm.value != ""
  }

  /** The criteria list built from a filter, one entry per present field, in
      the order projectId, assigneeId, status, priority, due-date range,
      created-at range, search term. */
  function Criteria(f: TaskFilterRequest): (cs: seq<Criterion>)
    ensures |cs| <= 7
    ensures cs == [] <==>
      && f.projectId.None? && f.assigneeId.None? && f.status.None? && f.priority.None?
      && (f.dueDateFrom.None? || f.dueDateTo.None?)
      && (f.createdFrom.None? || f.createdTo.None?)
      && !Searches(f)
  {
    (ProjectCriterion(f.projectId)
     + AssigneeCriterion(f.assigneeId)
     + StatusCriterion(f.status)
     + PriorityCriterion(f.priority))
    + (RangeCriterion(DueDate, f.dueDateFrom, f.dueDateTo)
       + RangeCriterion(CreatedAt, f.createdFrom, f.createdTo)
       + SearchCriterion(f.searchTerm))
  }

  /** The tasks a filter asks for, stated field by field, independently of
      the criteria list. */
  predicate Wanted(f: TaskFilterRequest, t: Task)
  {
    && (f.projectId.Some? ==> t.project.id == f.projectId.value)
    && (f.assigneeId.Some? ==> t.assignee.Some? && t.assignee.value.id == f.assigneeId.value)
    && (f.status.Some? ==> t.status == f.status.value)
    && (f.priority.Some? ==> t.priority == f.priority)
    && (f.dueDateFrom.Some? && f.dueDateTo.Some? ==>
          t.dueDate.Some? && f.dueDateFrom.value <= t.dueDate.value <= f.dueDateTo.value)
    && (f.createdFrom.Some? && f.createdTo.Some? ==>
          f.createdFrom.value <= t.createdAt <= f.createdTo.value)
    && (Searches(f) ==>
          ContainsIgnoreCase(t.title, f.searchTerm.value) ||
          ContainsIgnoreCase(t.description, f.searchTerm.value))
  }

  /** The AND over a list of at most one criterion. */
  lemma HoldsAllAtMostOne(cs: seq<Criterion>, t: Task)
    requires |cs| <= 1
    ensures HoldsAll(cs, t) <==> cs == [] || Holds(cs[0], t)
  {
    if cs != [] {
      assert cs[1..] == [];
    }
  }

  /** The equality criteria select exactly the tasks with the given project,
      assignee, status and priority. */
  lemma EqualitiesMeaning(f: TaskFilterRequest, t: Task)
    ensures HoldsAll(ProjectCriterion(f.projectId) + AssigneeCriterion(f.assigneeId)
                     + StatusCriterion(f.status) + PriorityCriterion(f.priority), t)
      <==> && (f.projectId.Some? ==> t.project.id == f.projectId.value)
           && (f.assigneeId.Some? ==> t.assignee.Some? && t.assignee.value.id == f.assigneeId.value)
           && (f.status.Some? ==> t.status == f.status.value)
           && (f.priority.Some? ==> t.priority == f.priority)
  {
    var p := ProjectCriterion(f.projectId);
    var a := AssigneeCriterion(f.assigneeId);
    var s := StatusCriterion(f.status);
    var q := PriorityCriterion(f.priority);
    HoldsAllAppend(p + a + s, q, t);
    HoldsAllAppend(p + a, s, t);
    HoldsAllAppend(p, a, t);
    HoldsAllAtMostOne(p, t);
    HoldsAllAtMostOne(a, t);
    HoldsAllAtMostOne(s, t);
    HoldsAllAtMostOne(q, t);
  }

  /** The range and search criteria select exactly the tasks inside both
      fully bounded ranges that mention a non-empty term. */
  lemma RangesAndSearchMeaning(f: TaskFilterRequest, t: Task)
    ensures HoldsAll(RangeCriterion(DueDate, f.dueDateFrom, f.dueDateTo)
                     + RangeCriterion(CreatedAt, f.createdFrom, f.createdTo)
                     + SearchCriterion(f.searchTerm), t)
      <==> && (f.dueDateFrom.Some? && f.dueDateTo.Some? ==>
                 t.dueDate.Some? && f.dueDateFrom.value <= t.dueDate.value <= f.dueDateTo.value)
           && (f.createdFrom.Some? && f.createdTo.Some? ==>
                 f.createdFrom.value <= t.createdAt <= f.createdTo.value)
           && (Searches(f) ==>
                 ContainsIgnoreCase(t.title, f.searchTerm.value) ||
                 ContainsIgnoreCase(t.description, f.searchTerm.value))
  {
    var d := RangeCriterion(DueDate, f.dueDateFrom, f.dueDateTo);
    var c := RangeCriterion(CreatedAt, f.createdFrom, f.createdTo);
    var x := SearchCriterion(f.searchTerm);
    HoldsAllAppend(d + c, x, t);
    HoldsAllAppend(d, c, t);
    HoldsAllAtMostOne(d, t);
    HoldsAllAtMostOne(c, t);
    HoldsAllAtMostOne(x, t);
  }

  /** The criteria list selects exactly the tasks the filter asks for. */
  lemma CriteriaMeaning(f: TaskFilterRequest, t: Task)
    ensures HoldsAll(Criteria(f), t) <==> Wanted(f, t)
  {
    var e := ProjectCriterion(f.projectId) + AssigneeCriterion(f.assigneeId)
             + StatusCriterion(f.status) + PriorityCriterion(f.priority);
    var r := RangeCriterion(DueDate, f.dueDateFrom, f.dueDateTo)
             + RangeCriterion(CreatedAt, f.createdFrom, f.createdTo)
             + SearchCriterion(f.searchTerm);
    assert Criteria(f) == e + r;
    HoldsAllAppend(e, r, t);
    EqualitiesMeaning(f, t);
    RangesAndSearchMeaning(f, t);
  }

  /** A default filter has no criteria and so matches every task. */
  lemma DefaultFilterMatchesAll(t: Task)
    ensures Criteria(DefaultFilter()) == [] && Wanted(DefaultFilter(), t)
  {
  }

  /** "ASC" in any letter case sorts ascending; everything else descending. */
  predicate IsAscending(sortDirection: string)
  {
    EqualsIgnoreCase(sortDirection, "ASC")
  }

  /** IsAscending accepts exactly the twelve spellings of "asc": each letter
      in either case, and the long s for the 's'. */
  lemma AscendingSpellings(d: string)
    ensures IsAscending(d) <==> d in {
      "ASC", "ASc", "AsC", "Asc", "aSC", "aSc", "asC", "asc",
      "A\U{017F}C", "A\U{017F}c", "a\U{017F}C", "a\U{017F}c"}
  {
    if IsAscending(d) {
      assert Upper(d[0]) == 'A' && Upper(d[1]) == 'S' && Upper(d[2]) == 'C';
      assert d[0] in {'A', 'a'} && d[1] in {'S', 's', '\U{017F}'} && d[2] in {'C', 'c'};
      assert d == [d[0], d[1], d[2]];
    }
  }

  /** Whether key value a may come before key value b in the chosen direction. */
  predicate InOrder(a: int, b: int, ascending: bool)
  {
    if ascending then a <= b else a >= b
  }

  /** A sequence ordered by the key in the chosen direction. */
  ghost predicate SortedBy(s: seq<Task>, key: Task -> int, ascending: bool)
  {
    forall i, j :: 0 <= i < j < |s| ==> InOrder(key(s[i]), key(s[j]), ascending)
  }

  function Insert(t: Task, s: seq<Task>, key: Task -> int, ascending: bool): seq<Task>
  {
    if s == [] || InOrder(key(t), key(s[0]), ascending) then [t] + s
    else [s[0]] + Insert(t, s[1..], key, ascending)
  }

  /** The store's ordering of the matches by the sort key. */
  function SortTasks(s: seq<Task>, key: Task -> int, ascending: bool): seq<Task>
  {
    if s == [] then [] else Insert(s[0], SortTasks(s[1..], key, ascending), key, ascending)
  }

  lemma {:induction false} InsertCorrect(t: Task, s: seq<Task>, key: Task -> int, ascending: bool)
    requires SortedBy(s, key, ascending)
    ensures multiset(Insert(t, s, key, ascending)) == multiset(s) + multiset{t}
    ensures SortedBy(Insert(t, s, key, ascending), key, ascending)
  {
    InsertCounts(t, s, key, ascending);
    InsertSorted(t, s, key, ascending);
  }

  /** Insertion adds the one task and keeps the rest. */
  lemma {:induction false} InsertCounts(t: Task, s: seq<Task>, key: Task -> int, ascending: bool)
    ensures multiset(Insert(t, s, key, ascending)) == multiset(s) + multiset{t}
  {
    if s != [] && !InOrder(key(t), key(s[0]), ascending) {
      InsertCounts(t, s[1..], key, ascending);
      assert s == [s[0]] + s[1..];
    }
  }

  /** Insertion into a sorted sequence keeps it sorted. */
  lemma {:induction false} InsertSorted(t: Task, s: seq<Task>, key: Task -> int, ascending: bool)
    requires SortedBy(s, key, ascending)
    ensures SortedBy(Insert(t, s, key, ascending), key, ascending)
  {
    if s != [] && !InOrder(key(t), key(s[0]), ascending) {
      var rest := Insert(t, s[1..], key, ascending);
      InsertSorted(t, s[1..], key, ascending);
      InsertCounts(t, s[1..], key, ascending);
      var r := [s[0]] + rest;
      assert Insert(t, s, key, ascending) == r;
      forall j | 0 < j < |r| ensures InOrder(key(s[0]), key(r[j]), ascending) {
        assert r[j] == rest[j - 1];
        assert rest[j - 1] in multiset(rest);
        if r[j] != t {
          assert r[j] in multiset(s[1..]);
          var k :| 0 <= k < |s[1..]| && s[1..][k] == r[j];
          assert s[k + 1] == r[j];
        }
      }
    }
  }

  /** SortTasks orders by the key and keeps exactly the given tasks. */
  lemma {:induction false} SortTasksCorrect(s: seq<Task>, key: Task -> int, ascending: bool)
    ensures multiset(SortTasks(s, key, ascending)) == multiset(s)
    ensures SortedBy(SortTasks(s, key, ascending), key, ascending)
  {
    if s != [] {
      SortTasksCorrect(s[1..], key, ascending);
      InsertCorrect(s[0], SortTasks(s[1..], key, ascending), key, ascending);
      assert s == [s[0]] + s[1..];
    }
  }

  /** The tasks that satisfy every criterion, in collection order. */
  function Select(tasks: seq<Task>, cs: seq<Criterion>): (r: seq<Task>)
    ensures |r| <= |tasks|
    ensures forall t :: t in r ==> t in tasks && HoldsAll(cs, t)
    ensures forall t :: t in tasks && HoldsAll(cs, t) ==> t in r
  {
    if tasks == [] then []
    else (if HoldsAll(cs, tasks[0]) then [tasks[0]] else []) + Select(tasks[1..], cs)
  }

  /** Selection keeps every satisfying task as often as it is stored, and
      drops every other. */
  lemma {:induction false} SelectCounts(tasks: seq<Task>, cs: seq<Criterion>)
    ensures forall t :: multiset(Select(tasks, cs))[t] == if HoldsAll(cs, t) then multiset(tasks)[t] else 0
  {
    if tasks != [] {
      SelectCounts(tasks[1..], cs);
      assert tasks == [tasks[0]] + tasks[1..];
    }
  }

  /** Selection keeps the stored order: selecting from two runs of tasks
      gives the selection from the first run, then the one from the
      second. */
  lemma {:induction false} SelectAppend(a: seq<Task>, b: seq<Task>, cs: seq<Criterion>)
    ensures Select(a + b, cs) == Select(a, cs) + Select(b, cs)
  {
    if a == [] {
      assert a + b == b;
    } else {
      assert (a + b)[0] == a[0];
      assert (a + b)[1..] == a[1..] + b;
      SelectAppend(a[1..], b, cs);
    }
  }

  /** The number of items from position `offset` on, capped at `size`. */
  function WindowLength(n: nat, offset: nat, size: nat): (l: nat)
    ensures l <= size
    ensures l == 0 || offset + l <= n
    ensures l == 0 <==> offset >= n || size == 0
  {
    if offset >= n then 0 else if n - offset < size then n - offset else size
  }

  /** The items of a zero-based page: the window starting at page * size. */
  function PageContent(s: seq<Task>, page: nat, size: nat): (r: seq<Task>)
    ensures |r| == WindowLength(|s|, page * size, size)
    ensures forall k :: 0 <= k < |r| ==> r[k] == s[page * size + k]
    ensures forall t :: t in r ==> t in s
  {
    var start := page * size;
    if start >= |s| then []
    else if start + size <= |s| then s[start..start + size]
    else s[start..]
  }

  /** The total a page reports, by PageableExecutionUtils.getPage: it uses the
      page itself when the page shows that it is the last one, and the count
      query otherwise. */
  function PageTotal(offset: nat, size: nat, contentLength: nat, count: nat): nat
  {
    if offset == 0 then
      (if size > contentLength then contentLength else count)
    else if contentLength != 0 && size > contentLength then offset + contentLength
    else count
  }

  /** When the page is a window of the matches, the reported total is the
      number of all matches, whichever way it was obtained. */
  lemma PageTotalIsCount(s: seq<Task>, page: nat, size: nat)
    requires size > 0
    ensures PageTotal(page * size, size, |PageContent(s, page, size)|, |s|) == |s|
  {
  }

  /** One page of a filter query. */
  datatype TaskPage = TaskPage(content: seq<Task>, page: nat, size: nat, totalElements: nat)

  /** The number of pages a total spreads over. */
  function TotalPages(p: TaskPage): nat
  {
    if p.size == 0 then 1 else (p.totalElements + p.size - 1) / p.size
  }

  /** The pages cover the total with the last one non-empty: 25 matches in
      pages of 10 are 3 pages, no matches are no pages. */
  lemma TotalPagesCover(p: TaskPage)
    requires p.size > 0
    ensures TotalPages(p) * p.size >= p.totalElements
    ensures p.totalElements > 0 ==> (TotalPages(p) - 1) * p.size < p.totalElements
    ensures TotalPages(p) == 0 <==> p.totalElements == 0
  {
    var n := p.totalElements + p.size - 1;
    var q, m := n / p.size, n % p.size;
    assert n == q * p.size + m && 0 <= m < p.size;
    assert (q - 1) * p.size == q * p.size - p.size;
  }

  /** Sort.by rejects a property name without text; PageRequest.of rejects a
      negative page and then a size below one. */
  function PagingError(f: TaskFilterRequest): Option<Error>
  {
    if forall k :: 0 <= k < |f.sortBy| ==> f.sortBy[k] in {' ', '\t', '\n', '\r'}
    then Some(InvalidArgument("Property must not be null or empty"))
    else if f.page < 0 then Some(InvalidArgument("Page index must not be less than zero"))
    else if f.size < 1 then Some(InvalidArgument("Page size must not be less than one"))
    else None
  }

  /** The position of the first item of the requested page. */
  function Offset(f: TaskFilterRequest): nat
    requires f.page >= 0 && f.size >= 0
  {
    f.page * f.size
  }

  /** A page of a sorted sequence is sorted. */
  lemma PageOfSorted(s: seq<Task>, page: nat, size: nat, key: Task -> int, ascending: bool)
    requires SortedBy(s, key, ascending)
    ensures SortedBy(PageContent(s, page, size), key, ascending)
  {
    var content := PageContent(s, page, size);
    forall i, j | 0 <= i < j < |content| ensures InOrder(key(content[i]), key(content[j]), ascending) {
      assert content[i] == s[page * size + i] && content[j] == s[page * size + j];
    }
  }

  /** The page cut from the sorted matches keeps their order, holds only
      wanted tasks of the collection, and reports the number of all matches. */
  lemma PageOfMatches(tasks: seq<Task>, f: TaskFilterRequest, key: Task -> int)
    requires PagingError(f).None?
    ensures var matches := Select(tasks, Criteria(f));
            var sorted := SortTasks(matches, key, IsAscending(f.sortDirection));
            var content := PageContent(sorted, f.page, f.size);
            && |sorted| == |matches|
            && |content| <= f.size
            && (forall t :: t in content ==> t in tasks && Wanted(f, t))
            && SortedBy(content, key, IsAscending(f.sortDirection))
            && PageTotal(Offset(f), f.size, |content|, |matches|) == |matches|
  {
    var ascending := IsAscending(f.sortDirection);
    var matches := Select(tasks, Criteria(f));
    var sorted := SortTasks(matches, key, ascending);
    var content := PageContent(sorted, f.page, f.size);
    SortTasksCorrect(matches, key, ascending);
    assert |sorted| == |matches| by {
      assert |multiset(sorted)| == |multiset(matches)|;
    }
    PageOfSorted(sorted, f.page, f.size, key, ascending);
    forall t | t in content ensures t in tasks && Wanted(f, t) {
      assert t in sorted;
      assert t in multiset(sorted);
      assert t in matches;
      CriteriaMeaning(f, t);
    }
    PageTotalIsCount(sorted, f.page, f.size);
  }

  /** filterTasks over a task collection; `key` is the store's ordering on the
      field named by sortBy. */
  function Query(tasks: seq<Task>, f: TaskFilterRequest, key: Task -> int): (r: Result<TaskPage>)
    ensures r.Err? <==> PagingError(f).Some?
    ensures r.Ok? ==> r.value.page == f.page && r.value.size == f.size
    // The page is the window of the sorted matches that starts at
    // page * size and holds at most size of them.
    ensures r.Ok? ==>
      r.value.content == PageContent(SortTasks(Select(tasks, Criteria(f)), key, IsAscending(f.sortDirection)), f.page, f.size)
    ensures r.Ok? ==> |r.value.content| == WindowLength(|Select(tasks, Criteria(f))|, Offset(f), f.size)
    ensures r.Ok? ==> |r.value.content| <= f.size
    ensures r.Ok? ==> forall t :: t in r.value.content ==> t in tasks && Wanted(f, t)
    ensures r.Ok? ==> SortedBy(r.value.content, key, IsAscending(f.sortDirection))
    ensures r.Ok? ==> r.value.totalElements == |Select(tasks, Criteria(f))|
  {
    match PagingError(f)
    case Some(e) => Err(e)
    case None =>
      var matches := Select(tasks, Criteria(f));
      var content := PageContent(SortTasks(matches, key, IsAscending(f.sortDirection)), f.page, f.size);
      PageOfMatches(tasks, f, key);
      Ok(TaskPage(content, f.page, f.size, PageTotal(Offset(f), f.size, |content|, |matches|)))
  }

  /** Every task in the collection that the filter asks for is counted, and
      nothing else is. */
  lemma TotalCountsWanted(tasks: seq<Task>, f: TaskFilterRequest, t: Task)
    ensures t in Select(tasks, Criteria(f)) <==> t in tasks && Wanted(f, t)
  {
    CriteriaMeaning(f, t);
  }
}
