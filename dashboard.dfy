/** The derived view of the dashboard page (frontend/src/pages/Dashboard.tsx): the task list as
    searched, filtered by status and sorted, the sort label and order toggle, and the counters.
    Everything here is a function of the cached task list and the page's settings; the list it is
    given is never changed. */
module Dashboard {
  import opened Wrappers
  import opened TaskTypes
  import Seqs
  import Text

  // ---------------------------------------------------------------------------------------------
  // Search and status filter (Dashboard.tsx:62-74)

  /** `searchTerm.trim()` is truthy. */
  predicate SearchActive(searchTerm: string) {
    Text.Trim(searchTerm) != ""
  }

  /** The lowered term occurs in the lowered title, description or one of the tags. */
  predicate MatchesTerm(t: Task, term: string) {
    || Text.Includes(Text.Lower(t.title), term)
    || (t.description.Some? && Text.Includes(Text.Lower(t.description.value), term))
    || (t.tags.Some? && exists tag | tag in t.tags.value :: Text.Includes(Text.Lower(tag), term))
  }

  function MatchesSearch(searchTerm: string): Task -> bool {
    (t: Task) => MatchesTerm(t, Text.Lower(searchTerm))
  }

  /** The search step: the term is lowered but not trimmed; a blank term keeps everything. */
  function BySearch(tasks: seq<Task>, searchTerm: string): seq<Task> {
    if SearchActive(searchTerm) then Seqs.Filter(tasks, MatchesSearch(searchTerm)) else tasks
  }

  /** The status step: `'all'` keeps everything, any other filter keeps that status only. */
  function ByStatus(tasks: seq<Task>, activeFilter: string): seq<Task> {
    if activeFilter != "all" then Seqs.Filter(tasks, HasStatus(activeFilter)) else tasks
  }

  /** A task is on screen when it passes both steps. */
  predicate Shown(t: Task, searchTerm: string, activeFilter: string) {
    && (SearchActive(searchTerm) ==> MatchesTerm(t, Text.Lower(searchTerm)))
    && (activeFilter != "all" ==> t.status == activeFilter)
  }

  /** A blank term (empty or white space only) does not filter at all. */
  lemma BlankSearchKeepsAll(tasks: seq<Task>, searchTerm: string)
    requires Text.IsBlank(searchTerm)
    ensures BySearch(tasks, searchTerm) == tasks
  {
    Text.TrimEmptyIffBlank(searchTerm);
  }

  // ---------------------------------------------------------------------------------------------
  // Sorting (Dashboard.tsx:77-99)

  /** `priorityOrder[p] || 0`. */
  function PriorityRank(p: string): (r: int)
    ensures 0 <= r <= 3
    ensures r == 0 <==> p != High && p != Medium && p != Low
  {
    if p == High then 3 else if p == Medium then 2 else if p == Low then 1 else 0
  }

  /** A missing due date counts as time 0. */
  function DueTime(t: Task): Time {
    t.dueDate.GetOr(0)
  }

  /** The `comparison` the switch computes; any key other than title, dueDate and priority sorts
      by creation time. */
  function Comparison(a: Task, b: Task, sortBy: string): int {
    if sortBy == "title" then Text.LocaleCompare(a.title, b.title)
    else if sortBy == "dueDate" then DueTime(a) - DueTime(b)
    else if sortBy == "priority" then PriorityRank(b.priority) - PriorityRank(a.priority)
    else b.createdAt - a.createdAt
  }

  /** The comparator handed to `sort`: `'desc'` uses the comparison, any other order negates it. */
  function Comparator(a: Task, b: Task, sortBy: string, sortOrder: string): int {
    if sortOrder == "desc" then Comparison(a, b, sortBy) else -Comparison(a, b, sortBy)
  }

  /** "`a` may stay before `b`" for the comparator. */
  function InOrder(sortBy: string, sortOrder: string): (Task, Task) -> bool {
    (a: Task, b: Task) => Comparator(a, b, sortBy, sortOrder) <= 0
  }

  /** `'asc'` negates every comparison `'desc'` makes. */
  lemma AscNegatesDesc(a: Task, b: Task, sortBy: string)
    ensures Comparator(a, b, sortBy, "asc") == -Comparator(a, b, sortBy, "desc")
  {
  }

  /** Swapping the tasks negates the comparison. */
  lemma ComparatorAntisymmetric(a: Task, b: Task, sortBy: string, sortOrder: string)
    ensures Comparator(b, a, sortBy, sortOrder) == -Comparator(a, b, sortBy, sortOrder)
  {
    Text.LocaleCompareAntisymmetric(a.title, b.title);
  }

  lemma ComparatorTransitive(a: Task, b: Task, c: Task, sortBy: string, sortOrder: string)
    requires Comparator(a, b, sortBy, sortOrder) <= 0 && Comparator(b, c, sortBy, sortOrder) <= 0
    ensures Comparator(a, c, sortBy, sortOrder) <= 0
  {
    if sortBy == "title" {
      if sortOrder == "desc" {
        Text.LocaleCompareTransitive(a.title, b.title, c.title);
      } else {
        Text.LocaleCompareAntisymmetric(a.title, b.title);
        Text.LocaleCompareAntisymmetric(b.title, c.title);
        Text.LocaleCompareAntisymmetric(a.title, c.title);
        Text.LocaleCompareTransitive(c.title, b.title, a.title);
      }
    }
  }

  /** Every key and order gives a consistent comparator, so `sort` has a well-defined result. */
  lemma InOrderIsTotalPreorder(sortBy: string, sortOrder: string)
    ensures Seqs.TotalPreorder(InOrder(sortBy, sortOrder))
  {
    var leq := InOrder(sortBy, sortOrder);
    forall a, b ensures leq(a, b) || leq(b, a) {
      ComparatorAntisymmetric(a, b, sortBy, sortOrder);
    }
    forall a, b, c | leq(a, b) && leq(b, c) ensures leq(a, c) {
      ComparatorTransitive(a, b, c, sortBy, sortOrder);
    }
  }

  /** `filteredTasks` (Dashboard.tsx:58-102): a copy of the list, searched, filtered, sorted. */
  function FilteredTasks(tasks: seq<Task>, searchTerm: string, activeFilter: string, sortBy: string,
                         sortOrder: string): (r: seq<Task>)
    ensures |r| <= |tasks|
    ensures Seqs.SortedBy(r, InOrder(sortBy, sortOrder))
  {
    InOrderIsTotalPreorder(sortBy, sortOrder);
    Seqs.SortBySorted(ByStatus(BySearch(tasks, searchTerm), activeFilter), InOrder(sortBy, sortOrder));
    Seqs.SortBy(ByStatus(BySearch(tasks, searchTerm), activeFilter), InOrder(sortBy, sortOrder))
  }

  lemma BySearchCounts(tasks: seq<Task>, searchTerm: string, t: Task)
    ensures multiset(BySearch(tasks, searchTerm))[t]
      == if !SearchActive(searchTerm) || MatchesTerm(t, Text.Lower(searchTerm)) then multiset(tasks)[t] else 0
  {
    if SearchActive(searchTerm) {
      Seqs.FilterCounts(tasks, MatchesSearch(searchTerm), t);
    }
  }

  lemma ByStatusCounts(tasks: seq<Task>, activeFilter: string, t: Task)
    ensures multiset(ByStatus(tasks, activeFilter))[t]
      == if activeFilter == "all" || t.status == activeFilter then multiset(tasks)[t] else 0
  {
    if activeFilter != "all" {
      Seqs.FilterCounts(tasks, HasStatus(activeFilter), t);
    }
  }

  /** The view holds every task that passes search and status filter, as often as the list holds
      it, and nothing else. */
  lemma FilteredTasksCounts(tasks: seq<Task>, searchTerm: string, activeFilter: string, sortBy: string,
                            sortOrder: string, t: Task)
    ensures multiset(FilteredTasks(tasks, searchTerm, activeFilter, sortBy, sortOrder))[t]
      == if Shown(t, searchTerm, activeFilter) then multiset(tasks)[t] else 0
  {
    var searched := BySearch(tasks, searchTerm);
    BySearchCounts(tasks, searchTerm, t);
    ByStatusCounts(searched, activeFilter, t);
  }

  /** The view holds exactly the tasks that pass search and status filter, each as often as the
      list holds it, ordered by the comparator. */
  lemma FilteredTasksSpec(tasks: seq<Task>, searchTerm: string, activeFilter: string, sortBy: string,
                          sortOrder: string)
    ensures var r := FilteredTasks(tasks, searchTerm, activeFilter, sortBy, sortOrder);
      && (forall t :: multiset(r)[t] == if Shown(t, searchTerm, activeFilter) then multiset(tasks)[t] else 0)
      && (forall t :: t in r <==> t in tasks && Shown(t, searchTerm, activeFilter))
      && Seqs.SortedBy(r, InOrder(sortBy, sortOrder))
  {
    var r := FilteredTasks(tasks, searchTerm, activeFilter, sortBy, sortOrder);
    forall t ensures multiset(r)[t] == if Shown(t, searchTerm, activeFilter) then multiset(tasks)[t] else 0 {
      FilteredTasksCounts(tasks, searchTerm, activeFilter, sortBy, sortOrder, t);
    }
    forall t ensures t in r <==> t in tasks && Shown(t, searchTerm, activeFilter) {
      FilteredTasksCounts(tasks, searchTerm, activeFilter, sortBy, sortOrder, t);
      assert t in r <==> multiset(r)[t] > 0;
      assert t in tasks <==> multiset(tasks)[t] > 0;
    }
  }

  /** The sort is stable: tasks the chosen key ranks level with `e` (same priority, title, due date
      or creation time) appear in the view in the order they came from the cache. */
  lemma FilteredTasksStable(tasks: seq<Task>, searchTerm: string, activeFilter: string, sortBy: string,
                            sortOrder: string, e: Task)
    ensures Seqs.Filter(FilteredTasks(tasks, searchTerm, activeFilter, sortBy, sortOrder),
                        Seqs.TiedWith(InOrder(sortBy, sortOrder), e))
         == Seqs.Filter(ByStatus(BySearch(tasks, searchTerm), activeFilter), Seqs.TiedWith(InOrder(sortBy, sortOrder), e))
  {
    InOrderIsTotalPreorder(sortBy, sortOrder);
    Seqs.SortByStable(ByStatus(BySearch(tasks, searchTerm), activeFilter), InOrder(sortBy, sortOrder), e);
  }

  /** Sorted by priority in `'desc'`: high, then medium, then low, then anything else. */
  lemma PrioritySortDesc(r: seq<Task>, i: nat, j: nat)
    requires Seqs.SortedBy(r, InOrder("priority", "desc")) && i < j < |r|
    ensures PriorityRank(r[i].priority) >= PriorityRank(r[j].priority)
  {
    assert InOrder("priority", "desc")(r[i], r[j]);
  }

  /** Sorted by creation time in `'desc'` (the default key): newest first. */
  lemma CreatedSortDesc(r: seq<Task>, i: nat, j: nat)
    requires Seqs.SortedBy(r, InOrder("createdAt", "desc")) && i < j < |r|
    ensures r[i].createdAt >= r[j].createdAt
  {
    assert InOrder("createdAt", "desc")(r[i], r[j]);
  }

  /** Sorted by title in `'desc'`: A to Z. */
  lemma TitleSortDesc(r: seq<Task>, i: nat, j: nat)
    requires Seqs.SortedBy(r, InOrder("title", "desc")) && i < j < |r|
    ensures Text.LocaleCompare(r[i].title, r[j].title) <= 0
  {
    assert InOrder("title", "desc")(r[i], r[j]);
  }

  /** Sorted by due date in `'desc'`: earliest first, a missing date counting as 0. */
  lemma DueDateSortDesc(r: seq<Task>, i: nat, j: nat)
    requires Seqs.SortedBy(r, InOrder("dueDate", "desc")) && i < j < |r|
    ensures DueTime(r[i]) <= DueTime(r[j])
  {
    assert InOrder("dueDate", "desc")(r[i], r[j]);
  }

  /** `'asc'` sorted by creation time: oldest first, the reverse of `'desc'`. */
  lemma CreatedSortAsc(r: seq<Task>, i: nat, j: nat)
    requires Seqs.SortedBy(r, InOrder("createdAt", "asc")) && i < j < |r|
    ensures r[i].createdAt <= r[j].createdAt
  {
    assert InOrder("createdAt", "asc")(r[i], r[j]);
  }

  // ---------------------------------------------------------------------------------------------
  // Sort order and label (Dashboard.tsx:24-55)

  const SortOrders: set<string> := {"asc", "desc"}

  /** `toggleSortOrder`: `'asc'` becomes `'desc'`, anything else becomes `'asc'`. */
  function ToggleSortOrder(sortOrder: string): (r: string)
    ensures r in SortOrders && r != sortOrder
  {
    if sortOrder == "asc" then "desc" else "asc"
  }

  /** Starting from `'desc'` the order stays within `'asc'`/`'desc'`, where toggling twice is the
      identity. */
  lemma ToggleTwice(sortOrder: string)
    requires sortOrder in SortOrders
    ensures ToggleSortOrder(ToggleSortOrder(sortOrder)) == sortOrder
  {
  }

  datatype SortOption = SortOption(id: string, caption: string)

  const SortOptions: seq<SortOption> := [
    SortOption("createdAt", "Newest First"),
    SortOption("dueDate", "Due Date"),
    SortOption("priority", "Priority"),
    SortOption("title", "Title")
  ]

  /** `getCurrentSortLabel`: the label of the option with that id, or `'Sort By'`. */
  function CurrentSortLabel(sortBy: string): (caption: string)
    ensures forall o :: o in SortOptions && o.id == sortBy ==> caption == o.caption
    ensures (forall o :: o in SortOptions ==> o.id != sortBy) ==> caption == "Sort By"
  {
    match Seqs.Find(SortOptions, (o: SortOption) => o.id == sortBy)
    case Some(o) => o.caption
    case None => "Sort By"
  }

  // ---------------------------------------------------------------------------------------------
  // Counters (Dashboard.tsx:105-109)

  /** `tasks.filter(t => t.status === status).length`. */
  function StatusCount(tasks: seq<Task>, status: string): nat {
    |Seqs.Filter(tasks, HasStatus(status))|
  }

  function Statuses(tasks: seq<Task>): (r: seq<string>)
    ensures |r| == |tasks| && forall i :: 0 <= i < |tasks| ==> r[i] == tasks[i].status
  {
    seq(|tasks|, i requires 0 <= i < |tasks| => tasks[i].status)
  }

  /** Each counter counts exactly the tasks that have that status. */
  lemma {:induction false} StatusCountExact(tasks: seq<Task>, status: string)
    ensures StatusCount(tasks, status) == multiset(Statuses(tasks))[status]
    decreases |tasks|
  {
    if tasks != [] {
      StatusCountExact(tasks[1..], status);
      assert Statuses(tasks) == [tasks[0].status] + Statuses(tasks[1..]);
    }
  }

  /** The three counters together never exceed the number of tasks. */
  lemma {:induction false} StatusCountsBounded(tasks: seq<Task>)
    ensures StatusCount(tasks, Todo) + StatusCount(tasks, InProgress) + StatusCount(tasks, Done) <= |tasks|
    decreases |tasks|
  {
    if tasks != [] {
      StatusCountsBounded(tasks[1..]);
    }
  }

  /** `Math.round(d / n * 100)`: the share `d` of `n` in percent, rounded to the nearest integer
      (halves up), so within 0..100. */
  function Percent(d: nat, n: nat): (r: nat)
    requires 0 < n && d <= n
    ensures (2 * r - 1) * n <= 200 * d < (2 * r + 1) * n
    ensures r <= 100
  {
    var q := (200 * d + n) / (2 * n);
    RoundedQuotient(200 * d + n, 2 * n, q, (200 * d + n) % (2 * n));
    Distribute(q, n);
    assert q <= 100 by {
      if q > 100 {
        MulMonotone(2 * n, 101, q);
        assert false;
      }
    }
    q
  }

  /** Euclidean division, stated for the quotient and remainder `Percent` uses. */
  lemma RoundedQuotient(x: nat, k: nat, q: nat, m: nat)
    requires 0 < k && q == x / k && m == x % k
    ensures x == k * q + m && m < k
  {
  }

  lemma Distribute(q: int, n: int)
    ensures (2 * q - 1) * n == 2 * n * q - n
    ensures (2 * q + 1) * n == 2 * n * q + n
  {
  }

  lemma MulMonotone(k: nat, a: nat, b: nat)
    requires a <= b
    ensures k * a <= k * b
  {
  }

  /** `completionRate`: 0 for an empty list, otherwise the done share in percent rounded to the
      nearest integer, always within 0..100. */
  function CompletionRate(tasks: seq<Task>): (r: nat)
    ensures |tasks| == 0 ==> r == 0
    ensures |tasks| > 0 ==> (2 * r - 1) * |tasks| <= 200 * StatusCount(tasks, Done) < (2 * r + 1) * |tasks|
    ensures r <= 100
  {
    StatusCountsBounded(tasks);
    if |tasks| > 0 then Percent(StatusCount(tasks, Done), |tasks|) else 0
  }
}
