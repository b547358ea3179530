/**
 * The task list of `frontend/src/pages/AllTasks.jsx`: `filterTasks` keeps
 * the tasks of one status (or all), then those whose title, description or
 * page name contains the search query, ignoring case.
 */
module AllTasks {
  import opened Strings
  import opened Seqs
  import opened Entities

  /** The status test: `'all'` lets everything through. */
  predicate StatusPasses(t: Task, statusFilter: string) {
    statusFilter == "all" || t.status == statusFilter
  }

  /**
   * `title.toLowerCase().includes(query) || description?.toLowerCase()...
   * || page_name.toLowerCase()...` for an already lowercased `query`. A
   * missing description is the empty string, which holds no query that
   * passed the blank test.
   */
  predicate Matches(t: Task, query: string) {
    Contains(Lower(t.title), query) || Contains(Lower(t.description), query) || Contains(Lower(t.pageName), query)
  }

  /** The search test: a blank query lets everything through; otherwise the lowercased, untrimmed query must match. */
  predicate QueryPasses(t: Task, searchQuery: string) {
    IsBlank(searchQuery) || Matches(t, Lower(searchQuery))
  }

  /** Both tests at once. */
  predicate Passes(statusFilter: string, searchQuery: string, t: Task) {
    StatusPasses(t, statusFilter) && QueryPasses(t, searchQuery)
  }

  /** The search test for an already lowercased query. */
  function MatchesQuery(query: string): Task -> bool {
    (t: Task) => Matches(t, query)
  }

  /** Both tests, as one predicate on tasks. */
  function PassesBoth(statusFilter: string, searchQuery: string): Task -> bool {
    (t: Task) => Passes(statusFilter, searchQuery, t)
  }

  function StatusStep(tasks: seq<Task>, statusFilter: string): seq<Task> {
    if statusFilter != "all" then Filter(tasks, HasStatus(statusFilter)) else tasks
  }

  function QueryStep(tasks: seq<Task>, searchQuery: string): seq<Task> {
    if !IsBlank(searchQuery) then Filter(tasks, MatchesQuery(Lower(searchQuery))) else tasks
  }

  /**
   * `filterTasks`: the status filter, then the search filter. The result is
   * the tasks passing both tests, in their original order, and no longer
   * than the list (the "Showing n of m" counter).
   */
  function FilterTasks(tasks: seq<Task>, statusFilter: string, searchQuery: string): (r: seq<Task>)
    ensures r == Filter(tasks, PassesBoth(statusFilter, searchQuery))
    ensures IsSubseq(r, tasks)
    ensures |r| <= |tasks|
    ensures forall t :: t in r <==> t in tasks && StatusPasses(t, statusFilter) && QueryPasses(t, searchQuery)
  {
    StepsAreOneFilter(tasks, statusFilter, searchQuery);
    FilterIsSubseq(tasks, PassesBoth(statusFilter, searchQuery));
    QueryStep(StatusStep(tasks, statusFilter), searchQuery)
  }

  /** The two successive filters of `filterTasks` keep what passes both tests. */
  lemma StepsAreOneFilter(tasks: seq<Task>, statusFilter: string, searchQuery: string)
    ensures QueryStep(StatusStep(tasks, statusFilter), searchQuery) == Filter(tasks, PassesBoth(statusFilter, searchQuery))
  {
    var both := PassesBoth(statusFilter, searchQuery);
    if statusFilter != "all" {
      if !IsBlank(searchQuery) {
        FilterFilter(tasks, HasStatus(statusFilter), MatchesQuery(Lower(searchQuery)), both);
      } else {
        FilterSame(tasks, HasStatus(statusFilter), both);
      }
    } else {
      if !IsBlank(searchQuery) {
        FilterSame(tasks, MatchesQuery(Lower(searchQuery)), both);
      } else {
        FilterAll(tasks, both);
      }
    }
  }

  /** With status `'all'` and a blank query every task is shown, in order. */
  lemma ShowAll(tasks: seq<Task>, searchQuery: string)
    requires IsBlank(searchQuery)
    ensures FilterTasks(tasks, "all", searchQuery) == tasks
  {
    FilterAll(tasks, PassesBoth("all", searchQuery));
  }

  /** With a status other than `'all'`, every task shown has exactly that status. */
  lemma ShownHaveStatus(tasks: seq<Task>, statusFilter: string, searchQuery: string)
    requires statusFilter != "all"
    ensures forall i :: 0 <= i < |FilterTasks(tasks, statusFilter, searchQuery)| ==>
      FilterTasks(tasks, statusFilter, searchQuery)[i].status == statusFilter
  {
    var r := FilterTasks(tasks, statusFilter, searchQuery);
    forall i | 0 <= i < |r| ensures r[i].status == statusFilter {
      assert r[i] in r;
    }
  }

  /**
   * The search ignores case: a query and its lowercase form show the same
   * tasks, since lowercasing keeps white space and is idempotent.
   */
  lemma SearchIgnoresCase(tasks: seq<Task>, statusFilter: string, searchQuery: string)
    ensures FilterTasks(tasks, statusFilter, Lower(searchQuery)) == FilterTasks(tasks, statusFilter, searchQuery)
  {
    LowerIdempotent(searchQuery);
    var q := Lower(searchQuery);
    forall i | 0 <= i < |searchQuery| ensures IsSpace(q[i]) <==> IsSpace(searchQuery[i]) {
      LowerKeepsSpaces(searchQuery[i]);
    }
    assert IsBlank(q) <==> IsBlank(searchQuery);
    FilterSame(tasks, PassesBoth(statusFilter, q), PassesBoth(statusFilter, searchQuery));
  }
}
