/**
 * The dashboard of `frontend/src/pages/Dashboard.jsx`: the four status
 * counts, the overdue banner, the plural suffix of its counters and the
 * five most recent tasks, which it finds by sorting its task array in place.
 */
module Dashboard {
  import opened Seqs
  import opened Sorting
  import opened Entities

  datatype StatusCounts = StatusCounts(todo: nat, inProgress: nat, completed: nat, overdue: nat)

  /**
   * `getStatusCounts`: each count is the number of tasks with exactly that
   * status, and since a task has one status the four add up to at most the
   * number of tasks (other statuses are counted nowhere).
   */
  function GetStatusCounts(tasks: seq<Task>): (r: StatusCounts)
    ensures r.todo == CountIf(tasks, HasStatus("todo"))
    ensures r.inProgress == CountIf(tasks, HasStatus("in-progress"))
    ensures r.completed == CountIf(tasks, HasStatus("completed"))
    ensures r.overdue == CountIf(tasks, HasStatus("overdue"))
    ensures r.todo + r.inProgress + r.completed + r.overdue <= |tasks|
  {
    FilterLength(tasks, HasStatus("todo"));
    FilterLength(tasks, HasStatus("in-progress"));
    FilterLength(tasks, HasStatus("completed"));
    FilterLength(tasks, HasStatus("overdue"));
    CountsBounded(tasks);
    StatusCounts(
      |Filter(tasks, HasStatus("todo"))|,
      |Filter(tasks, HasStatus("in-progress"))|,
      |Filter(tasks, HasStatus("completed"))|,
      |Filter(tasks, HasStatus("overdue"))|)
  }

  /** The four status counts never exceed the number of tasks. */
  lemma {:induction false} CountsBounded(tasks: seq<Task>)
    ensures CountIf(tasks, HasStatus("todo")) + CountIf(tasks, HasStatus("in-progress"))
          + CountIf(tasks, HasStatus("completed")) + CountIf(tasks, HasStatus("overdue")) <= |tasks|
  {
    if tasks != [] {
      CountsBounded(tasks[1..]);
    }
  }

  /** `statusCounts.overdue > 0 && (...)`: the overdue banner. */
  predicate ShowOverdueBanner(c: StatusCounts) {
    c.overdue > 0
  }

  /** The banner shows exactly when some task has status "overdue". */
  lemma BannerIffOverdueTask(tasks: seq<Task>)
    ensures ShowOverdueBanner(GetStatusCounts(tasks)) <==> exists i :: 0 <= i < |tasks| && tasks[i].status == "overdue"
  {
    CountIfPositive(tasks, HasStatus("overdue"));
  }

  /** `n !== 1 ? 's' : ''`, after "overdue task" and after a page's "task". */
  function Plural(n: int): (r: string)
    ensures |r| <= 1
    ensures r != [] <==> n != 1
    ensures r != [] ==> r[0] == 's'
  {
    if n != 1 then "s" else ""
  }

  // ---------------------------------------------------------------------
  // Recent tasks. `timeOf` stands for `new Date(timestamp)` as a number of
  // milliseconds.
  // ---------------------------------------------------------------------

  /** The sort key: the time of a task's timestamp. */
  function TimeKey(timeOf: string -> int): Task -> int {
    (t: Task) => timeOf(t.timestamp)
  }

  /**
   * `tasks.sort((a, b) => new Date(b.timestamp) - new Date(a.timestamp))`:
   * the same tasks, latest first, tasks with equal times in their previous
   * order (the sort is stable).
   */
  function ByTimeDescending(tasks: seq<Task>, timeOf: string -> int): (r: seq<Task>)
    ensures |r| == |tasks| && multiset(r) == multiset(tasks)
    ensures forall i, j :: 0 <= i < j < |r| ==> TimeKey(timeOf)(r[i]) >= TimeKey(timeOf)(r[j])
    ensures forall k :: KeyClass(r, TimeKey(timeOf), k) == KeyClass(tasks, TimeKey(timeOf), k)
  {
    IntGreaterIsStrictOrder();
    SortBy(tasks, TimeKey(timeOf), IntGreater)
  }

  /**
   * The first five after the sort: at most five tasks, latest first, and
   * none left out is later than one kept.
   */
  function RecentTasks(tasks: seq<Task>, timeOf: string -> int): (r: seq<Task>)
    ensures |r| == if |tasks| < 5 then |tasks| else 5
    ensures r == ByTimeDescending(tasks, timeOf)[..|r|]
    ensures multiset(r) <= multiset(tasks)
    ensures forall i, j :: 0 <= i < j < |r| ==> TimeKey(timeOf)(r[i]) >= TimeKey(timeOf)(r[j])
    ensures forall x :: multiset(r)[x] < multiset(tasks)[x] ==>
      forall i :: 0 <= i < |r| ==> TimeKey(timeOf)(r[i]) >= TimeKey(timeOf)(x)
  {
    TopByIntDescending(tasks, TimeKey(timeOf), 5)
  }

  /**
   * `getRecentTasks` on the page's task array: `sort` reorders the array
   * itself, which the page keeps showing afterwards, and `slice` returns
   * the first five.
   */
  method GetRecentTasks(tasks: array<Task>, timeOf: string -> int) returns (r: seq<Task>)
    modifies tasks
    ensures tasks[..] == ByTimeDescending(old(tasks[..]), timeOf)
    ensures r == RecentTasks(old(tasks[..]), timeOf)
  {
    var sorted := ByTimeDescending(tasks[..], timeOf);
    forall i | 0 <= i < tasks.Length {
      tasks[i] := sorted[i];
    }
    assert tasks[..] == sorted;
    r := tasks[..if tasks.Length < 5 then tasks.Length else 5];
  }
}
