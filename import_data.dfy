/**
 * The board importer of `tools/import_data.py`: a board export (a page and
 * its columns of tasks) becomes one page whose tasks carry the column's
 * status, a plain date and, given a duration, a date range.
 */
module ImportData {
  import opened Wrappers
  import opened Strings
  import opened Seqs
  import opened Json
  import FileManager
  import TaskDates

  /** `STATUS_MAP`. */
  const StatusMap: map<string, string> := map[
    "todo" := "todo", "inprogress" := "in-progress", "in-progress" := "in-progress",
    "done" := "completed", "completed" := "completed", "overdue" := "overdue"]

  /** A column id lowercased and mapped; an unmapped id passes through lowercased. */
  function MapStatus(columnId: string): (r: string)
    ensures Lower(columnId) in StatusMap ==> r == StatusMap[Lower(columnId)]
    ensures Lower(columnId) !in StatusMap ==> r == Lower(columnId)
    ensures r in StatusMap ==> StatusMap[r] == r
  {
    var c := Lower(columnId);
    if c in StatusMap then StatusMap[c] else c
  }

  /** Mapping a mapped status again changes nothing. */
  lemma MapStatusIdempotent(columnId: string)
    ensures MapStatus(MapStatus(columnId)) == MapStatus(columnId)
  {
    var r := MapStatus(columnId);
    if Lower(columnId) in StatusMap {
      assert Lower(r) == r;
    } else {
      LowerIdempotent(columnId);
    }
  }

  /**
   * `date_to_simple`: "" stays "", text before the first 'T' when there is
   * one, the whole text otherwise.
   */
  function DateToSimple(ts: string): (r: string)
    ensures 'T' !in r
    ensures |r| <= |ts| && r == ts[..|r|]
    ensures 'T' in ts ==> |r| < |ts| && ts[|r|] == 'T'
    ensures 'T' !in ts ==> r == ts
  {
    SplitFirst(ts, 'T');
    if ts == "" then ""
    else if 'T' in ts then Split(ts, 'T')[0]
    else ts
  }

  lemma DateToSimpleIdempotent(ts: string)
    ensures DateToSimple(DateToSimple(ts)) == DateToSimple(ts)
  {
  }

  /** `meta = t.get('meta', {}) or {}`. */
  function MetaOf(t: Record): Value {
    var m := GetOr(t, "meta", Obj(map[]));
    if Truthy(m) then m else Obj(map[])
  }

  /** `meta.get('duration_days')`. */
  function DurationOf(t: Record): Value {
    var m := MetaOf(t);
    if m.Obj? then GetOr(m.fields, "duration_days", Null) else Null
  }

  /** `int(value)` where it succeeds: a number, a boolean, or a string of decimal digits. */
  function IntOf(v: Value): Option<int> {
    match v
    case Num(n) => Some(n)
    case Bool(b) => Some(if b then 1 else 0)
    case Str(s) =>
      if s != "" && forall i :: 0 <= i < |s| ==> IsDigit(s[i]) then Some(ParseNat(s)) else None
    case _ => None
  }

  /**
   * The imported timestamp. `addDays(d, n)` is the day n days after the
   * `%Y-%m-%d` date d, or None when d does not parse; any failure keeps the
   * single date.
   */
  function TimestampFor(t: Record, addDays: (string, int) -> Option<string>): (r: string)
    ensures var simple := DateToSimple(StrField(t, "timestamp"));
      r != simple ==>
        |simple| < |r| && r == simple + ":" + r[|simple| + 1..] &&
        simple != "" && Truthy(DurationOf(t)) && IntOf(DurationOf(t)).Some? &&
        addDays(simple, IntOf(DurationOf(t)).value - 1) == Some(r[|simple| + 1..])
    ensures var simple := DateToSimple(StrField(t, "timestamp"));
      simple != "" && Truthy(DurationOf(t)) && IntOf(DurationOf(t)).Some? &&
      addDays(simple, IntOf(DurationOf(t)).value - 1).Some? ==>
        r == simple + ":" + addDays(simple, IntOf(DurationOf(t)).value - 1).value
  {
    var simple := DateToSimple(StrField(t, "timestamp"));
    var dur := DurationOf(t);
    if Truthy(dur) && simple != "" then
      match IntOf(dur)
      case None => simple
      case Some(d) =>
        match addDays(simple, d - 1)
        case None => simple
        case Some(end) =>
          assert (simple + ":" + end)[|simple| + 1..] == end;
          simple + ":" + end
    else simple
  }

  /**
   * An imported range reads back on the board: the board's start is the
   * import's date and its end is the computed end day.
   */
  lemma ImportedRangeReadsBack(t: Record, addDays: (string, int) -> Option<string>, end: string)
    requires var simple := DateToSimple(StrField(t, "timestamp"));
      simple != "" && ':' !in simple && ':' !in end && Truthy(DurationOf(t)) &&
      IntOf(DurationOf(t)).Some? && addDays(simple, IntOf(DurationOf(t)).value - 1) == Some(end)
    ensures TaskDates.StartDate(TimestampFor(t, addDays)) == DateToSimple(StrField(t, "timestamp"))
    ensures TaskDates.EndDate(TimestampFor(t, addDays)) == end
  {
    var simple := DateToSimple(StrField(t, "timestamp"));
    assert simple + ":" + end + "" == simple + ":" + end;
    TaskDates.ColonForm(simple, end, "");
  }

  /** The id of a task without a truthy `id`: "task-" and the Unix second the clock reads for it. */
  function FallbackTaskId(secs: int): string {
    "task-" + IntToString(secs)
  }

  const BaseKeys: set<string> := {"id", "title", "description", "tags", "timestamp", "status"}

  /**
   * One iteration of the inner loop: the page task built from a board task
   * in a column with that status; `secs` is the clock's reading for it.
   */
  function ConvertTask(t: Record, status: string, secs: int, addDays: (string, int) -> Option<string>): (r: Record)
    ensures r.Keys == BaseKeys + (if "priority" in t then {"priority"} else {})
                               + (if Truthy(MetaOf(t)) then {"meta"} else {})
    ensures r["id"] == if Truthy(GetOr(t, "id", Null)) then t["id"] else Str(FallbackTaskId(secs))
    ensures r["status"] == Str(status)
    ensures r["timestamp"] == Str(TimestampFor(t, addDays))
    ensures r["title"] == GetOr(t, "title", Str("")) && r["description"] == GetOr(t, "description", Str(""))
    ensures r["tags"] == GetOr(t, "tags", Arr([]))
    ensures "priority" in t ==> r["priority"] == t["priority"]
    ensures Truthy(MetaOf(t)) ==> r["meta"] == MetaOf(t)
  {
    var id := GetOr(t, "id", Null);
    Assemble(t, if Truthy(id) then id else Str(FallbackTaskId(secs)), TimestampFor(t, addDays), status)
  }

  /** The task dict of the loop body, for an id and a timestamp already chosen. */
  function Assemble(t: Record, id: Value, timestamp: string, status: string): (r: Record)
    ensures r.Keys == BaseKeys + (if "priority" in t then {"priority"} else {})
                               + (if Truthy(MetaOf(t)) then {"meta"} else {})
    ensures r["id"] == id && r["status"] == Str(status) && r["timestamp"] == Str(timestamp)
    ensures r["title"] == GetOr(t, "title", Str("")) && r["description"] == GetOr(t, "description", Str(""))
    ensures r["tags"] == GetOr(t, "tags", Arr([]))
    ensures "priority" in t ==> r["priority"] == t["priority"]
    ensures Truthy(MetaOf(t)) ==> r["meta"] == MetaOf(t)
  {
    var base := map[
      "id" := id,
      "title" := GetOr(t, "title", Str("")),
      "description" := GetOr(t, "description", Str("")),
      "tags" := GetOr(t, "tags", Arr([])),
      "timestamp" := Str(timestamp),
      "status" := Str(status)];
    var withPriority := if "priority" in t then base["priority" := t["priority"]] else base;
    if Truthy(MetaOf(t)) then withPriority["meta" := MetaOf(t)] else withPriority
  }

  /**
   * Two id-less tasks get the same id exactly when the clock reads the same
   * second for both: tasks imported within one second collide.
   */
  lemma FallbackIdsCollide(t1: Record, t2: Record, s1: string, s2: string, secs1: int, secs2: int,
                           addDays: (string, int) -> Option<string>)
    requires !Truthy(GetOr(t1, "id", Null)) && !Truthy(GetOr(t2, "id", Null))
    ensures ConvertTask(t1, s1, secs1, addDays)["id"] == ConvertTask(t2, s2, secs2, addDays)["id"] <==> secs1 == secs2
  {
    var x, y := FallbackTaskId(secs1), FallbackTaskId(secs2);
    if x == y {
      assert x[5..] == IntToString(secs1) && y[5..] == IntToString(secs2);
    }
    IntToStringInjective(secs1, secs2);
  }

  /** A board column: its id and its task objects. */
  datatype Column = Column(id: string, tasks: seq<Record>)

  /** The board export: page id and name ("" when missing or empty) and the columns. */
  datatype Board = Board(pageId: string, pageName: string, columns: seq<Column>)

  /**
   * The clock: `datetime.utcnow()` read for task `i` of column `c`, as a
   * whole Unix second. Nothing is assumed about how the readings relate.
   */
  type Clock = (nat, nat) -> int

  /** The tasks of column `c`, converted in order with the column's status and each task's clock reading. */
  function ConvertColumn(col: Column, c: nat, clock: Clock, addDays: (string, int) -> Option<string>): (r: seq<Record>)
    ensures |r| == |col.tasks|
    ensures forall i :: 0 <= i < |r| ==> r[i] == ConvertTask(col.tasks[i], MapStatus(col.id), clock(c, i), addDays)
  {
    seq(|col.tasks|, i requires 0 <= i < |col.tasks| => ConvertTask(col.tasks[i], MapStatus(col.id), clock(c, i), addDays))
  }

  /** The page's task list: the columns' converted tasks, column after column. */
  function ConvertAll(cols: seq<Column>, clock: Clock, addDays: (string, int) -> Option<string>): seq<Record> {
    ConcatMap(cols, ColumnConverter(clock, addDays))
  }

  /** The conversion of column `c`, as a function of its position and the column. */
  function ColumnConverter(clock: Clock, addDays: (string, int) -> Option<string>): (nat, Column) -> seq<Record> {
    (c: nat, col: Column) => ConvertColumn(col, c, clock, addDays)
  }

  function TaskCount(col: Column): int {
    |col.tasks|
  }

  /** Exactly one page task per board task. */
  lemma {:induction false} ConvertAllCount(cols: seq<Column>, clock: Clock, addDays: (string, int) -> Option<string>)
    ensures |ConvertAll(cols, clock, addDays)| == SumOf(cols, TaskCount)
  {
    if cols != [] {
      ConvertAllCount(cols[..|cols| - 1], clock, addDays);
    }
  }

  /**
   * Task i of column c lands right after all tasks of the earlier columns,
   * at offset i, in that column's status and with its own clock reading.
   */
  lemma ConvertAllIndex(cols: seq<Column>, c: nat, i: nat, clock: Clock,
                        addDays: (string, int) -> Option<string>)
    requires c < |cols| && i < |cols[c].tasks|
    ensures var off := |ConvertAll(cols[..c], clock, addDays)|;
      off + i < |ConvertAll(cols, clock, addDays)| &&
      ConvertAll(cols, clock, addDays)[off + i] == ConvertTask(cols[c].tasks[i], MapStatus(cols[c].id), clock(c, i), addDays)
  {
    ConcatMapIndex(cols, ColumnConverter(clock, addDays), c, i);
  }

  /** The page id when the export has none: "imported-" and the second the clock reads for the page. */
  function PageIdFor(board: Board, pageSecs: int): string {
    if board.pageId != "" then board.pageId else "imported-" + IntToString(pageSecs)
  }

  /** The inner loop of `load_and_convert`: the tasks of column `c`, converted in order. */
  method ConvertColumnTasks(col: Column, c: nat, clock: Clock, addDays: (string, int) -> Option<string>)
    returns (tasks: seq<Record>)
    ensures tasks == ConvertColumn(col, c, clock, addDays)
  {
    var status := MapStatus(col.id);
    ghost var want := ConvertColumn(col, c, clock, addDays);
    tasks := [];
    var k := 0;
    while k < |col.tasks|
      invariant 0 <= k <= |col.tasks|
      invariant tasks == want[..k]
    {
      var task := ConvertTask(col.tasks[k], status, clock(c, k), addDays);
      assert task == want[k];
      PrefixStep(want, k);
      tasks := tasks + [task];
      k := k + 1;
    }
    assert want[..k] == want;
  }

  /**
   * `load_and_convert` without the file I/O: the page id and name fallbacks
   * and the loop over columns. The clock is read once for the page id
   * (`pageSecs`) and once per task (`clock`).
   */
  method LoadAndConvert(board: Board, pageSecs: int, clock: Clock, addDays: (string, int) -> Option<string>)
    returns (page: FileManager.Page)
    ensures page.id == PageIdFor(board, pageSecs)
    ensures page.name == if board.pageName != "" then board.pageName else page.id
    ensures page.tasks == ConvertAll(board.columns, clock, addDays)
  {
    var pageId := if board.pageId != "" then board.pageId else "imported-" + IntToString(pageSecs);
    var pageName := if board.pageName != "" then board.pageName else pageId;
    var tasks: seq<Record> := [];
    var c := 0;
    while c < |board.columns|
      invariant 0 <= c <= |board.columns|
      invariant tasks == ConvertAll(board.columns[..c], clock, addDays)
    {
      var converted := ConvertColumnTasks(board.columns[c], c, clock, addDays);
      assert board.columns[..c + 1][..c] == board.columns[..c];
      tasks := tasks + converted;
      c := c + 1;
    }
    assert board.columns[..c] == board.columns;
    page := FileManager.Page(pageId, pageName, tasks);
  }

  // ---------------------------------------------------------------------
  // Ranges

  /** A date the arithmetic cannot read keeps the single date, whatever the duration. */
  lemma UnparsedDateKeepsSingle(t: Record, addDays: (string, int) -> Option<string>)
    requires forall n :: addDays(DateToSimple(StrField(t, "timestamp")), n).None?
    ensures TimestampFor(t, addDays) == DateToSimple(StrField(t, "timestamp"))
  {
  }

  lemma SampleDate()
    ensures DateToSimple("2026-01-20T09:00:00") == "2026-01-20"
  {
    assert "2026-01-20T09:00:00" == "2026-01-20" + ['T'] + "09:00:00";
    SplitAppend("2026-01-20", 'T', "09:00:00");
  }

  /** A three-day task dated "2026-01-20T09:00:00" becomes the range from the 20th to the 22nd. */
  lemma ThreeDayRange(t: Record, addDays: (string, int) -> Option<string>)
    requires "timestamp" in t && t["timestamp"] == Str("2026-01-20T09:00:00")
    requires "meta" in t && t["meta"] == Obj(map["duration_days" := Num(3)])
    requires addDays("2026-01-20", 2) == Some("2026-01-22")
    ensures TimestampFor(t, addDays) == "2026-01-20" + ":" + "2026-01-22"
  {
    SampleDate();
    SampleDuration(t);
    assert StrField(t, "timestamp") == "2026-01-20T09:00:00";
    RangeOf(t, addDays, "2026-01-20", 3, "2026-01-22");
  }

  /** A readable date, a whole duration and a computed end day give the range. */
  lemma RangeOf(t: Record, addDays: (string, int) -> Option<string>, simple: string, d: int, end: string)
    requires DateToSimple(StrField(t, "timestamp")) == simple && simple != ""
    requires Truthy(DurationOf(t)) && IntOf(DurationOf(t)) == Some(d)
    requires addDays(simple, d - 1) == Some(end)
    ensures TimestampFor(t, addDays) == simple + ":" + end
  {
    var r := TimestampFor(t, addDays);
    assert IntOf(DurationOf(t)).value - 1 == d - 1;
  }

  /** A `meta` of `{"duration_days": 3}` is a duration of three days. */
  lemma SampleDuration(t: Record)
    requires "meta" in t && t["meta"] == Obj(map["duration_days" := Num(3)])
    ensures Truthy(DurationOf(t)) && IntOf(DurationOf(t)) == Some(3)
  {
    assert MetaOf(t) == Obj(map["duration_days" := Num(3)]);
  }
}
