/** The task card of `frontend/src/components/TaskCard.jsx`: its date badge and its tag chips. */
module TaskCard {
  import opened Strings
  import opened Seqs
  import opened Entities
  import TaskDates

  datatype DateInfo = DateInfo(isOverdue: bool, isLastDay: bool, displayDate: string)

  /** The separator the card prints between the two ends of a range. */
  const Arrow: string := " \U{2192} "

  /**
   * `getDateInfo`: an undated task shows nothing; otherwise the card is
   * overdue when the end date is before today and last-day when it is
   * today, unless the task is completed, and shows the range as
   * "start → end" or a single date.
   */
  function GetDateInfo(task: Task, today: string): (d: DateInfo)
    ensures task.timestamp == "" ==> d == DateInfo(false, false, "")
    ensures !(d.isOverdue && d.isLastDay)
    ensures task.status == "completed" ==> !d.isOverdue && !d.isLastDay
    ensures task.timestamp != "" ==>
      var end := TaskDates.EndDate(task.timestamp);
      (d.isOverdue <==> StrLess(end, today) && task.status != "completed") &&
      (d.isLastDay <==> end == today && task.status != "completed")
    ensures task.timestamp != "" ==>
      var start, end := TaskDates.StartDate(task.timestamp), TaskDates.EndDate(task.timestamp);
      d.displayDate == if start == end then start else start + Arrow + end
  {
    if task.timestamp == "" then DateInfo(false, false, "")
    else
      var start := TaskDates.StartDate(task.timestamp);
      var end := TaskDates.EndDate(task.timestamp);
      StrLessIrreflexive(end);
      DateInfo(
        StrLess(end, today) && task.status != "completed",
        end == today && task.status != "completed",
        if start == end then start else start + Arrow + end)
  }

  /** A stored range "start:end" with distinct ends is shown as "start → end". */
  lemma DisplayOfColonRange(task: Task, start: string, end: string, today: string)
    requires ':' !in start && ':' !in end && start != end
    requires task.timestamp == start + ":" + end
    ensures GetDateInfo(task, today).displayDate == start + Arrow + end
  {
    assert start + ":" + end + "" == start + ":" + end;
    TaskDates.ColonForm(start, end, "");
  }

  /** A stored range whose two ends are the same day is shown as that one day. */
  lemma DisplayOfEqualColonRange(task: Task, day: string, today: string)
    requires ':' !in day
    requires task.timestamp == day + ":" + day
    ensures GetDateInfo(task, today).displayDate == day
  {
    assert day + ":" + day + "" == day + ":" + day;
    TaskDates.ColonForm(day, day, "");
  }

  /**
   * The dash form "Y-M-D-Y-M-D" of two different days (six parts without
   * ':' and longer than ten characters) is shown as "Y-M-D → Y-M-D".
   */
  lemma DisplayOfDashRange(task: Task, p: seq<string>, today: string)
    requires |p| == 6
    requires forall i :: 0 <= i < 6 ==> '-' !in p[i] && ':' !in p[i]
    requires task.timestamp == Join(p, '-') && |task.timestamp| > 10
    requires p[0] + "-" + p[1] + "-" + p[2] != p[3] + "-" + p[4] + "-" + p[5]
    ensures GetDateInfo(task, today).displayDate == (p[0] + "-" + p[1] + "-" + p[2]) + Arrow + (p[3] + "-" + p[4] + "-" + p[5])
  {
    TaskDates.DashForm(p);
    DisplayOfEnds(task, p[0] + "-" + p[1] + "-" + p[2], p[3] + "-" + p[4] + "-" + p[5], today);
  }

  /** A dated task whose two ends differ shows both, joined by the arrow. */
  lemma DisplayOfEnds(task: Task, start: string, end: string, today: string)
    requires task.timestamp != "" && start != end
    requires TaskDates.StartDate(task.timestamp) == start && TaskDates.EndDate(task.timestamp) == end
    ensures GetDateInfo(task, today).displayDate == start + Arrow + end
  {
  }

  /** A single date (no ':', at most ten characters) is shown as it is. */
  lemma DisplayOfSingleDate(task: Task, today: string)
    requires task.timestamp != "" && ':' !in task.timestamp && |task.timestamp| <= 10
    ensures GetDateInfo(task, today).displayDate == task.timestamp
  {
    TaskDates.SingleDate(task.timestamp);
  }

  /** `tags.filter(tag => task.tags?.includes(tag.id))`: the global tags the task carries, in global order. */
  function TaskTags(tags: seq<Tag>, task: Task): (r: seq<Tag>)
    ensures forall t :: t in r <==> t in tags && t.id in task.tags
    ensures IsSubseq(r, tags)
    ensures forall t :: multiset(r)[t] == if t.id in task.tags then multiset(tags)[t] else 0
  {
    var r := Filter(tags, CarriedBy(task));
    FilterIsSubseq(tags, CarriedBy(task));
    forall t ensures multiset(r)[t] == if t.id in task.tags then multiset(tags)[t] else 0 {
      FilterMultiset(tags, CarriedBy(task), t);
    }
    r
  }

  /** `task.tags?.includes(tag.id)`. */
  function CarriedBy(task: Task): Tag -> bool {
    (t: Tag) => t.id in task.tags
  }
}
