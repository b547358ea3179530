/**
 * The task timestamp encoding shared by the backend and the React pages:
 * "start:end", the six-field dash range "Y-M-D-Y-M-D", or a single date.
 * The same extraction appears in the overdue pass, the task card and the
 * kanban board's Overdue column.
 */
module TaskDates {
  import opened Strings

  /** No colon, longer than ten characters, and exactly six '-'-separated fields. */
  predicate IsDashRange(ts: string) {
    ':' !in ts && '-' in ts && |ts| > 10 && |Split(ts, '-')| == 6
  }

  function StartDate(ts: string): string {
    if ':' in ts then Split(ts, ':')[0]
    else if IsDashRange(ts) then
      var p := Split(ts, '-');
      p[0] + "-" + p[1] + "-" + p[2]
    else ts
  }

  function EndDate(ts: string): string {
    if ':' in ts then Split(ts, ':')[1]
    else if IsDashRange(ts) then
      var p := Split(ts, '-');
      p[3] + "-" + p[4] + "-" + p[5]
    else ts
  }

  /**
   * The colon form: with start and end free of ':', start is the first
   * field and end the second, whatever further ':'-fields follow.
   */
  lemma ColonForm(start: string, end: string, rest: string)
    requires ':' !in start && ':' !in end
    requires rest == "" || rest[0] == ':'
    ensures StartDate(start + ":" + end + rest) == start
    ensures EndDate(start + ":" + end + rest) == end
  {
    var ts := start + ":" + end + rest;
    ColonShape(start, end, rest);
    SplitAppend(start, ':', end + rest);
    FirstField(end, rest);
    assert ts[|start|] == ':';
  }

  /** "start:end" followed by the rest is the start, ':' and all that follows. */
  lemma ColonShape(start: string, end: string, rest: string)
    ensures start + ":" + end + rest == start + [':'] + (end + rest)
  {
  }

  /** A field free of ':' followed by nothing or by ':' is the first ':'-field. */
  lemma FirstField(end: string, rest: string)
    requires ':' !in end
    requires rest == "" || rest[0] == ':'
    ensures Split(end + rest, ':')[0] == end
  {
    if rest == "" {
      assert end + rest == end;
      SplitNoSep(end, ':');
    } else {
      assert end + rest == end + [':'] + rest[1..];
      SplitAppend(end, ':', rest[1..]);
    }
  }

  /**
   * The dash form: six fields free of ':' and '-', joined by '-' into a
   * string longer than ten characters, give the first three fields as start
   * and the last three as end.
   */
  lemma DashForm(p: seq<string>)
    requires |p| == 6
    requires forall i :: 0 <= i < 6 ==> '-' !in p[i] && ':' !in p[i]
    requires |Join(p, '-')| > 10
    ensures StartDate(Join(p, '-')) == p[0] + "-" + p[1] + "-" + p[2]
    ensures EndDate(Join(p, '-')) == p[3] + "-" + p[4] + "-" + p[5]
  {
    SplitJoin(p, '-');
    JoinAvoids(p, '-', ':');
    assert Join(p, '-')[|p[0]|] == '-';
  }

  /**
   * Every other timestamp (no ':', and either at most ten characters or not
   * six dash fields) is a single date: start and end are the whole string.
   */
  lemma SingleDate(ts: string)
    requires ':' !in ts
    requires |ts| <= 10 || CountChar(ts, '-') != 5
    ensures StartDate(ts) == ts && EndDate(ts) == ts
  {
  }
}
