/**
 * The study-timer routes of `backend/routes/timer.py`: a log of finished
 * sessions and a settings object, each kept in its own JSON file, and the
 * statistics the dashboard reads (totals, sessions per day, the latest ten).
 */
module TimerRoutes {
  import opened Wrappers
  import opened Strings
  import opened Seqs
  import opened Sorting
  import opened Json

  /** The settings `ensure_timer_files` writes when there are none: 25/5/15 minutes, 4 sessions. */
  const DefaultSettings: Value :=
    Obj(map["pomodoro" := Obj(map[
      "studyTime" := Num(25),
      "breakTime" := Num(5),
      "longBreakTime" := Num(15),
      "sessionsBeforeLongBreak" := Num(4)])])

  /**
   * `session.get('duration', 0)` can be added: it is missing, a number or
   * a boolean; `None`, a string, a list or an object makes `sum` raise
   * `TypeError`.
   */
  predicate Summable(s: Record) {
    "duration" !in s || s["duration"].Num? || s["duration"].Bool?
  }

  /**
   * `session.get('duration', 0)` as a number (seconds); `True` counts as 1.
   * A session that is not `Summable` never reaches a total, so its 0 is
   * never used.
   */
  function SessionDuration(s: Record): int {
    match GetOr(s, "duration", Num(0))
    case Num(n) => n
    case Bool(b) => if b then 1 else 0
    case _ => 0
  }

  /** `session.get('startTime', '')`, the sort key of the recent list. */
  function StartKey(s: Record): string {
    StrField(s, "startTime")
  }

  /** `session.get('startTime', '')[:10]`: the day a session belongs to. */
  function DateOf(s: Record): (d: string)
    ensures |d| <= 10 && |d| <= |StartKey(s)| && d == StartKey(s)[..|d|]
    ensures |StartKey(s)| >= 10 ==> |d| == 10
  {
    var t := StartKey(s);
    if |t| <= 10 then t else t[..10]
  }

  // ---------------------------------------------------------------------
  // What `sessions_by_date` must hold, stated on the session list.
  // ---------------------------------------------------------------------

  /** The days of the sessions in order of first appearance (the dict's key order). */
  function SessionDates(ss: seq<Record>): seq<string> {
    if ss == [] then []
    else
      var prior := SessionDates(ss[..|ss| - 1]);
      var d := DateOf(ss[|ss| - 1]);
      if d in prior then prior else prior + [d]
  }

  /** The number of sessions on day `d`. */
  function CountOn(ss: seq<Record>, d: string): nat {
    if ss == [] then 0
    else CountOn(ss[..|ss| - 1], d) + if DateOf(ss[|ss| - 1]) == d then 1 else 0
  }

  /** The duration of the sessions on day `d`. */
  function DurationOn(ss: seq<Record>, d: string): int {
    if ss == [] then 0
    else
      var s := ss[|ss| - 1];
      DurationOn(ss[..|ss| - 1], d) + if DateOf(s) == d then SessionDuration(s) else 0
  }

  /** Every day appears once among the groups. */
  lemma {:induction false} SessionDatesNoDup(ss: seq<Record>)
    ensures NoDup(SessionDates(ss))
  {
    if ss != [] {
      SessionDatesNoDup(ss[..|ss| - 1]);
    }
  }

  /** The groups are exactly the days some session starts on. */
  lemma {:induction false} SessionDatesMember(ss: seq<Record>, d: string)
    ensures d in SessionDates(ss) <==> exists i :: 0 <= i < |ss| && DateOf(ss[i]) == d
  {
    if ss != [] {
      var init := ss[..|ss| - 1];
      SessionDatesMember(init, d);
      var inInit := exists i :: 0 <= i < |init| && DateOf(init[i]) == d;
      var fromLast := DateOf(ss[|ss| - 1]) == d;
      assert d in SessionDates(ss) <==> inInit || fromLast;
      if inInit {
        var i :| 0 <= i < |init| && DateOf(init[i]) == d;
        assert ss[i] == init[i];
      } else if !fromLast {
        forall i | 0 <= i < |ss| ensures DateOf(ss[i]) != d {
          if i < |init| {
            assert init[i] == ss[i];
          }
        }
      }
    }
  }

  // ---------------------------------------------------------------------
  // The `sessions_by_date` dict, as a list of groups in key order.
  // ---------------------------------------------------------------------

  /** `{'count': ..., 'duration': ...}` for one day. */
  datatype DateGroup = DateGroup(date: string, count: nat, duration: int)

  function GroupDates(g: seq<DateGroup>): (r: seq<string>)
    ensures |r| == |g|
    ensures forall i :: 0 <= i < |g| ==> r[i] == g[i].date
  {
    if g == [] then [] else [g[0].date] + GroupDates(g[1..])
  }

  /** `sessions_by_date[d]['count']`, 0 for a day without a group. */
  function CountIn(g: seq<DateGroup>, d: string): nat {
    if g == [] then 0 else if g[0].date == d then g[0].count else CountIn(g[1..], d)
  }

  /** `sessions_by_date[d]['duration']`, 0 for a day without a group. */
  function DurationIn(g: seq<DateGroup>, d: string): int {
    if g == [] then 0 else if g[0].date == d then g[0].duration else DurationIn(g[1..], d)
  }

  function TotalCount(g: seq<DateGroup>): nat {
    if g == [] then 0 else g[0].count + TotalCount(g[1..])
  }

  function TotalDuration(g: seq<DateGroup>): int {
    if g == [] then 0 else g[0].duration + TotalDuration(g[1..])
  }

  /** One pass of the grouping loop: create the day's group if missing, then add one session. */
  function AddSession(g: seq<DateGroup>, d: string, dur: int): (r: seq<DateGroup>)
    ensures GroupDates(r) == if d in GroupDates(g) then GroupDates(g) else GroupDates(g) + [d]
    ensures forall d' :: CountIn(r, d') == CountIn(g, d') + if d' == d then 1 else 0
    ensures forall d' :: DurationIn(r, d') == DurationIn(g, d') + if d' == d then dur else 0
    ensures TotalCount(r) == TotalCount(g) + 1
    ensures TotalDuration(r) == TotalDuration(g) + dur
  {
    if g == [] then [DateGroup(d, 1, dur)]
    else if g[0].date == d then [g[0].(count := g[0].count + 1, duration := g[0].duration + dur)] + g[1..]
    else
      var rest := AddSession(g[1..], d, dur);
      assert GroupDates([g[0]] + rest) == [g[0].date] + GroupDates(rest);
      [g[0]] + rest
  }

  /**
   * `g` is `sessions_by_date` for `ss`: one group per day in order of first
   * appearance, each with the count and duration of that day's sessions,
   * the counts adding up to the number of sessions and the durations to
   * the total time.
   */
  ghost predicate GroupsOf(g: seq<DateGroup>, ss: seq<Record>) {
    && GroupDates(g) == SessionDates(ss)
    && (forall d :: CountIn(g, d) == CountOn(ss, d))
    && (forall d :: DurationIn(g, d) == DurationOn(ss, d))
    && TotalCount(g) == |ss|
    && TotalDuration(g) == SumOf(ss, SessionDuration)
  }

  lemma GroupsStep(g: seq<DateGroup>, seen: seq<Record>, s: Record)
    requires GroupsOf(g, seen)
    ensures GroupsOf(AddSession(g, DateOf(s), SessionDuration(s)), seen + [s])
  {
    var all := seen + [s];
    assert all[..|all| - 1] == seen && all[|all| - 1] == s;
    var d, dur := DateOf(s), SessionDuration(s);
    var r := AddSession(g, d, dur);
    assert GroupDates(r) == SessionDates(all);
    forall d' ensures CountIn(r, d') == CountOn(all, d') {
      assert CountOn(all, d') == CountOn(seen, d') + if d == d' then 1 else 0;
    }
    forall d' ensures DurationIn(r, d') == DurationOn(all, d') {
      assert DurationOn(all, d') == DurationOn(seen, d') + if d == d' then dur else 0;
    }
    assert SumOf(all, SessionDuration) == SumOf(seen, SessionDuration) + dur;
  }

  /**
   * `sorted(sessions, key=startTime, reverse=True)[:10]`: at most ten
   * sessions, latest first, and none left out starts after one kept.
   */
  function RecentSessions(ss: seq<Record>): (r: seq<Record>)
    ensures |r| == if |ss| < 10 then |ss| else 10
    ensures multiset(r) <= multiset(ss)
    ensures forall i, j :: 0 <= i < j < |r| ==> !StrLess(StartKey(r[i]), StartKey(r[j]))
    ensures forall x :: multiset(r)[x] < multiset(ss)[x] ==>
      forall i :: 0 <= i < |r| ==> !StrLess(StartKey(r[i]), StartKey(x))
  {
    StrGreaterIsStrictOrder();
    TopBy(ss, StartKey, StrGreater, 10)
  }

  /** The response of `get_stats`. */
  datatype TimerStats = TimerStats(
    totalSessions: nat, totalTime: int, sessionsByDate: seq<DateGroup>, recentSessions: seq<Record>)

  /** The two files: `timer_sessions.json` and `timer_settings.json`. */
  class TimerStore {
    var sessions: seq<Record>
    var settings: Value

    /** `ensure_timer_files` with neither file present: no sessions, default settings. */
    constructor Init()
      ensures sessions == [] && settings == DefaultSettings
    {
      sessions := [];
      settings := DefaultSettings;
    }

    constructor (sessions0: seq<Record>, settings0: Value)
      ensures sessions == sessions0 && settings == settings0
    {
      sessions := sessions0;
      settings := settings0;
    }

    /** `create_session`: id `str(count + 1)`, a creation time, appended at the end. */
    method CreateSession(body: Record, now: string) returns (r: Record)
      modifies this
      ensures r == Created(body, old(sessions), now)
      ensures sessions == old(sessions) + [r] && settings == old(settings)
    {
      r := Created(body, sessions, now);
      sessions := sessions + [r];
    }

    /** `delete_session`: drops every session with that id, whether or not one matched. */
    method DeleteSession(id: string)
      modifies this
      ensures sessions == WithoutId(old(sessions), id) && settings == old(settings)
    {
      sessions := WithoutId(sessions, id);
    }

    /** `update_settings`: the body is stored and returned as it is, unchecked. */
    method UpdateSettings(body: Value) returns (r: Value)
      modifies this
      ensures settings == body && r == body && sessions == old(sessions)
    {
      settings := body;
      r := body;
    }

    /** `sum(s.get('duration', 0) for s in sessions)`: none when some duration cannot be added. */
    method TotalTime() returns (r: Option<int>)
      ensures r.None? <==> exists i :: 0 <= i < |sessions| && !Summable(sessions[i])
      ensures r.Some? ==> r.value == SumOf(sessions, SessionDuration)
    {
      var total := 0;
      var i := 0;
      while i < |sessions|
        invariant 0 <= i <= |sessions|
        invariant forall j :: 0 <= j < i ==> Summable(sessions[j])
        invariant total == SumOf(sessions[..i], SessionDuration)
      {
        var s := sessions[i];
        if !Summable(s) {
          return None;
        }
        assert sessions[..i + 1][..i] == sessions[..i] && sessions[..i + 1][i] == s;
        total := total + SessionDuration(s);
        i := i + 1;
      }
      assert sessions[..|sessions|] == sessions;
      r := Some(total);
    }

    /**
     * `get_stats`: totals, the per-day groups built by one pass, and the
     * latest ten; a duration `sum` cannot add is a 500.
     */
    method GetStats() returns (r: Result<TimerStats, int>)
      ensures r.Err? <==> exists i :: 0 <= i < |sessions| && !Summable(sessions[i])
      ensures r.Err? ==> r.error == 500
      ensures r.Ok? ==> r.value.totalSessions == |sessions|
      ensures r.Ok? ==> r.value.totalTime == SumOf(sessions, SessionDuration)
      ensures r.Ok? ==> GroupsOf(r.value.sessionsByDate, sessions)
      ensures r.Ok? ==> r.value.recentSessions == RecentSessions(sessions)
    {
      var total := TotalTime();
      if total.None? {
        return Err(500);
      }
      var groups: seq<DateGroup> := [];
      var i := 0;
      while i < |sessions|
        invariant 0 <= i <= |sessions|
        invariant GroupsOf(groups, sessions[..i])
      {
        var s := sessions[i];
        assert sessions[..i + 1] == sessions[..i] + [s];
        GroupsStep(groups, sessions[..i], s);
        groups := AddSession(groups, DateOf(s), SessionDuration(s));
        i := i + 1;
      }
      assert sessions[..|sessions|] == sessions;
      r := Ok(TimerStats(|sessions|, total.value, groups, RecentSessions(sessions)));
    }
  }
}
