/**
 * The day tracker of `backend/routes/daytracker.py`: one log of time
 * entries per calendar day, held in `day_<date>.json`, with routes that
 * create, update and delete entries and that total the tracked minutes of
 * a day or of a range of days.
 */
module DayTracker {
  import opened Wrappers
  import opened Strings
  import opened Seqs
  import opened Sorting
  import opened Json

  /** What `get_day_data` returns: the date and its entries. */
  datatype Day = Day(date: string, entries: seq<Record>)

  /** The entries stored for a date; a date without a file has none. */
  function EntriesOn(days: map<string, seq<Record>>, date: string): seq<Record> {
    if date in days then days[date] else []
  }

  /**
   * The entry `update_entry` stores: the request body with the path id, the
   * old entry's `createdAt` (null when it had none) and the update time.
   */
  function Replacement(prev: Record, body: Record, id: string, now: string): (r: Record)
    ensures HasId(r, id)
    ensures "createdAt" in r && r["createdAt"] == GetOr(prev, "createdAt", Null)
    ensures "updatedAt" in r && r["updatedAt"] == Str(now)
    ensures r.Keys == body.Keys + {"id", "createdAt", "updatedAt"}
    ensures forall k :: k in body && k != "id" && k != "createdAt" && k != "updatedAt" ==> r[k] == body[k]
  {
    body["id" := Str(id)]["createdAt" := GetOr(prev, "createdAt", Null)]["updatedAt" := Str(now)]
  }

  /** An update keeps a sequential log sequential, since the entry keeps its id. */
  lemma UpdateKeepsSequential(es: seq<Record>, i: nat, body: Record, id: string, now: string)
    requires SequentialIds(es)
    requires i < |es| && HasId(es[i], id)
    ensures SequentialIds(es[i := Replacement(es[i], body, id, now)])
  {
    var r := es[i := Replacement(es[i], body, id, now)];
    forall j | 0 <= j < |r| ensures HasId(r[j], NatToString(j + 1)) {
      if j == i {
        assert es[i]["id"] == Str(id) == Str(NatToString(i + 1));
      }
    }
  }

  // ---------------------------------------------------------------------
  // Statistics. `parses` says whether `datetime.fromisoformat` accepts a
  // value; durations come from an oracle `duration(startTime, endTime)`
  // giving whole minutes, in place of `total_seconds() / 60`.
  // ---------------------------------------------------------------------

  /** `entry.get('startTime') and entry.get('endTime')`: only such entries are timed. */
  predicate Timed(e: Record) {
    Truthy(GetOr(e, "startTime", Null)) && Truthy(GetOr(e, "endTime", Null))
  }

  /** A timed entry's two times both parse; an untimed entry is never parsed. */
  predicate TimesParse(e: Record, parses: Value -> bool) {
    Timed(e) ==> parses(GetOr(e, "startTime", Null)) && parses(GetOr(e, "endTime", Null))
  }

  /** Every entry of the list tallies without `fromisoformat` raising. */
  predicate AllTimesParse(es: seq<Record>, parses: Value -> bool) {
    forall e :: e in es ==> TimesParse(e, parses)
  }

  /** `entry.get('subject', 'Other')`. */
  function SubjectOf(e: Record): Value {
    GetOr(e, "subject", Str("Other"))
  }

  function Minutes(e: Record, duration: (Value, Value) -> int): int {
    duration(GetOr(e, "startTime", Null), GetOr(e, "endTime", Null))
  }

  /** The minutes of all timed entries. */
  function TimedMinutes(es: seq<Record>, duration: (Value, Value) -> int): int {
    if es == [] then 0
    else
      var e := es[|es| - 1];
      TimedMinutes(es[..|es| - 1], duration) + if Timed(e) then Minutes(e, duration) else 0
  }

  /** The minutes of the timed entries with subject `k`. */
  function SubjectTotal(es: seq<Record>, k: Value, duration: (Value, Value) -> int): int {
    if es == [] then 0
    else
      var e := es[|es| - 1];
      SubjectTotal(es[..|es| - 1], k, duration) + if Timed(e) && SubjectOf(e) == k then Minutes(e, duration) else 0
  }

  /** The subjects of the timed entries, in order of first appearance (a dict's key order). */
  function TimedSubjects(es: seq<Record>): seq<Value> {
    if es == [] then []
    else
      var e := es[|es| - 1];
      var prior := TimedSubjects(es[..|es| - 1]);
      if Timed(e) && SubjectOf(e) !in prior then prior + [SubjectOf(e)] else prior
  }

  /** Each subject appears once in the breakdown. */
  lemma {:induction false} TimedSubjectsNoDup(es: seq<Record>)
    ensures NoDup(TimedSubjects(es))
  {
    if es != [] {
      TimedSubjectsNoDup(es[..|es| - 1]);
    }
  }

  /** The breakdown names exactly the subjects of timed entries. */
  lemma {:induction false} TimedSubjectsMember(es: seq<Record>, k: Value)
    ensures k in TimedSubjects(es) <==> exists i :: 0 <= i < |es| && Timed(es[i]) && SubjectOf(es[i]) == k
  {
    if es != [] {
      var init := es[..|es| - 1];
      TimedSubjectsMember(init, k);
      if exists i :: 0 <= i < |es| && Timed(es[i]) && SubjectOf(es[i]) == k {
        var i :| 0 <= i < |es| && Timed(es[i]) && SubjectOf(es[i]) == k;
        if i < |init| {
          assert init[i] == es[i];
        }
      }
      if exists i :: 0 <= i < |init| && Timed(init[i]) && SubjectOf(init[i]) == k {
        var i :| 0 <= i < |init| && Timed(init[i]) && SubjectOf(init[i]) == k;
        assert es[i] == init[i];
      }
    }
  }

  /** A subject no timed entry has gets no minutes. */
  lemma {:induction false} SubjectTotalAbsent(es: seq<Record>, k: Value, duration: (Value, Value) -> int)
    requires k !in TimedSubjects(es)
    ensures SubjectTotal(es, k, duration) == 0
  {
    if es != [] {
      var init := es[..|es| - 1];
      assert k !in TimedSubjects(init);
      SubjectTotalAbsent(init, k, duration);
    }
  }

  /** One subject's running total, as the `subjects` dict holds it. */
  datatype SubjectMinutes = SubjectMinutes(subject: Value, minutes: int)

  function KeysOf(b: seq<SubjectMinutes>): (r: seq<Value>)
    ensures |r| == |b|
    ensures forall i :: 0 <= i < |b| ==> r[i] == b[i].subject
  {
    if b == [] then [] else [b[0].subject] + KeysOf(b[1..])
  }

  /** `subjects.get(k, 0)`. */
  function Lookup(b: seq<SubjectMinutes>, k: Value): int {
    if b == [] then 0 else if b[0].subject == k then b[0].minutes else Lookup(b[1..], k)
  }

  /** `sum(subjects.values())`. */
  function TotalOf(b: seq<SubjectMinutes>): int {
    if b == [] then 0 else b[0].minutes + TotalOf(b[1..])
  }

  /** `if k not in subjects: subjects[k] = 0` then `subjects[k] += d`. */
  function Bump(b: seq<SubjectMinutes>, k: Value, d: int): (r: seq<SubjectMinutes>)
    ensures KeysOf(r) == if k in KeysOf(b) then KeysOf(b) else KeysOf(b) + [k]
    ensures forall k' :: Lookup(r, k') == Lookup(b, k') + if k' == k then d else 0
    ensures TotalOf(r) == TotalOf(b) + d
  {
    if b == [] then [SubjectMinutes(k, d)]
    else if b[0].subject == k then [b[0].(minutes := b[0].minutes + d)] + b[1..]
    else
      var rest := Bump(b[1..], k, d);
      assert KeysOf([b[0]] + rest) == [b[0].subject] + KeysOf(rest);
      [b[0]] + rest
  }

  /** What the stats loops accumulate over a run of entries. */
  datatype Tally = Tally(entries: nat, minutes: int, subjects: seq<SubjectMinutes>)

  /**
   * `t` is the tally of `es`: every entry counted, the minutes of the timed
   * ones summed, overall and per subject in order of first appearance, and
   * the per-subject minutes adding up to the total.
   */
  ghost predicate Describes(t: Tally, es: seq<Record>, duration: (Value, Value) -> int) {
    && t.entries == |es|
    && t.minutes == TimedMinutes(es, duration)
    && KeysOf(t.subjects) == TimedSubjects(es)
    && (forall k :: Lookup(t.subjects, k) == SubjectTotal(es, k, duration))
    && TotalOf(t.subjects) == t.minutes
  }

  /** Counting a timed entry adds its minutes to the total and to its subject. */
  lemma TallyTimed(t: Tally, seen: seq<Record>, e: Record, duration: (Value, Value) -> int)
    requires Describes(t, seen, duration) && Timed(e)
    ensures var d := Minutes(e, duration);
      Describes(Tally(t.entries + 1, t.minutes + d, Bump(t.subjects, SubjectOf(e), d)), seen + [e], duration)
  {
    var s := seen + [e];
    assert s[..|s| - 1] == seen && s[|s| - 1] == e;
  }

  /** Counting an untimed entry changes only the count. */
  lemma TallyUntimed(t: Tally, seen: seq<Record>, e: Record, duration: (Value, Value) -> int)
    requires Describes(t, seen, duration) && !Timed(e)
    ensures Describes(t.(entries := t.entries + 1), seen + [e], duration)
  {
    var s := seen + [e];
    assert s[..|s| - 1] == seen && s[|s| - 1] == e;
  }

  /**
   * The body of the stats loops: continues the tally of `prior` over `es`;
   * it stops (`ok` false) at the first timed entry whose times do not parse.
   */
  method TallyEntries(t: Tally, prior: seq<Record>, es: seq<Record>, parses: Value -> bool,
                      duration: (Value, Value) -> int) returns (ok: bool, r: Tally)
    requires Describes(t, prior, duration)
    ensures ok <==> AllTimesParse(es, parses)
    ensures ok ==> Describes(r, prior + es, duration)
  {
    r := t;
    var i := 0;
    assert prior + es[..0] == prior;
    while i < |es|
      invariant 0 <= i <= |es|
      invariant AllTimesParse(es[..i], parses)
      invariant Describes(r, prior + es[..i], duration)
    {
      var e := es[i];
      if !TimesParse(e, parses) {
        return false, r;
      }
      assert es[..i + 1] == es[..i] + [e];
      assert prior + es[..i + 1] == (prior + es[..i]) + [e];
      if Timed(e) {
        var d := Minutes(e, duration);
        TallyTimed(r, prior + es[..i], e, duration);
        r := Tally(r.entries + 1, r.minutes + d, Bump(r.subjects, SubjectOf(e), d));
      } else {
        TallyUntimed(r, prior + es[..i], e, duration);
        r := r.(entries := r.entries + 1);
      }
      i := i + 1;
    }
    assert es[..|es|] == es;
    ok := true;
  }

  /** The response of `get_day_stats`, without the float `totalHours`. */
  datatype DayStats = DayStats(date: string, totalMinutes: int, entryCount: nat, subjectBreakdown: seq<SubjectMinutes>)

  /** The response of `get_range_stats`, without the float `totalHours`. */
  datatype RangeStats = RangeStats(
    startDate: string, endDate: string, totalMinutes: int, totalEntries: nat,
    trackedDays: nat, subjectBreakdown: seq<SubjectMinutes>)

  /** `start_date <= d <= end_date` in string order. */
  predicate InRange(d: string, start: string, end: string) {
    StrLessEq(start, d) && StrLessEq(d, end)
  }

  /** The entries of the given dates, date after date. */
  function RangeEntries(days: map<string, seq<Record>>, ds: seq<string>): seq<Record> {
    if ds == [] then [] else RangeEntries(days, ds[..|ds| - 1]) + EntriesOn(days, ds[|ds| - 1])
  }

  /** The count of entries of a run of dates is the sum of the counts of its days. */
  lemma {:induction false} RangeEntriesCount(days: map<string, seq<Record>>, ds: seq<string>)
    ensures |RangeEntries(days, ds)| == SumOf(ds, (d: string) => |EntriesOn(days, d)|)
  {
    if ds != [] {
      RangeEntriesCount(days, ds[..|ds| - 1]);
    }
  }

  /** Taking one more date appends that day's entries. */
  lemma RangeEntriesStep(days: map<string, seq<Record>>, ds: seq<string>, i: nat)
    requires i < |ds|
    ensures RangeEntries(days, ds[..i + 1]) == RangeEntries(days, ds[..i]) + EntriesOn(days, ds[i])
  {
    assert ds[..i + 1][..i] == ds[..i];
  }

  /** The entries of a prefix of the dates are among the entries of all of them. */
  lemma {:induction false} RangeEntriesPrefix(days: map<string, seq<Record>>, ds: seq<string>, k: nat)
    requires k <= |ds|
    ensures forall e :: e in RangeEntries(days, ds[..k]) ==> e in RangeEntries(days, ds)
  {
    if k < |ds| {
      var init := ds[..|ds| - 1];
      assert init[..k] == ds[..k];
      RangeEntriesPrefix(days, init, k);
    } else {
      assert ds[..k] == ds;
    }
  }

  predicate Ascending(ds: seq<string>) {
    forall i, j :: 0 <= i < j < |ds| ==> StrLess(ds[i], ds[j])
  }

  /** The test `start_date <= d <= end_date`. */
  function InRangeOf(start: string, end: string): string -> bool {
    (d: string) => InRange(d, start, end)
  }

  /** The dates of the range, kept from the ascending dates with a file: the dates in range, still ascending. */
  lemma RangeOfDates(dates: seq<string>, tracked: set<string>, start: string, end: string)
    requires forall d :: d in dates <==> d in tracked
    requires Ascending(dates)
    ensures forall d :: d in Filter(dates, InRangeOf(start, end)) <==> d in tracked && InRange(d, start, end)
    ensures Ascending(Filter(dates, InRangeOf(start, end)))
  {
    FilterChain(dates, InRangeOf(start, end), StrLess);
  }

  /** The day files, as a map from each file's date to its entries. */
  class Tracker {
    var days: map<string, seq<Record>>

    constructor (days0: map<string, seq<Record>>)
      ensures days == days0
    {
      days := days0;
    }

    /** `get_day_data`: a date without a file reads as no entries. */
    function GetDay(date: string): (r: Day)
      reads this
      ensures r.date == date
      ensures date !in days ==> r.entries == []
      ensures date in days ==> r.entries == days[date]
    {
      Day(date, EntriesOn(days, date))
    }

    /** `get_all_tracked_dates`: every date with a file, once each, in ascending order. */
    method TrackedDates() returns (dates: seq<string>)
      ensures forall d :: d in dates <==> d in days
      ensures Ascending(dates)
    {
      var found: seq<string> := [];
      var rest := days.Keys;
      while rest != {}
        invariant rest <= days.Keys
        invariant forall d :: d in found <==> d in days && d !in rest
        invariant NoDup(found)
        decreases rest
      {
        var d :| d in rest;
        found := found + [d];
        rest := rest - {d};
      }
      StrLessIsStrictOrder();
      dates := SortBy(found, (x: string) => x, StrLess);
      NoDupMultiset(found);
      NoDupMultiset(dates);
      SortedDistinctStrings(dates);
      forall d ensures d in dates <==> d in found {
        assert d in dates <==> multiset(dates)[d] > 0;
        assert d in found <==> multiset(found)[d] > 0;
      }
    }

    /**
     * `create_entry`: an entry without a date is refused with 400; otherwise
     * it gets id `str(count + 1)` and a creation time, and goes at the end
     * of its day, whose file exists from then on.
     */
    method CreateEntry(entry: Record, now: string) returns (r: Result<Record, int>)
      modifies this
      ensures StrField(entry, "date") == "" <==> r.Err?
      ensures r.Err? ==> r.error == 400 && days == old(days)
      ensures r.Ok? ==>
        var date := StrField(entry, "date");
        var es := EntriesOn(old(days), date);
        r.value == Created(entry, es, now) && days == old(days)[date := es + [r.value]]
    {
      var date := StrField(entry, "date");
      if date == "" {
        return Err(400);
      }
      var es := GetDay(date).entries;
      var e := Created(entry, es, now);
      days := days[date := es + [e]];
      r := Ok(e);
    }

    /**
     * `update_entry`: the first entry with that id is replaced and the day
     * saved; an unknown id gives 404 and nothing is saved.
     */
    method UpdateEntry(date: string, id: string, body: Record, now: string) returns (r: Result<Record, int>)
      modifies this
      ensures var es := EntriesOn(old(days), date);
        match IndexOfId(es, id)
        case None => r == Err(404) && days == old(days)
        case Some(i) => r == Ok(Replacement(es[i], body, id, now)) && days == old(days)[date := es[i := r.value]]
    {
      var es := GetDay(date).entries;
      var i := 0;
      while i < |es|
        invariant 0 <= i <= |es|
        invariant forall j :: 0 <= j < i ==> !HasId(es[j], id)
      {
        if HasId(es[i], id) {
          assert IndexOfId(es, id) == Some(i);
          var e := Replacement(es[i], body, id, now);
          days := days[date := es[i := e]];
          return Ok(e);
        }
        i := i + 1;
      }
      return Err(404);
    }

    /** `delete_entry`: drops every entry with that id and saves the day, even when none matched. */
    method DeleteEntry(date: string, id: string)
      modifies this
      ensures days == old(days)[date := WithoutId(EntriesOn(old(days), date), id)]
    {
      var es := GetDay(date).entries;
      days := days[date := WithoutId(es, id)];
    }

    /**
     * `get_day_stats`: the tally of the day's entries; a timed entry whose
     * start or end time does not parse is a 500.
     */
    method GetDayStats(date: string, parses: Value -> bool, duration: (Value, Value) -> int)
      returns (r: Result<DayStats, int>)
      ensures r.Err? <==> !AllTimesParse(EntriesOn(days, date), parses)
      ensures r.Err? ==> r.error == 500
      ensures r.Ok? ==> r.value.date == date
      ensures r.Ok? ==>
        Describes(Tally(r.value.entryCount, r.value.totalMinutes, r.value.subjectBreakdown), EntriesOn(days, date), duration)
    {
      var es := GetDay(date).entries;
      assert [] + es == es;
      var ok, t := TallyEntries(Tally(0, 0, []), [], es, parses, duration);
      if !ok {
        return Err(500);
      }
      r := Ok(DayStats(date, t.minutes, |es|, t.subjects));
    }

    /** The entries of a run of dates, tallied date after date, stopping at a time that does not parse. */
    method TallyRange(range: seq<string>, parses: Value -> bool, duration: (Value, Value) -> int)
      returns (ok: bool, t: Tally)
      ensures ok <==> AllTimesParse(RangeEntries(days, range), parses)
      ensures ok ==> Describes(t, RangeEntries(days, range), duration)
    {
      t := Tally(0, 0, []);
      var i := 0;
      while i < |range|
        invariant 0 <= i <= |range|
        invariant AllTimesParse(RangeEntries(days, range[..i]), parses)
        invariant Describes(t, RangeEntries(days, range[..i]), duration)
      {
        var dayEntries := GetDay(range[i]).entries;
        RangeEntriesStep(days, range, i);
        ok, t := TallyEntries(t, RangeEntries(days, range[..i]), dayEntries, parses, duration);
        if !ok {
          RangeEntriesPrefix(days, range, i + 1);
          return;
        }
        i := i + 1;
      }
      assert range[..|range|] == range;
      ok := true;
    }

    /**
     * `get_range_stats`: 400 unless both bounds are given (a missing query
     * parameter is ""); otherwise the tally of the entries of the tracked
     * dates from `start` to `end` inclusive, visited in ascending order,
     * which are also returned as `range`, or a 500 when a timed entry of
     * those dates has a time that does not parse.
     */
    method GetRangeStats(start: string, end: string, parses: Value -> bool, duration: (Value, Value) -> int)
      returns (r: Result<RangeStats, int>, range: seq<string>)
      ensures start == "" || end == "" ==> r == Err(400)
      ensures start != "" && end != "" ==>
        (forall d :: d in range <==> d in days && InRange(d, start, end)) && Ascending(range) &&
        (r.Err? <==> !AllTimesParse(RangeEntries(days, range), parses)) &&
        (r.Err? ==> r.error == 500)
      ensures r.Ok? ==>
        var s := r.value;
        s.startDate == start && s.endDate == end && s.trackedDays == |range| &&
        Describes(Tally(s.totalEntries, s.totalMinutes, s.subjectBreakdown), RangeEntries(days, range), duration)
    {
      range := [];
      if start == "" || end == "" {
        return Err(400), range;
      }
      var dates := TrackedDates();
      range := Filter(dates, InRangeOf(start, end));
      RangeOfDates(dates, days.Keys, start, end);
      var ok, t := TallyRange(range, parses, duration);
      if !ok {
        return Err(500), range;
      }
      r := Ok(RangeStats(start, end, t.minutes, t.entries, |range|, t.subjects));
    }
  }
}
