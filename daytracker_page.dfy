/**
 * The logic of the day-tracker page `frontend/src/pages/DayTracker.jsx`:
 * the month grid of the calendar, the duration label of an entry, the
 * start and end times sent to the server, the calendar's "has data" dot and
 * the order in which a day's entries are listed.
 */
module DayTrackerPage {
  import opened Wrappers
  import opened Strings
  import opened Sorting
  import opened Json
  import opened JsTime

  // ---------------------------------------------------------------------
  // Calendar grid. A cell is null before the 1st, then day k of the month;
  // the weekday of the 1st and the month length are inputs (they come
  // from `Date`).
  // ---------------------------------------------------------------------

  /**
   * The grid of a month starting on weekday `start` with `n` days: `start`
   * blank cells, then the days 1 to `n` in order.
   */
  predicate GridShape(cells: seq<Option<nat>>, start: nat, n: nat) {
    && |cells| == start + n
    && (forall i :: 0 <= i < start ==> cells[i] == None)
    && (forall k :: 1 <= k <= n ==> cells[start + k - 1] == Some(k))
  }

  /** `getDaysInMonth`: pushes the blank cells, then the days. */
  method DaysInMonth(startingDayOfWeek: nat, daysInMonth: nat) returns (cells: seq<Option<nat>>)
    ensures GridShape(cells, startingDayOfWeek, daysInMonth)
  {
    cells := [];
    var i := 0;
    while i < startingDayOfWeek
      invariant 0 <= i <= startingDayOfWeek
      invariant |cells| == i
      invariant forall j :: 0 <= j < i ==> cells[j] == None
    {
      cells := cells + [None];
      i := i + 1;
    }
    var day := 1;
    while day <= daysInMonth
      invariant 1 <= day <= daysInMonth + 1
      invariant |cells| == startingDayOfWeek + day - 1
      invariant forall j :: 0 <= j < startingDayOfWeek ==> cells[j] == None
      invariant forall k :: 1 <= k < day ==> cells[startingDayOfWeek + k - 1] == Some(k)
    {
      cells := cells + [Some(day)];
      day := day + 1;
    }
  }

  /**
   * `hasTrackedData`: a blank cell has none; a day has data when its
   * formatted date is among the tracked dates. `formatDate` stands for
   * `toISOString().split('T')[0]` of the cell's `Date`.
   */
  predicate HasTrackedData(cell: Option<nat>, formatDate: nat -> string, trackedDates: seq<string>) {
    match cell
    case None => false
    case Some(day) => formatDate(day) in trackedDates
  }

  /** On a month grid, the marked cells are exactly the days whose date is tracked. */
  lemma TrackedCells(cells: seq<Option<nat>>, start: nat, n: nat, formatDate: nat -> string, trackedDates: seq<string>)
    requires GridShape(cells, start, n)
    ensures forall i :: 0 <= i < |cells| ==>
      (HasTrackedData(cells[i], formatDate, trackedDates) <==> start <= i && formatDate(i - start + 1) in trackedDates)
  {
    forall i | start <= i < |cells| ensures cells[i] == Some(i - start + 1) {
      var k := i - start + 1;
      assert cells[start + k - 1] == Some(k);
    }
  }

  // ---------------------------------------------------------------------
  // Duration label. `new Date(end) - new Date(start)` is a whole number of
  // milliseconds; `Math.floor` and JavaScript's `%` are written out.
  // ---------------------------------------------------------------------

  /** JavaScript's `a % b` for `b > 0`: the remainder takes the sign of `a`. */
  function JsRem(a: int, b: int): (r: int)
    requires b > 0
    ensures a >= 0 ==> r == a % b
    ensures a < 0 ==> -b < r <= 0
    ensures (a - r) % b == 0
  {
    RemCongruent(a, b);
    if a >= 0 then a % b else -((-a) % b)
  }

  /** Both remainders differ from the dividend by a multiple of `b`. */
  lemma RemCongruent(a: int, b: int)
    requires b > 0
    ensures (a - a % b) % b == 0
    ensures (a + (-a) % b) % b == 0
  {
    ModOfMultiple(a / b, b);
    var q := (-a) / b;
    assert a + (-a) % b == (-q) * b;
    ModOfMultiple(-q, b);
  }

  /** A multiple of `b` leaves no remainder. */
  lemma ModOfMultiple(k: int, b: int)
    requires b > 0
    ensures (k * b) % b == 0
  {
    var d := k - (k * b) / b;
    assert d * b == (k * b) % b;
  }

  datatype Duration = Duration(hours: int, mins: int)

  /** `Math.floor(duration / 60)` and `Math.floor(duration % 60)` for `duration = ms / 60000`. */
  function DurationParts(ms: int): (d: Duration)
    ensures ms >= 0 ==> d.hours >= 0 && 0 <= d.mins < 60 && d.hours * 60 + d.mins == ms / MsPerMinute
    ensures ms < 0 ==> d.hours < 0 && -60 <= d.mins <= 0
  {
    var h := ms / MsPerHour;
    var m := JsRem(ms, MsPerHour) / MsPerMinute;
    if ms >= 0 then
      var r := ms % MsPerHour;
      assert ms == h * MsPerHour + (m * MsPerMinute + r % MsPerMinute);
      assert ms == (h * 60 + m) * MsPerMinute + r % MsPerMinute;
      Duration(h, m)
    else
      Duration(h, m)
  }

  /** `formatDuration`: "Hh Mm" when there is at least an hour, else "Mm". */
  function FormatDuration(ms: int): string {
    var d := DurationParts(ms);
    Label(d.hours, d.mins)
  }

  /** The template `${hours}h ${mins}m`, or `${mins}m` below an hour. */
  function Label(hours: int, mins: int): string {
    if hours > 0 then IntToString(hours) + "h " + IntToString(mins) + "m"
    else IntToString(mins) + "m"
  }

  predicate AllDigits(s: string) {
    s != [] && forall i :: 0 <= i < |s| ==> IsDigit(s[i])
  }

  /** Reads a label of the form "Hh Mm" or "Mm" back as whole minutes. */
  function ParseDuration(s: string): Option<int> {
    if s == [] || s[|s| - 1] != 'm' then None
    else ParseLabelParts(Split(s[..|s| - 1], 'h'))
  }

  /** The parts of a label around its 'h': "M" alone, or "H" and " M". */
  function ParseLabelParts(parts: seq<string>): Option<int> {
    if |parts| == 1 && AllDigits(parts[0]) then Some(ParseNat(parts[0]))
    else if |parts| == 2 && AllDigits(parts[0]) && |parts[1]| > 1 && parts[1][0] == ' ' && AllDigits(parts[1][1..])
    then Some(ParseNat(parts[0]) * 60 + ParseNat(parts[1][1..]))
    else None
  }

  /** A numeral holds no letter. */
  lemma NumeralLacks(n: nat, c: char)
    requires !IsDigit(c)
    ensures c !in NatToString(n)
  {
  }

  /** A minutes-only label reads back as its minutes. */
  lemma ReadsBackMinutes(m: nat)
    ensures ParseDuration(NatToString(m) + "m") == Some(m)
  {
    var t := NatToString(m);
    var s := t + "m";
    ParseNatToString(m);
    NumeralLacks(m, 'h');
    assert s[..|s| - 1] == t;
    SplitNoSep(t, 'h');
  }

  /** A label "Hh Mm" splits at its 'h' into the hours and the rest. */
  lemma SplitHours(th: string, tm: string)
    requires 'h' !in th && 'h' !in tm
    ensures Split(th + ['h'] + ([' '] + tm), 'h') == [th, [' '] + tm]
  {
    SplitAppend(th, 'h', [' '] + tm);
    SplitNoSep([' '] + tm, 'h');
  }

  /** A label "Hh Mm" of numerals reads back as H times 60 plus M. */
  lemma ReadsBackParts(th: string, tm: string)
    requires AllDigits(th) && AllDigits(tm)
    ensures ParseDuration(th + ['h'] + ([' '] + tm) + ['m']) == Some(ParseNat(th) * 60 + ParseNat(tm))
  {
    var body := th + ['h'] + ([' '] + tm);
    DropLast(body, 'm');
    NoLetterInNumeral(th, 'h');
    NoLetterInNumeral(tm, 'h');
    SplitHours(th, tm);
    HoursMinutesParts(th, tm);
  }

  /** The text before a final character. */
  lemma DropLast(body: string, c: char)
    ensures (body + [c])[..|body|] == body && (body + [c])[|body|] == c
  {
  }

  /** A numeral holds no letter. */
  lemma NoLetterInNumeral(t: string, c: char)
    requires AllDigits(t) && !IsDigit(c)
    ensures c !in t
  {
  }

  /** The two parts of "Hh Mm" around the 'h' give H times 60 plus M. */
  lemma HoursMinutesParts(th: string, tm: string)
    requires AllDigits(th) && AllDigits(tm)
    ensures ParseLabelParts([th, [' '] + tm]) == Some(ParseNat(th) * 60 + ParseNat(tm))
  {
    assert ([' '] + tm)[1..] == tm;
  }

  /** An hours-and-minutes label reads back as hours times 60 plus the minutes. */
  lemma ReadsBackHoursMinutes(h: nat, m: nat)
    ensures ParseDuration(NatToString(h) + "h " + NatToString(m) + "m") == Some(h * 60 + m)
  {
    var th, tm := NatToString(h), NatToString(m);
    LabelShape(th, tm);
    ReadsBackParts(th, tm);
    ParseNatToString(h);
    ParseNatToString(m);
  }

  /** "Hh Mm" is the hours, 'h', a space and the minutes, then 'm'. */
  lemma LabelShape(th: string, tm: string)
    ensures th + "h " + tm + "m" == th + ['h'] + ([' '] + tm) + ['m']
  {
  }

  /**
   * For a non-negative duration the label is unambiguous: it reads back as
   * the whole minutes of the duration, hours times 60 plus the minutes.
   */
  lemma FormatDurationReadsBack(ms: int)
    requires ms >= 0
    ensures ParseDuration(FormatDuration(ms)) == Some(ms / MsPerMinute)
  {
    var d := DurationParts(ms);
    ReadsBackAs(FormatDuration(ms), d.hours, d.mins, ms / MsPerMinute);
  }

  /** A string that is the label of `h` hours and `m` minutes reads back as `h * 60 + m`. */
  lemma ReadsBackAs(s: string, h: nat, m: nat, n: int)
    requires s == Label(h, m) && n == h * 60 + m
    ensures ParseDuration(s) == Some(n)
  {
    ReadsBackLabel(h, m);
  }

  /** A label of non-negative hours and minutes reads back as hours times 60 plus the minutes. */
  lemma ReadsBackLabel(h: nat, m: nat)
    ensures ParseDuration(Label(h, m)) == Some(h * 60 + m)
  {
    if h > 0 {
      ReadsBackHoursMinutes(h, m);
    } else {
      ReadsBackMinutes(m);
    }
  }

  // ---------------------------------------------------------------------
  // Entry times and listing order.
  // ---------------------------------------------------------------------

  /** `${dateStr}T${time}:00`, the start and end times `handleSubmit` sends. */
  function EntryTime(date: string, time: string): (r: string)
    ensures |r| == |date| + |time| + 4
    ensures r[..|date|] == date && r[|date|] == 'T'
    ensures r[|date| + 1..|date| + 1 + |time|] == time
    ensures r[|r| - 3..] == ":00"
  {
    date + "T" + time + ":00"
  }

  /** The date part of an entry time, read as `split('T')[0]`, is the entry's date. */
  lemma EntryTimeDate(date: string, time: string)
    requires 'T' !in date
    ensures Split(EntryTime(date, time), 'T')[0] == date
  {
    assert EntryTime(date, time) == date + ['T'] + (time + ":00");
    SplitAppend(date, 'T', time + ":00");
  }

  /**
   * `entries.sort((a, b) => new Date(a.startTime) - new Date(b.startTime))`:
   * the same entries, by ascending start time, entries with equal start
   * times in their stored order. `timeOf` stands for `new Date(...)`.
   */
  function EntriesInOrder(es: seq<Record>, timeOf: Value -> int): (r: seq<Record>)
    ensures multiset(r) == multiset(es)
    ensures forall i, j :: 0 <= i < j < |r| ==> StartOf(timeOf)(r[i]) <= StartOf(timeOf)(r[j])
    ensures forall t :: KeyClass(r, StartOf(timeOf), t) == KeyClass(es, StartOf(timeOf), t)
  {
    IntLessIsStrictOrder();
    SortBy(es, StartOf(timeOf), IntLess)
  }

  /** The sort key: the time of an entry's `startTime`. */
  function StartOf(timeOf: Value -> int): Record -> int {
    (e: Record) => timeOf(GetOr(e, "startTime", Null))
  }
}
