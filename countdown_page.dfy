/**
 * The countdown page `frontend/src/pages/Countdown.jsx`: `calculateTimeLeft`
 * splits the milliseconds until an event into days, hours, minutes and
 * seconds. `diff` is `new Date(targetDate) - currentTime`, passed in.
 */
module CountdownPage {
  import opened JsTime

  /** A non-zero multiple of `b` is at least `b` away from zero. */
  lemma {:induction false} MultipleAway(d: int, b: int)
    requires b > 0 && d != 0
    ensures d * b >= b || d * b <= -b
    decreases if d > 0 then d else -d
  {
    if d > 1 {
      MultipleAway(d - 1, b);
      assert d * b == (d - 1) * b + b;
    } else if d < -1 {
      MultipleAway(d + 1, b);
      assert d * b == (d + 1) * b - b;
    }
  }

  /** Euclidean division is unique: a quotient and a remainder in range are `/` and `%`. */
  lemma DivModUnique(a: int, b: int, q: int, rem: int)
    requires b > 0 && a == q * b + rem && 0 <= rem < b
    ensures a / b == q && a % b == rem
  {
    var q', rem' := a / b, a % b;
    assert a == q' * b + rem';
    if q' != q {
      assert (q' - q) * b == q' * b - q * b;
      MultipleAway(q' - q, b);
    }
  }

  datatype TimeLeft = TimeLeft(days: int, hours: int, minutes: int, seconds: int, isPast: bool)

  /** The milliseconds a breakdown stands for, to the whole second. */
  function Span(t: TimeLeft): int {
    t.days * MsPerDay + t.hours * MsPerHour + t.minutes * MsPerMinute + t.seconds * MsPerSecond
  }

  /**
   * `calculateTimeLeft`: nothing left (and past) once `diff <= 0`, the
   * target instant included; otherwise whole days, then the hours,
   * minutes and seconds of the remainder, each in its range, together
   * `diff` rounded down to the second.
   */
  function CalculateTimeLeft(diff: int): (r: TimeLeft)
    ensures diff <= 0 <==> r.isPast
    ensures diff <= 0 ==> r == TimeLeft(0, 0, 0, 0, true)
    ensures diff > 0 ==> r.days == diff / MsPerDay && r.days >= 0
    ensures diff > 0 ==> 0 <= r.hours < 24 && 0 <= r.minutes < 60 && 0 <= r.seconds < 60
    ensures diff > 0 ==> Span(r) <= diff < Span(r) + MsPerSecond
  {
    if diff <= 0 then TimeLeft(0, 0, 0, 0, true)
    else
      var days := diff / MsPerDay;
      var hours := (diff % MsPerDay) / MsPerHour;
      var minutes := (diff % MsPerHour) / MsPerMinute;
      var seconds := (diff % MsPerMinute) / MsPerSecond;
      var ms := diff % MsPerSecond;
      var inDay, inHour, inMinute := diff % MsPerDay, diff % MsPerHour, diff % MsPerMinute;
      DivModUnique(inDay, MsPerHour, hours, inDay % MsPerHour);
      DivModUnique(diff, MsPerHour, days * 24 + hours, inDay % MsPerHour);
      DivModUnique(inHour, MsPerMinute, minutes, inHour % MsPerMinute);
      DivModUnique(diff, MsPerMinute, (days * 24 + hours) * 60 + minutes, inHour % MsPerMinute);
      DivModUnique(inMinute, MsPerSecond, seconds, ms);
      TimeLeft(days, hours, minutes, seconds, false)
  }

  /**
   * The breakdown is the only one with fields in range that spans `diff`
   * to the second, so the display is exact.
   */
  lemma TimeLeftUnique(diff: int, t: TimeLeft)
    requires diff > 0 && !t.isPast
    requires t.days >= 0 && 0 <= t.hours < 24 && 0 <= t.minutes < 60 && 0 <= t.seconds < 60
    requires Span(t) <= diff < Span(t) + MsPerSecond
    ensures t == CalculateTimeLeft(diff)
  {
    var r := CalculateTimeLeft(diff);
    var inDay := t.hours * MsPerHour + t.minutes * MsPerMinute + t.seconds * MsPerSecond;
    assert 0 <= inDay && inDay + MsPerSecond <= MsPerDay;
    assert t.days == r.days;
    var inHour := t.minutes * MsPerMinute + t.seconds * MsPerSecond;
    assert inHour + MsPerSecond <= MsPerHour;
    assert t.hours == r.hours;
    assert t.minutes == r.minutes;
  }
}
