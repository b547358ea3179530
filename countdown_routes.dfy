/**
 * The countdown routes of `backend/routes/countdown.py`: a log of events
 * with a target date, with create, merge-update and delete, and the
 * dashboard statistics (the number of events and the next five to come).
 */
module CountdownRoutes {
  import opened Wrappers
  import opened Strings
  import opened Seqs
  import opened Sorting
  import opened Json

  /**
   * `{**event, **updated_event, 'id': event_id}`: the body's fields win, the
   * old fields the body lacks stay, and the id is the path's.
   */
  function Merged(prev: Record, body: Record, id: string): (r: Record)
    ensures HasId(r, id)
    ensures r.Keys == prev.Keys + body.Keys + {"id"}
    ensures forall k :: k in body && k != "id" ==> r[k] == body[k]
    ensures forall k :: k in prev && k !in body && k != "id" ==> r[k] == prev[k]
  {
    prev + body + map["id" := Str(id)]
  }

  /** Merging into an event keeps a sequential log sequential, since the id is forced back. */
  lemma MergeKeepsSequential(es: seq<Record>, i: nat, body: Record, id: string)
    requires SequentialIds(es)
    requires i < |es| && HasId(es[i], id)
    ensures SequentialIds(es[i := Merged(es[i], body, id)])
  {
    var r := es[i := Merged(es[i], body, id)];
    forall j | 0 <= j < |r| ensures HasId(r[j], NatToString(j + 1)) {
      if j == i {
        assert es[i]["id"] == Str(id) == Str(NatToString(i + 1));
      }
    }
  }

  // ---------------------------------------------------------------------
  // Statistics. `parses` says whether `datetime.fromisoformat` accepts a
  // value and `instantOf` gives the time it reads, in microseconds (the
  // resolution of `datetime`); `now` is `datetime.now()` in the same unit.
  // ---------------------------------------------------------------------

  const MicrosPerDay: int := 86_400_000_000

  /** `datetime.fromisoformat(event['targetDate'])` succeeds: the key is there and its value parses. */
  predicate TargetParses(e: Record, parses: Value -> bool) {
    "targetDate" in e && parses(e["targetDate"])
  }

  /** `target_time > now`: the event is still to come. */
  predicate IsUpcoming(e: Record, now: int, instantOf: Value -> int) {
    instantOf(GetOr(e, "targetDate", Null)) > now
  }

  /** `(target_time - now).days`: whole days left, rounded down as `timedelta` does. */
  function DaysLeft(e: Record, now: int, instantOf: Value -> int): (r: int)
    ensures var left := instantOf(GetOr(e, "targetDate", Null)) - now;
      r * MicrosPerDay <= left < (r + 1) * MicrosPerDay
  {
    (instantOf(GetOr(e, "targetDate", Null)) - now) / MicrosPerDay
  }

  /** A target half a second short of a day away is upcoming with no whole day left. */
  lemma HalfSecondShortOfDay(e: Record, now: int, instantOf: Value -> int)
    requires instantOf(GetOr(e, "targetDate", Null)) == now + MicrosPerDay - 500_000
    ensures IsUpcoming(e, now, instantOf) && DaysLeft(e, now, instantOf) == 0
  {
  }

  /** `{**event, 'daysLeft': ...}`. */
  function Annotated(e: Record, now: int, instantOf: Value -> int): (r: Record)
    requires IsUpcoming(e, now, instantOf)
    ensures r.Keys == e.Keys + {"daysLeft"}
    ensures forall k :: k in e && k != "daysLeft" ==> r[k] == e[k]
    ensures r["daysLeft"] == Num(DaysLeft(e, now, instantOf))
    ensures DaysLeftOf(r) >= 0
  {
    e["daysLeft" := Num(DaysLeft(e, now, instantOf))]
  }

  /** The `daysLeft` field, the sort key of the upcoming list. */
  function DaysLeftOf(e: Record): int {
    match GetOr(e, "daysLeft", Null)
    case Num(n) => n
    case _ => 0
  }

  /**
   * The upcoming events in log order, each with its days left: exactly the
   * annotated events whose target is after `now`.
   */
  function UpcomingOf(es: seq<Record>, now: int, instantOf: Value -> int): (r: seq<Record>)
    ensures |r| <= |es|
    ensures forall x :: x in r <==> UpcomingIn(es, x, now, instantOf)
  {
    if es == [] then []
    else
      var prior := UpcomingOf(es[..|es| - 1], now, instantOf);
      var r := WithUpcoming(prior, es[|es| - 1], now, instantOf);
      UpcomingStep(es, prior, r, now, instantOf);
      r
  }

  /** One pass of the loop: `e`, annotated, is appended when its target is after `now`. */
  function WithUpcoming(prior: seq<Record>, e: Record, now: int, instantOf: Value -> int): seq<Record> {
    if IsUpcoming(e, now, instantOf) then prior + [Annotated(e, now, instantOf)] else prior
  }

  /** The upcoming list of one more event: that event, annotated, is added exactly when it is upcoming. */
  lemma UpcomingOfSnoc(es: seq<Record>, i: nat, now: int, instantOf: Value -> int)
    requires i < |es|
    ensures UpcomingOf(es[..i + 1], now, instantOf) == WithUpcoming(UpcomingOf(es[..i], now, instantOf), es[i], now, instantOf)
  {
    assert es[..i + 1][..i] == es[..i];
  }

  /** `x` is the annotation of some event of `es` whose target is after `now`. */
  predicate UpcomingIn(es: seq<Record>, x: Record, now: int, instantOf: Value -> int) {
    exists i :: 0 <= i < |es| && IsUpcoming(es[i], now, instantOf) && x == Annotated(es[i], now, instantOf)
  }

  /** One more event keeps the membership of the upcoming list. */
  lemma UpcomingStep(es: seq<Record>, prior: seq<Record>, r: seq<Record>, now: int, instantOf: Value -> int)
    requires es != []
    requires forall x :: x in prior <==> UpcomingIn(es[..|es| - 1], x, now, instantOf)
    requires r == WithUpcoming(prior, es[|es| - 1], now, instantOf)
    ensures forall x :: x in r <==> UpcomingIn(es, x, now, instantOf)
  {
    var e := es[|es| - 1];
    forall x ensures x in r <==>
      exists i :: 0 <= i < |es| && IsUpcoming(es[i], now, instantOf) && x == Annotated(es[i], now, instantOf)
    {
      var fromLast := IsUpcoming(e, now, instantOf) && x == Annotated(e, now, instantOf);
      if x in prior {
        var i :| 0 <= i < |es| - 1 && IsUpcoming(es[..|es| - 1][i], now, instantOf) && x == Annotated(es[..|es| - 1][i], now, instantOf);
        assert es[..|es| - 1][i] == es[i];
      } else if fromLast {
        assert x in r;
      } else {
        forall i | 0 <= i < |es| && IsUpcoming(es[i], now, instantOf)
          ensures x != Annotated(es[i], now, instantOf)
        {
          if i < |es| - 1 {
            assert es[..|es| - 1][i] == es[i];
          }
        }
      }
    }
  }

  /** No upcoming event has a negative number of days left. */
  lemma {:induction false} UpcomingDaysLeft(es: seq<Record>, now: int, instantOf: Value -> int)
    ensures forall x :: x in UpcomingOf(es, now, instantOf) ==> DaysLeftOf(x) >= 0
  {
    forall x | x in UpcomingOf(es, now, instantOf) ensures DaysLeftOf(x) >= 0 {
      assert UpcomingIn(es, x, now, instantOf);
      var i :| 0 <= i < |es| && IsUpcoming(es[i], now, instantOf) && x == Annotated(es[i], now, instantOf);
    }
  }

  /**
   * `upcoming.sort(key=daysLeft)` then `[:5]`: the first five of the
   * stable sort, so at most five, closest first, ties in log order, and
   * none left out is closer than one kept.
   */
  function NextFive(upcoming: seq<Record>): (r: seq<Record>)
    ensures |r| == if |upcoming| < 5 then |upcoming| else 5
    ensures r == ByDaysLeft(upcoming)[..|r|]
    ensures multiset(r) <= multiset(upcoming)
    ensures forall i, j :: 0 <= i < j < |r| ==> DaysLeftOf(r[i]) <= DaysLeftOf(r[j])
    ensures forall x :: multiset(r)[x] < multiset(upcoming)[x] ==>
      forall i :: 0 <= i < |r| ==> DaysLeftOf(r[i]) <= DaysLeftOf(x)
  {
    TopByIntAscending(upcoming, DaysLeftOf, 5)
  }

  /** `upcoming.sort(key=daysLeft)`: a stable reordering, fewest days left first. */
  function ByDaysLeft(upcoming: seq<Record>): (r: seq<Record>)
    ensures |r| == |upcoming| && multiset(r) == multiset(upcoming)
    ensures forall i, j :: 0 <= i < j < |r| ==> DaysLeftOf(r[i]) <= DaysLeftOf(r[j])
    ensures forall k :: KeyClass(r, DaysLeftOf, k) == KeyClass(upcoming, DaysLeftOf, k)
  {
    IntLessIsStrictOrder();
    SortBy(upcoming, DaysLeftOf, IntLess)
  }

  /** The response of `get_stats`. */
  datatype CountdownStats = CountdownStats(totalEvents: nat, upcomingEvents: seq<Record>)

  /** The file `countdowns.json`. */
  class CountdownStore {
    var events: seq<Record>

    constructor (events0: seq<Record>)
      ensures events == events0
    {
      events := events0;
    }

    /** `create_event`: id `str(count + 1)`, a creation time, appended at the end. */
    method CreateEvent(body: Record, now: string) returns (r: Record)
      modifies this
      ensures r == Created(body, old(events), now)
      ensures events == old(events) + [r]
    {
      r := Created(body, events, now);
      events := events + [r];
    }

    /** `update_event`: merges into the first event with that id; an unknown id gives 404 and saves nothing. */
    method UpdateEvent(id: string, body: Record) returns (r: Result<Record, int>)
      modifies this
      ensures match IndexOfId(old(events), id)
        case None => r == Err(404) && events == old(events)
        case Some(i) => r == Ok(Merged(old(events)[i], body, id)) && events == old(events)[i := r.value]
    {
      var i := 0;
      while i < |events|
        invariant 0 <= i <= |events|
        invariant forall j :: 0 <= j < i ==> !HasId(events[j], id)
      {
        if HasId(events[i], id) {
          assert IndexOfId(events, id) == Some(i);
          var e := Merged(events[i], body, id);
          events := events[i := e];
          return Ok(e);
        }
        i := i + 1;
      }
      return Err(404);
    }

    /** `delete_event`: drops every event with that id, whether or not one matched. */
    method DeleteEvent(id: string)
      modifies this
      ensures events == WithoutId(old(events), id)
    {
      events := WithoutId(events, id);
    }

    /**
     * The loop of `get_stats`: every upcoming event, annotated, in file
     * order; it stops (`ok` false) at the first event whose target date
     * does not parse.
     */
    method CollectUpcoming(now: int, parses: Value -> bool, instantOf: Value -> int)
      returns (ok: bool, upcoming: seq<Record>)
      ensures ok <==> forall i :: 0 <= i < |events| ==> TargetParses(events[i], parses)
      ensures ok ==> upcoming == UpcomingOf(events, now, instantOf)
    {
      var es := events;
      upcoming := [];
      var i := 0;
      while i < |es|
        invariant 0 <= i <= |es|
        invariant forall j :: 0 <= j < i ==> TargetParses(es[j], parses)
        invariant upcoming == UpcomingOf(es[..i], now, instantOf)
      {
        var e := es[i];
        if !TargetParses(e, parses) {
          return false, upcoming;
        }
        UpcomingOfSnoc(es, i, now, instantOf);
        if IsUpcoming(e, now, instantOf) {
          upcoming := upcoming + [Annotated(e, now, instantOf)];
        }
        assert upcoming == UpcomingOf(es[..i + 1], now, instantOf);
        i := i + 1;
      }
      assert es[..|es|] == es;
      ok := true;
    }

    /**
     * `get_stats`: collects the upcoming events in one pass, then keeps the
     * closest five; an event without a parseable target date is a 500.
     */
    method GetStats(now: int, parses: Value -> bool, instantOf: Value -> int) returns (r: Result<CountdownStats, int>)
      ensures r.Err? <==> exists i :: 0 <= i < |events| && !TargetParses(events[i], parses)
      ensures r.Err? ==> r.error == 500
      ensures r.Ok? ==> r.value.totalEvents == |events|
      ensures r.Ok? ==> r.value.upcomingEvents == NextFive(UpcomingOf(events, now, instantOf))
    {
      var ok, upcoming := CollectUpcoming(now, parses, instantOf);
      if !ok {
        return Err(500);
      }
      r := Ok(CountdownStats(|events|, NextFive(upcoming)));
    }
  }
}
