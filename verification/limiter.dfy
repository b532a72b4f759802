/** Connection limits per address: parallel connections and, by a rescaled average, connections per hour. */
module Limiter {
  import opened Common

  const HOUR := 3_600_000_000_000
  const HALF := HOUR / 2

  /** Times are in nanoseconds; a limit of 0 means no limit. */
  datatype Limits = Limits(first: int, last: int, attempts: nat, active: int, maxActive: int, maxPerHour: int)

  function Fresh(now: int): Limits {
    Limits(now, now, 0, 0, 0, 0)
  }

  /** The last attempt was more than an hour ago. */
  predicate Idle(l: Limits, now: int) {
    l.last < now - HOUR
  }

  /** The average now covers more than an hour. */
  predicate Stale(l: Limits, now: int) {
    !Idle(l, now) && l.first < now - HOUR
  }

  /** An idle record starts anew; a stale one is rescaled to the last half hour. */
  function Refreshed(l: Limits, now: int): Limits {
    if Idle(l, now) then l.(first := now, last := now, attempts := 0)
    else if Stale(l, now) then l.(first := now - HALF, attempts := HALF * l.attempts / (now - l.first))
    else l
  }

  predicate Permitted(l: Limits) {
    !(l.maxActive > 0 && l.active >= l.maxActive) && !(l.maxPerHour > 0 && l.attempts > l.maxPerHour)
  }

  function Counted(l: Limits, now: int): Limits {
    var r := Refreshed(l, now);
    r.(last := now, attempts := r.attempts + 1)
  }

  function Registered(l: Limits, now: int): (Limits, bool) {
    var c := Counted(l, now);
    if Permitted(c) then (c.(active := c.active + 1), true) else (c, false)
  }

  class Limiters {
    var limits: map<string, Limits>

    /** Registers a connection at the given time; an address that cannot be parsed is never permitted. */
    method Register(ip: Option<string>, now: int) returns (permitted: bool)
      modifies this
      ensures ip.None? ==> !permitted && limits == old(limits)
      ensures ip.Some? ==>
        var before := if ip.value in old(limits) then old(limits)[ip.value] else Fresh(now);
        permitted == Registered(before, now).1 && limits == old(limits)[ip.value := Registered(before, now).0]
    {
      if ip.None? {
        return false;
      }
      var lim := Fresh(now);
      if ip.value in limits {
        lim := limits[ip.value];
      }
      if lim.last < now - HOUR {
        lim := lim.(last := now, first := now, attempts := 0);
      }
      if lim.first < now - HOUR {
        lim := lim.(attempts := HALF * lim.attempts / (now - lim.first));
        lim := lim.(first := now - HALF);
      }
      lim := lim.(last := now);
      lim := lim.(attempts := lim.attempts + 1);
      permitted := true;
      if lim.maxActive > 0 && lim.active >= lim.maxActive {
        permitted := false;
      } else if lim.maxPerHour > 0 && lim.attempts > lim.maxPerHour {
        permitted := false;
      } else {
        lim := lim.(active := lim.active + 1);
      }
      limits := limits[ip.value := lim];
    }

    method Deregister(ip: Option<string>)
      modifies this
      ensures limits == if ip.Some? && ip.value in old(limits)
        then old(limits)[ip.value := old(limits)[ip.value].(active := old(limits)[ip.value].active - 1)]
        else old(limits)
    {
      if ip.Some? && ip.value in limits {
        var lim := limits[ip.value];
        limits := limits[ip.value := lim.(active := lim.active - 1)];
      }
    }

    /** Sets the limits of an address, once its certificate or the configuration has told them. */
    method Update(ip: string, maxActive: int, maxPerHour: int)
      modifies this
      ensures limits == if ip in old(limits)
        then old(limits)[ip := old(limits)[ip].(maxActive := maxActive, maxPerHour := maxPerHour)]
        else old(limits)
    {
      if ip in limits {
        var lim := limits[ip];
        lim := lim.(maxActive := maxActive);
        lim := lim.(maxPerHour := maxPerHour);
        limits := limits[ip := lim];
      }
    }
  }

  /** A connection attempt at a time, new limits, or the end of a permitted connection. */
  datatype Event = Attempt(now: int) | Update(maxActive: int, maxPerHour: int) | Close

  /** Time does not run backwards, and only permitted connections are closed. */
  predicate Possible(l: Limits, e: Event) {
    match e
    case Attempt(now) => l.last <= now
    case Update(_, _) => true
    case Close => l.active > 0
  }

  function Next(l: Limits, e: Event): Limits {
    match e
    case Attempt(now) => Registered(l, now).0
    case Update(maxActive, maxPerHour) => l.(maxActive := maxActive, maxPerHour := maxPerHour)
    case Close => l.(active := l.active - 1)
  }

  predicate Run(l: Limits, events: seq<Event>) {
    events == [] ||
    (Run(l, events[..|events| - 1]) && Possible(After(l, events[..|events| - 1]), events[|events| - 1]))
  }

  function After(l: Limits, events: seq<Event>): Limits {
    if events == [] then l else Next(After(l, events[..|events| - 1]), events[|events| - 1])
  }

  /** The times of the permitted attempts. */
  function Accepted(l: Limits, events: seq<Event>): seq<int> {
    if events == [] then []
    else
      var before, e := events[..|events| - 1], events[|events| - 1];
      Accepted(l, before) +
      if e.Attempt? && Registered(After(l, before), e.now).1 then [e.now] else []
  }

  function Closed(events: seq<Event>): nat {
    if events == [] then 0 else Closed(events[..|events| - 1]) + if events[|events| - 1].Close? then 1 else 0
  }

  /** How many of the times lie in the hour that begins at t. */
  function InHour(times: seq<int>, t: int): nat {
    if times == [] then 0
    else InHour(times[..|times| - 1], t) + if t <= times[|times| - 1] <= t + HOUR then 1 else 0
  }

  /** The times of the attempts that were permitted while there was a limit for the hour. */
  function Limited(l: Limits, events: seq<Event>): seq<int> {
    if events == [] then []
    else
      var before, e := events[..|events| - 1], events[|events| - 1];
      Limited(l, before) +
      if e.Attempt? && After(l, before).maxPerHour > 0 && Registered(After(l, before), e.now).1 then [e.now] else []
  }

  /** The connections counted as active are the permitted ones not yet closed. */
  lemma {:induction false} ActiveIsOpen(l: Limits, events: seq<Event>)
    requires Run(l, events) && l.active >= 0
    ensures After(l, events).active == l.active + |Accepted(l, events)| - Closed(events) >= 0
  {
    if events != [] {
      ActiveIsOpen(l, events[..|events| - 1]);
    }
  }

  /** Limits that are set to no more than max, and set at all. */
  predicate ParallelWithin(events: seq<Event>, max: int) {
    forall e :: e in events && e.Update? ==> 0 < e.maxActive <= max
  }

  /** Once no more connections are active than some bound on the limits, there never will be. */
  lemma {:induction false} ActiveWithin(l: Limits, events: seq<Event>, max: int)
    requires Run(l, events) && l.active <= max && 0 < l.maxActive <= max && ParallelWithin(events, max)
    ensures After(l, events).active <= max && 0 < After(l, events).maxActive <= max
  {
    if events != [] {
      assert events[|events| - 1] in events;
      assert forall e :: e in events[..|events| - 1] ==> e in events;
      ActiveWithin(l, events[..|events| - 1], max);
    }
  }

  /** The permitted attempts between two refreshes; the first period begins with the record. */
  datatype Period = Period(start: int, times: seq<int>)

  function Flatten(ps: seq<Period>): seq<int> {
    if ps == [] then [] else Flatten(ps[..|ps| - 1]) + ps[|ps| - 1].times
  }

  function Last(ps: seq<Period>): Period
    requires ps != []
  {
    ps[|ps| - 1]
  }

  predicate Within(p: Period, end: int) {
    p.start <= end && forall i :: 0 <= i < |p.times| ==> p.start <= p.times[i] <= end
  }

  /** Periods last more than half an hour and hold at most max permitted attempts each. */
  predicate Periods(ps: seq<Period>, max: nat) {
    && (forall i :: 0 <= i < |ps| ==> |ps[i].times| <= max)
    && (forall i :: 0 <= i < |ps| - 1 ==> Within(ps[i], ps[i + 1].start) && ps[i].start + HALF < ps[i + 1].start)
  }

  /** The record is in the last of these periods. */
  predicate Tracks(l: Limits, ps: seq<Period>, max: nat) {
    && ps != [] && Periods(ps, max)
    && Within(Last(ps), l.last) && |Last(ps).times| <= l.attempts
    && Last(ps).start <= l.first + HALF && l.first <= l.last
  }

  function Opened(ps: seq<Period>, l: Limits, now: int): seq<Period> {
    if Idle(l, now) || Stale(l, now) then ps + [Period(now, [])] else ps
  }

  /** The attempt joins the last period. */
  function Joined(ps: seq<Period>, now: int): seq<Period>
    requires ps != []
  {
    ps[..|ps| - 1] + [Last(ps).(times := Last(ps).times + [now])]
  }

  function Recorded(ps: seq<Period>, l: Limits, now: int): seq<Period>
    requires ps != []
  {
    var open := Opened(ps, l, now);
    if l.maxPerHour > 0 && Registered(l, now).1 then Joined(open, now) else open
  }

  lemma FlattenSnoc(ps: seq<Period>, p: Period)
    ensures Flatten(ps + [p]) == Flatten(ps) + p.times
  {
    assert (ps + [p])[..|ps|] == ps;
  }

  /** A refresh opens a period more than half an hour after the one before. */
  lemma RefreshTracks(l: Limits, ps: seq<Period>, max: nat, now: int)
    requires Tracks(l, ps, max) && l.last <= now && (Idle(l, now) || Stale(l, now))
    ensures Tracks(Refreshed(l, now).(last := now), ps + [Period(now, [])], max)
    ensures Flatten(ps + [Period(now, [])]) == Flatten(ps)
  {
    FlattenSnoc(ps, Period(now, []));
    assert Flatten(ps) + [] == Flatten(ps);
    PeriodsSnoc(ps, now, max);
  }

  lemma PeriodsSnoc(ps: seq<Period>, now: int, max: nat)
    requires ps != [] && Periods(ps, max) && Within(Last(ps), now) && Last(ps).start + HALF < now
    ensures Periods(ps + [Period(now, [])], max)
  {
    var more := ps + [Period(now, [])];
    forall i | 0 <= i < |more| - 1
      ensures Within(more[i], more[i + 1].start) && more[i].start + HALF < more[i + 1].start
    {
      if i < |ps| - 1 {
        assert Within(ps[i], ps[i + 1].start);
      }
    }
  }

  lemma FlattenJoined(ps: seq<Period>, now: int)
    requires ps != []
    ensures Flatten(Joined(ps, now)) == Flatten(ps) + [now]
  {
    var before, times := ps[..|ps| - 1], Last(ps).times;
    FlattenSnoc(before, Last(ps).(times := times + [now]));
    assert Flatten(before) + (times + [now]) == (Flatten(before) + times) + [now];
  }

  /** A permitted attempt joins the last period, which the count of attempts bounds. */
  lemma AttemptTracks(l: Limits, ps: seq<Period>, max: nat, now: int)
    requires Tracks(l, ps, max) && l.last == now && l.attempts < max
    ensures Tracks(l.(attempts := l.attempts + 1), Joined(ps, now), max)
  {
    var p := Last(ps);
    LastReplaced(ps, p.times + [now], max);
    WithinSnoc(p, now);
  }

  lemma WithinSnoc(p: Period, now: int)
    requires Within(p, now)
    ensures Within(p.(times := p.times + [now]), now)
  {
  }

  lemma LastReplaced(ps: seq<Period>, times: seq<int>, max: nat)
    requires ps != [] && Periods(ps, max) && |times| <= max
    ensures var more := ps[..|ps| - 1] + [Last(ps).(times := times)];
      Periods(more, max) && Last(more) == Last(ps).(times := times)
  {
    var more := ps[..|ps| - 1] + [Last(ps).(times := times)];
    forall i | 0 <= i < |more| - 1
      ensures Within(more[i], more[i + 1].start) && more[i].start + HALF < more[i + 1].start
    {
      assert Within(ps[i], ps[i + 1].start) && more[i] == ps[i] && more[i + 1].start == ps[i + 1].start;
    }
  }

  lemma LaterTracks(l: Limits, n: Limits, ps: seq<Period>, max: nat)
    requires Tracks(l, ps, max) && n.first == l.first && l.last <= n.last && l.attempts <= n.attempts
    ensures Tracks(n, ps, max)
  {
  }

  lemma RegisteredTracks(l: Limits, ps: seq<Period>, max: nat, now: int)
    requires Tracks(l, ps, max) && l.last <= now && l.maxPerHour <= max
    ensures Tracks(Registered(l, now).0, Recorded(ps, l, now), max)
    ensures Flatten(Recorded(ps, l, now)) ==
      Flatten(ps) + if l.maxPerHour > 0 && Registered(l, now).1 then [now] else []
  {
    var r, open := Refreshed(l, now).(last := now), Opened(ps, l, now);
    OpenedTracks(l, ps, max, now);
    if l.maxPerHour > 0 && Registered(l, now).1 {
      AttemptTracks(r, open, max, now);
      FlattenJoined(open, now);
      LaterTracks(r.(attempts := r.attempts + 1), Registered(l, now).0, Recorded(ps, l, now), max);
    } else {
      LaterTracks(r, Registered(l, now).0, open, max);
      assert Flatten(ps) + [] == Flatten(ps);
    }
  }

  lemma OpenedTracks(l: Limits, ps: seq<Period>, max: nat, now: int)
    requires Tracks(l, ps, max) && l.last <= now
    ensures Tracks(Refreshed(l, now).(last := now), Opened(ps, l, now), max)
    ensures Flatten(Opened(ps, l, now)) == Flatten(ps)
  {
    if Idle(l, now) || Stale(l, now) {
      RefreshTracks(l, ps, max, now);
    } else {
      LaterTracks(l, Refreshed(l, now).(last := now), ps, max);
    }
  }

  /** No limit for the hour is set that is higher than max. */
  predicate HourWithin(events: seq<Event>, max: nat) {
    forall e :: e in events && e.Update? ==> e.maxPerHour <= max
  }

  lemma {:induction false} RunTracks(l: Limits, events: seq<Event>, max: nat) returns (ps: seq<Period>)
    requires Run(l, events) && l.first <= l.last && l.maxPerHour <= max && HourWithin(events, max)
    ensures Tracks(After(l, events), ps, max) && After(l, events).maxPerHour <= max
    ensures Flatten(ps) == Limited(l, events)
  {
    if events == [] {
      ps := [Period(l.first, [])];
      assert Flatten(ps[..0]) == [];
    } else {
      var before, e := events[..|events| - 1], events[|events| - 1];
      assert e in events && forall d :: d in before ==> d in events;
      ps := RunTracks(l, before, max);
      if e.Attempt? {
        RegisteredTracks(After(l, before), ps, max, e.now);
        ps := Recorded(ps, After(l, before), e.now);
      } else {
        LaterTracks(After(l, before), After(l, events), ps, max);
      }
    }
  }

  lemma {:induction false} InHourConcat(a: seq<int>, b: seq<int>, t: int)
    ensures InHour(a + b, t) == InHour(a, t) + InHour(b, t)
  {
    if b == [] {
      assert a + b == a;
    } else {
      assert (a + b)[..|a + b| - 1] == a + b[..|b| - 1];
      InHourConcat(a, b[..|b| - 1], t);
    }
  }

  lemma {:induction false} InHourAtMost(times: seq<int>, t: int)
    ensures InHour(times, t) <= |times|
    ensures (forall i :: 0 <= i < |times| ==> times[i] < t) ==> InHour(times, t) == 0
    ensures (forall i :: 0 <= i < |times| ==> times[i] > t + HOUR) ==> InHour(times, t) == 0
  {
    if times != [] {
      InHourAtMost(times[..|times| - 1], t);
    }
  }

  /** The periods before one that starts at or before t end before it does. */
  lemma {:induction false} EarlierPeriods(ps: seq<Period>, max: nat, t: int)
    requires Periods(ps, max) && ps != [] && Within(Last(ps), t - 1)
    ensures InHour(Flatten(ps), t) == 0
  {
    var front := ps[..|ps| - 1];
    InHourConcat(Flatten(front), Last(ps).times, t);
    InHourAtMost(Last(ps).times, t);
    if front != [] {
      assert Within(ps[|ps| - 2], ps[|ps| - 1].start);
      EarlierPeriods(front, max, t);
    }
  }

  lemma FrontPeriods(ps: seq<Period>, max: nat)
    requires Periods(ps, max) && |ps| > 1
    ensures Periods(ps[..|ps| - 1], max)
    ensures Within(Last(ps[..|ps| - 1]), Last(ps).start) && Last(ps[..|ps| - 1]).start + HALF < Last(ps).start
  {
    assert Within(ps[|ps| - 2], ps[|ps| - 1].start);
  }

  lemma OnePeriod(ps: seq<Period>, max: nat, t: int)
    requires Periods(ps, max) && ps != []
    ensures InHour(Flatten(ps), t) <= InHour(Flatten(ps[..|ps| - 1]), t) + max
  {
    InHourConcat(Flatten(ps[..|ps| - 1]), Last(ps).times, t);
    InHourAtMost(Last(ps).times, t);
  }

  /** At most three periods meet an hour, since each but the last is longer than half an hour. */
  lemma {:induction false} ThreePeriods(ps: seq<Period>, max: nat, t: int, end: int)
    requires Periods(ps, max) && ps != [] && Within(Last(ps), end)
    ensures InHour(Flatten(ps), t) <= 3 * max
  {
    var front := ps[..|ps| - 1];
    OnePeriod(ps, max, t);
    if front != [] {
      FrontPeriods(ps, max);
      if Last(ps).start > t + HOUR {
        ThreePeriods(front, max, t, Last(ps).start);
        LastIsLater(ps, t, end);
      } else {
        TwoPeriods(front, max, t);
      }
    }
  }

  lemma LastIsLater(ps: seq<Period>, t: int, end: int)
    requires ps != [] && Within(Last(ps), end) && Last(ps).start > t + HOUR
    ensures InHour(Flatten(ps), t) == InHour(Flatten(ps[..|ps| - 1]), t)
  {
    InHourConcat(Flatten(ps[..|ps| - 1]), Last(ps).times, t);
    InHourAtMost(Last(ps).times, t);
  }

  lemma TwoPeriods(ps: seq<Period>, max: nat, t: int)
    requires Periods(ps, max) && ps != [] && Last(ps).start < t + HALF
    ensures InHour(Flatten(ps), t) <= 2 * max
  {
    var front := ps[..|ps| - 1];
    OnePeriod(ps, max, t);
    if front != [] {
      FrontPeriods(ps, max);
      OnePeriod(front, max, t);
      var early := front[..|front| - 1];
      if early != [] {
        FrontPeriods(front, max);
        EarlierPeriods(early, max, t);
      }
    }
  }

  /**
   * In any hour of any run of one address, with its limit set and changed at any time, at most three times the highest
   * limit of attempts are permitted while a limit is set.
   */
  lemma LimitedAtMost(l: Limits, events: seq<Event>, max: nat, t: int)
    requires Run(l, events) && l.first <= l.last && l.maxPerHour <= max && HourWithin(events, max)
    ensures InHour(Limited(l, events), t) <= 3 * max
  {
    var ps := RunTracks(l, events, max);
    ThreePeriods(ps, max, t, After(l, events).last);
  }

  /** The limit for the hour stays what it is. */
  predicate SameHour(events: seq<Event>, max: nat) {
    forall e :: e in events && e.Update? ==> e.maxPerHour == max
  }

  lemma {:induction false} AllLimited(l: Limits, events: seq<Event>)
    requires Run(l, events) && l.maxPerHour > 0 && SameHour(events, l.maxPerHour)
    ensures Limited(l, events) == Accepted(l, events) && After(l, events).maxPerHour == l.maxPerHour
  {
    if events != [] {
      assert events[|events| - 1] in events;
      assert forall e :: e in events[..|events| - 1] ==> e in events;
      AllLimited(l, events[..|events| - 1]);
    }
  }

  lemma {:induction false} FirstBeforeLast(l: Limits, events: seq<Event>)
    requires Run(l, events) && l.first <= l.last
    ensures After(l, events).first <= After(l, events).last
  {
    if events != [] {
      FirstBeforeLast(l, events[..|events| - 1]);
    }
  }

  /**
   * Whatever happened since a record was created: from when it has a limit on, at most three times the limit of
   * attempts are permitted in any hour as long as the limit is not changed.
   */
  lemma HourlyLimit(created: int, before: seq<Event>, events: seq<Event>, t: int)
    requires Run(Fresh(created), before) && Run(After(Fresh(created), before), events)
    requires After(Fresh(created), before).maxPerHour > 0 && SameHour(events, After(Fresh(created), before).maxPerHour)
    ensures InHour(Accepted(After(Fresh(created), before), events), t) <= 3 * After(Fresh(created), before).maxPerHour
  {
    var l := After(Fresh(created), before);
    FirstBeforeLast(Fresh(created), before);
    AllLimited(l, events);
    LimitedAtMost(l, events, l.maxPerHour, t);
  }

  // ----- what an attempt does, and when it has to be permitted

  /**
   * An attempt: after an idle hour the count starts anew, an average over more than an hour is scaled down to the last
   * half hour, and the attempt is permitted exactly if neither limit is exceeded.
   */
  lemma AttemptMeans(l: Limits, now: int)
    requires l.first <= l.last <= now
    ensures var n := Next(l, Attempt(now));
      && n.last == now && n.maxActive == l.maxActive && n.maxPerHour == l.maxPerHour
      && (l.last < now - 3_600_000_000_000 ==> n.first == now && n.attempts == 1)
      && (l.last >= now - 3_600_000_000_000 > l.first ==>
            && n.first == now - 1_800_000_000_000 && n.attempts > 0
            && (n.attempts - 1) * (now - l.first) <= 1_800_000_000_000 * l.attempts < n.attempts * (now - l.first)
            && 2 * (n.attempts - 1) <= l.attempts)
      && (l.first >= now - 3_600_000_000_000 ==> n.first == l.first && n.attempts == l.attempts + 1)
      && n.active == l.active + if (l.maxActive <= 0 || l.active < l.maxActive)
                                   && (l.maxPerHour <= 0 || n.attempts <= l.maxPerHour) then 1 else 0
  {
    if Stale(l, now) {
      Scaled(HALF, l.attempts, now - l.first);
    }
  }

  lemma Scaled(half: nat, a: nat, span: nat)
    requires 0 < 2 * half < span
    ensures var q := half * a / span;
      0 <= q && q * span <= half * a < (q + 1) * span && 2 * q <= a
  {
    var q := half * a / span;
    DivisionBounds(half * a, span);
    if 2 * q > a {
      Product(a + 1, 2 * q, half);
      Product(2 * half, span, q);
    }
  }

  lemma DivisionBounds(n: nat, d: nat)
    requires d > 0
    ensures 0 <= n / d && (n / d) * d <= n < (n / d + 1) * d
  {
  }

  lemma Product(a: nat, b: nat, c: nat)
    requires a <= b
    ensures a * c <= b * c
  {
  }

  /** Attempts have come at least d apart since the count was started. */
  predicate Steady(l: Limits, d: nat) {
    && l.first <= l.last <= l.first + HOUR
    && (l.attempts > 0 ==> (l.attempts - 1) * d <= l.last - l.first)
  }

  /** Every attempt comes at least d after the one before. */
  ghost predicate Spaced(l: Limits, events: seq<Event>, d: nat) {
    forall i :: 0 <= i < |events| && events[i].Attempt? && After(l, events[..i]).attempts > 0 ==>
      events[i].now >= After(l, events[..i]).last + d
  }

  /** Whenever an attempt comes, more connections may be open, and attempts that are d apart do not exceed the limit. */
  ghost predicate Ample(l: Limits, events: seq<Event>, d: nat) {
    forall i :: 0 <= i < |events| && events[i].Attempt? ==>
      var s := After(l, events[..i]);
      && (s.maxActive <= 0 || s.active < s.maxActive)
      && (s.maxPerHour <= 0 || d * (s.maxPerHour - 1) >= HOUR)
  }

  lemma CountedSteady(l: Limits, now: int, d: nat)
    requires Steady(l, d) && d > 0 && now >= l.last && (l.attempts > 0 ==> now >= l.last + d)
    ensures Steady(Registered(l, now).0, d)
  {
    if Stale(l, now) {
      Scaled(HALF, l.attempts, now - l.first);
      var q := HALF * l.attempts / (now - l.first);
      if l.attempts > 0 {
        assert l.attempts * d == (l.attempts - 1) * d + d;
        RateKept(HALF, l.attempts, now - l.first, q, d);
      }
    } else if !Idle(l, now) && l.attempts > 0 {
      assert l.attempts * d == (l.attempts - 1) * d + d;
    }
  }

  /** Scaling keeps the rate: attempts that fit the span fit the half hour. */
  lemma RateKept(half: nat, a: nat, span: nat, q: nat, d: nat)
    requires span > 0 && q * span <= half * a && a * d <= span
    ensures q * d <= half
  {
    if q * d > half {
      Product(half + 1, q * d, span);
      Product(q * span, half * a, d);
      Product(a * d, span, half);
    }
  }

  lemma FitsLimit(attempts: nat, d: nat, limit: int)
    requires attempts > 0 && d > 0 && (attempts - 1) * d <= HOUR <= d * (limit - 1)
    ensures attempts <= limit
  {
    if attempts > limit {
      Product(limit, attempts - 1, d);
    }
  }

  lemma SteadyPermitted(l: Limits, now: int, d: nat)
    requires Steady(l, d) && d > 0 && now >= l.last && (l.attempts > 0 ==> now >= l.last + d)
    requires (l.maxActive <= 0 || l.active < l.maxActive) && (l.maxPerHour <= 0 || d * (l.maxPerHour - 1) >= HOUR)
    ensures Registered(l, now).1
  {
    CountedSteady(l, now, d);
    var c := Counted(l, now);
    if l.maxPerHour > 0 {
      FitsLimit(c.attempts, d, l.maxPerHour);
    }
  }

  lemma {:induction false} RunIsSteady(l: Limits, events: seq<Event>, d: nat)
    requires Run(l, events) && Steady(l, d) && d > 0 && Spaced(l, events, d)
    ensures Steady(After(l, events), d)
  {
    if events != [] {
      var n := |events| - 1;
      assert forall i :: 0 <= i <= n ==> events[..n][..i] == events[..i];
      RunIsSteady(l, events[..n], d);
      if events[n].Attempt? {
        assert events[..n][..n] == events[..n];
        CountedSteady(After(l, events[..n]), events[n].now, d);
      }
    }
  }

  lemma {:induction false} RunPrefix(l: Limits, events: seq<Event>, i: nat)
    requires Run(l, events) && i < |events|
    ensures Run(l, events[..i]) && Possible(After(l, events[..i]), events[i])
  {
    var before := events[..|events| - 1];
    if i < |before| {
      assert before[..i] == events[..i];
      RunPrefix(l, before, i);
    }
  }

  lemma SpacedPrefix(l: Limits, events: seq<Event>, d: nat, i: nat)
    requires Spaced(l, events, d) && i <= |events|
    ensures Spaced(l, events[..i], d)
  {
    assert forall k :: 0 <= k < i ==> events[..i][..k] == events[..k];
  }

  /** Who keeps a distance that the limit for the hour allows, and below the limit of connections, is never refused. */
  lemma SteadyIsServed(l: Limits, events: seq<Event>, d: nat, i: nat)
    requires Run(l, events) && Steady(l, d) && d > 0 && Spaced(l, events, d) && Ample(l, events, d)
    requires i < |events| && events[i].Attempt?
    ensures After(l, events[..i + 1]).active == After(l, events[..i]).active + 1
  {
    RunPrefix(l, events, i);
    SpacedPrefix(l, events, d, i);
    RunIsSteady(l, events[..i], d);
    AfterNext(l, events, i);
    AttemptServed(After(l, events[..i]), events[i], d);
  }

  lemma AfterNext(l: Limits, events: seq<Event>, i: nat)
    requires i < |events|
    ensures After(l, events[..i + 1]) == Next(After(l, events[..i]), events[i])
  {
    assert events[..i + 1][..i] == events[..i];
  }

  lemma AttemptServed(s: Limits, e: Event, d: nat)
    requires e.Attempt? && Steady(s, d) && d > 0 && e.now >= s.last && (s.attempts > 0 ==> e.now >= s.last + d)
    requires (s.maxActive <= 0 || s.active < s.maxActive) && (s.maxPerHour <= 0 || d * (s.maxPerHour - 1) >= HOUR)
    ensures Next(s, e).active == s.active + 1
  {
    SteadyPermitted(s, e.now, d);
  }

  /** A new record is steady at any distance. */
  lemma FreshIsSteady(created: int, d: nat)
    ensures Steady(Fresh(created), d)
  {
  }
}
