/** The limit on failed admin logins: failures are kept per client address and user name, and pruned. */
module LoginLimiters {
  import opened Wrappers

  datatype Key = Key(remote: string, username: string)

  type Failures = map<Key, seq<real>>

  /** How long the failures of any key are kept: 24 hours. */
  const RETENTION := 86400.0

  function Of(failures: Failures, key: Key): seq<real> {
    if key in failures then failures[key] else []
  }

  function Recent(times: seq<real>, now: real, window: int): seq<real> {
    if times == [] then []
    else
      var last := times[|times| - 1];
      Recent(times[..|times| - 1], now, window) + if now - last < window as real then [last] else []
  }

  /** The failures that lie in the window. */
  ghost function RecentIn(times: seq<real>, now: real, window: int): set<int> {
    set i | 0 <= i < |times| && now - times[i] < window as real
  }

  lemma {:induction false} RecentAreCounted(times: seq<real>, now: real, window: int)
    ensures |Recent(times, now, window)| == |RecentIn(times, now, window)|
  {
    if times != [] {
      var n := |times| - 1;
      RecentAreCounted(times[..n], now, window);
      var one := if now - times[n] < window as real then {n} else {};
      assert RecentIn(times, now, window) == RecentIn(times[..n], now, window) + one;
    }
  }

  predicate Stale(times: seq<real>, now: real) {
    times != [] && now - times[|times| - 1] >= RETENTION
  }

  function Purged(failures: Failures, now: real): Failures {
    map k | k in failures && !Stale(failures[k], now) :: failures[k]
  }

  function Recorded(failures: Failures, key: Key, now: real, window: int): Failures {
    var kept := Purged(failures, now);
    kept[key := Recent(Of(kept, key), now, window) + [now]]
  }

  predicate Allows(times: seq<real>, now: real, window: int, max: int) {
    |Recent(times, now, window)| < max
  }

  // ---- The limiter in place ----

  class LoginLimiter {
    var failures: Failures

    constructor ()
      ensures failures == map[]
    {
      failures := map[];
    }

    method RecentOf(key: Key, now: real, window: int) returns (recent: seq<real>)
      ensures recent == Recent(Of(failures, key), now, window)
    {
      recent := [];
      var times := Of(failures, key);
      for i := 0 to |times|
        invariant recent == Recent(times[..i], now, window)
      {
        assert times[..i + 1][..i] == times[..i];
        if now - times[i] < window as real {
          recent := recent + [times[i]];
        }
      }
      assert times[..|times|] == times;
    }

    method CheckLoginRate(key: Key, now: real, window: int, max: int) returns (allowed: bool)
      ensures allowed == Allows(Of(failures, key), now, window, max)
      ensures allowed <==> |RecentIn(Of(failures, key), now, window)| < max
    {
      var recent := RecentOf(key, now, window);
      RecentAreCounted(Of(failures, key), now, window);
      return |recent| < max;
    }

    method RecordLoginFailure(key: Key, now: real, window: int)
      modifies this
      ensures failures == Recorded(old(failures), key, now, window)
    {
      var stale := set k | k in failures && Stale(failures[k], now);
      while stale != {}
        invariant Purged(failures, now) == Purged(old(failures), now)
        invariant stale == set k | k in failures && Stale(failures[k], now)
        decreases |stale|
      {
        var k :| k in stale;
        failures := failures - {k};
        stale := stale - {k};
      }
      assert forall k | k in failures && Stale(failures[k], now) :: k in stale;
      assert failures == Purged(failures, now);
      var recent := RecentOf(key, now, window);
      failures := failures[key := recent + [now]];
    }

    method ResetLoginFailures(key: Option<Key>)
      modifies this
      ensures failures == if key.None? then map[] else old(failures) - {key.value}
    {
      if key.None? {
        failures := map[];
      } else {
        failures := failures - {key.value};
      }
    }
  }

  // ---- The unpruned log ----

  datatype Event = Failed(key: Key, now: real) | Reset(key: Key) | ResetAll

  function Run(window: int, events: seq<Event>): Failures {
    if events == [] then map[]
    else
      var f := Run(window, events[..|events| - 1]);
      match events[|events| - 1]
      case Failed(key, now) => Recorded(f, key, now, window)
      case Reset(key) => f - {key}
      case ResetAll => map[]
  }

  /** Every failure recorded for the key since its last reset. */
  function Log(events: seq<Event>, key: Key): seq<real> {
    if events == [] then []
    else
      var log := Log(events[..|events| - 1], key);
      match events[|events| - 1]
      case Failed(k, now) => if k == key then log + [now] else log
      case Reset(k) => if k == key then [] else log
      case ResetAll => []
  }

  /** The failures come in order of time, none later than `end`. */
  ghost predicate Monotone(events: seq<Event>, end: real) {
    if events == [] then true
    else
      var front, last := events[..|events| - 1], events[|events| - 1];
      if last.Failed? then last.now <= end && Monotone(front, last.now) else Monotone(front, end)
  }

  ghost predicate Sorted(times: seq<real>, end: real) {
    && (forall i, j | 0 <= i < j < |times| :: times[i] <= times[j])
    && (forall i | 0 <= i < |times| :: times[i] <= end)
  }

  lemma {:induction false} MonotoneLater(events: seq<Event>, end: real, later: real)
    requires Monotone(events, end) && end <= later
    ensures Monotone(events, later)
  {
    if events != [] && !events[|events| - 1].Failed? {
      MonotoneLater(events[..|events| - 1], end, later);
    }
  }

  lemma {:induction false} RecentAreTimes(times: seq<real>, now: real, window: int)
    ensures forall t | t in Recent(times, now, window) :: t in times
  {
    if times != [] {
      RecentAreTimes(times[..|times| - 1], now, window);
    }
  }

  lemma {:induction false} RecentIsSorted(times: seq<real>, now: real, window: int, end: real)
    requires Sorted(times, end)
    ensures Sorted(Recent(times, now, window), end)
  {
    if times != [] {
      var front, last := times[..|times| - 1], times[|times| - 1];
      assert Sorted(front, last);
      RecentIsSorted(front, now, window, last);
    }
  }

  lemma {:induction false} RunIsSorted(window: int, events: seq<Event>, key: Key, end: real)
    requires Monotone(events, end)
    ensures Sorted(Of(Run(window, events), key), end)
  {
    if events != [] {
      var front, last := events[..|events| - 1], events[|events| - 1];
      if last.Failed? {
        RunIsSorted(window, front, key, last.now);
        RecentIsSorted(Of(Purged(Run(window, front), last.now), key), last.now, window, last.now);
      } else {
        RunIsSorted(window, front, key, end);
      }
    }
  }

  /** Pruning to a window and looking later is looking later. */
  lemma {:induction false} RecentOfRecent(times: seq<real>, now: real, later: real, window: int)
    requires now <= later
    ensures Recent(Recent(times, now, window), later, window) == Recent(times, later, window)
  {
    if times != [] {
      var front, last := times[..|times| - 1], times[|times| - 1];
      RecentOfRecent(front, now, later, window);
      if now - last < window as real {
        RecentSnoc(Recent(front, now, window), last, later, window);
      } else {
        assert Recent(times, now, window) == Recent(front, now, window);
      }
    }
  }

  lemma RecentSnoc(times: seq<real>, t: real, now: real, window: int)
    ensures Recent(times + [t], now, window)
         == Recent(times, now, window) + if now - t < window as real then [t] else []
  {
    assert (times + [t])[..|times|] == times;
  }

  lemma {:induction false} StaleIsNotRecent(times: seq<real>, later: real, window: int, end: real)
    requires Sorted(times, end) && later - end >= window as real
    ensures Recent(times, later, window) == []
  {
    if times != [] {
      assert Sorted(times[..|times| - 1], end);
      StaleIsNotRecent(times[..|times| - 1], later, window, end);
    }
  }

  /** Pruning to the window and the purge after 24 hours never change what a later check sees. */
  lemma {:induction false} ChecksSeeTheLog(window: int, events: seq<Event>, key: Key, end: real, now: real)
    requires window <= 86400 && Monotone(events, end) && end <= now
    ensures Recent(Of(Run(window, events), key), now, window) == Recent(Log(events, key), now, window)
  {
    if events != [] {
      var front, last := events[..|events| - 1], events[|events| - 1];
      var f := Run(window, front);
      if last.Failed? {
        ChecksSeeTheLog(window, front, key, last.now, now);
        RunIsSorted(window, front, key, last.now);
        PurgeIsUnseen(window, f, key, last.now, now);
        if key == last.key {
          RecordingIsSeen(window, f, key, last.now, now);
          RecentSnoc(Log(front, key), last.now, now, window);
        }
      } else {
        ChecksSeeTheLog(window, front, key, end, now);
      }
    }
  }

  lemma PurgeIsUnseen(window: int, f: Failures, key: Key, now: real, later: real)
    requires window as real <= RETENTION && Sorted(Of(f, key), now) && now <= later
    ensures Recent(Of(Purged(f, now), key), later, window) == Recent(Of(f, key), later, window)
  {
    var times := Of(f, key);
    if Stale(times, now) {
      StaleIsNotRecent(times, later, window, times[|times| - 1]);
    }
  }

  lemma RecordingIsSeen(window: int, f: Failures, key: Key, now: real, later: real)
    requires now <= later
    ensures Recent(Of(Recorded(f, key, now, window), key), later, window)
         == Recent(Of(Purged(f, now), key), later, window) + if later - now < window as real then [now] else []
  {
    var kept := Of(Purged(f, now), key);
    RecentSnoc(Recent(kept, now, window), now, later, window);
    RecentOfRecent(kept, now, later, window);
  }

  ghost predicate AgreesWithLog(window: int, events: seq<Event>, key: Key, now: real, max: int) {
    Allows(Of(Run(window, events), key), now, window, max) <==> Allows(Log(events, key), now, window, max)
  }

  ghost predicate AlwaysAgrees(window: int) {
    forall events, key, now, max | Monotone(events, now) :: AgreesWithLog(window, events, key, now, max)
  }

  /** The purge keeps 24 hours whatever the window: every check answers as if nothing had ever been pruned
      exactly when the configured window is no longer than that. */
  lemma AnswersAgreeIff(window: int)
    requires window >= 1
    ensures AlwaysAgrees(window) <==> window <= 86400
  {
    if window as real <= RETENTION {
      forall events, key, now, max | Monotone(events, now)
        ensures AgreesWithLog(window, events, key, now, max)
      {
        ChecksSeeTheLog(window, events, key, now, now);
      }
    } else {
      var key := Key("", "");
      LongWindowForgets(window, key, 0.0, [Failed(key, 0.0), Failed(key, RETENTION)]);
    }
  }

  /** Two failures 24 hours apart: the second purges the first, although a longer window still covers it. */
  lemma LongWindowForgets(window: int, key: Key, start: real, events: seq<Event>)
    requires window > 86400
    requires events == [Failed(key, start), Failed(key, start + 86400.0)]
    ensures var now := start + 86400.0;
      && Monotone(events, now)
      && Log(events, key) == Recent(Log(events, key), now, window) == [start, now]
      && Of(Run(window, events), key) == Recent(Of(Run(window, events), key), now, window) == [now]
      && !AgreesWithLog(window, events, key, now, 2)
  {
    var now, first := start + RETENTION, events[..1];
    OneFailure(window, key, start, first);
    assert Stale([start], now);
    assert Purged(Run(window, first), now) == map[];
    FirstFailure(window, Run(window, first), key, now);
    RecentOfOne(start, now, window);
    RecentOfOne(now, now, window);
    RecentSnoc([start], now, now, window);
    assert [start] + [now] == [start, now];
  }

  lemma OneFailure(window: int, key: Key, now: real, events: seq<Event>)
    requires events == [Failed(key, now)]
    ensures Run(window, events) == map[key := [now]] && Log(events, key) == [now] && Monotone(events, now)
  {
    FirstFailure(window, map[], key, now);
    assert [] + [now] == [now];
  }

  lemma RecentOfOne(t: real, now: real, window: int)
    requires now - t < window as real
    ensures Recent([t], now, window) == [t]
  {
    assert [] + [t] == [t];
  }

  lemma FirstFailure(window: int, f: Failures, key: Key, now: real)
    requires Purged(f, now) == map[]
    ensures Recorded(f, key, now, window) == map[key := [now]]
  {
    assert [] + [now] == [now];
  }

  // ---- One attempt at a time ----

  datatype Outcome = Success | WrongPassword | Other

  /** The clock is read when the attempt is checked and again when its failure is recorded. */
  datatype Attempt = Attempt(key: Key, checked: real, recorded: real, outcome: Outcome)

  /** The events the attempts lead to; an attempt over the limit is refused and records nothing. */
  function EventsOf(window: int, max: int, attempts: seq<Attempt>): seq<Event> {
    if attempts == [] then []
    else
      var events, a := EventsOf(window, max, attempts[..|attempts| - 1]), attempts[|attempts| - 1];
      if !Allows(Of(Run(window, events), a.key), a.checked, window, max) then events
      else
        match a.outcome
        case Success => events + [Reset(a.key)]
        case WrongPassword => events + [Failed(a.key, a.recorded)]
        case Other => events
  }

  ghost predicate OneAtATime(attempts: seq<Attempt>, end: real) {
    if attempts == [] then true
    else
      var front, a := attempts[..|attempts| - 1], attempts[|attempts| - 1];
      a.checked <= a.recorded <= end && OneAtATime(front, a.checked)
  }

  lemma {:induction false} AttemptsAreMonotone(window: int, max: int, attempts: seq<Attempt>, end: real)
    requires OneAtATime(attempts, end)
    ensures Monotone(EventsOf(window, max, attempts), end)
  {
    if attempts != [] {
      var front, a := attempts[..|attempts| - 1], attempts[|attempts| - 1];
      var events := EventsOf(window, max, front);
      AttemptsAreMonotone(window, max, front, a.checked);
      MonotoneLater(events, a.checked, a.recorded);
      MonotoneLater(events, a.checked, end);
      assert (events + [Failed(a.key, a.recorded)])[..|events|] == events;
      assert (events + [Reset(a.key)])[..|events|] == events;
    }
  }

  /** How many of the times lie in the window that ends at `x`. */
  function CountIn(times: seq<real>, x: real, window: int): nat {
    if times == [] then 0
    else
      var last := times[|times| - 1];
      CountIn(times[..|times| - 1], x, window) + if last <= x && x - last < window as real then 1 else 0
  }

  lemma {:induction false} CountIsRecent(times: seq<real>, x: real, now: real, window: int)
    requires now <= x
    ensures CountIn(times, x, window) <= |Recent(times, now, window)|
  {
    if times != [] {
      CountIsRecent(times[..|times| - 1], x, now, window);
    }
  }

  /** With attempts made one at a time, no interval of the length of the window holds more than `max` recorded
      failures of a key, counted since its last success. */
  lemma {:induction false} FailuresAreBounded(window: int, max: int, attempts: seq<Attempt>, end: real, key: Key, x: real)
    requires max >= 1 && window <= 86400 && OneAtATime(attempts, end)
    ensures CountIn(Log(EventsOf(window, max, attempts), key), x, window) <= max
  {
    if attempts != [] {
      var front, a := attempts[..|attempts| - 1], attempts[|attempts| - 1];
      var events := EventsOf(window, max, front);
      FailuresAreBounded(window, max, front, a.checked, key, x);
      assert (events + [Failed(a.key, a.recorded)])[..|events|] == events;
      assert (events + [Reset(a.key)])[..|events|] == events;
      if EventsOf(window, max, attempts) == events + [Failed(a.key, a.recorded)] && a.key == key {
        AttemptsAreMonotone(window, max, front, a.checked);
        ChecksSeeTheLog(window, events, key, a.checked, a.checked);
        CountSnoc(Log(events, key), a.recorded, x, window);
        if a.recorded <= x {
          CountIsRecent(Log(events, key), x, a.checked, window);
        }
      }
    }
  }

  lemma CountSnoc(times: seq<real>, t: real, x: real, window: int)
    ensures CountIn(times + [t], x, window)
         == CountIn(times, x, window) + if t <= x && x - t < window as real then 1 else 0
  {
    assert (times + [t])[..|times|] == times;
  }
}
