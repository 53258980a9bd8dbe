/** The ring of one-second buckets behind the per-key request and token limits.

    `WindowState` and the functions on it say what one call does; the class `SlidingWindow` does the
    same in place with the source's shift loop.  The lemmas then relate every run of calls to the plain
    log of timestamped charges.  The relation is a two-sided bound and not an equality, because a
    rotation restarts the clock at `now` and so forgets the fraction of a second it had accumulated. */
module SlidingWindows {

  datatype WindowState = WindowState(buckets: seq<int>, total: int, lastRotate: real)

  /** Conversion of a float to an integer: truncation toward zero. */
  function Truncate(x: real): int {
    if x >= 0.0 then x.Floor else -(-x).Floor
  }

  function Zeros(n: nat): seq<int> {
    seq(n, i => 0)
  }

  function Sum(s: seq<int>): int {
    if s == [] then 0 else s[0] + Sum(s[1..])
  }

  function Initial(width: nat, now: real): WindowState {
    WindowState(Zeros(width), 0, now)
  }

  function Rotate(s: WindowState, now: real): WindowState {
    var elapsed := Truncate(now - s.lastRotate);
    if elapsed <= 0 then s
    else if elapsed >= |s.buckets| then WindowState(Zeros(|s.buckets|), 0, now)
    else WindowState(s.buckets[elapsed..] + Zeros(elapsed), s.total - Sum(s.buckets[..elapsed]), now)
  }

  function Charge(s: WindowState, n: int): WindowState
    requires |s.buckets| > 0
  {
    var last := |s.buckets| - 1;
    s.(buckets := s.buckets[last := s.buckets[last] + n], total := s.total + n)
  }

  predicate Admits(s: WindowState, limit: int, n: int) {
    !(limit > 0 && s.total + n > limit)
  }

  // ---- The in-place window ----

  class SlidingWindow {
    const width: nat
    var limit: int  // 0 = unlimited
    var buckets: seq<int>
    var total: int
    var lastRotate: real

    function State(): WindowState
      reads this
    {
      WindowState(buckets, total, lastRotate)
    }

    ghost predicate Valid()
      reads this
    {
      0 < width == |buckets|
    }

    constructor (width: nat, limit: int, now: real)
      requires width > 0
      ensures Valid() && this.width == width && this.limit == limit
      ensures State() == Initial(width, now)
    {
      this.width := width;
      this.limit := limit;
      this.buckets := Zeros(width);
      this.total := 0;
      this.lastRotate := now;
    }

    method RotateInPlace(now: real)
      requires Valid()
      modifies this
      ensures Valid() && limit == old(limit)
      ensures State() == Rotate(old(State()), now)
    {
      var elapsed := Truncate(now - lastRotate);
      if elapsed <= 0 {
        return;
      }
      if elapsed >= width {
        buckets := Zeros(width);
        total := 0;
        lastRotate := now;
        return;
      }
      ghost var was := buckets;
      for i := 0 to elapsed
        invariant buckets == was[i..] + Zeros(i)
        invariant total == old(total) - Sum(was[..i])
        invariant lastRotate == old(lastRotate) && limit == old(limit)
      {
        SumSnoc(was[..i], was[i]);
        assert was[..i + 1] == was[..i] + [was[i]];
        assert buckets[0] == was[i];
        assert buckets[1..] == was[i..][1..] + Zeros(i) && was[i..][1..] == was[i + 1..];
        assert Zeros(i + 1) == Zeros(i) + [0];
        total := total - buckets[0];
        buckets := buckets[1..] + [0];
      }
      lastRotate := now;
    }

    method Allow(now: real, n: int) returns (ok: bool)
      requires Valid()
      modifies this
      ensures Valid() && limit == old(limit)
      ensures ok == Admits(Rotate(old(State()), now), limit, n)
      ensures ok <==> limit <= 0 || Rotate(old(State()), now).total + n <= limit
      ensures State() == if ok then Charge(Rotate(old(State()), now), n) else Rotate(old(State()), now)
    {
      RotateInPlace(now);
      if limit > 0 && total + n > limit {
        return false;
      }
      buckets := buckets[width - 1 := buckets[width - 1] + n];
      total := total + n;
      return true;
    }

    method Add(now: real, n: int)
      requires Valid()
      modifies this
      ensures Valid() && limit == old(limit)
      ensures State() == if n > 0 then Charge(Rotate(old(State()), now), n) else Rotate(old(State()), now)
    {
      RotateInPlace(now);
      if n <= 0 {
        return;
      }
      buckets := buckets[width - 1 := buckets[width - 1] + n];
      total := total + n;
    }

    method CurrentUsage(now: real) returns (usage: int)
      requires Valid()
      modifies this
      ensures Valid() && limit == old(limit)
      ensures State() == Rotate(old(State()), now) && usage == State().total
    {
      RotateInPlace(now);
      usage := total;
    }
  }

  lemma SumSnoc(s: seq<int>, x: int)
    ensures Sum(s + [x]) == Sum(s) + x
  {
    if s != [] {
      assert (s + [x])[1..] == s[1..] + [x];
      SumSnoc(s[1..], x);
    }
  }

  // ---- Runs, and the log of timestamped charges beside them ----

  datatype Call = Allow(limit: int, n: int) | Add(n: int) | Usage

  datatype Event = Event(at: real, call: Call)

  /** A charge as an outside observer would log it (`at`, `n`, and whether `allow` admitted it), with the slot
      it was put into and the value `lastRotate` had at that moment. */
  datatype Logged = Logged(at: real, n: int, admitted: bool, slot: int, base: real)

  /** A window together with the log of its charges.  `slot` counts the buckets shifted out so far. */
  datatype Traced = Traced(window: WindowState, log: seq<Logged>, slot: int)

  function Charges(s: WindowState, call: Call): bool {
    match call
    case Allow(limit, n) => Admits(s, limit, n)
    case Add(n) => n > 0
    case Usage => false
  }

  function Amount(call: Call): int {
    match call
    case Allow(_, n) => n
    case Add(n) => n
    case Usage => 0
  }

  function Step(t: Traced, e: Event): Traced
    requires |t.window.buckets| > 0
    ensures |Step(t, e).window.buckets| == |t.window.buckets|
  {
    var w := Rotate(t.window, e.at);
    var elapsed := Truncate(e.at - t.window.lastRotate);
    var slot := if elapsed <= 0 then t.slot else t.slot + elapsed;
    if Charges(w, e.call) then
      Traced(Charge(w, Amount(e.call)), t.log + [Logged(e.at, Amount(e.call), e.call.Allow?, slot, w.lastRotate)], slot)
    else
      Traced(w, t.log, slot)
  }

  function Run(width: nat, start: real, events: seq<Event>): Traced
    requires width > 0
    ensures |Run(width, start, events).window.buckets| == width
  {
    if events == [] then Traced(Initial(width, start), [], 0)
    else Step(Run(width, start, events[..|events| - 1]), events[|events| - 1])
  }

  /** The clock never goes back. */
  ghost predicate Monotone(start: real, events: seq<Event>) {
    && (forall i | 0 <= i < |events| :: start <= events[i].at)
    && forall i, j | 0 <= i < j < |events| :: events[i].at <= events[j].at
  }

  function Amounts(log: seq<Logged>): int {
    if log == [] then 0 else Amounts(log[..|log| - 1]) + log[|log| - 1].n
  }

  /** The charges of `log` that sit in slots `lo` (included) to `hi` (excluded). */
  function SlotSum(log: seq<Logged>, lo: int, hi: int): int {
    if log == [] then 0
    else
      var e := log[|log| - 1];
      SlotSum(log[..|log| - 1], lo, hi) + if lo <= e.slot < hi then e.n else 0
  }

  /** What was charged in the closed time interval from `a` to `b`. */
  function TimeSum(log: seq<Logged>, a: real, b: real): int {
    if log == [] then 0
    else
      var e := log[|log| - 1];
      TimeSum(log[..|log| - 1], a, b) + if a <= e.at <= b then e.n else 0
  }

  // ---- The invariant ----

  /** Slots and real time run at most one second apart per charge, and at most a factor two overall. */
  ghost predicate Paced(t: Traced, e: Logged) {
    && e.base <= e.at < e.base + 1.0
    && e.slot <= t.slot
    && (t.slot - e.slot) as real <= t.window.lastRotate - e.base <= 2.0 * (t.slot - e.slot) as real
  }

  ghost predicate BucketsHold(t: Traced) {
    var width := |t.window.buckets|;
    && (forall i | 0 <= i < width ::
      t.window.buckets[i] == SlotSum(t.log, t.slot - width + 1 + i, t.slot - width + 2 + i))
    && t.window.total == SlotSum(t.log, t.slot - width + 1, t.slot + 1)
  }

  ghost predicate Inv(t: Traced) {
    && |t.window.buckets| > 0
    && (forall i | 0 <= i < |t.log| :: Paced(t, t.log[i]))
    && (forall i, j | 0 <= i <= j < |t.log| :: t.log[i].slot <= t.log[j].slot)
    && BucketsHold(t)
  }

  lemma SlotSumSplit(log: seq<Logged>, lo: int, mid: int, hi: int)
    requires lo <= mid <= hi
    ensures SlotSum(log, lo, hi) == SlotSum(log, lo, mid) + SlotSum(log, mid, hi)
  {
  }

  lemma SlotSumAbove(log: seq<Logged>, lo: int, hi: int, top: int)
    requires forall i | 0 <= i < |log| :: log[i].slot <= top
    requires top < lo
    ensures SlotSum(log, lo, hi) == 0
  {
  }

  lemma BucketPrefix(t: Traced, k: nat)
    requires BucketsHold(t) && k <= |t.window.buckets|
    ensures Sum(t.window.buckets[..k])
         == SlotSum(t.log, t.slot - |t.window.buckets| + 1, t.slot - |t.window.buckets| + 1 + k)
  {
    var lo := t.slot - |t.window.buckets| + 1;
    if k == 0 {
      SlotSumEmpty(t.log, lo);
    } else {
      BucketPrefix(t, k - 1);
      SumSnoc(t.window.buckets[..k - 1], t.window.buckets[k - 1]);
      assert t.window.buckets[..k] == t.window.buckets[..k - 1] + [t.window.buckets[k - 1]];
      SlotSumSplit(t.log, lo, lo + k - 1, lo + k);
    }
  }

  lemma SlotSumEmpty(log: seq<Logged>, lo: int)
    ensures SlotSum(log, lo, lo) == 0
  {
  }

  /** The state after the rotation alone. */
  function Turned(t: Traced, now: real): Traced {
    var elapsed := Truncate(now - t.window.lastRotate);
    Traced(Rotate(t.window, now), t.log, if elapsed <= 0 then t.slot else t.slot + elapsed)
  }

  lemma RotationKeepsTotal(t: Traced, now: real)
    requires Inv(t)
    ensures var u, width := Turned(t, now), |t.window.buckets|;
      u.window.total == SlotSum(t.log, u.slot - width + 1, u.slot + 1)
  {
    var width, elapsed := |t.window.buckets|, Truncate(now - t.window.lastRotate);
    if elapsed >= width {
      SlotSumAbove(t.log, t.slot + elapsed - width + 1, t.slot + elapsed + 1, t.slot);
    } else if elapsed > 0 {
      BucketPrefix(t, elapsed);
      var lo := t.slot - width + 1;
      SlotSumSplit(t.log, lo, lo + elapsed, t.slot + 1);
      SlotSumSplit(t.log, lo + elapsed, t.slot + 1, t.slot + elapsed + 1);
      SlotSumAbove(t.log, t.slot + 1, t.slot + elapsed + 1, t.slot);
    }
  }

  lemma RotationKeepsBucket(t: Traced, now: real, i: nat)
    requires Inv(t) && i < |t.window.buckets|
    ensures var u, width := Turned(t, now), |t.window.buckets|;
      u.window.buckets[i] == SlotSum(t.log, u.slot - width + 1 + i, u.slot - width + 2 + i)
  {
    var width, elapsed := |t.window.buckets|, Truncate(now - t.window.lastRotate);
    if elapsed > 0 && i + elapsed >= width {
      SlotSumAbove(t.log, t.slot + elapsed - width + 1 + i, t.slot + elapsed - width + 2 + i, t.slot);
    } else if elapsed > 0 {
      assert Turned(t, now).window.buckets[i] == t.window.buckets[i + elapsed];
    }
  }

  lemma RotationKeepsBuckets(t: Traced, now: real)
    requires Inv(t)
    ensures BucketsHold(Turned(t, now))
  {
    RotationKeepsTotal(t, now);
    forall i | 0 <= i < |t.window.buckets|
      ensures var u, width := Turned(t, now), |t.window.buckets|;
        u.window.buckets[i] == SlotSum(t.log, u.slot - width + 1 + i, u.slot - width + 2 + i)
    {
      RotationKeepsBucket(t, now, i);
    }
  }

  lemma RotationKeepsPace(t: Traced, now: real)
    requires Inv(t) && t.window.lastRotate <= now
    ensures forall i | 0 <= i < |t.log| :: Paced(Turned(t, now), t.log[i])
    ensures Turned(t, now).window.lastRotate <= now < Turned(t, now).window.lastRotate + 1.0
  {
  }

  lemma StepKeepsInv(t: Traced, e: Event)
    requires Inv(t) && t.window.lastRotate <= e.at
    ensures Inv(Step(t, e)) && Step(t, e).window.lastRotate <= e.at < Step(t, e).window.lastRotate + 1.0
  {
    var u := Turned(t, e.at);
    RotationKeepsBuckets(t, e.at);
    RotationKeepsPace(t, e.at);
    if Charges(u.window, e.call) {
      ChargeKeepsBuckets(u, Logged(e.at, Amount(e.call), e.call.Allow?, u.slot, u.window.lastRotate));
    }
  }

  lemma ChargeKeepsBuckets(u: Traced, e: Logged)
    requires |u.window.buckets| > 0 && BucketsHold(u) && e.slot == u.slot
    ensures BucketsHold(Traced(Charge(u.window, e.n), u.log + [e], u.slot))
  {
    var log := u.log + [e];
    assert log[..|log| - 1] == u.log;
  }

  lemma RunKeepsInv(width: nat, start: real, events: seq<Event>)
    requires width > 0 && Monotone(start, events)
    ensures Inv(Run(width, start, events))
    ensures Run(width, start, events).window.lastRotate <= (if events == [] then start else events[|events| - 1].at)
    ensures events != [] ==> events[|events| - 1].at < Run(width, start, events).window.lastRotate + 1.0
  {
    if events != [] {
      var before := events[..|events| - 1];
      RunKeepsInv(width, start, before);
      if before != [] {
        assert before[|before| - 1] == events[|events| - 2];
      }
      StepKeepsInv(Run(width, start, before), events[|events| - 1]);
    }
  }

  // ---- Main results ----

  /** The first charge of the log that is still counted. */
  function Cut(t: Traced): (k: nat)
    ensures k <= |t.log|
    ensures forall i | k <= i < |t.log| :: t.log[i].slot > t.slot - |t.window.buckets|
    ensures k > 0 ==> t.log[k - 1].slot <= t.slot - |t.window.buckets|
  {
    CutFrom(t, |t.log|)
  }

  function CutFrom(t: Traced, i: nat): (k: nat)
    requires i <= |t.log|
    requires forall j | i <= j < |t.log| :: t.log[j].slot > t.slot - |t.window.buckets|
    ensures k <= |t.log|
    ensures forall j | k <= j < |t.log| :: t.log[j].slot > t.slot - |t.window.buckets|
    ensures k > 0 ==> t.log[k - 1].slot <= t.slot - |t.window.buckets|
  {
    if i > 0 && t.log[i - 1].slot > t.slot - |t.window.buckets| then CutFrom(t, i - 1) else i
  }

  lemma SlotSumIsSuffix(log: seq<Logged>, k: nat, lo: int, hi: int)
    requires k <= |log|
    requires forall i | 0 <= i < k :: log[i].slot < lo
    requires forall i | k <= i < |log| :: lo <= log[i].slot < hi
    ensures SlotSum(log, lo, hi) == Amounts(log[k..])
  {
    if k < |log| {
      var front := log[..|log| - 1];
      SlotSumIsSuffix(front, k, lo, hi);
      assert log[k..][..|log[k..]| - 1] == front[k..];
    } else if k > 0 {
      SlotSumIsSuffix(log[..k - 1], k - 1, lo, hi);
    }
  }

  lemma CountedIsRecentSuffix(t: Traced, now: real)
    requires Inv(t) && t.window.lastRotate <= now < t.window.lastRotate + 1.0
    ensures t.window.total == Amounts(t.log[Cut(t)..])
    ensures forall i | 0 <= i < Cut(t) :: t.log[i].at < now - (|t.window.buckets| - 1) as real
    ensures forall i | Cut(t) <= i < |t.log| :: t.log[i].at > now - (2 * |t.window.buckets| - 1) as real
  {
    var width, k := |t.window.buckets|, Cut(t);
    forall i | 0 <= i < k
      ensures t.log[i].slot <= t.slot - width && t.log[i].at < now - (width - 1) as real
    {
      assert Paced(t, t.log[i]) && t.log[i].slot <= t.log[k - 1].slot;
    }
    forall i | k <= i < |t.log|
      ensures t.slot - width < t.log[i].slot <= t.slot && t.log[i].at > now - (2 * width - 1) as real
    {
      assert Paced(t, t.log[i]);
    }
    SlotSumIsSuffix(t.log, k, t.slot - width + 1, t.slot + 1);
  }

  /** Two-sided bound.  After any call of any run under a clock that never goes back, the counter is the
      sum of exactly a suffix of the log; every charge at most `width - 1` seconds old is in that suffix
      and no charge `2 * width - 1` seconds old or older is. */
  lemma TotalIsRecentSuffix(width: nat, start: real, events: seq<Event>)
    requires width > 0 && Monotone(start, events) && events != []
    ensures var t, now := Run(width, start, events), events[|events| - 1].at;
      && t.window.total == Amounts(t.log[Cut(t)..])
      && (forall i | 0 <= i < Cut(t) :: t.log[i].at < now - (width - 1) as real)
      && (forall i | Cut(t) <= i < |t.log| :: t.log[i].at > now - (2 * width - 1) as real)
  {
    RunKeepsInv(width, start, events);
    CountedIsRecentSuffix(Run(width, start, events), events[|events| - 1].at);
  }

  /** Any mix of calls, as long as every `allow` asks for the same limit and for no negative amount. */
  ghost predicate FixedLimit(events: seq<Event>, limit: int) {
    forall i | 0 <= i < |events| && events[i].call.Allow? :: events[i].call.limit == limit && events[i].call.n >= 0
  }

  /** What `allow` admitted in the closed time interval from `a` to `b`. */
  function Admitted(log: seq<Logged>, a: real, b: real): int {
    if log == [] then 0
    else
      var e := log[|log| - 1];
      Admitted(log[..|log| - 1], a, b) + if e.admitted && a <= e.at <= b then e.n else 0
  }

  lemma {:induction false} AdmittedIsCharged(log: seq<Logged>, a: real, b: real)
    requires forall i | 0 <= i < |log| :: log[i].n >= 0
    ensures Admitted(log, a, b) <= TimeSum(log, a, b)
  {
    if log != [] {
      AdmittedIsCharged(log[..|log| - 1], a, b);
    }
  }

  lemma {:induction false} ShorterAdmitsLess(log: seq<Logged>, a: real, b: real, c: real)
    requires b <= c && forall i | 0 <= i < |log| :: log[i].n >= 0
    ensures Admitted(log, a, b) <= Admitted(log, a, c)
  {
    if log != [] {
      ShorterAdmitsLess(log[..|log| - 1], a, b, c);
    }
  }

  lemma RecentIsCounted(t: Traced, a: real, b: real, now: real)
    requires Inv(t) && t.window.lastRotate <= now
    requires forall i | 0 <= i < |t.log| :: t.log[i].n >= 0
    requires now - (|t.window.buckets| - 1) as real <= a
    ensures TimeSum(t.log, a, b) <= t.window.total
  {
    forall i | 0 <= i < |t.log| && a <= t.log[i].at
      ensures t.slot - |t.window.buckets| + 1 <= t.log[i].slot < t.slot + 1
    {
      assert Paced(t, t.log[i]);
    }
    TimeSumBelowSlotSum(t.log, a, b, t.slot - |t.window.buckets| + 1, t.slot + 1);
  }

  lemma TimeSumBelowSlotSum(log: seq<Logged>, a: real, b: real, lo: int, hi: int)
    requires forall i | 0 <= i < |log| :: log[i].n >= 0
    requires forall i | 0 <= i < |log| && a <= log[i].at :: lo <= log[i].slot < hi
    ensures TimeSum(log, a, b) <= SlotSum(log, lo, hi)
  {
  }

  lemma {:induction false} LogIsNonNegative(width: nat, start: real, events: seq<Event>, limit: int)
    requires width > 0 && FixedLimit(events, limit)
    ensures forall i | 0 <= i < |Run(width, start, events).log| :: Run(width, start, events).log[i].n >= 0
  {
    if events != [] {
      LogIsNonNegative(width, start, events[..|events| - 1], limit);
    }
  }

  lemma AdmissionStep(t: Traced, e: Event, limit: int, a: real)
    requires Inv(t) && t.window.lastRotate <= e.at
    requires limit > 0 && (e.call.Allow? ==> e.call.limit == limit && e.call.n >= 0)
    requires forall i | 0 <= i < |t.log| :: t.log[i].n >= 0
    requires Admitted(t.log, a, a + (|t.window.buckets| - 1) as real) <= limit
    ensures Admitted(Step(t, e).log, a, a + (|t.window.buckets| - 1) as real) <= limit
  {
    var b := a + (|t.window.buckets| - 1) as real;
    var u, log := Turned(t, e.at), Step(t, e).log;
    if Charges(u.window, e.call) {
      assert log[..|log| - 1] == t.log;
      if e.call.Allow? && a <= e.at <= b {
        RotationKeepsBuckets(t, e.at);
        RotationKeepsPace(t, e.at);
        RecentIsCounted(u, a, b, e.at);
        AdmittedIsCharged(t.log, a, b);
      }
    }
  }

  /** Admission bound: with a fixed positive limit, and whatever else is charged and asked in between, no
      closed interval of `width - 1` seconds ever holds more than `limit` units admitted by `allow`. */
  lemma {:induction false} AdmissionBound(width: nat, start: real, events: seq<Event>, limit: int, a: real)
    requires width > 0 && Monotone(start, events)
    requires limit > 0 && FixedLimit(events, limit)
    ensures Admitted(Run(width, start, events).log, a, a + (width - 1) as real) <= limit
  {
    if events != [] {
      var before, e := events[..|events| - 1], events[|events| - 1];
      AdmissionBound(width, start, before, limit, a);
      RunKeepsInv(width, start, before);
      LogIsNonNegative(width, start, before, limit);
      assert before != [] ==> before[|before| - 1].at <= e.at;
      AdmissionStep(Run(width, start, before), e, limit, a);
    }
  }

  // ---- Exactly how long the window is ----

  lemma RunSnoc(width: nat, start: real, before: seq<Event>, e: Event)
    requires width > 0
    ensures Run(width, start, before + [e]) == Step(Run(width, start, before), e)
  {
    assert (before + [e])[..|before|] == before;
  }

  lemma ChargeAtStart(t: Traced, at: real, limit: int)
    requires |t.window.buckets| > 0 && t.window.total == 0 && t.window.lastRotate == 0.0 && t.log == [] && t.slot == 0
    requires 0.0 <= at < 1.0 && limit >= 1
    ensures var t' := Step(t, Event(at, Allow(limit, 1)));
      t'.log == [Logged(at, 1, true, 0, 0.0)] && t'.slot == 0 && t'.window.lastRotate == 0.0
  {
    assert Truncate(at - t.window.lastRotate) == 0;
  }

  /** A first charge of one unit, less than a second after the start. */
  lemma FirstCharge(width: nat, at: real, limit: int, events: seq<Event>)
    requires width > 0 && 0.0 <= at < 1.0 && limit >= 1 && events == [Event(at, Allow(limit, 1))]
    ensures var t := Run(width, 0.0, events);
      t.log == [Logged(at, 1, true, 0, 0.0)] && t.slot == 0 && t.window.lastRotate == 0.0
    ensures Monotone(0.0, events) && FixedLimit(events, limit)
  {
    ChargeAtStart(Traced(Initial(width, 0.0), [], 0), at, limit);
    assert events[..0] == [];
  }

  ghost predicate KeepsInterval(width: nat, start: real, events: seq<Event>, limit: int, a: real, length: real)
    requires width > 0
  {
    Admitted(Run(width, start, events).log, a, a + length) <= limit
  }

  /** No run ever admits more than its limit in a closed interval of this length. */
  ghost predicate KeepsLength(width: nat, length: real)
    requires width > 0
  {
    forall start, events, limit, a | limit > 0 && Monotone(start, events) && FixedLimit(events, limit) ::
      KeepsInterval(width, start, events, limit, a, length)
  }

  /** The limit holds in all intervals of a length exactly up to `width - 1` seconds, one second less than the
      window is said to be long. */
  lemma WindowIsKeptIff(width: nat, length: real)
    requires width > 0
    ensures KeepsLength(width, length) <==> length <= (width - 1) as real
  {
    if length <= (width - 1) as real {
      forall start, events, limit, a | limit > 0 && Monotone(start, events) && FixedLimit(events, limit)
        ensures KeepsInterval(width, start, events, limit, a, length)
      {
        AdmissionBound(width, start, events, limit, a);
        LogIsNonNegative(width, start, events, limit);
        ShorterAdmitsLess(Run(width, start, events).log, a, a + length, a + (width - 1) as real);
      }
    } else {
      var first := width as real - if length <= width as real then length else width as real;
      var one := [Event(first, Allow(1, 1))];
      TwoInOneInterval(width, first, one, one + [Event(width as real, Allow(1, 1))], length);
    }
  }

  lemma TwoInOneInterval(width: nat, first: real, one: seq<Event>, two: seq<Event>, length: real)
    requires width > 0 && 0.0 <= first < 1.0 && width as real <= first + length
    requires one == [Event(first, Allow(1, 1))] && two == one + [Event(width as real, Allow(1, 1))]
    ensures Monotone(0.0, two) && FixedLimit(two, 1) && !KeepsInterval(width, 0.0, two, 1, first, length)
  {
    FirstCharge(width, first, 1, one);
    var t, e := Run(width, 0.0, one), two[1];
    RunSnoc(width, 0.0, one, e);
    var log := Step(t, e).log;
    assert Truncate(width as real - 0.0) == width;
    assert log == t.log + [Logged(width as real, 1, true, width, width as real)];
    assert log[..1] == t.log && t.log[..0] == [];
    assert Admitted(t.log, first, first + length) == 1;
  }

  // ---- Exactly how long a charge is counted ----

  /** The charge number `i` of the run was made `age` seconds before the last call. */
  ghost predicate HasAge(width: nat, start: real, events: seq<Event>, i: nat, age: real)
    requires width > 0
  {
    && Monotone(start, events) && events != []
    && i < |Run(width, start, events).log|
    && events[|events| - 1].at - Run(width, start, events).log[i].at == age
  }

  ghost predicate IsCounted(width: nat, start: real, events: seq<Event>, i: nat)
    requires width > 0
  {
    Cut(Run(width, start, events)) <= i
  }

  ghost predicate AlwaysCounted(width: nat, age: real)
    requires width > 0
  {
    forall start, events, i | HasAge(width, start, events, i, age) :: IsCounted(width, start, events, i)
  }

  ghost predicate SometimesCounted(width: nat, age: real)
    requires width > 0
  {
    exists start, events, i :: HasAge(width, start, events, i, age) && IsCounted(width, start, events, i)
  }

  /** A charge is certain to be counted exactly up to the age of `width - 1` seconds. */
  lemma AlwaysCountedIff(width: nat, age: real)
    requires width > 0 && age >= 0.0
    ensures AlwaysCounted(width, age) <==> age <= (width - 1) as real
  {
    if age <= (width - 1) as real {
      forall start, events, i | HasAge(width, start, events, i, age)
        ensures IsCounted(width, start, events, i)
      {
        TotalIsRecentSuffix(width, start, events);
      }
    } else {
      var first := if age < width as real then width as real - age else 0.0;
      var one := [Event(first, Allow(1, 1))];
      DroppedEarly(width, first, age, one, one + [Event(first + age, Usage)]);
    }
  }

  lemma DroppedEarly(width: nat, first: real, age: real, one: seq<Event>, two: seq<Event>)
    requires width > 0 && 0.0 <= first < 1.0 && age >= 0.0 && width as real <= first + age
    requires one == [Event(first, Allow(1, 1))] && two == one + [Event(first + age, Usage)]
    ensures HasAge(width, 0.0, two, 0, age) && !IsCounted(width, 0.0, two, 0)
  {
    FirstCharge(width, first, 1, one);
    RunSnoc(width, 0.0, one, two[1]);
  }

  /** The time of the `m`-th of calls that come `d` seconds apart. */
  function Tick(d: real, m: nat): real {
    if m == 0 then 0.0 else Tick(d, m - 1) + d
  }

  lemma {:induction false} TickIsProduct(d: real, m: nat)
    ensures Tick(d, m) == m as real * d
  {
    if m > 0 {
      TickIsProduct(d, m - 1);
    }
  }

  /** The charge at time 0, and `m` calls that ask for the usage, `d` seconds apart. */
  function Slowly(d: real, m: nat): seq<Event> {
    if m == 0 then [Event(0.0, Allow(1, 1))] else Slowly(d, m - 1) + [Event(Tick(d, m), Usage)]
  }

  lemma UsageShifts(t: Traced, at: real)
    requires |t.window.buckets| > 0 && 1.0 <= at - t.window.lastRotate < 2.0
    ensures var t' := Step(t, Event(at, Usage));
      t'.log == t.log && t'.slot == t.slot + 1 && t'.window.lastRotate == at
  {
    assert Truncate(at - t.window.lastRotate) == 1;
  }

  lemma MonotoneSnoc(start: real, before: seq<Event>, e: Event)
    requires Monotone(start, before) && before != [] && before[|before| - 1].at <= e.at
    ensures Monotone(start, before + [e])
  {
  }

  /** A run with one charge, made at time 0, whose last call is the last rotation. */
  ghost predicate Shifted(width: nat, events: seq<Event>, slot: nat, at: real)
    requires width > 0
  {
    && Monotone(0.0, events) && events != [] && events[|events| - 1].at == at
    && Run(width, 0.0, events).log == [Logged(0.0, 1, true, 0, 0.0)]
    && Run(width, 0.0, events).slot == slot && Run(width, 0.0, events).window.lastRotate == at
  }

  lemma ShiftOnce(width: nat, before: seq<Event>, slot: nat, last: real, at: real)
    requires width > 0 && Shifted(width, before, slot, last) && 1.0 <= at - last < 2.0
    ensures Shifted(width, before + [Event(at, Usage)], slot + 1, at)
  {
    RunSnoc(width, 0.0, before, Event(at, Usage));
    UsageShifts(Run(width, 0.0, before), at);
    MonotoneSnoc(0.0, before, Event(at, Usage));
  }

  /** Each of those calls shifts one bucket, although almost two seconds may have passed. */
  lemma {:induction false} SlowlyShifts(width: nat, d: real, m: nat)
    requires width > 0 && 1.0 <= d < 2.0
    ensures Shifted(width, Slowly(d, m), m, Tick(d, m))
  {
    if m == 0 {
      FirstCharge(width, 0.0, 1, Slowly(d, m));
    } else {
      SlowlyShifts(width, d, m - 1);
      ShiftOnce(width, Slowly(d, m - 1), m - 1, Tick(d, m - 1), Tick(d, m));
    }
  }

  lemma StaysCounted(width: nat, before: seq<Event>, slot: nat, last: real, age: real)
    requires slot < width && Shifted(width, before, slot, last) && last <= age < last + 1.0
    ensures var events := before + [Event(age, Usage)];
      HasAge(width, 0.0, events, 0, age) && IsCounted(width, 0.0, events, 0)
  {
    assert Truncate(age - last) == 0;
    RunSnoc(width, 0.0, before, Event(age, Usage));
    MonotoneSnoc(0.0, before, Event(age, Usage));
  }

  /** A charge can still be counted exactly below the age of `2 * width - 1` seconds, almost twice the length
      of the window: every rotation may forget almost a second. */
  lemma SometimesCountedIff(width: nat, age: real)
    requires width > 0 && age >= 0.0
    ensures SometimesCounted(width, age) <==> age < (2 * width - 1) as real
  {
    if age < (2 * width - 1) as real {
      var m, d := Pace(width, age);
      SlowlyShifts(width, d, m);
      StaysCounted(width, Slowly(d, m), m, Tick(d, m), age);
    } else if SometimesCounted(width, age) {
      var start, events, i :| HasAge(width, start, events, i, age) && IsCounted(width, start, events, i);
      TotalIsRecentSuffix(width, start, events);
    }
  }

  lemma Pace(width: nat, age: real) returns (m: nat, d: real)
    requires width > 0 && 0.0 <= age < (2 * width - 1) as real
    ensures m < width && 1.0 <= d < 2.0 && Tick(d, m) <= age < Tick(d, m) + 1.0
  {
    if age < width as real {
      m, d := age.Floor, 1.0;
      TickIsProduct(d, m);
    } else {
      m := width - 1;
      var twice := 2.0 * m as real;
      var end := (age - 1.0 + if age <= twice then age else twice) / 2.0;
      d := end / m as real;
      TickIsProduct(d, m);
      QuotientBounds(end, m as real, d);
    }
  }

  lemma QuotientBounds(x: real, y: real, q: real)
    requires 0.0 < y <= x < 2.0 * y && q == x / y
    ensures 1.0 <= q < 2.0 && y * q == x
  {
    assert q * y == x;
    if q < 1.0 {
      ProductGrows(q, 1.0, y);
    } else if q >= 2.0 {
      ProductGrows(2.0, q, y);
    }
  }

  lemma ProductGrows(a: real, b: real, y: real)
    requires a <= b && 0.0 < y
    ensures a * y <= b * y && (a < b ==> a * y < b * y)
  {
  }
}
