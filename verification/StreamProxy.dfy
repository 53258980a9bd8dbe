/** The older streaming path: rounds over all candidate keys with a fallback group, one degraded wait, a
    cap on failures before the first payload, a growing pause between rounds and a wall-clock deadline.
    What the network, the scheduler and the stores answer comes from a `World`, question by question. */
module StreamProxies {
  import opened Wrappers
  import opened Failover
  import opened Sequences

  const MAX_PRECOMMIT_RETRIES: nat := 3
  const DEGRADED_MAX_WAIT := 30.0
  const FIRST_DELAY := 2.0
  const DELAY_GROWTH := 1.5
  const DELAY_CAP := 30.0
  const DEFAULT_DEADLINE := 900.0

  type Duration = r: real | 0.0 <= r

  /** What became of one upstream call. */
  datatype Call =
    | NoClient
    | NoResponse
    | HttpError(retryable: bool, chatStyle: bool)
    | ClientLeft
    | Rejected | TruncatedEarly | EmptyCompletion
    | Delivered
    | Raised(kind: string)

  datatype World = World(
    lapse: nat -> Duration,
    sticky: nat -> Option<Key>,
    score: nat -> Score,
    windowAllows: nat -> bool,
    call: nat -> Call,
    fallback: nat -> seq<Key>,
    allInvalid: nat -> bool,
    cooldownUntil: nat -> real,
    cancelled: nat -> bool)

  /** How the request ends. */
  datatype End =
    | Answered        // the stream was delivered, or an error frame closed it, or the client left
    | BreakerOpen     // all keys of a round failed with one exception type
    | AllInvalid
    | AllCooling
    | DeadlinePassed
    | Cancelled

  // ---- The calls ----

  /** One call of a key as it was made: whether the key's window allowed it, what then came of it, and the
      protocol it was made in. */
  datatype Made = Made(key: Key, allowed: bool, call: Call, outbound: string)

  function KeysOf(made: seq<Made>): (keys: seq<Key>)
    ensures |keys| == |made| && forall i | 0 <= i < |keys| :: keys[i] == made[i].key
  {
    seq(|made|, i requires 0 <= i < |made| => made[i].key)
  }

  /** A failure the client saw nothing of: an upstream that rejects, breaks off or ends without any payload. */
  predicate IsFailure(m: Made) {
    m.allowed && (m.call.Rejected? || m.call.TruncatedEarly? || m.call.EmptyCompletion?)
  }

  function Failures(made: seq<Made>): nat {
    if made == [] then 0 else Failures(made[..|made| - 1]) + if IsFailure(made[|made| - 1]) then 1 else 0
  }

  function ExceptionOf(m: Made): Option<string> {
    if m.allowed && m.call.Raised? then Some(m.call.kind) else None
  }

  /** The kinds of the exceptions raised, in order. */
  function Kinds(made: seq<Made>): seq<string> {
    if made == [] then []
    else
      var kind := ExceptionOf(made[|made| - 1]);
      Kinds(made[..|made| - 1]) + if kind.Some? then [kind.value] else []
  }

  lemma OneMoreCall(made: seq<Made>, m: Made)
    ensures Failures(made + [m]) == Failures(made) + if IsFailure(m) then 1 else 0
    ensures Kinds(made + [m]) == if ExceptionOf(m).Some? then Kinds(made) + [ExceptionOf(m).value] else Kinds(made)
    ensures KeysOf(made + [m]) == KeysOf(made) + [m.key]
  {
    assert (made + [m])[..|made|] == made;
  }

  /** Whether a call is the last of the request: the client was served or left, the upstream refused for good, or
      it was one failure too many. */
  predicate EndsRequest(inbound: string, m: Made, failures: nat) {
    m.allowed &&
    match m.call
    case ClientLeft => true
    case Delivered => true
    case HttpError(retryable, chatStyle) =>
      !retryable && !(inbound == m.outbound && inbound == "responses" && chatStyle)
    case _ => IsFailure(m) && failures >= MAX_PRECOMMIT_RETRIES
  }

  /** No call so far was the last one. */
  ghost predicate Ongoing(inbound: string, made: seq<Made>) {
    made == [] ||
    var before := made[..|made| - 1];
    Ongoing(inbound, before) && !EndsRequest(inbound, made[|made| - 1], Failures(made))
  }

  /** The last call made is the first that ends the request. */
  ghost predicate EndsNow(inbound: string, made: seq<Made>) {
    && made != [] && Ongoing(inbound, made[..|made| - 1])
    && EndsRequest(inbound, made[|made| - 1], Failures(made))
  }

  /** The failures counted are those on record, and no call on record was the last. */
  ghost predicate CallsKept(inbound: string, failures: nat, made: seq<Made>) {
    failures == Failures(made) < MAX_PRECOMMIT_RETRIES && Ongoing(inbound, made)
  }

  lemma OngoingSnoc(inbound: string, made: seq<Made>, m: Made)
    requires Ongoing(inbound, made)
    ensures if EndsRequest(inbound, m, Failures(made + [m])) then EndsNow(inbound, made + [m]) else Ongoing(inbound, made + [m])
  {
    assert (made + [m])[..|made|] == made;
  }

  // ---- What a round keeps of its calls ----

  /** The keys tried, how many calls there were, the kind of the first exception and whether all were of it. */
  datatype Tally = Tally(tried: set<int>, attempts: nat, firstKind: Option<string>, allSame: bool)

  const NEW_TALLY := Tally({}, 0, None, true)

  function Noted(t: Tally, k: Key, raised: Option<string>): Tally {
    Tally(t.tried + {k.keyId}, t.attempts + 1, if t.firstKind == None then raised else t.firstKind,
          t.allSame && (raised == None || t.firstKind == None || raised == t.firstKind))
  }

  /** The tally is true of the calls `mine`, and they went to different keys. */
  ghost predicate Recorded(mine: seq<Made>, t: Tally) {
    && Distinct(KeysOf(mine)) && t.tried == IdsOf(KeysOf(mine)) && t.attempts == |mine|
    && t.firstKind == (if Kinds(mine) == [] then None else Some(Kinds(mine)[0]))
    && (t.allSame <==> AllAlike(Kinds(mine)))
  }

  lemma RecordedSnoc(mine: seq<Made>, m: Made, t: Tally)
    requires Recorded(mine, t) && m.key.keyId !in t.tried
    ensures Recorded(mine + [m], Noted(t, m.key, ExceptionOf(m)))
  {
    OneMoreCall(mine, m);
    DistinctSnoc(KeysOf(mine), m.key);
    if ExceptionOf(m).Some? {
      AllAlikeSnoc(Kinds(mine), ExceptionOf(m).value);
    }
  }

  // ---- The pauses ----

  function MinReal(a: real, b: real): real {
    if a <= b then a else b
  }

  function MaxReal(a: real, b: real): real {
    if a >= b then a else b
  }

  function Delay(i: nat): real {
    if i == 0 then FIRST_DELAY else MinReal(Delay(i - 1) * DELAY_GROWTH, DELAY_CAP)
  }

  /** The time spent in the first `n` pauses. */
  function Slept(n: nat): real {
    if n == 0 then 0.0 else Slept(n - 1) + Delay(n - 1)
  }

  function Pow(x: real, n: nat): real {
    if n == 0 then 1.0 else x * Pow(x, n - 1)
  }

  /** The pauses grow geometrically up to the cap. */
  lemma {:induction false} DelayClosedForm(i: nat)
    ensures Delay(i) == MinReal(FIRST_DELAY * Pow(DELAY_GROWTH, i), DELAY_CAP)
    ensures 2.0 <= Delay(i) <= 30.0 && 0.0 < Pow(DELAY_GROWTH, i)
  {
    if i > 0 {
      DelayClosedForm(i - 1);
    }
  }

  lemma {:induction false} SleptGrows(n: nat, m: nat)
    requires n <= m
    ensures Slept(n) + 2.0 * (m - n) as real <= Slept(m)
  {
    if n < m {
      SleptGrows(n, m - 1);
      DelayClosedForm(m - 1);
    }
  }

  /** From the eighth pause on every pause is at the cap. */
  lemma {:induction false} SleptAtCap(n: nat)
    requires n >= 7
    ensures Delay(n) == 30.0
    ensures Slept(n) == 64.34375 + 30.0 * (n - 7) as real
  {
    if n == 7 {
      assert Delay(1) == 3.0 && Delay(2) == 4.5 && Delay(3) == 6.75;
      assert Delay(4) == 10.125 && Delay(5) == 15.1875 && Delay(6) == 22.78125 && Delay(7) == 30.0;
      assert Slept(3) == 9.5 && Slept(5) == 26.375 && Slept(7) == 64.34375;
    } else {
      SleptAtCap(n - 1);
    }
  }

  /** At the default deadline a pause can start exactly as long as fewer than 35 have gone before: 34
      pauses fit into 900 seconds and 35 do not. */
  lemma PausesBeforeDefaultDeadline(n: nat)
    ensures Slept(n) < DEFAULT_DEADLINE <==> n <= 34
  {
    SleptAtCap(34);
    SleptAtCap(35);
    if n <= 34 {
      SleptGrows(n, 34);
    } else {
      SleptGrows(35, n);
    }
  }

  /** Every pause so far started before the deadline and after all the earlier ones, and they fit into the time
      that has passed. */
  ghost predicate PausesFit(pauses: seq<real>, retryDelay: real, elapsed: real, deadline: real) {
    && retryDelay == Delay(|pauses|)
    && Slept(|pauses|) <= elapsed
    && AllInTime(pauses, deadline)
  }

  /** A pause started before the deadline and after all the earlier ones. */
  ghost predicate InTime(pauses: seq<real>, i: nat, deadline: real)
    requires i < |pauses|
  {
    Slept(i) <= pauses[i] < deadline
  }

  ghost predicate AllInTime(pauses: seq<real>, deadline: real) {
    forall i: nat | i < |pauses| :: InTime(pauses, i, deadline)
  }

  lemma OneMoreInTime(pauses: seq<real>, start: real, deadline: real)
    requires AllInTime(pauses, deadline) && Slept(|pauses|) <= start < deadline
    ensures AllInTime(pauses + [start], deadline)
  {
    var more := pauses + [start];
    forall i: nat | i < |more|
      ensures InTime(more, i, deadline)
    {
      assert i < |pauses| ==> InTime(pauses, i, deadline);
    }
  }

  lemma PausesFitLater(pauses: seq<real>, retryDelay: real, elapsed: real, later: real, deadline: real)
    requires PausesFit(pauses, retryDelay, elapsed, deadline) && elapsed <= later
    ensures PausesFit(pauses, retryDelay, later, deadline)
  {
  }

  datatype Searched = Searched(candidates: seq<Key>, inOrder: bool, anyKey: bool)

  // ---- The request ----

  class StreamProxy {
    const world: World
    const order: Option<seq<int>>
    const inbound: string
    const protocolOf: Key -> string
    const hasSession: bool
    const degraded: bool
    const deadline: real

    var candidates: seq<Key>
    var tick: nat
    var elapsed: real  // since the stream started
    var protocolOverride: Option<string>
    var fallbackTried: bool
    var degradedWaited: bool
    var precommitFailures: nat
    var retryDelay: real
    ghost var made: seq<Made>
    ghost var rounds: nat
    ghost var earlier: seq<Made>  // the calls made before the last round
    ghost var roundCalls: seq<Made>  // the calls of the last round
    ghost var roundSearch: Searched  // the circumstances of its searches
    ghost var pauses: seq<real>  // when each pause between rounds started
    ghost var fallbackGroup: Option<seq<Key>>  // what was answered when the fallback group was asked for
    ghost var fallbackRound: bool  // a fallback group was found and got a round of its own
    ghost var waitEnd: Option<real>  // when the degraded wait was due to end

    constructor (world: World, candidates: seq<Key>, order: Option<seq<int>>, inbound: string,
                 protocolOf: Key -> string, hasSession: bool, degraded: bool, deadline: real)
      ensures Fresh() && this.degraded == degraded && this.deadline == deadline
    {
      this.world, this.candidates, this.order, this.inbound := world, candidates, order, inbound;
      this.protocolOf, this.hasSession, this.degraded, this.deadline := protocolOf, hasSession, degraded, deadline;
      tick, elapsed, protocolOverride, fallbackTried := 0, 0.0, None, false;
      degradedWaited, precommitFailures, retryDelay := false, 0, FIRST_DELAY;
      made, rounds, pauses, fallbackRound, waitEnd := [], 0, [], false, None;
      earlier, roundCalls, roundSearch, fallbackGroup := [], [], Searched(candidates, true, degraded), None;
    }

    ghost predicate Fresh()
      reads this
    {
      && elapsed == 0.0 && !fallbackTried && !degradedWaited && precommitFailures == 0
      && retryDelay == FIRST_DELAY && made == [] && rounds == 0 && pauses == []
      && !fallbackRound && fallbackGroup == None && waitEnd == None
    }

    /** The fallback group was asked for at most once, and if there was one its keys are the candidates since. */
    ghost predicate FallbackKept()
      reads this`fallbackTried, this`fallbackGroup, this`fallbackRound, this`candidates
    {
      && (fallbackTried <==> fallbackGroup.Some?)
      && (fallbackRound <==> fallbackGroup.Some? && fallbackGroup.value != [])
      && (fallbackRound ==> candidates == fallbackGroup.value)
      && (fallbackGroup.Some? ==> exists at: nat :: world.fallback(at) == fallbackGroup.value)
    }

    /** With `extra` rounds not yet settled, every settled round was followed by the fallback group, by the degraded
        wait or by a pause; a degraded request makes no pause, and its wait was due before the deadline. */
    ghost predicate RoundsKept(extra: nat)
      reads this`rounds, this`pauses, this`fallbackRound, this`degradedWaited, this`waitEnd
    {
      && rounds == extra + |pauses| + (if fallbackRound then 1 else 0) + (if degradedWaited then 1 else 0)
      && (degraded ==> pauses == [])
      && (degradedWaited <==> waitEnd.Some?)
      && (waitEnd.Some? ==> degraded && waitEnd.value < deadline)
      && PausesLeft() >= 0
    }

    /** The books of the loop but for its calls, with `extra` rounds not yet settled. */
    ghost predicate LoopKept(extra: nat)
      reads this`retryDelay, this`elapsed, this`rounds, this`pauses, this`fallbackRound, this`degradedWaited,
        this`waitEnd, this`fallbackTried, this`fallbackGroup, this`candidates
    {
      PausesFit(pauses, retryDelay, elapsed, deadline) && RoundsKept(extra) && FallbackKept()
    }

    /** The key the session is bound to is asked for at the start of a round. */
    predicate StickyFirst(tried: set<int>, at: nat) {
      hasSession && tried == {} && world.sticky(at).Some?
    }

    /** The circumstances of a search: the candidates, whether the failover order counts, and whether a cooling key may
        be called because the degraded wait is still to come. */
    ghost function Search(): (s: Searched)
      reads this`candidates, this`fallbackTried, this`degradedWaited
    {
      Searched(candidates, !fallbackTried, degraded && !degradedWaited)
    }

    /** The search for a key under the score of question `at` finds none. */
    ghost predicate NothingToSelect(s: Searched, tried: set<int>, at: nat) {
      && !StickyFirst(tried, at)
      && (if order.Some? && s.inOrder
          then NextFailoverKey(s.candidates, tried, order.value, world.score(at)) == None
          else forall c | c in s.candidates && c.keyId !in tried :: !Available(world.score(at), c))
      && (s.anyKey ==> forall c | c in s.candidates :: c.keyId in tried)
    }

    ghost predicate Stalled(s: Searched, tried: set<int>) {
      exists at: nat :: NothingToSelect(s, tried, at)
    }

    /** Every candidate had its turn, or no key was left to select. */
    ghost predicate RoundDone(s: Searched, mine: seq<Made>) {
      |mine| == |s.candidates| || Stalled(s, IdsOf(KeysOf(mine)))
    }

    /** The key of the next call in a round, or `None` when the round is over: the bound key first, then the
        failover order until the fallback group has been asked for, otherwise the best available key.  While
        the degraded wait is still to come an untried candidate is called even when it is cooling. */
    method SelectKey(tried: set<int>) returns (k: Option<Key>)
      modifies this`tick
      ensures k.Some? ==> k.value.keyId !in tried
      ensures hasSession && tried == {} && world.sticky(old(tick)).Some? ==> k == world.sticky(old(tick))
      ensures degraded && !degradedWaited && (exists c :: c in candidates && c.keyId !in tried) ==> k.Some?
      ensures !StickyFirst(tried, old(tick)) && k.Some? ==> k.value in candidates
      ensures !StickyFirst(tried, old(tick)) && order.Some? && !fallbackTried ==>
        var next := NextFailoverKey(candidates, tried, order.value, world.score(old(tick)));
        next.Some? ==> k == next
      ensures !StickyFirst(tried, old(tick)) && (order.None? || fallbackTried) && k.Some? ==>
        forall c | c in candidates && c.keyId !in tried && Available(world.score(old(tick)), c) ::
          world.score(old(tick))(c) <= world.score(old(tick))(k.value)
      ensures k == None <==> NothingToSelect(Search(), tried, old(tick))
      ensures k.Some? && !(degraded && !degradedWaited) && !StickyFirst(tried, old(tick)) ==>
        Available(world.score(old(tick)), k.value)
    {
      k := None;
      if hasSession && tried == {} {
        k := world.sticky(tick);
      }
      if k == None {
        if order.Some? && !fallbackTried {
          k := NextFailoverKey(candidates, tried, order.value, world.score(tick));
          if k.Some? {
            NextKeyIsUntried(candidates, tried, order.value, world.score(tick));
          }
        } else {
          k := Pick(Untried(candidates, tried), world.score(tick));
          assert forall c | c in candidates && c.keyId !in tried :: c in Untried(candidates, tried);
        }
      }
      tick := tick + 1;
      if k == None && degraded && !degradedWaited {
        var pool := Untried(candidates, tried);
        if pool != [] {
          assert pool[0] in pool;
          k := Some(pool[0]);
        } else {
          assert forall c | c in candidates && c.keyId !in tried :: c in pool;
        }
      }
    }

    /** One upstream call, put on record; `Some(Answered)` ends the request, otherwise the next key is due. */
    method CallKey(k: Key) returns (end: Option<End>, raised: Option<string>, ghost m: Made)
      requires CallsKept(inbound, precommitFailures, made)
      modifies this`tick, this`elapsed, this`protocolOverride, this`precommitFailures, this`made
      ensures made == old(made) + [m]
      ensures m == Made(k, world.windowAllows(old(tick)), world.call(old(tick)), old(protocolOverride).GetOr(protocolOf(k)))
      ensures precommitFailures == Failures(made) <= MAX_PRECOMMIT_RETRIES
      ensures end == if EndsRequest(inbound, m, precommitFailures) then Some(Answered) else None
      ensures end == None ==> CallsKept(inbound, precommitFailures, made)
      ensures end.Some? ==> EndsNow(inbound, made)
      ensures raised == ExceptionOf(m)
      ensures !m.allowed ==> end == None && raised == None
      ensures !m.allowed ==> protocolOverride == old(protocolOverride) && precommitFailures == old(precommitFailures)
      ensures old(elapsed) <= elapsed
    {
      var allowed := world.windowAllows(tick);
      var call := world.call(tick);
      elapsed := elapsed + world.lapse(tick);
      tick := tick + 1;
      var outbound := protocolOverride.GetOr(protocolOf(k));
      m := Made(k, allowed, call, outbound);
      OneMoreCall(made, m);
      OngoingSnoc(inbound, made, m);
      made := made + [m];
      if !allowed {
        return None, None, m;
      }
      end, raised := HandleAnswer(call, outbound, m);
    }

    /** What the loop makes of an answer.  A refusal of the chat style only turns the protocol for the rest of the
        request; the third failure the client saw nothing of ends the request. */
    method HandleAnswer(call: Call, outbound: string, ghost m: Made) returns (end: Option<End>, raised: Option<string>)
      requires m.allowed && m.call == call && m.outbound == outbound && precommitFailures < MAX_PRECOMMIT_RETRIES
      modifies this`protocolOverride, this`precommitFailures
      ensures precommitFailures == old(precommitFailures) + if IsFailure(m) then 1 else 0
      ensures end == if EndsRequest(inbound, m, precommitFailures) then Some(Answered) else None
      ensures end == None ==> precommitFailures < MAX_PRECOMMIT_RETRIES
      ensures raised == ExceptionOf(m)
      ensures match call
              case Delivered => end == Some(Answered)
              case ClientLeft => end == Some(Answered)
              case NoClient => end == None
              case NoResponse => end == None
              case Raised(kind) => end == None && raised == Some(kind)
              case HttpError(retryable, chatStyle) =>
                end == None <==> retryable || (chatStyle && inbound == outbound == "responses")
              case _ => precommitFailures == old(precommitFailures) + 1 && (end == None <==> precommitFailures < 3)
      ensures call.Rejected? || call.TruncatedEarly? || call.EmptyCompletion? || precommitFailures == old(precommitFailures)
      ensures raised.Some? ==> call.Raised?
      ensures protocolOverride ==
        if call.HttpError? && !call.retryable && end == None then Some("openai") else old(protocolOverride)
    {
      end, raised := None, None;
      var needTranslation := inbound != outbound;
      match call {
        case NoClient => return;
        case NoResponse => return;
        case HttpError(retryable, chatStyle) =>
          if !retryable {
            if !needTranslation && inbound == "responses" && chatStyle {
              protocolOverride := Some("openai");
              return;
            }
            end := Some(Answered);
          }
        case ClientLeft => end := Some(Answered);
        case Delivered => end := Some(Answered);
        case Raised(kind) => raised := Some(kind);
        case _ =>
          precommitFailures := precommitFailures + 1;
          if precommitFailures >= MAX_PRECOMMIT_RETRIES {
            end := Some(Answered);
          }
      }
    }

    /** One round over the current candidates.  It goes on until a call ends the request, every candidate had its
        turn, or no key is left to select. */
    method Round() returns (end: Option<End>, t: Tally, ghost mine: seq<Made>)
      requires CallsKept(inbound, precommitFailures, made)
      modifies this`tick, this`elapsed, this`protocolOverride, this`precommitFailures, this`made
      ensures old(elapsed) <= elapsed
      ensures made == old(made) + mine && Recorded(mine, t)
      ensures t.attempts <= |candidates| && precommitFailures == Failures(made) <= MAX_PRECOMMIT_RETRIES
      ensures end == None ==> CallsKept(inbound, precommitFailures, made)
      ensures end == None ==> RoundDone(Search(), mine)
      ensures end != None ==> end == Some(Answered) && EndsNow(inbound, made)
    {
      end, t, mine := None, NEW_TALLY, [];
      ghost var start := made;
      for i := 0 to |candidates|
        invariant t.attempts == i && end == None
        invariant old(elapsed) <= elapsed
        invariant CallsKept(inbound, precommitFailures, made)
        invariant made == start + mine && Recorded(mine, t)
      {
        var over;
        over, end, t, mine := CallNext(t, start, mine);
        if over {
          return;
        }
      }
    }

    /** Selects and makes the next call of a round that started with `start` on record and made the calls `mine`. */
    method CallNext(t: Tally, ghost start: seq<Made>, ghost mine: seq<Made>)
      returns (over: bool, end: Option<End>, t': Tally, ghost mine': seq<Made>)
      requires CallsKept(inbound, precommitFailures, made)
      requires made == start + mine && Recorded(mine, t)
      modifies this`tick, this`elapsed, this`protocolOverride, this`precommitFailures, this`made
      ensures old(elapsed) <= elapsed && precommitFailures == Failures(made) <= MAX_PRECOMMIT_RETRIES
      ensures made == start + mine' && Recorded(mine', t')
      ensures over <==> end.Some? || t' == t
      ensures t' == t ==> Stalled(Search(), t.tried) && end == None
      ensures t' != t ==> t'.attempts == t.attempts + 1
      ensures end == None ==> CallsKept(inbound, precommitFailures, made)
      ensures end != None ==> end == Some(Answered) && EndsNow(inbound, made)
    {
      over, end, t', mine' := true, None, t, mine;
      ghost var at := tick;
      var k := SelectKey(t.tried);
      if k == None {
        assert NothingToSelect(Search(), t.tried, at);
        return;
      }
      var raised;
      ghost var m;
      end, raised, m := CallKey(k.value);
      Associates(start, mine, [m]);
      RecordedSnoc(mine, m, t);
      mine' := mine + [m];
      t' := Noted(t, k.value, raised);
      over := end.Some?;
    }

    /** Every pause that can still start before the deadline, counted generously. */
    ghost function PausesLeft(): int
      reads this`pauses
    {
      (if deadline > 0.0 then deadline.Floor else 0) + 2 - |pauses|
    }

    ghost predicate Bounded()
      reads this
    {
      RoundsBounded() && precommitFailures == Failures(made) <= MAX_PRECOMMIT_RETRIES
    }

    ghost predicate RoundsBounded()
      reads this`rounds, this`pauses, this`fallbackRound, this`degradedWaited, this`waitEnd
    {
      && AllInTime(pauses, deadline)
      && rounds <= 1 + |pauses| + (if fallbackRound then 1 else 0) + (if degradedWaited then 1 else 0)
      && (degraded ==> pauses == [] && rounds <= 3)
      && (waitEnd.Some? ==> degraded && waitEnd.value < deadline)
    }

    /** The whole request ends, whatever the world answers: with the first call that ends it, or after a round
        for one of the other reasons.  Each pause started before the deadline and
        after all the earlier pauses; at most three failures before the first payload occurred; there was
        at most one round per pause and three more, and a degraded request had at most three rounds and
        no pause at all. */
    method Run() returns (end: End)
      requires Fresh()
      modifies this
      ensures Bounded() && Reason(end)
      ensures deadline == DEFAULT_DEADLINE ==> |pauses| <= 35
    {
      while true
        invariant LoopKept(0) && CallsKept(inbound, precommitFailures, made)
        decreases Measure()
      {
        var over := RunRound();
        if over.Some? {
          end := over.value;
          break;
        }
      }
      if deadline == DEFAULT_DEADLINE && pauses != [] {
        assert InTime(pauses, |pauses| - 1, deadline);
        PausesBeforeDefaultDeadline(|pauses| - 1);
      }
    }

    /** Why a request may end the way it does. */
    ghost predicate Reason(end: End)
      reads this
    {
      if end == Answered then EndsNow(inbound, made)
      else Ongoing(inbound, made) && LastRoundDone() && LastRoundWasFallback() && Cause(end)
    }

    ghost predicate Cause(end: End)
      reads this`elapsed, this`roundCalls
    {
      match end
      case Answered => true
      case DeadlinePassed => !degraded && deadline <= elapsed
      case AllCooling => degraded
      case AllInvalid => exists at: nat :: world.allInvalid(at)
      case Cancelled => exists at: nat :: world.cancelled(at)
      case BreakerOpen =>
        var kinds := Kinds(roundCalls);
        kinds != [] && forall kind | kind in kinds :: kind == kinds[0]
    }

    /** The fallback group was asked for, and if there was one the last round was made over it. */
    ghost predicate LastRoundWasFallback()
      reads this`fallbackTried, this`fallbackGroup, this`fallbackRound, this`roundSearch
    {
      && fallbackGroup.Some? && (exists at: nat :: world.fallback(at) == fallbackGroup.value)
      && (fallbackGroup.value != [] ==> roundSearch.candidates == fallbackGroup.value && !roundSearch.inOrder)
    }

    /** The last round called different keys, and in it every candidate had its turn or no key was left to select. */
    ghost predicate LastRoundDone()
      reads this`made, this`earlier, this`roundCalls, this`roundSearch
    {
      && made == earlier + roundCalls
      && Distinct(KeysOf(roundCalls)) && RoundDone(roundSearch, roundCalls)
    }

    /** One round, not yet settled. */
    method BeginRound() returns (end: Option<End>, t: Tally)
      requires CallsKept(inbound, precommitFailures, made)
      modifies this`rounds, this`tick, this`elapsed, this`protocolOverride, this`precommitFailures, this`made,
        this`earlier, this`roundCalls, this`roundSearch
      ensures rounds == old(rounds) + 1 && old(elapsed) <= elapsed
      ensures earlier == old(made) && made == earlier + roundCalls && roundSearch == old(Search())
      ensures Recorded(roundCalls, t)
      ensures precommitFailures == Failures(made) <= MAX_PRECOMMIT_RETRIES
      ensures end == None ==> CallsKept(inbound, precommitFailures, made) && RoundDone(roundSearch, roundCalls)
      ensures end.Some? ==> end == Some(Answered) && EndsNow(inbound, made)
    {
      rounds, earlier, roundSearch := rounds + 1, made, Search();
      end, t, roundCalls := Round();
    }

    /** One round, and what follows it. */
    method RunRound() returns (end: Option<End>)
      requires LoopKept(0) && CallsKept(inbound, precommitFailures, made)
      modifies this
      ensures end == None ==> LoopKept(0) && CallsKept(inbound, precommitFailures, made) && Measure() < old(Measure())
      ensures end.Some? ==> Bounded() && Reason(end.value)
    {
      var t;
      end, t := BeginRound();
      PausesFitLater(pauses, retryDelay, old(elapsed), elapsed, deadline);
      if end.Some? {
        return;
      }
      end := FinishRound(t);
      assert end.Some? ==> LastRoundDone();
    }

    /** What follows a round. */
    method FinishRound(t: Tally) returns (end: Option<End>)
      requires LoopKept(1) && Recorded(roundCalls, t) && roundSearch == Search()
      modifies this`tick, this`elapsed, this`candidates, this`fallbackTried, this`fallbackGroup, this`fallbackRound,
        this`degradedWaited, this`waitEnd, this`pauses, this`retryDelay
      ensures end == None ==> LoopKept(0) && Measure() < old(Measure())
      ensures end.Some? ==> RoundsBounded() && end != Some(Answered) && LastRoundWasFallback() && Cause(end.value)
    {
      end := Settle(t.attempts, t.firstKind, t.allSame);
    }

    ghost function Measure(): int
      reads this
    {
      (if fallbackTried then 0 else 1) + (if degradedWaited then 0 else 1) + PausesLeft()
    }

    /** What follows a round in which no key worked: `None` to start another round.  The fallback group comes
        first, once; then the breaker, a pool of nothing but invalid keys, the degraded wait or its refusal, the
        deadline and the pause, in this order. */
    method Settle(attempts: nat, firstKind: Option<string>, allSame: bool) returns (end: Option<End>)
      requires LoopKept(1)
      modifies this`tick, this`elapsed, this`candidates, this`fallbackTried, this`fallbackGroup, this`fallbackRound,
        this`degradedWaited, this`waitEnd, this`pauses, this`retryDelay
      ensures end == None ==> LoopKept(0) && Measure() < old(Measure())
      ensures end.Some? ==> RoundsBounded() && end.value != Answered && FallbackKept()
      ensures fallbackTried
      ensures var found := !old(fallbackTried) && world.fallback(old(tick)) != [];
        && fallbackRound == (old(fallbackRound) || found)
        && (!old(fallbackTried) ==> fallbackGroup == Some(world.fallback(old(tick))))
        && candidates == (if found then world.fallback(old(tick)) else old(candidates))
        && end == (if found then None
                   else Verdict(if old(fallbackTried) then old(tick) else old(tick) + 1, old(elapsed), old(degradedWaited),
                                old(candidates) != [], attempts > 0 && firstKind.Some? && allSame))
      ensures end.Some? ==> degradedWaited == old(degradedWaited) && elapsed == old(elapsed)
      ensures end == None ==>
        || (fallbackRound && !old(fallbackTried))
        || (degradedWaited && !old(degradedWaited))
        || (!degraded && pauses == old(pauses) + [old(elapsed)])
    {
      if !fallbackTried {
        var found := OpenFallback();
        if found {
          return None;
        }
      }
      end := SettleWithout(attempts, firstKind, allSame);
    }

    /** How a request stands after a round and without a new fallback group, when the next question has the number
        `at`; `alike` when there were calls and all that raised anything raised the same. */
    ghost function Verdict(at: nat, elapsed: real, waited: bool, some: bool, alike: bool): Option<End> {
      if alike && (!degraded || waited) then Some(BreakerOpen)
      else if world.allInvalid(at) then Some(AllInvalid)
      else if degraded then if MayWait(at, elapsed, waited, some) then None else Some(AllCooling)
      else if elapsed >= deadline then Some(DeadlinePassed)
      else if world.cancelled(at) then Some(Cancelled)
      else None
    }

    /** The degraded wait is still to come, lasts at most 30 seconds and ends before the deadline. */
    ghost predicate MayWait(at: nat, elapsed: real, waited: bool, some: bool) {
      var until := if some then world.cooldownUntil(at) else elapsed;
      !waited && until <= elapsed + 30.0 && until < deadline && elapsed < deadline
    }

    /** The same without asking for the fallback group. */
    method SettleWithout(attempts: nat, firstKind: Option<string>, allSame: bool) returns (end: Option<End>)
      requires LoopKept(1) && fallbackTried
      modifies this`tick, this`elapsed, this`degradedWaited, this`waitEnd, this`pauses, this`retryDelay
      ensures end == None ==> LoopKept(0) && Measure() < old(Measure())
      ensures end.Some? ==> RoundsBounded() && end.value != Answered
      ensures end == Verdict(old(tick), old(elapsed), old(degradedWaited), candidates != [],
                             attempts > 0 && firstKind.Some? && allSame)
      ensures end == Some(BreakerOpen) <==>
        attempts > 0 && firstKind.Some? && allSame && (!degraded || old(degradedWaited))
      ensures end != Some(BreakerOpen) ==> (end == Some(AllInvalid) <==> world.allInvalid(old(tick)))
      ensures end == None && degraded ==> degradedWaited && !old(degradedWaited)
      ensures end == Some(AllCooling) ==> degraded
      ensures end == Some(DeadlinePassed) ==> !degraded && deadline <= elapsed
      ensures end == Some(Cancelled) ==> !degraded && elapsed < deadline && world.cancelled(old(tick))
      ensures end == None && !degraded ==> old(elapsed) < deadline && !world.cancelled(old(tick))
      ensures end.Some? ==> degradedWaited == old(degradedWaited) && elapsed == old(elapsed)
      ensures end == None ==>
        (degradedWaited && !old(degradedWaited)) || (!degraded && pauses == old(pauses) + [old(elapsed)])
    {
      if attempts > 0 && allSame && firstKind.Some? && !(degraded && !degradedWaited) {
        return Some(BreakerOpen);
      }
      if world.allInvalid(tick) {
        return Some(AllInvalid);
      }
      if degraded {
        var waited := WaitForCooldown();
        return if waited then None else Some(AllCooling);
      }
      if elapsed >= deadline {
        return Some(DeadlinePassed);
      }
      end := Pause();
    }

    /** Asks for the fallback group, once.  If there is one its keys are the candidates from now on. */
    method OpenFallback() returns (found: bool)
      requires LoopKept(1) && !fallbackTried
      modifies this`tick, this`candidates, this`fallbackTried, this`fallbackGroup, this`fallbackRound
      ensures LoopKept(if found then 0 else 1) && fallbackTried
      ensures found <==> world.fallback(old(tick)) != []
      ensures found <==> fallbackRound
      ensures fallbackGroup == Some(world.fallback(old(tick))) && tick == old(tick) + 1
      ensures candidates == if found then world.fallback(old(tick)) else old(candidates)
    {
      fallbackTried := true;
      var group := world.fallback(tick);
      fallbackGroup := Some(group);
      tick := tick + 1;
      found := group != [];
      if found {
        candidates := group;
        fallbackRound := true;
      }
    }

    /** Waits for the end of the cooldown exactly when the latch is still open, the remaining cooldown is at most 30
        seconds, and the wait ends before the deadline. */
    method WaitForCooldown() returns (waited: bool)
      requires LoopKept(1) && degraded
      modifies this`tick, this`elapsed, this`degradedWaited, this`waitEnd
      ensures var until := if candidates != [] then world.cooldownUntil(old(tick)) else old(elapsed);
        waited <==> (!old(degradedWaited) && until <= old(elapsed) + 30.0 && until < deadline && old(elapsed) < deadline)
      ensures waited ==> LoopKept(0) && degradedWaited && elapsed >= old(elapsed)
      ensures waited && candidates != [] ==> elapsed >= world.cooldownUntil(old(tick))
      ensures !waited ==> LoopKept(1) && degradedWaited == old(degradedWaited) && elapsed == old(elapsed)
    {
      var wait := if candidates != [] then world.cooldownUntil(tick) - elapsed else 0.0;
      var due := elapsed + MaxReal(wait, 0.0);
      waited := !degradedWaited && wait <= DEGRADED_MAX_WAIT && due < deadline;
      if waited {
        degradedWaited := true;
        waitEnd := Some(due);
        elapsed := due + world.lapse(tick);
        tick := tick + 1;
      }
    }

    method Pause() returns (end: Option<End>)
      requires LoopKept(1) && !degraded && elapsed < deadline
      modifies this`tick, this`elapsed, this`pauses, this`retryDelay
      ensures end == None ==> LoopKept(0) && PausesLeft() < old(PausesLeft()) && pauses == old(pauses) + [old(elapsed)]
      ensures end == if world.cancelled(old(tick)) then Some(Cancelled) else None
      ensures end.Some? ==> RoundsBounded() && elapsed == old(elapsed)
      ensures end == None ==> elapsed >= old(elapsed) + old(retryDelay)
    {
      SleptGrows(0, |pauses|);
      DelayClosedForm(|pauses|);
      assert |pauses| <= deadline.Floor;
      OneMoreInTime(pauses, elapsed, deadline);
      pauses := pauses + [elapsed];
      if world.cancelled(tick) {
        return Some(Cancelled);
      }
      elapsed := elapsed + retryDelay + world.lapse(tick);
      tick := tick + 1;
      retryDelay := MinReal(retryDelay * DELAY_GROWTH, DELAY_CAP);
      end := None;
    }
  }

  predicate AllAlike(kinds: seq<string>) {
    forall kind | kind in kinds :: kind == kinds[0]
  }

  lemma AllAlikeSnoc(kinds: seq<string>, kind: string)
    ensures AllAlike(kinds + [kind]) <==> AllAlike(kinds) && (kinds == [] || kind == kinds[0])
  {
    var more := kinds + [kind];
    assert kind == more[|kinds|] && kind in more;
    assert forall x | x in kinds :: x in more;
    assert forall x | x in more :: x in kinds || x == kind;
    assert kinds != [] ==> kinds[0] == more[0];
  }

  lemma DistinctSnoc(keys: seq<Key>, k: Key)
    requires Distinct(keys) && k.keyId !in IdsOf(keys)
    ensures Distinct(keys + [k]) && IdsOf(keys + [k]) == IdsOf(keys) + {k.keyId}
  {
    assert forall i | 0 <= i < |keys| :: keys[i] in keys;
    assert k in keys + [k];
    forall x | x in keys
      ensures x in keys + [k]
    {
    }
  }
}
