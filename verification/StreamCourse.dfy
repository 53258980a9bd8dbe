/** The course of a streaming create of the Responses API: which upstream keys are asked, in what order and
    with what outcome, until an attempt reaches content or nothing is left to ask.  The network, the clock and
    the scoring are a `World` that answers every question arbitrarily. */
module StreamCourses {
  import opened Wrappers
  import opened EventLogs
  import opened Failover

  const MAX_SWITCHES: nat := 5

  /** How a pipeline run ends: by itself, with the terminal reason it recorded ("" when clean), or with a
      connection error raised out of the frame iteration. */
  datatype Ending = Finished(reason: string) | Interrupted

  datatype Script = Script(steps: seq<Step>, ending: Ending)

  /** The request body as far as self-healing looks at it: which of the two effort fields are set. */
  datatype Body = Body(effort: bool, nestedEffort: bool)

  predicate ReasoningPresent(b: Body) {
    b.effort || b.nestedEffort
  }

  /** Outcome of resolving a call before any network access; `strips` when the per-key reasoning rules
      removed the effort fields from the shared body on the way. */
  datatype Prepared = Prepared(fault: Fault, strips: bool)
  datatype Fault = NoFault | LocalWindowFull | TooManyRequests | OtherFault

  /** Outcome of opening the upstream. */
  datatype Opening =
    | NoHeader
    | ConnectionError(clientClosing: bool)
    | OtherError
    | HttpError(status: int, body: string, blamesEffort: bool, retryable: bool)
    | Serving(script: Script)

  /** Everything the handler cannot control, by question number. */
  datatype World = World(score: nat -> Score, prepare: nat -> Prepared, open: nat -> Opening)

  datatype Response =
    | ClientClosedRequest
    | EarlyTooManyRequests
    | StreamResponse
    | Passthrough(status: int)
    | BadGateway(code: string)

  datatype KeyOutcome = Up(script: Script) | NextKey | Stop(response: Response)

  /** What stays the same during a request. */
  datatype Request = Request(world: World, candidates: seq<Key>, routed: Option<Key>, order: Option<seq<int>>)

  /** A call that was prepared for a key. */
  datatype Call = Call(keyId: int, fault: Fault)

  /** What the retry loop keeps: the number of questions put to the world, the shared body and whether it was
      healed, the keys tried, the calls prepared, the connections opened with what came of each, and the last
      upstream error. */
  datatype Books = Books(
    tick: nat, body: Body, healed: bool, tried: set<int>, calls: seq<Call>, opens: seq<int>, answers: seq<Opening>,
    lastStatus: int, lastBody: string, lastRetryable: bool)

  function NewBooks(body: Body): Books {
    Books(0, body, false, {}, [], [], [], 0, "", false)
  }

  // ---- One call, one key, one turn ----

  /** One resolved call; no outcome when the body was healed and the key is to be called again. */
  function Called(w: World, b: Books, key: Key, strippedOnce: bool): (Books, Option<KeyOutcome>) {
    var call := w.prepare(b.tick);
    var b := b.(tick := b.tick + 1, body := if call.strips then Body(false, false) else b.body,
                calls := b.calls + [Call(key.keyId, call.fault)]);
    match call.fault
    case LocalWindowFull => (b.(tried := b.tried + {key.keyId}), Some(NextKey))
    case TooManyRequests => (b, Some(Stop(EarlyTooManyRequests)))
    case OtherFault => (b, Some(NextKey))
    case NoFault => Answered(b, key, strippedOnce, w.open(b.tick))
  }

  /** What a connection comes to. */
  function Answered(b: Books, key: Key, strippedOnce: bool, answer: Opening): (Books, Option<KeyOutcome>) {
    var b := b.(tick := b.tick + 1, tried := b.tried + {key.keyId}, opens := b.opens + [key.keyId],
                answers := b.answers + [answer]);
    match answer
    case NoHeader => (b, Some(NextKey))
    case OtherError => (b, Some(NextKey))
    case ConnectionError(clientClosing) => (b, Some(if clientClosing then Stop(ClientClosedRequest) else NextKey))
    case Serving(script) => (b, Some(Up(script)))
    case HttpError(status, errorBody, blamesEffort, retryable) =>
      if !strippedOnce && status in {400, 422} && (blamesEffort || ReasoningPresent(b.body)) && ReasoningPresent(b.body)
      then (b.(body := Body(false, false), healed := true), None)
      else (b.(lastStatus := status, lastBody := errorBody, lastRetryable := retryable), Some(NextKey))
  }

  /** One selected key: called once more when its first call healed the body. */
  function Asked(w: World, b: Books, key: Key, strippedOnce: bool): (Books, KeyOutcome)
    decreases !strippedOnce
  {
    var (b', outcome) := Called(w, b, key, strippedOnce);
    match outcome
    case Some(o) => (b', o)
    case None => if strippedOnce then (b', NextKey) else Asked(w, b', key, true)
  }

  function Choice(q: Request, tried: set<int>, tick: nat): Option<Key> {
    SelectRetryKey(q.routed, q.candidates, tried, q.order, q.world.score(tick))
  }

  /** One turn; no outcome when there is no key to select. */
  function Turned(q: Request, b: Books): (Books, Option<KeyOutcome>) {
    match Choice(q, b.tried, b.tick)
    case None => (b.(tick := b.tick + 1), None)
    case Some(key) =>
      var (b', outcome) := Asked(q.world, b.(tick := b.tick + 1), key, false);
      (b', Some(outcome))
  }

  // ---- The whole course ----

  /** An attempt after which no other key is asked. */
  predicate Ends(script: Script) {
    HasContent(script.steps) || script.ending.Interrupted?
  }

  /** `served` are the runs of the upstreams that answered 200; no `stop` when every attempt was given up. */
  datatype Course = Course(books: Books, served: seq<Script>, stop: Option<Response>, turns: nat)

  type Turn = Books -> (Books, Option<KeyOutcome>)

  function TurnOf(q: Request): Turn {
    b => Turned(q, b)
  }

  function CourseOf(turn: Turn, b: Books, turns: nat): Course
    decreases turns
  {
    if turns == 0 then Course(b, [], None, 0)
    else
      var (b', outcome) := turn(b);
      match outcome
      case None => Course(b', [], None, 0)
      case Some(Stop(response)) => Course(b', [], Some(response), 1)
      case Some(NextKey) => Later([], CourseOf(turn, b', turns - 1))
      case Some(Up(script)) =>
        if Ends(script) then Course(b', [script], Some(StreamResponse), 1)
        else Later([script], CourseOf(turn, b', turns - 1))
  }

  function Later(served: seq<Script>, c: Course): Course {
    c.(served := served + c.served, turns := c.turns + 1)
  }

  /** The course `c`, reached after `turns` turns with the runs `served`. */
  function After(served: seq<Script>, turns: nat, c: Course): Course {
    c.(served := served + c.served, turns := turns + c.turns)
  }

  lemma CourseStarts(q: Request, body: Body)
    ensures var turns := Min(|q.candidates|, MAX_SWITCHES + 1);
      CourseOfRequest(q, body) == After([], 0, CourseOf(TurnOf(q), NewBooks(body), turns))
  {
    var c := CourseOf(TurnOf(q), NewBooks(body), Min(|q.candidates|, MAX_SWITCHES + 1));
    assert [] + c.served == c.served;
  }

  lemma CourseRunsOut(c: Course, served: seq<Script>, turns: nat, turn: Turn, b: Books)
    requires c == After(served, turns, CourseOf(turn, b, 0))
    ensures c.books == b && c.served == served && c.stop == None
  {
  }

  /** What the next turn makes of a course that has `turns` of `total` turns behind it. */
  lemma CourseContinues(c: Course, served: seq<Script>, turns: nat, total: nat, turn: Turn, b: Books)
    requires turns < total && c == After(served, turns, CourseOf(turn, b, total - turns))
    ensures var (b', outcome) := turn(b);
      match outcome
      case None => c == After(served, turns, CourseOf(turn, b', turns - turns))
      case Some(Stop(response)) => c.books == b' && c.stop == Some(response) && c.served == served
      case Some(NextKey) => c == After(served, turns + 1, CourseOf(turn, b', total - (turns + 1)))
      case Some(Up(script)) =>
        if Ends(script) then c.books == b' && c.stop == Some(StreamResponse) && c.served == served + [script]
        else c == After(served + [script], turns + 1, CourseOf(turn, b', total - (turns + 1)))
  {
    var (b', outcome) := turn(b);
    var left: nat := total - turns - 1;
    assert total - (turns + 1) == left;
    var later := CourseOf(turn, b', left);
    match outcome {
      case None => assert served + [] == served;
      case Some(Stop(_)) => assert served + [] == served;
      case Some(NextKey) => assert served + ([] + later.served) == served + later.served;
      case Some(Up(script)) => assert served + ([script] + later.served) == served + [script] + later.served;
    }
  }

  /** The last terminal reason recorded. */
  function LastReason(served: seq<Script>): string {
    if served == [] then ""
    else
      var last := served[|served| - 1].ending;
      if last.Finished? && last.reason != "" then last.reason else LastReason(served[..|served| - 1])
  }

  lemma LastReasonSnoc(served: seq<Script>, script: Script)
    ensures LastReason(served + [script])
         == if script.ending.Finished? && script.ending.reason != "" then script.ending.reason else LastReason(served)
  {
    assert (served + [script])[..|served|] == served;
  }

  /** The answer when every attempt was given up. */
  function GaveUp(b: Books, reason: string): Response {
    if b.lastBody != "" && (b.lastStatus in {401, 403} || (400 <= b.lastStatus < 500 && !b.lastRetryable))
    then Passthrough(b.lastStatus)
    else BadGateway(if reason != "" then "upstream_unavailable" else "empty_upstream_response")
  }

  function CourseOfRequest(q: Request, body: Body): Course {
    CourseOf(TurnOf(q), NewBooks(body), Min(|q.candidates|, MAX_SWITCHES + 1))
  }

  function ResponseOf(c: Course): Response {
    match c.stop
    case Some(response) => response
    case None => GaveUp(c.books, LastReason(c.served))
  }

  function Min(a: nat, b: nat): nat {
    if a < b then a else b
  }

  // ---- Connections opened ----

  /** No key is opened twice, except that one single key may be opened a second time directly after its
      first connection, when the request body was healed. */
  ghost predicate OpenedOnce(opens: seq<int>, healed: bool) {
    && (forall i, j | 0 <= i < j < |opens| && opens[i] == opens[j] :: healed && j == i + 1)
    && (forall i, j | 0 < i < |opens| && 0 < j < |opens| && Repeats(opens, i) && Repeats(opens, j) :: i == j)
  }

  predicate Repeats(opens: seq<int>, i: int)
    requires 0 < i < |opens|
  {
    opens[i] == opens[i - 1]
  }

  lemma OpenedOnceGrows(opens: seq<int>, healed: bool, id: int)
    requires OpenedOnce(opens, healed) && id !in opens
    ensures OpenedOnce(opens + [id], healed)
  {
    var more := opens + [id];
    assert forall i | 0 <= i < |opens| :: more[i] in opens;
    forall i | 0 < i < |more| && Repeats(more, i)
      ensures i < |opens| && Repeats(opens, i)
    {
    }
  }

  lemma OpenedOnceHeals(opens: seq<int>, id: int)
    requires OpenedOnce(opens, false) && id !in opens
    ensures OpenedOnce(opens + [id], true) && OpenedOnce(opens + [id] + [id], true)
  {
    OpenedOnceGrows(opens, false, id);
    var more := opens + [id] + [id];
    assert forall i | 0 <= i < |opens| :: more[i] in opens;
    forall i | 0 < i < |more| && Repeats(more, i)
      ensures i == |opens| + 1
    {
    }
  }

  /** Connections and answers belong together, every key opened was tried, and a body once healed has no effort
      fields any more, which is why it cannot be healed again. */
  ghost predicate Sound(b: Books) {
    && |b.opens| == |b.answers|
    && (forall id | id in b.opens :: id in b.tried)
    && (b.healed ==> !ReasoningPresent(b.body))
    && OpenedOnce(b.opens, b.healed)
  }

  function Heals(b: Books): nat {
    if b.healed then 1 else 0
  }

  ghost predicate FirstCallSound(b: Books, b': Books, key: Key, outcome: Option<KeyOutcome>) {
    && |b'.opens| == |b'.answers| && b.tried <= b'.tried <= b.tried + {key.keyId}
    && (b'.opens == b.opens || (b'.opens == b.opens + [key.keyId] && key.keyId in b'.tried))
    && (ReasoningPresent(b'.body) ==> ReasoningPresent(b.body))
    && (outcome.None? ==> b'.opens == b.opens + [key.keyId] && b'.healed && !b.healed && !ReasoningPresent(b'.body))
    && (outcome.Some? ==> b'.healed == b.healed)
  }

  lemma CallIsSound(w: World, b: Books, key: Key)
    requires Sound(b)
    ensures FirstCallSound(b, Called(w, b, key, false).0, key, Called(w, b, key, false).1)
  {
  }

  lemma SecondCallIsSound(w: World, b: Books, key: Key)
    requires |b.opens| == |b.answers|
    ensures var (b', outcome) := Called(w, b, key, true);
      && outcome.Some? && b'.healed == b.healed && |b'.opens| == |b'.answers| && b.tried <= b'.tried
      && (b'.opens == b.opens || b'.opens == b.opens + [key.keyId])
      && b'.tried <= b.tried + {key.keyId}
      && (ReasoningPresent(b'.body) ==> ReasoningPresent(b.body))
  {
  }

  /** One selected key opens at most one connection, and one more on the same key after healing. */
  lemma AskingIsSound(w: World, b: Books, key: Key)
    requires Sound(b) && key.keyId !in b.tried
    ensures var b' := Asked(w, b, key, false).0;
      Sound(b') && |b'.opens| <= |b.opens| + 1 + Heals(b') - Heals(b) && (b.healed ==> b'.healed)
  {
    var (b1, outcome) := Called(w, b, key, false);
    CallIsSound(w, b, key);
    OpenedOnceGrows(b.opens, b.healed, key.keyId);
    if outcome.None? {
      SecondCallIsSound(w, b1, key);
      OpenedOnceHeals(b.opens, key.keyId);
    }
  }

  ghost predicate GrowsSoundly(b: Books, b': Books, turns: nat) {
    Sound(b') && |b'.opens| <= |b.opens| + turns + Heals(b') - Heals(b) && (b.healed ==> b'.healed)
  }

  lemma TurnIsSound(q: Request, b: Books)
    requires Sound(b)
    ensures GrowsSoundly(b, Turned(q, b).0, 1)
  {
    var b0, choice := b.(tick := b.tick + 1), Choice(q, b.tried, b.tick);
    assert Sound(b0);
    if choice.Some? {
      AskingIsSound(q.world, b0, choice.value);
      assert Turned(q, b).0 == Asked(q.world, b0, choice.value, false).0;
    } else {
      assert Turned(q, b).0 == b0;
    }
  }

  lemma {:induction false} CourseIsSound(turn: Turn, b: Books, turns: nat)
    requires Sound(b) && forall b | Sound(b) :: GrowsSoundly(b, turn(b).0, 1)
    ensures GrowsSoundly(b, CourseOf(turn, b, turns).books, turns)
    decreases turns
  {
    if turns > 0 {
      var (b', outcome) := turn(b);
      assert GrowsSoundly(b, turn(b).0, 1);
      CourseIsSound(turn, b', turns - 1);
      var c := CourseOf(turn, b, turns).books;
      assert c == b' || c == CourseOf(turn, b', turns - 1).books;
      GrowthAdds(b, b', c, turns - 1);
    } else {
      assert CourseOf(turn, b, turns).books == b;
    }
  }

  lemma GrowthAdds(a: Books, b: Books, c: Books, turns: nat)
    requires GrowsSoundly(a, b, 1) && (b == c || GrowsSoundly(b, c, turns))
    ensures GrowsSoundly(a, c, turns + 1)
  {
  }

  /** Connection bound: each key is opened at most once and one single key once more, so a request opens at
      most min(candidates, 6) + 1 connections over any pattern of failures. */
  lemma ConnectionsAreBounded(q: Request, body: Body)
    ensures var b := CourseOfRequest(q, body).books;
      OpenedOnce(b.opens, b.healed) && |b.opens| <= |q.candidates| + 1 && |b.opens| <= 7
  {
    forall b | Sound(b)
      ensures GrowsSoundly(b, TurnOf(q)(b).0, 1)
    {
      TurnIsSound(q, b);
    }
    CourseIsSound(TurnOf(q), NewBooks(body), Min(|q.candidates|, MAX_SWITCHES + 1));
  }

  /** The upstream rejected the effort fields, and there still were some to take out. */
  predicate RejectsEffort(w: World, b: Books) {
    && w.prepare(b.tick).fault == NoFault && !w.prepare(b.tick).strips
    && (b.body.effort || b.body.nestedEffort)
    && w.open(b.tick + 1).HttpError? && (w.open(b.tick + 1).status == 400 || w.open(b.tick + 1).status == 422)
  }

  /** A key is called a second time, at once and without the effort fields, exactly when its upstream rejected them. */
  lemma RejectedKeyIsAskedAgain(w: World, b: Books, key: Key)
    ensures var b', first := Asked(w, b, key, false).0, Call(key.keyId, w.prepare(b.tick).fault);
      && b'.calls == (if RejectsEffort(w, b) then b.calls + [first, Call(key.keyId, w.prepare(b.tick + 2).fault)]
                      else b.calls + [first])
      && (RejectsEffort(w, b) ==> !b'.body.effort && !b'.body.nestedEffort)
  {
    var (b1, outcome) := Called(w, b, key, false);
    if RejectsEffort(w, b) {
      SecondCallDecides(w, b1, key);
      var second := Call(key.keyId, w.prepare(b.tick + 2).fault);
      assert b1.calls + [second] == b.calls + [Call(key.keyId, w.prepare(b.tick).fault), second];
    }
  }

  // ---- Who is served ----

  /** The runs among the answers to the connections opened. */
  function Scripts(answers: seq<Opening>): seq<Script> {
    if answers == [] then []
    else
      var last := answers[|answers| - 1];
      Scripts(answers[..|answers| - 1]) + if last.Serving? then [last.script] else []
  }

  lemma ScriptsSnoc(answers: seq<Opening>, answer: Opening)
    ensures Scripts(answers + [answer]) == Scripts(answers) + if answer.Serving? then [answer.script] else []
    ensures Scripts(answers) + [] == Scripts(answers)
  {
    assert (answers + [answer])[..|answers|] == answers;
  }

  /** The runs a turn's outcome adds. */
  function RunOf(outcome: Option<KeyOutcome>): seq<Script> {
    match outcome
    case Some(Up(script)) => [script]
    case _ => []
  }

  lemma ConnectionServesItsAnswer(b: Books, key: Key, strippedOnce: bool, answer: Opening)
    ensures var (b', outcome) := Answered(b, key, strippedOnce, answer);
      b'.answers == b.answers + [answer] && RunOf(outcome) == if answer.Serving? then [answer.script] else []
  {
  }

  lemma CallServesItsAnswer(w: World, b: Books, key: Key, strippedOnce: bool)
    ensures var (b', outcome) := Called(w, b, key, strippedOnce);
      Scripts(b'.answers) == Scripts(b.answers) + RunOf(outcome)
  {
    var call := w.prepare(b.tick);
    if call.fault.NoFault? {
      var b0 := b.(tick := b.tick + 1, body := if call.strips then Body(false, false) else b.body,
                   calls := b.calls + [Call(key.keyId, call.fault)]);
      var answer := w.open(b0.tick);
      ConnectionServesItsAnswer(b0, key, strippedOnce, answer);
      ScriptsSnoc(b.answers, answer);
      assert Called(w, b, key, strippedOnce) == Answered(b0, key, strippedOnce, answer);
    } else {
      var (b', outcome) := Called(w, b, key, strippedOnce);
      assert b'.answers == b.answers && RunOf(outcome) == [];
    }
  }

  lemma KeyServesItsAnswer(w: World, b: Books, key: Key)
    ensures var (b', outcome) := Asked(w, b, key, false);
      Scripts(b'.answers) == Scripts(b.answers) + RunOf(Some(outcome))
  {
    var (b1, first) := Called(w, b, key, false);
    CallServesItsAnswer(w, b, key, false);
    if first.None? {
      CallServesItsAnswer(w, b1, key, true);
      SecondCallDecides(w, b1, key);
    }
  }

  lemma SecondCallDecides(w: World, b: Books, key: Key)
    ensures Called(w, b, key, true).1.Some?
  {
  }

  ghost predicate ServesItsAnswer(b: Books, r: (Books, Option<KeyOutcome>)) {
    Scripts(r.0.answers) == Scripts(b.answers) + RunOf(r.1)
  }

  lemma TurnServesItsAnswer(q: Request, b: Books)
    ensures ServesItsAnswer(b, Turned(q, b))
  {
    var b0, choice := b.(tick := b.tick + 1), Choice(q, b.tried, b.tick);
    if choice.Some? {
      KeyServesItsAnswer(q.world, b0, choice.value);
      assert Turned(q, b) == (Asked(q.world, b0, choice.value, false).0, Some(Asked(q.world, b0, choice.value, false).1));
    } else {
      assert Turned(q, b) == (b0, None);
    }
  }

  lemma {:induction false} CourseServesItsAnswers(turn: Turn, b: Books, turns: nat)
    requires forall b :: ServesItsAnswer(b, turn(b))
    ensures var c := CourseOf(turn, b, turns); Scripts(c.books.answers) == Scripts(b.answers) + c.served
    decreases turns
  {
    if turns > 0 {
      var (b', outcome) := turn(b);
      assert ServesItsAnswer(b, turn(b));
      if outcome.Some? && (outcome.value.NextKey? || (outcome.value.Up? && !Ends(outcome.value.script))) {
        CourseServesItsAnswers(turn, b', turns - 1);
        Associative(Scripts(b.answers), RunOf(outcome), CourseOf(turn, b', turns - 1).served);
      }
    }
  }

  /** The runs served are exactly the 200 answers to the connections opened, in order. */
  lemma ServedAreTheAnswers(q: Request, body: Body)
    ensures var c := CourseOfRequest(q, body); c.served == Scripts(c.books.answers)
  {
    forall b
      ensures ServesItsAnswer(b, TurnOf(q)(b))
    {
      TurnServesItsAnswer(q, b);
    }
    CourseServesItsAnswers(TurnOf(q), NewBooks(body), Min(|q.candidates|, MAX_SWITCHES + 1));
  }

  lemma Associative(a: seq<Script>, b: seq<Script>, c: seq<Script>)
    ensures a + b + c == a + (b + c)
  {
  }

  /** An answer the world gave. */
  ghost predicate Genuine(w: World, answer: Opening) {
    exists t: nat :: w.open(t) == answer
  }

  ghost predicate AllGenuine(w: World, answers: seq<Opening>) {
    forall i | 0 <= i < |answers| :: Genuine(w, answers[i])
  }

  ghost predicate TurnsGenuinely(w: World, r: (Books, Option<KeyOutcome>)) {
    && AllGenuine(w, r.0.answers)
    && (r.1 == Some(Stop(ClientClosedRequest)) ==> Genuine(w, ConnectionError(true)))
    && match r.1
       case Some(Up(script)) => Genuine(w, Serving(script))
       case Some(Stop(response)) => response in {EarlyTooManyRequests, ClientClosedRequest}
       case _ => true
  }

  lemma CallIsGenuine(w: World, b: Books, key: Key, strippedOnce: bool)
    requires AllGenuine(w, b.answers)
    ensures TurnsGenuinely(w, Called(w, b, key, strippedOnce))
  {
    assert Genuine(w, w.open(b.tick + 1));
  }

  lemma KeyIsGenuine(w: World, b: Books, key: Key)
    requires AllGenuine(w, b.answers)
    ensures var (b', outcome) := Asked(w, b, key, false); TurnsGenuinely(w, (b', Some(outcome)))
  {
    var (b1, first) := Called(w, b, key, false);
    CallIsGenuine(w, b, key, false);
    if first.None? {
      CallIsGenuine(w, b1, key, true);
      SecondCallDecides(w, b1, key);
    }
  }

  ghost predicate NothingLeft(q: Request, r: (Books, Option<KeyOutcome>)) {
    r.1.None? ==> r.0.tick > 0 && Choice(q, r.0.tried, r.0.tick - 1) == None
  }

  lemma TurnIsGenuine(q: Request, b: Books)
    requires AllGenuine(q.world, b.answers)
    ensures TurnsGenuinely(q.world, Turned(q, b))
  {
    var b0, choice := b.(tick := b.tick + 1), Choice(q, b.tried, b.tick);
    if choice.Some? {
      KeyIsGenuine(q.world, b0, choice.value);
      var (b', outcome) := Asked(q.world, b0, choice.value, false);
      assert Turned(q, b) == (b', Some(outcome));
    } else {
      assert Turned(q, b) == (b0, None);
    }
  }

  predicate StopsEarly(outcome: Option<KeyOutcome>) {
    match outcome
    case Some(Stop(response)) => response in {EarlyTooManyRequests, ClientClosedRequest}
    case _ => true
  }

  lemma CallStopsEarly(w: World, b: Books, key: Key, strippedOnce: bool)
    ensures StopsEarly(Called(w, b, key, strippedOnce).1)
  {
  }

  /** A turn stops the request only for an early refusal or a client that closed the request. */
  lemma TurnStopsEarly(q: Request, b: Books)
    ensures StopsEarly(Turned(q, b).1)
  {
    TurnIsItsCalls(q, b);
    var choice := Choice(q, b.tried, b.tick);
    if choice.Some? {
      var b0 := b.(tick := b.tick + 1);
      CallStopsEarly(q.world, b0, choice.value, false);
      CallStopsEarly(q.world, Called(q.world, b0, choice.value, false).0, choice.value, true);
    }
  }

  /** A turn without a key does nothing; otherwise it comes to its call, or to the second one where there is one. */
  lemma TurnIsItsCalls(q: Request, b: Books)
    ensures var b0, choice := b.(tick := b.tick + 1), Choice(q, b.tried, b.tick);
      Turned(q, b) ==
        if choice.None? then (b0, None)
        else
          var (b1, first) := Called(q.world, b0, choice.value, false);
          if first.Some? then (b1, first) else Called(q.world, b1, choice.value, true)
  {
    var b0, choice := b.(tick := b.tick + 1), Choice(q, b.tried, b.tick);
    if choice.Some? {
      SecondCallDecides(q.world, Called(q.world, b0, choice.value, false).0, choice.value);
    }
  }

  ghost predicate NoneEnds(served: seq<Script>) {
    forall i | 0 <= i < |served| :: !HasContent(served[i].steps) && served[i].ending.Finished?
  }

  /** Only the last run can be one that ends the course, and it is exactly when the answer is the stream. */
  ghost predicate EndsAtTheEnd(c: Course) {
    if c.stop == Some(StreamResponse)
    then
      && c.served != [] && NoneEnds(c.served[..|c.served| - 1])
      && (HasContent(c.served[|c.served| - 1].steps) || c.served[|c.served| - 1].ending.Interrupted?)
    else NoneEnds(c.served)
  }

  lemma LaterEndsAtTheEnd(first: seq<Script>, c: Course)
    requires NoneEnds(first) && EndsAtTheEnd(c)
    ensures EndsAtTheEnd(Later(first, c))
  {
    if c.stop == Some(StreamResponse) {
      assert (first + c.served)[..|first + c.served| - 1] == first + c.served[..|c.served| - 1];
    }
  }

  lemma {:induction false} CourseEndsAtTheEnd(w: World, turn: Turn, b: Books, turns: nat)
    requires AllGenuine(w, b.answers) && forall b: Books | AllGenuine(w, b.answers) :: TurnsGenuinely(w, turn(b))
    ensures var c := CourseOf(turn, b, turns);
      && AllGenuine(w, c.books.answers) && EndsAtTheEnd(c)
      && (c.stop.Some? ==> c.stop.value in {StreamResponse, EarlyTooManyRequests, ClientClosedRequest})
      && (c.stop == Some(ClientClosedRequest) ==> Genuine(w, ConnectionError(true)))
    decreases turns
  {
    if turns > 0 {
      var (b', outcome) := turn(b);
      if outcome.Some? && (outcome.value.NextKey? || (outcome.value.Up? && !Ends(outcome.value.script))) {
        CourseEndsAtTheEnd(w, turn, b', turns - 1);
        LaterEndsAtTheEnd(RunOf(outcome), CourseOf(turn, b', turns - 1));
      }
    }
  }

  lemma {:induction false} CourseGoesOn(q: Request, turn: Turn, b: Books, turns: nat)
    requires forall b :: NothingLeft(q, turn(b))
    ensures var c := CourseOf(turn, b, turns);
      c.stop.Some? || c.turns == turns || (c.books.tick > 0 && Choice(q, c.books.tried, c.books.tick - 1) == None)
    decreases turns
  {
    if turns > 0 {
      var (b', outcome) := turn(b);
      assert NothingLeft(q, turn(b));
      if outcome.Some? && (outcome.value.NextKey? || (outcome.value.Up? && !Ends(outcome.value.script))) {
        CourseGoesOn(q, turn, b', turns - 1);
      }
    }
  }

  lemma TurnsAreGenuine(q: Request)
    ensures forall b: Books | AllGenuine(q.world, b.answers) :: TurnsGenuinely(q.world, TurnOf(q)(b))
    ensures forall b :: NothingLeft(q, TurnOf(q)(b))
  {
    forall b: Books | AllGenuine(q.world, b.answers)
      ensures TurnsGenuinely(q.world, TurnOf(q)(b))
    {
      TurnIsGenuine(q, b);
    }
    forall b
      ensures NothingLeft(q, TurnOf(q)(b))
    {
      assert NothingLeft(q, Turned(q, b));
    }
  }

  ghost predicate EndsWhen(q: Request, c: Course, turns: nat) {
    && AllGenuine(q.world, c.books.answers) && EndsAtTheEnd(c)
    && (c.stop.Some? ==> c.stop.value in {StreamResponse, EarlyTooManyRequests, ClientClosedRequest})
    && (c.stop == Some(ClientClosedRequest) ==> Genuine(q.world, ConnectionError(true)))
    && (c.stop.Some? || c.turns == turns
        || (c.books.tick > 0 && Choice(q, c.books.tried, c.books.tick - 1) == None))
  }

  lemma AnyCourseEndsWhen(q: Request, turn: Turn, b: Books, turns: nat)
    requires AllGenuine(q.world, b.answers)
    requires forall b: Books | AllGenuine(q.world, b.answers) :: TurnsGenuinely(q.world, turn(b))
    requires forall b :: NothingLeft(q, turn(b))
    ensures EndsWhen(q, CourseOf(turn, b, turns), turns)
  {
    CourseEndsAtTheEnd(q.world, turn, b, turns);
    CourseGoesOn(q, turn, b, turns);
  }

  /** Where a course ends: with the first run that reached content or was interrupted, with an answer that stops
      it, or when all turns are spent or no key is left to select; never before. */
  lemma CourseEndsWhen(q: Request, body: Body)
    ensures EndsWhen(q, CourseOfRequest(q, body), if |q.candidates| < 6 then |q.candidates| else 6)
  {
    TurnsAreGenuine(q);
    AnyCourseEndsWhen(q, TurnOf(q), NewBooks(body), Min(|q.candidates|, MAX_SWITCHES + 1));
  }

  // ---- What the calls prepared come to ----

  function OpenedBy(calls: seq<Call>): seq<int> {
    if calls == [] then []
    else
      var last := calls[|calls| - 1];
      OpenedBy(calls[..|calls| - 1]) + if last.fault == NoFault then [last.keyId] else []
  }

  function TriedBy(calls: seq<Call>): set<int> {
    if calls == [] then {}
    else
      var last := calls[|calls| - 1];
      TriedBy(calls[..|calls| - 1]) + if last.fault in {NoFault, LocalWindowFull} then {last.keyId} else {}
  }

  /** No call was refused with 429 before the network. */
  ghost predicate NoneRefused(calls: seq<Call>) {
    forall i | 0 <= i < |calls| :: calls[i].fault != TooManyRequests
  }

  ghost predicate RefusedLast(calls: seq<Call>) {
    calls != [] && calls[|calls| - 1].fault == TooManyRequests && NoneRefused(calls[..|calls| - 1])
  }

  /** The books agree with the calls prepared: a connection was opened exactly for a call without a fault, and a key
      counts as tried exactly after a connection or after its own full window. */
  ghost predicate Follows(b: Books) {
    b.opens == OpenedBy(b.calls) && b.tried == TriedBy(b.calls)
  }

  /** The books after some calls, the last of which the outcome is about. */
  ghost predicate CallsFollow(b: Books, outcome: Option<KeyOutcome>) {
    && Follows(b)
    && if outcome == Some(Stop(EarlyTooManyRequests)) then RefusedLast(b.calls) else NoneRefused(b.calls)
  }

  lemma CallsSnoc(calls: seq<Call>, call: Call)
    ensures var last := call.fault;
      && OpenedBy(calls + [call]) == (if last == NoFault then OpenedBy(calls) + [call.keyId] else OpenedBy(calls))
      && TriedBy(calls + [call])
           == (if last in {NoFault, LocalWindowFull} then TriedBy(calls) + {call.keyId} else TriedBy(calls))
      && (NoneRefused(calls) ==> if last == TooManyRequests then RefusedLast(calls + [call]) else NoneRefused(calls + [call]))
  {
    assert (calls + [call])[..|calls|] == calls;
  }

  lemma CallFollows(w: World, b: Books, key: Key, strippedOnce: bool)
    requires Follows(b) && NoneRefused(b.calls)
    ensures var (b', outcome) := Called(w, b, key, strippedOnce); CallsFollow(b', outcome)
  {
    var call := w.prepare(b.tick);
    var noted := b.(tick := b.tick + 1, body := if call.strips then Body(false, false) else b.body,
                    calls := b.calls + [Call(key.keyId, call.fault)]);
    CallsSnoc(b.calls, Call(key.keyId, call.fault));
    AnsweredNotes(noted, key, strippedOnce, w.open(noted.tick));
  }

  lemma AnsweredNotes(b: Books, key: Key, strippedOnce: bool, answer: Opening)
    ensures var (b', outcome) := Answered(b, key, strippedOnce, answer);
      && b'.calls == b.calls && b'.opens == b.opens + [key.keyId] && b'.tried == b.tried + {key.keyId}
      && outcome != Some(Stop(EarlyTooManyRequests))
  {
  }

  lemma TurnFollows(q: Request, b: Books)
    requires Follows(b) && NoneRefused(b.calls)
    ensures var (b', outcome) := Turned(q, b); CallsFollow(b', outcome)
  {
    TurnIsItsCalls(q, b);
    var b0, choice := b.(tick := b.tick + 1), Choice(q, b.tried, b.tick);
    assert Follows(b0);
    if choice.Some? {
      var (b1, first) := Called(q.world, b0, choice.value, false);
      CallFollows(q.world, b0, choice.value, false);
      if first.None? {
        CallFollows(q.world, b1, choice.value, true);
      }
    }
  }

  lemma {:induction false} AnyCourseFollows(turn: Turn, b: Books, turns: nat)
    requires Follows(b) && NoneRefused(b.calls)
    requires forall b: Books | Follows(b) && NoneRefused(b.calls) :: CallsFollow(turn(b).0, turn(b).1)
    ensures var c := CourseOf(turn, b, turns);
      && Follows(c.books)
      && if c.stop == Some(EarlyTooManyRequests) then RefusedLast(c.books.calls) else NoneRefused(c.books.calls)
    decreases turns
  {
    if turns > 0 {
      var (b', outcome) := turn(b);
      assert CallsFollow(turn(b).0, turn(b).1);
      if outcome.Some? && (outcome.value.NextKey? || (outcome.value.Up? && !Ends(outcome.value.script))) {
        AnyCourseFollows(turn, b', turns - 1);
      }
    }
  }

  /** The request is answered 429 at once exactly when the last call prepared was refused so before the network, and
      never because of a key's own full window, after which the key counts as tried and the next one is asked; no
      call comes after such a refusal. */
  lemma RefusedEarlyIff(q: Request, body: Body)
    ensures var c := CourseOfRequest(q, body);
      && (c.stop == Some(EarlyTooManyRequests) <==>
          (c.books.calls != [] && c.books.calls[|c.books.calls| - 1].fault == TooManyRequests))
      && (forall i | 0 <= i < |c.books.calls| - 1 :: c.books.calls[i].fault != TooManyRequests)
      && c.books.opens == OpenedBy(c.books.calls) && c.books.tried == TriedBy(c.books.calls)
  {
    forall b: Books | Follows(b) && NoneRefused(b.calls)
      ensures CallsFollow(TurnOf(q)(b).0, TurnOf(q)(b).1)
    {
      TurnFollows(q, b);
    }
    AnyCourseFollows(TurnOf(q), NewBooks(body), Min(|q.candidates|, MAX_SWITCHES + 1));
    RefusedLastOnly(CourseOfRequest(q, body).books.calls);
  }

  lemma RefusedLastOnly(calls: seq<Call>)
    requires RefusedLast(calls) || NoneRefused(calls)
    ensures RefusedLast(calls) <==> calls != [] && calls[|calls| - 1].fault == TooManyRequests
    ensures forall i | 0 <= i < |calls| - 1 :: calls[i].fault != TooManyRequests
  {
    if RefusedLast(calls) {
      assert forall i | 0 <= i < |calls| - 1 :: calls[..|calls| - 1][i] == calls[i];
    }
  }

  // ---- A connection that lasts ----

  /** The client stays and no attempt is broken off by a connection error of the frame iteration. */
  ghost predicate Connected(w: World) {
    forall t: nat :: w.open(t) != ConnectionError(true) && (w.open(t).Serving? ==> w.open(t).script.ending.Finished?)
  }

  ghost predicate SomeContent(served: seq<Script>) {
    exists i :: 0 <= i < |served| && HasContent(served[i].steps)
  }

  lemma {:induction false} ServedIsAnswer(answers: seq<Opening>, i: nat)
    requires i < |Scripts(answers)|
    ensures Serving(Scripts(answers)[i]) in answers
  {
    var front, last := answers[..|answers| - 1], answers[|answers| - 1];
    if i < |Scripts(front)| {
      ServedIsAnswer(front, i);
      assert forall x | x in front :: x in answers;
    } else {
      assert last in answers;
    }
  }

  /** While connections last, the answer is a stream exactly when some upstream yielded content: the last one, and
      no earlier one did. */
  lemma ConnectedRunsEnd(q: Request, body: Body)
    ensures var c := CourseOfRequest(q, body);
      Connected(q.world) ==>
        && (forall script | script in c.served :: script.ending.Finished?)
        && (c.stop == Some(StreamResponse) <==> SomeContent(c.served))
  {
    var c := CourseOfRequest(q, body);
    CourseEndsWhen(q, body);
    ServedAreTheAnswers(q, body);
    if Connected(q.world) {
      forall i | 0 <= i < |c.served|
        ensures c.served[i].ending.Finished?
      {
        ServedIsAnswer(c.books.answers, i);
        var k :| 0 <= k < |c.books.answers| && c.books.answers[k] == Serving(c.served[i]);
        assert Genuine(q.world, c.books.answers[k]);
      }
      ContentAtTheEnd(c);
    }
  }

  lemma ContentAtTheEnd(c: Course)
    requires EndsAtTheEnd(c) && forall script | script in c.served :: script.ending.Finished?
    ensures c.stop == Some(StreamResponse) <==> SomeContent(c.served)
  {
    if c.stop == Some(StreamResponse) {
      assert c.served[|c.served| - 1] in c.served;
    } else {
      assert forall i | 0 <= i < |c.served| :: !Ends(c.served[i]);
    }
  }

  /** The gateway error names an unavailable upstream exactly when some run recorded a reason. */
  lemma {:induction false} ReasonIsRecordedIff(served: seq<Script>)
    ensures LastReason(served) != "" <==>
      exists i :: 0 <= i < |served| && served[i].ending.Finished? && served[i].ending.reason != ""
  {
    if served != [] {
      ReasonIsRecordedIff(served[..|served| - 1]);
    }
  }
}
