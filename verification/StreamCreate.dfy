/** The streaming create of the Responses API: up to six upstream keys are tried, each attempt's frames
    and event rows are held back, and one attempt is committed to the client when its first content frame
    appears.  `StreamCourses` says which keys are asked; here is what client and event log get to see. */
module StreamCreates {
  import opened Wrappers
  import opened EventLogs
  import opened Failover
  import opened StreamCourses
  import opened Deliveries

  /** The downstream connection: it takes `patience` more operations and then raises on every further
      one; `None` for a client that stays. */
  class Client {
    var prepared: bool
    var written: seq<Frame>
    var patience: Patience

    constructor (patience: Patience)
      ensures !prepared && written == [] && this.patience == patience
    {
      prepared, written := false, [];
      this.patience := patience;
    }

    method Prepare() returns (ok: bool)
      modifies this
      ensures ok == (old(patience) != Some(0))
      ensures prepared == (old(prepared) || ok) && written == old(written)
      ensures patience == Spent(old(patience), if ok then 1 else 0)
    {
      ok := patience != Some(0);
      if ok {
        prepared := true;
        if patience.Some? {
          patience := Some(patience.value - 1);
        }
      }
    }

    method Write(f: Frame) returns (ok: bool)
      modifies this
      ensures ok == (old(patience) != Some(0))
      ensures written == old(written) + (if ok then [f] else []) && prepared == old(prepared)
      ensures patience == Spent(old(patience), if ok then 1 else 0)
    {
      ok := patience != Some(0);
      if ok {
        written := written + [f];
        if patience.Some? {
          patience := Some(patience.value - 1);
        }
      }
    }

    method WriteAll(frames: seq<Frame>) returns (ok: bool)
      modifies this
      ensures ok <==> old(patience).None? || |frames| <= old(patience).value
      ensures written == old(written) + (if ok then frames else frames[..old(patience).value])
      ensures patience == Spent(old(patience), if ok then |frames| else old(patience).value)
      ensures prepared == old(prepared)
    {
      for i := 0 to |frames|
        invariant written == old(written) + frames[..i] && prepared == old(prepared)
        invariant old(patience).Some? ==> i <= old(patience).value
        invariant patience == Spent(old(patience), i)
      {
        ok := Write(frames[i]);
        if !ok {
          return;
        }
      }
      ok := true;
    }
  }

  /** What is left of the patience after `n` operations. */
  function Spent(p: Patience, n: nat): Patience
    requires p.Some? ==> n <= p.value
  {
    if p.None? then None else Some(p.value - n)
  }

  // ---- One attempt that reached a 200 upstream ----

  /** At the first content frame: the held events go to the log, then the stream is opened and the held
      frames follow, as many as the client takes. */
  method CommitAttempt(client: Client, log: EventLog, deferred: DeferredEventLog?, buf: seq<Frame>)
    returns (committed: bool, ok: bool)
    requires client.written == [] && !client.prepared
    requires deferred != null ==> deferred.inner == log && !deferred.live
    modifies client, log, deferred
    ensures deferred != null ==> deferred.inner == log && deferred.live
    ensures log.rows == old(log.rows) + if deferred != null then old(deferred.pending) else []
    ensures committed == client.prepared == (old(client.patience) != Some(0))
    ensures client.written == Taken(old(client.patience), buf)
    ensures ok <==> old(client.patience).None? || |buf| < old(client.patience).value
    ensures ok ==> client.patience == Spent(old(client.patience), |buf| + 1)
    ensures !committed ==> client.patience == old(client.patience)
  {
    if deferred != null {
      deferred.Commit();
    }
    committed := client.Prepare();
    ok := committed;
    if committed {
      ok := client.WriteAll(buf);
      assert buf[..|buf|] == buf;
    }
  }

  lemma OneMoreStep(id: string, taken: seq<Step>, step: Step)
    ensures FramesOf(taken + [step]) == FramesOf(taken) + match step { case Emit(f) => [f] case Append(_) => [] }
    ensures RowsOf(id, taken + [step]) == RowsOf(id, taken)
      + match step { case Append(d) => [Row(id, |RowsOf(id, taken)|, d)] case Emit(_) => [] }
    ensures HasContent(taken + [step]) == (HasContent(taken) || (step.Emit? && step.frame.content))
  {
    var more := taken + [step];
    assert more[..|taken|] == taken && more[|taken|] == step;
    if HasContent(taken) {
      var i :| 0 <= i < |taken| && taken[i].Emit? && taken[i].frame.content;
      assert more[i] == taken[i];
    }
  }

  /** The steps `taken` of a run so far, by a client with patience `p` and a log that held `before`: client and log
      have all of them once there was content, and nothing until then. */
  ghost predicate Midway(id: string, taken: seq<Step>, p: Patience, before: seq<Row>, client: Client, log: EventLog,
                         deferred: DeferredEventLog?, committed: bool, buf: seq<Frame>, number: nat)
    reads client, log, deferred
  {
    && !GoneAt(p, taken)
    && committed == client.prepared == HasContent(taken)
    && number == |RowsOf(id, taken)|
    && (deferred != null ==> deferred.inner == log && deferred.live == committed)
    && (deferred != null && !committed ==> deferred.pending == RowsOf(id, taken))
    && log.rows == before + (if deferred != null && committed then RowsOf(id, taken) else [])
    && (if committed then client.written == FramesOf(taken) else client.written == [] && buf == FramesOf(taken))
    && client.patience == if committed && p.Some? then Some(p.value - 1 - |FramesOf(taken)|) else p
  }

  /** The same when the client was found gone at the last of the steps. */
  ghost predicate Left(id: string, taken: seq<Step>, p: Patience, before: seq<Row>, client: Client, log: EventLog,
                       deferred: DeferredEventLog?)
    reads client, log, deferred
  {
    && GoneAt(p, taken)
    && client.prepared == (p != Some(0)) && client.written == Sent(p, taken)
    && (deferred != null ==> deferred.live)
    && log.rows == before + (if deferred != null then RowsOf(id, taken) else [])
    && (!client.prepared ==> client.patience == p)
  }

  method TakeStep(id: string, step: Step, client: Client, log: EventLog, deferred: DeferredEventLog?,
                  committed: bool, buf: seq<Frame>, number: nat, ghost taken: seq<Step>, ghost p: Patience,
                  ghost before: seq<Row>)
    returns (committed': bool, gone: bool, buf': seq<Frame>, number': nat)
    requires Midway(id, taken, p, before, client, log, deferred, committed, buf, number)
    modifies client, log, deferred
    ensures gone ==> Left(id, taken + [step], p, before, client, log, deferred) && committed' == client.prepared
    ensures !gone ==> Midway(id, taken + [step], p, before, client, log, deferred, committed', buf', number')
  {
    OneMoreStep(id, taken, step);
    committed', gone, buf', number' := committed, false, buf, number;
    match step {
      case Append(data) =>
        if deferred != null {
          deferred.AppendEvent(Row(id, number, data));
        }
        number' := number + 1;
      case Emit(frame) =>
        committed', gone, buf' := TakeFrame(id, frame, client, log, deferred, committed, buf, number, taken, p, before);
    }
  }

  /** A frame goes to the client once the attempt is committed, and until then to the held frames; the first with
      content commits the attempt. */
  method TakeFrame(id: string, frame: Frame, client: Client, log: EventLog, deferred: DeferredEventLog?,
                   committed: bool, buf: seq<Frame>, ghost number: nat, ghost taken: seq<Step>, ghost p: Patience,
                   ghost before: seq<Row>)
    returns (committed': bool, gone: bool, buf': seq<Frame>)
    requires Midway(id, taken, p, before, client, log, deferred, committed, buf, number)
    modifies client, log, deferred
    ensures gone ==> Left(id, taken + [Emit(frame)], p, before, client, log, deferred) && committed' == client.prepared
    ensures !gone ==> Midway(id, taken + [Emit(frame)], p, before, client, log, deferred, committed', buf', number)
  {
    OneMoreStep(id, taken, Emit(frame));
    ghost var frames := FramesOf(taken);
    assert FramesOf(taken + [Emit(frame)]) == frames + [frame] && (frames + [frame])[..|frames|] == frames;
    committed', gone, buf' := committed, false, buf;
    if committed {
      var ok := client.Write(frame);
      gone := !ok;
      assert client.written == if ok then frames + [frame] else frames;
    } else {
      buf' := buf + [frame];
      if frame.content {
        var ok;
        committed', ok := CommitAttempt(client, log, deferred, buf');
        buf' := if committed' then [] else buf';
        gone := !ok;
      }
    }
  }

  /** Drives one pipeline run.  Before the first content frame nothing reaches the client or the log.  From then
      on the log gets the events of every step taken and the client the frames, in order, until its patience ends;
      `seen` counts the steps taken. */
  method ConsumeAttempt(id: string, script: Script, client: Client, log: EventLog, deferred: DeferredEventLog?)
    returns (committed: bool, clientGone: bool, buf: seq<Frame>, ghost seen: nat)
    requires client.written == [] && !client.prepared
    requires deferred != null ==> deferred.inner == log && deferred.pending == [] && !deferred.live
    modifies client, log, deferred
    ensures seen == Reach(old(client.patience), script.steps)
    ensures committed == client.prepared == (HasContent(script.steps) && old(client.patience) != Some(0))
    ensures clientGone <==> GoneAt(old(client.patience), script.steps) || script.ending.Interrupted?
    ensures client.written == Sent(old(client.patience), script.steps)
    ensures log.rows == old(log.rows)
      + if deferred != null && HasContent(script.steps) then RowsOf(id, script.steps[..seen]) else []
    ensures deferred != null ==> deferred.live == HasContent(script.steps)
    ensures !HasContent(script.steps) ==> buf == FramesOf(script.steps)
    ensures !committed ==> client.patience == old(client.patience)
  {
    committed, clientGone, buf := false, false, [];
    var k, number := 0, 0;
    var steps := script.steps;
    ghost var p, before := client.patience, log.rows;
    while k < |steps|
      invariant k <= |steps| && Reach(p, steps[..k]) == k
      invariant Midway(id, steps[..k], p, before, client, log, deferred, committed, buf, number)
    {
      ReachGoesOn(p, steps, k);
      assert steps[..k + 1] == steps[..k] + [steps[k]];
      committed, clientGone, buf, number :=
        TakeStep(id, steps[k], client, log, deferred, committed, buf, number, steps[..k], p, before);
      k := k + 1;
      if clientGone {
        ReachStops(p, steps, k);
        seen := k;
        return;
      }
    }
    assert steps[..|steps|] == steps;
    seen := k;
    clientGone := script.ending.Interrupted?;
  }

  // ---- The request ----

  class StreamCreate {
    const request: Request
    const id: string
    const storing: bool
    const client: Client
    const log: EventLog

    var tick: nat
    var body: Body
    var tried: set<int>
    ghost var calls: seq<Call>
    ghost var opens: seq<int>
    ghost var answers: seq<Opening>
    ghost var healed: bool
    var lastStatus: int
    var lastBody: string
    var lastRetryable: bool
    var lastReason: string
    var lastTruncated: Option<seq<Frame>>
    var lastDeferred: DeferredEventLog?

    constructor (request: Request, id: string, storing: bool, body: Body, client: Client, log: EventLog)
      ensures this.request == request && this.id == id && this.storing == storing
      ensures this.client == client && this.log == log
      ensures State() == NewBooks(body)
      ensures lastReason == "" && lastTruncated == None && lastDeferred == null
    {
      this.request, this.id, this.storing := request, id, storing;
      this.client, this.log, this.body := client, log, body;
      tick, tried, calls, opens, answers, healed := 0, {}, [], [], [], false;
      lastStatus, lastBody, lastRetryable := 0, "", false;
      lastReason, lastTruncated, lastDeferred := "", None, null;
    }

    ghost function State(): Books
      reads this`tick, this`body, this`healed, this`tried, this`calls, this`opens, this`answers,
        this`lastStatus, this`lastBody, this`lastRetryable
    {
      Books(tick, body, healed, tried, calls, opens, answers, lastStatus, lastBody, lastRetryable)
    }

    /** Resolves and issues one call; `None` when the body was healed and the key is to be called again.  A full
        local window and a fault other than 429 lead to the next key without a connection, and only the former marks
        the key as tried; a 429 before the network stops the request. */
    method TryCall(key: Key, strippedOnce: bool) returns (outcome: Option<KeyOutcome>)
      modifies this`tick, this`body, this`healed, this`tried, this`calls, this`opens, this`answers,
        this`lastStatus, this`lastBody, this`lastRetryable
      ensures (State(), outcome) == Called(request.world, old(State()), key, strippedOnce)
      ensures match request.world.prepare(old(tick)).fault
        case LocalWindowFull =>
          outcome == Some(NextKey) && tried == old(tried) + {key.keyId} && opens == old(opens)
        case TooManyRequests =>
          outcome == Some(Stop(EarlyTooManyRequests)) && tried == old(tried) && opens == old(opens)
        case OtherFault =>
          outcome == Some(NextKey) && tried == old(tried) && opens == old(opens)
        case NoFault =>
          && tried == old(tried) + {key.keyId} && opens == old(opens) + [key.keyId]
          && answers == old(answers) + [request.world.open(old(tick) + 1)]
      ensures request.world.prepare(old(tick)).fault != NoFault ==>
        body == if request.world.prepare(old(tick)).strips then Body(false, false) else old(body)
      ensures calls == old(calls) + [Call(key.keyId, request.world.prepare(old(tick)).fault)]
    {
      var call := request.world.prepare(tick);
      tick := tick + 1;
      calls := calls + [Call(key.keyId, call.fault)];
      if call.strips {
        body := Body(false, false);
      }
      match call.fault {
        case LocalWindowFull =>
          tried := tried + {key.keyId};
          return Some(NextKey);
        case TooManyRequests =>
          return Some(Stop(EarlyTooManyRequests));
        case OtherFault =>
          return Some(NextKey);
        case NoFault =>
          outcome := Connect(key, strippedOnce);
      }
    }

    /** Opens the connection and reads what comes of it.  An effort field the upstream rejects is taken out of the
        body, once for a key, when there is one left; any other error is remembered and leads to the next key. */
    method Connect(key: Key, strippedOnce: bool) returns (outcome: Option<KeyOutcome>)
      modifies this`tick, this`body, this`healed, this`tried, this`opens, this`answers,
        this`lastStatus, this`lastBody, this`lastRetryable
      ensures (State(), outcome) == Answered(old(State()), key, strippedOnce, request.world.open(old(tick)))
      ensures tried == old(tried) + {key.keyId} && opens == old(opens) + [key.keyId]
      ensures answers == old(answers) + [request.world.open(old(tick))]
      ensures match request.world.open(old(tick))
        case NoHeader => outcome == Some(NextKey)
        case OtherError => outcome == Some(NextKey)
        case ConnectionError(clientClosing) => outcome == Some(if clientClosing then Stop(ClientClosedRequest) else NextKey)
        case Serving(script) => outcome == Some(Up(script))
        case HttpError(status, errorBody, _, retryable) =>
          if !strippedOnce && (status == 400 || status == 422) && (old(body).effort || old(body).nestedEffort)
          then outcome == None && !body.effort && !body.nestedEffort && lastBody == old(lastBody)
          else outcome == Some(NextKey) && lastStatus == status && lastBody == errorBody && lastRetryable == retryable
    {
      tried := tried + {key.keyId};
      var answer := request.world.open(tick);
      tick := tick + 1;
      opens, answers := opens + [key.keyId], answers + [answer];
      match answer {
        case NoHeader =>
          outcome := Some(NextKey);
        case ConnectionError(clientClosing) =>
          outcome := Some(if clientClosing then Stop(ClientClosedRequest) else NextKey);
        case OtherError =>
          outcome := Some(NextKey);
        case HttpError(status, errorBody, blamesEffort, retryable) =>
          if !strippedOnce && status in {400, 422} && (blamesEffort || ReasoningPresent(body))
             && ReasoningPresent(body)
          {
            body := Body(false, false);
            healed := true;
            outcome := None;
          } else {
            lastStatus, lastBody, lastRetryable := status, errorBody, retryable;
            outcome := Some(NextKey);
          }
        case Serving(script) =>
          outcome := Some(Up(script));
      }
    }

    /** One selected key, called again on the same key when the upstream rejected the effort fields and they
        could be removed. */
    method OpenUpstream(key: Key) returns (outcome: KeyOutcome)
      modifies this`tick, this`body, this`healed, this`tried, this`calls, this`opens, this`answers,
        this`lastStatus, this`lastBody, this`lastRetryable
      ensures (State(), outcome) == Asked(request.world, old(State()), key, false)
    {
      var strippedOnce := false;
      while true
        invariant Asked(request.world, State(), key, strippedOnce) == Asked(request.world, old(State()), key, false)
        decreases !strippedOnce
      {
        var answer := TryCall(key, strippedOnce);
        if answer.Some? {
          return answer.value;
        }
        strippedOnce := true;
      }
    }

    /** Selects a key that was not tried yet and calls it; `None` when there is no key left to select. */
    method NextUpstream() returns (outcome: Option<KeyOutcome>)
      modifies this`tick, this`body, this`healed, this`tried, this`calls, this`opens, this`answers,
        this`lastStatus, this`lastBody, this`lastRetryable
      ensures (State(), outcome) == Turned(request, old(State()))
    {
      var choice := SelectRetryKey(request.routed, request.candidates, tried, request.order, request.world.score(tick));
      tick := tick + 1;
      if choice == None {
        return None;
      }
      var answer := OpenUpstream(choice.value);
      return Some(answer);
    }

    /** Consumes one upstream that answered 200, with an event log of its own, and drops that log again
        when the client left before anything was sent.  The dropping comes too late when the run had
        already yielded content: the rows were written before the client was found gone.  So an attempt of
        which the client never saw a byte leaves its rows behind exactly when the client was gone from the
        start and the run yields content. */
    method ServeAttempt(script: Script)
      returns (committed: bool, clientGone: bool, buf: seq<Frame>, deferred: DeferredEventLog?)
      requires client.written == [] && !client.prepared
      modifies client, log
      ensures deferred != null ==> fresh(deferred)
      ensures committed == client.prepared && Delivered(old(log.rows), script, old(client.patience))
      ensures clientGone <==> GoneAt(old(client.patience), script.steps) || script.ending.Interrupted?
      ensures storing <==> deferred != null
      ensures storing ==> (deferred.live && !committed <==> old(client.patience) == Some(0) && HasContent(script.steps))
      ensures !HasContent(script.steps) ==> buf == FramesOf(script.steps)
      ensures !committed ==> client.patience == old(client.patience)
    {
      deferred := null;
      if storing {
        deferred := new DeferredEventLog(log);
      }
      ghost var seen;
      committed, clientGone, buf, seen := ConsumeAttempt(id, script, client, log, deferred);
      if clientGone && deferred != null && !committed {
        deferred.Discard();
      }
    }

    /** An attempt that ended without content: it is kept for replay when the pipeline recorded a reason,
        and dropped when it ended cleanly. */
    method Abandon(script: Script, buf: seq<Frame>, deferred: DeferredEventLog?)
      requires script.ending.Finished? && !HasContent(script.steps) && buf == FramesOf(script.steps)
      requires KeptIsContentFree()
      modifies this`lastReason, this`lastTruncated, this`lastDeferred, deferred, lastDeferred
      ensures KeptIsContentFree()
      ensures lastReason == if script.ending.reason != "" then script.ending.reason else old(lastReason)
      ensures lastTruncated == if script.ending.reason != "" then Some(buf) else old(lastTruncated)
      ensures lastDeferred == if script.ending.reason != "" then deferred else old(lastDeferred)
    {
      ContentFreeFrames(script.steps);
      var reason := script.ending.reason;
      lastReason := if reason != "" then reason else lastReason;
      if reason != "" {
        if lastTruncated.Some? && lastDeferred != null {
          lastDeferred.Discard();
        }
        lastTruncated, lastDeferred := Some(buf), deferred;
      } else if deferred != null {
        deferred.Discard();
      }
    }

    ghost predicate KeptIsContentFree()
      reads this`lastTruncated
    {
      lastTruncated.Some? ==> forall f | f in lastTruncated.value :: !f.content
    }

    /** The answer when no attempt was committed. */
    method GiveUp() returns (result: Response)
      requires KeptIsContentFree()
      modifies lastDeferred
      ensures result == GaveUp(State(), lastReason)
      ensures lastBody != "" && (lastStatus == 401 || lastStatus == 403) ==> result == Passthrough(lastStatus)
      ensures lastBody != "" && 400 <= lastStatus < 500 && !lastRetryable ==> result == Passthrough(lastStatus)
      ensures lastBody == "" || lastStatus < 400 || lastStatus >= 500 || (lastRetryable && lastStatus !in {401, 403}) ==>
        result == BadGateway(if lastReason == "" then "empty_upstream_response" else "upstream_unavailable")
    {
      if lastTruncated.Some? && (exists f | f in lastTruncated.value :: f.content) {
        assert false;  // every kept attempt is content-free, so there is never anything to replay
      }
      if lastDeferred != null {
        lastDeferred.Discard();
      }
      if lastBody != "" && (lastStatus in {401, 403} || (400 <= lastStatus < 500 && !lastRetryable)) {
        return Passthrough(lastStatus);
      }
      return BadGateway(if lastReason != "" then "upstream_unavailable" else "empty_upstream_response");
    }

    /** Nothing was committed so far: no run in `served` ended the course, and neither the client nor the log
        has anything of it. */
    ghost predicate Uncommitted(before: seq<Row>, served: seq<Script>)
      reads this`lastTruncated, this`lastReason, client, log
    {
      && KeptIsContentFree()
      && client.written == [] && !client.prepared
      && log.rows == before
      && NoneEnds(served)
      && lastReason == LastReason(served)
    }

    /** What client and log hold of a run that was served to a client with patience `p`. */
    ghost predicate Delivered(before: seq<Row>, script: Script, p: Patience)
      reads this, client, log
    {
      && client.prepared == (HasContent(script.steps) && p != Some(0))
      && client.written == Sent(p, script.steps)
      && log.rows == before
           + if storing && HasContent(script.steps) then RowsOf(id, script.steps[..Reach(p, script.steps)]) else []
    }

    /** What follows an upstream that answered 200: the stream, or the next turn. */
    method Serve(script: Script, ghost before: seq<Row>, ghost earlier: seq<Script>) returns (done: bool)
      requires Uncommitted(before, earlier)
      modifies this`lastReason, this`lastTruncated, this`lastDeferred, client, log, lastDeferred
      ensures done <==> Ends(script)
      ensures !done ==> Uncommitted(before, earlier + [script]) && client.patience == old(client.patience)
      ensures done ==> Delivered(before, script, old(client.patience))
      ensures lastDeferred == old(lastDeferred) || lastDeferred == null || fresh(lastDeferred)
    {
      var committed, clientGone, buf, deferred;
      committed, clientGone, buf, deferred := ServeAttempt(script);
      if clientGone || committed {
        return true;
      }
      Abandon(script, buf, deferred);
      LastReasonSnoc(earlier, script);
      return false;
    }

    /** The whole request asks the upstreams of its course, no more and no less, and gives its answer.

        Two-phase commit: all but the last run leave no trace.  Of the last run the client gets what its patience
        allows, a beginning of the frames, and nothing as long as that run has yielded no content frame; the log
        gets the rows of the steps taken, exactly when the run yields content.  A client that stays gets a stream
        exactly when some upstream yielded content, and then all of it. */
    method Run() returns (result: Response)
      requires State() == NewBooks(body)
      requires lastReason == "" && lastTruncated == None && lastDeferred == null
      requires client.written == [] && !client.prepared
      modifies this, client, log
      ensures var c := CourseOfRequest(request, old(body));
        && result == ResponseOf(c) && State() == c.books
        && EndsAtTheEnd(c)
        && (result == StreamResponse ==> Delivered(old(log.rows), c.served[|c.served| - 1], old(client.patience)))
        && (result != StreamResponse ==> !client.prepared && client.written == [] && log.rows == old(log.rows))
        && (old(client.patience) == None && Connected(request.world) ==>
            && (result == StreamResponse <==> SomeContent(c.served))
            && (client.prepared <==> SomeContent(c.served))
            && (client.prepared ==> client.written == FramesOf(c.served[|c.served| - 1].steps)))
      ensures OpenedOnce(opens, healed) && |opens| <= |request.candidates| + 1 && |opens| <= 7
      ensures UniqueKeys(old(log.rows)) && (forall r | r in old(log.rows) :: r.responseId != id) ==> UniqueKeys(log.rows)
    {
      ghost var start, before, p := State(), log.rows, client.patience;
      result := Loop(start, before);
      CourseEndsWhen(request, start.body);
      ConnectionsAreBounded(request, start.body);
      var c := CourseOfRequest(request, start.body);
      ConnectedRunsEnd(request, start.body);
      if result == StreamResponse {
        var last := c.served[|c.served| - 1];
        NewRowsAreUnique(before, id, last.steps[..Reach(p, last.steps)]);
      }
    }

    /** After `turns` of `total` turns, with the runs `served`, the loop is on the course `c`. */
    ghost predicate OnCourse(c: Course, before: seq<Row>, served: seq<Script>, turns: nat, total: nat)
      requires turns <= total
      reads this, client, log
    {
      Uncommitted(before, served) && c == After(served, turns, CourseOf(TurnOf(request), State(), total - turns))
    }

    /** What the loop leaves when it stops on the course `c`, for a client with patience `p`. */
    ghost predicate Concluded(c: Course, before: seq<Row>, p: Patience)
      reads this, client, log
    {
      && State() == c.books
      && (c.stop == Some(StreamResponse) ==> (c.served != [] && Delivered(before, c.served[|c.served| - 1], p)))
      && (c.stop != Some(StreamResponse) ==> !client.prepared && client.written == [] && log.rows == before)
    }

    method Loop(ghost start: Books, ghost before: seq<Row>) returns (result: Response)
      requires start == State() == NewBooks(body) && before == log.rows
      requires lastReason == "" && lastTruncated == None && lastDeferred == null
      requires client.written == [] && !client.prepared
      modifies this, client, log
      ensures var c := CourseOfRequest(request, start.body);
        result == ResponseOf(c) && Concluded(c, before, old(client.patience))
    {
      var maxSwitches := Min(|request.candidates|, MAX_SWITCHES + 1);
      ghost var c, served: seq<Script> := CourseOfRequest(request, start.body), [];
      CourseStarts(request, start.body);
      for attempt := 0 to maxSwitches
        invariant OnCourse(c, before, served, attempt, maxSwitches)
        invariant lastDeferred != null ==> fresh(lastDeferred)
        invariant client.patience == old(client.patience)
      {
        var stop;
        stop, served := Turn(c, before, served, attempt, maxSwitches);
        if stop == Some(None) {
          result := Conclude(c, before, served, attempt);
          return;
        }
        if stop.Some? {
          return stop.value.value;
        }
      }
      result := Conclude(c, before, served, maxSwitches);
    }

    method Conclude(ghost c: Course, ghost before: seq<Row>, ghost served: seq<Script>, ghost turns: nat)
      returns (result: Response)
      requires OnCourse(c, before, served, turns, turns)
      modifies lastDeferred
      ensures result == ResponseOf(c) && c.stop == None
      ensures client.written == [] && !client.prepared && log.rows == before
      ensures State() == c.books
    {
      CourseRunsOut(c, served, turns, TurnOf(request), State());
      result := GiveUp();
    }

    /** One turn of the retry loop: `None` to go on, otherwise the answer, which is `None` again when no
        key is left. */
    method Turn(ghost c: Course, ghost before: seq<Row>, ghost earlier: seq<Script>, ghost turns: nat, ghost total: nat)
      returns (stop: Option<Option<Response>>, ghost served: seq<Script>)
      requires turns < total && OnCourse(c, before, earlier, turns, total)
      modifies this, client, log, lastDeferred
      ensures stop == None ==> OnCourse(c, before, served, turns + 1, total)
      ensures stop == Some(None) ==> OnCourse(c, before, served, turns, turns)
      ensures stop.Some? && stop.value.Some? ==>
        c.stop == stop.value && Concluded(c, before, old(client.patience))
      ensures lastDeferred == old(lastDeferred) || lastDeferred == null || fresh(lastDeferred)
      ensures stop == None || stop == Some(None) ==> client.patience == old(client.patience)
    {
      served := earlier;
      ghost var books := State();
      var next := NextUpstream();
      CourseContinues(c, served, turns, total, TurnOf(request), books);
      match next {
        case None => stop := Some(None);
        case Some(NextKey) => stop := None;
        case Some(Stop(response)) =>
          TurnStopsEarly(request, books);
          stop := Some(Some(response));
        case Some(Up(script)) =>
          var done;
          done := Serve(script, before, served);
          served := served + [script];
          stop := if done then Some(Some(StreamResponse)) else None;
      }
    }
  }

  lemma NewRowsAreUnique(before: seq<Row>, id: string, steps: seq<Step>)
    ensures UniqueKeys(before) && (forall r | r in before :: r.responseId != id) ==> UniqueKeys(before + RowsOf(id, steps))
  {
    if UniqueKeys(before) && forall r | r in before :: r.responseId != id {
      RowsAreNumbered(id, steps, before);
    }
  }

  lemma ContentFreeFrames(steps: seq<Step>)
    requires !HasContent(steps)
    ensures forall f | f in FramesOf(steps) :: !f.content
  {
    if steps != [] {
      assert forall i | 0 <= i < |steps| - 1 :: steps[..|steps| - 1][i] == steps[i];
    }
  }
}
