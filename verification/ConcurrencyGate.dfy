/** Admission control: slot pools with a queue of sleeping waiters, and the gate that takes a global, a
    tenant and a model slot in that order and gives them back in reverse.  The model is a step system over
    any number of requests, tenants and models; a step is what one task does between two suspensions.  The
    class does each step in place. */
module ConcurrencyGates {
  import opened Wrappers

  datatype PoolId = Global | Tenant(name: string) | Model(name: string) | Tool | Background

  /** Layers are taken in rank order; tool and background pools stand alone. */
  function Rank(p: PoolId): nat {
    match p
    case Global => 0
    case Tenant(_) => 1
    case Model(_) => 2
    case Tool => 3
    case Background => 4
  }

  datatype Config = Config(globalLimit: nat, tenantLimit: nat, modelLimit: nat, toolSize: nat, backgroundLimit: nat)

  function Size(c: Config, p: PoolId): nat {
    match p
    case Global => c.globalLimit
    case Tenant(_) => c.tenantLimit
    case Model(_) => c.modelLimit
    case Tool => c.toolSize
    case Background => c.backgroundLimit
  }

  /** `free` slots, and the waiters that have not been notified, longest waiting first. */
  datatype Pool = Pool(free: int, waiting: seq<nat>)

  /** Where a request stands with respect to the next pool of its plan.
      - Ready: about to look at the pool for the first time.
      - Asleep: in the queue of the pool.
      - Woken: notified, has not run yet; `expired` when its time ran out after the notification.
      - Expired: its time ran out while it was asleep, has not run yet.
      - Held: has all its pools.
      - Unwinding: gives its pools back, after a failure or at the release of the hold. */
  datatype Stage = Ready | Asleep | Woken(expired: bool) | Expired | Held | Unwinding(failed: bool)

  /** `plan` is what the request needs, `got` how many pools of it are held at the moment. */
  datatype Request = Request(plan: seq<PoolId>, got: nat, stage: Stage)

  datatype Gate = Gate(config: Config, pools: map<PoolId, Pool>, requests: map<nat, Request>)

  /** A pool is created at full size when it is first asked for. */
  function PoolOf(g: Gate, p: PoolId): Pool {
    if p in g.pools then g.pools[p] else Pool(Size(g.config, p), [])
  }

  function ModelPlan(c: Config, tenant: string, model: string): seq<PoolId> {
    [Global] + (if c.tenantLimit > 0 then [Tenant(tenant)] else []) + (if c.modelLimit > 0 then [Model(model)] else [])
  }

  predicate Acquiring(r: Request) {
    r.got < |r.plan| && r.stage in {Ready, Asleep, Woken(false), Woken(true), Expired}
  }

  /** Able to run now. */
  predicate Awake(r: Request) {
    Acquiring(r) && r.stage != Asleep
  }

  function Target(r: Request): PoolId
    requires Acquiring(r)
  {
    r.plan[r.got]
  }

  // ---- Steps ----

  datatype Step =
    | StartModel(id: nat, tenant: string, model: string)
    | StartTool(id: nat)
    | StartBackground(id: nat)
    | Look(id: nat, outOfTime: bool)   // an awake request gets the lock and looks at `free`
    | Expire(id: nat)                  // the timer of a sleeping or notified request fires
    | Cancel(id: nat)                  // the task is cancelled while acquiring
    | Release(id: nat)                 // `release` is called on the hold
    | GiveBack(id: nat)                // an unwinding request returns its last pool

  function SetRequest(g: Gate, id: nat, r: Request): Gate {
    g.(requests := g.requests[id := r])
  }

  function SetPool(g: Gate, p: PoolId, pool: Pool): Gate {
    g.(pools := g.pools[p := pool])
  }

  function Start(g: Gate, id: nat, plan: seq<PoolId>): Option<Gate> {
    if id in g.requests then None else Some(SetRequest(g, id, Request(plan, 0, Ready)))
  }

  function Without(queue: seq<nat>, id: nat): (rest: seq<nat>)
    ensures forall x :: x in rest <==> x in queue && x != id
  {
    if queue == [] then []
    else (if queue[0] == id then [] else [queue[0]]) + Without(queue[1..], id)
  }

  /** What an awake request does: take a slot, give up, or go to sleep (again). */
  function LookAt(g: Gate, id: nat, outOfTime: bool): Gate
    requires id in g.requests && Awake(g.requests[id])
  {
    var r := g.requests[id];
    var p := Target(r);
    var pool := PoolOf(g, p);
    if pool.free > 0 then
      var got := r.got + 1;
      SetRequest(SetPool(g, p, pool.(free := pool.free - 1)), id,
                 Request(r.plan, got, if got == |r.plan| then Held else Ready))
    else if outOfTime || r.stage == Expired || r.stage == Woken(true) then
      SetRequest(SetPool(g, p, pool), id, r.(stage := Unwinding(true)))
    else
      SetRequest(SetPool(g, p, pool.(waiting := pool.waiting + [id])), id, r.(stage := Asleep))
  }

  predicate Sleeps(g: Gate, id: nat) {
    id in g.requests && g.requests[id].stage == Asleep
  }

  /** One more free slot, and the longest waiting un-notified request is notified.  (A queue names only
      sleeping requests, see `Queued`.) */
  function ReleaseSlot(g: Gate, p: PoolId): Gate {
    var pool := PoolOf(g, p);
    if pool.waiting == [] || !Sleeps(g, pool.waiting[0]) then SetPool(g, p, Pool(pool.free + 1, pool.waiting))
    else
      var woken := pool.waiting[0];
      SetRequest(SetPool(g, p, Pool(pool.free + 1, pool.waiting[1..])), woken,
                 g.requests[woken].(stage := Woken(false)))
  }

  /** Leaves the queue it may be in. */
  function LeaveQueue(g: Gate, id: nat): Gate
    requires id in g.requests && Acquiring(g.requests[id])
  {
    var r := g.requests[id];
    if r.stage == Asleep then
      var pool := PoolOf(g, Target(r));
      SetPool(g, Target(r), pool.(waiting := Without(pool.waiting, id)))
    else g
  }

  /** The state after a step, or `None` where the step is not possible. */
  function Next(g: Gate, step: Step): Option<Gate> {
    match step
    case StartModel(id, tenant, model) => Start(g, id, ModelPlan(g.config, tenant, model))
    case StartTool(id) => Start(g, id, [Tool])
    case StartBackground(id) => Start(g, id, [Background])
    case Look(id, outOfTime) =>
      if id in g.requests && Awake(g.requests[id]) then Some(LookAt(g, id, outOfTime)) else None
    case Expire(id) =>
      if id !in g.requests || !Acquiring(g.requests[id]) then None
      else
        var r := g.requests[id];
        if r.stage == Asleep then Some(SetRequest(LeaveQueue(g, id), id, r.(stage := Expired)))
        else if r.stage == Woken(false) then Some(SetRequest(g, id, r.(stage := Woken(true))))
        else None
    case Cancel(id) =>
      if id in g.requests && Acquiring(g.requests[id])
      then Some(SetRequest(LeaveQueue(g, id), id, g.requests[id].(stage := Unwinding(true))))
      else None
    case Release(id) =>
      if id !in g.requests then None
      else
        var r := g.requests[id];
        if r.stage == Held then Some(SetRequest(g, id, r.(stage := Unwinding(false))))
        else if r.stage == Unwinding(false) then Some(g)  // released before: nothing happens
        else None
    case GiveBack(id) =>
      if id !in g.requests || !g.requests[id].stage.Unwinding? || g.requests[id].got == 0 then None
      else
        var r := g.requests[id];
        if r.got > |r.plan| then None
        else Some(ReleaseSlot(SetRequest(g, id, r.(got := r.got - 1)), r.plan[r.got - 1]))
  }

  function Empty(c: Config): Gate {
    Gate(c, map[], map[])
  }

  /** The state after a run, or `None` when some step of it is not possible. */
  function Run(c: Config, steps: seq<Step>): Option<Gate> {
    if steps == [] then Some(Empty(c))
    else
      match Run(c, steps[..|steps| - 1])
      case None => None
      case Some(g) => Next(g, steps[|steps| - 1])
  }

  /** What a model request of the tenant needs: a global slot always, a slot of its own tenant and of its own model
      exactly where these have a limit, and nothing else, in this order. */
  ghost predicate PlannedFor(c: Config, plan: seq<PoolId>, tenant: string, model: string) {
    && Global in plan && Tool !in plan && Background !in plan
    && (forall t :: Tenant(t) in plan <==> t == tenant && c.tenantLimit > 0)
    && (forall m :: Model(m) in plan <==> m == model && c.modelLimit > 0)
    && (forall i, j | 0 <= i < j < |plan| :: Rank(plan[i]) < Rank(plan[j]))
  }

  lemma PlanIsFor(c: Config, tenant: string, model: string)
    ensures PlannedFor(c, ModelPlan(c, tenant, model), tenant, model)
  {
    var plan := ModelPlan(c, tenant, model);
    var tenants := if c.tenantLimit > 0 then [Tenant(tenant)] else [];
    var models := if c.modelLimit > 0 then [Model(model)] else [];
    assert plan == [Global] + tenants + models && plan[0] == Global;
    assert c.tenantLimit > 0 ==> plan[1] == Tenant(tenant);
    assert c.modelLimit > 0 ==> plan[|plan| - 1] == Model(model);
  }

  // ---- The gate in place ----

  /** Each method is the code of one task between two suspensions, and does what the step of its name says. */
  class ConcurrencyGate {
    const config: Config
    var pools: map<PoolId, Pool>
    var requests: map<nat, Request>

    constructor (config: Config)
      ensures this.config == config && State() == Empty(config)
    {
      this.config := config;
      pools, requests := map[], map[];
    }

    function State(): Gate
      reads this
    {
      Gate(config, pools, requests)
    }

    /** A pool comes into being, at full size, when it is first asked for. */
    method PoolFor(p: PoolId) returns (pool: Pool)
      modifies this`pools
      ensures pool == PoolOf(old(State()), p) && State() == SetPool(old(State()), p, pool)
    {
      if p !in pools {
        pools := pools[p := Pool(Size(config, p), [])];
      }
      pool := pools[p];
      assert pools == old(pools)[p := pool];
    }

    method AcquireModel(id: nat, tenant: string, model: string)
      requires id !in requests
      modifies this`requests
      ensures Next(old(State()), StartModel(id, tenant, model)) == Some(State())
      ensures id in requests && PlannedFor(config, requests[id].plan, tenant, model)
    {
      PlanIsFor(config, tenant, model);
      var plan := [Global];
      if config.tenantLimit > 0 {
        plan := plan + [Tenant(tenant)];
      }
      if config.modelLimit > 0 {
        plan := plan + [Model(model)];
      }
      assert plan == ModelPlan(config, tenant, model);
      requests := requests[id := Request(plan, 0, Ready)];
    }

    method AcquireIsolated(id: nat, background: bool)
      requires id !in requests
      modifies this`requests
      ensures Next(old(State()), if background then StartBackground(id) else StartTool(id)) == Some(State())
      ensures id in requests && requests[id].plan == if background then [Background] else [Tool]
    {
      requests := requests[id := Request([if background then Background else Tool], 0, Ready)];
    }

    /** One pass of the wait loop of `acquire`, entered or resumed with the lock of the pool. */
    method PassWaitLoop(id: nat, outOfTime: bool)
      requires id in requests && Awake(requests[id])
      modifies this
      ensures Next(old(State()), Look(id, outOfTime)) == Some(State())
    {
      var r := requests[id];
      var p := Target(r);
      var pool := PoolFor(p);
      if pool.free <= 0 {
        if outOfTime || r.stage == Expired || r.stage == Woken(true) {
          requests := requests[id := r.(stage := Unwinding(true))];
        } else {
          pools := pools[p := pool.(waiting := pool.waiting + [id])];
          assert pools == old(pools)[p := pools[p]];
          requests := requests[id := r.(stage := Asleep)];
        }
      } else {
        pools := pools[p := pool.(free := pool.free - 1)];
        assert pools == old(pools)[p := pools[p]];
        r := r.(got := r.got + 1);
        requests := requests[id := r.(stage := if r.got == |r.plan| then Held else Ready)];
      }
    }

    /** The timer of the wait fires. */
    method TimeOut(id: nat)
      requires id in requests && Acquiring(requests[id]) && requests[id].stage in {Asleep, Woken(false)}
      modifies this
      ensures Next(old(State()), Expire(id)) == Some(State())
    {
      var r := requests[id];
      if r.stage == Asleep {
        Withdraw(id);
        requests := requests[id := r.(stage := Expired)];
      } else {
        requests := requests[id := r.(stage := Woken(true))];
      }
    }

    method CancelAcquire(id: nat)
      requires id in requests && Acquiring(requests[id])
      modifies this
      ensures Next(old(State()), Cancel(id)) == Some(State())
    {
      Withdraw(id);
      requests := requests[id := requests[id].(stage := Unwinding(true))];
    }

    method Withdraw(id: nat)
      requires id in requests && Acquiring(requests[id])
      modifies this`pools
      ensures State() == LeaveQueue(old(State()), id)
    {
      if requests[id].stage == Asleep {
        var p := Target(requests[id]);
        var pool := PoolFor(p);
        pools := pools[p := pool.(waiting := Without(pool.waiting, id))];
        assert pools == old(pools)[p := pools[p]];
      }
    }

    /** A hold is released once; releasing it again does nothing. */
    method ReleaseHold(id: nat)
      requires id in requests && (requests[id].stage == Held || requests[id].stage == Unwinding(false))
      modifies this`requests
      ensures Next(old(State()), Release(id)) == Some(State())
    {
      if requests[id].stage == Unwinding(false) {
        return;
      }
      requests := requests[id := requests[id].(stage := Unwinding(false))];
    }

    /** The last pool taken goes back first. */
    method ReturnLast(id: nat)
      requires id in requests && requests[id].stage.Unwinding? && 0 < requests[id].got <= |requests[id].plan|
      modifies this
      ensures Next(old(State()), GiveBack(id)) == Some(State())
    {
      var r := requests[id];
      requests := requests[id := r.(got := r.got - 1)];
      var p := r.plan[r.got - 1];
      var pool := PoolFor(p);
      pools := pools[p := pool.(free := pool.free + 1)];
      if pool.waiting != [] && pool.waiting[0] in requests && requests[pool.waiting[0]].stage == Asleep {
        var woken := pool.waiting[0];
        pools := pools[p := Pool(pool.free + 1, pool.waiting[1..])];
        requests := requests[woken := requests[woken].(stage := Woken(false))];
      }
      assert pools == old(pools)[p := pools[p]];
    }
  }

  // ---- Slot conservation ----

  ghost predicate Holds(r: Request, p: PoolId) {
    p in r.plan[..Lower(r.got, |r.plan|)]
  }

  /** The requests that hold a slot of `p`, whether they are acquiring, holding or unwinding. */
  ghost function Owners(g: Gate, p: PoolId): set<nat> {
    set id | id in g.requests && Holds(g.requests[id], p)
  }

  function Lower(a: nat, b: nat): nat {
    if a <= b then a else b
  }

  /** The plan names each pool once, in strictly ascending rank. */
  ghost predicate WellPlanned(r: Request) {
    && r.got <= |r.plan|
    && (forall i, j | 0 <= i < j < |r.plan| :: Rank(r.plan[i]) < Rank(r.plan[j]))
    && (r.stage == Held ==> r.got == |r.plan|)
    && (!r.stage.Held? && !r.stage.Unwinding? ==> r.got < |r.plan|)
  }

  /** Free slots and held slots of every pool add up to its size. */
  ghost predicate Conserved(g: Gate) {
    && (forall id | id in g.requests :: WellPlanned(g.requests[id]))
    && (forall p :: Balanced(g, p))
  }

  ghost predicate Balanced(g: Gate, p: PoolId) {
    && PoolOf(g, p).free + |Owners(g, p)| == Size(g.config, p)
    && 0 <= PoolOf(g, p).free
  }

  lemma OwnersAfter(g: Gate, id: nat, r: Request, p: PoolId)
    ensures Owners(SetRequest(g, id, r), p) == if Holds(r, p) then Owners(g, p) + {id} else Owners(g, p) - {id}
  {
  }

  /** A change of stage moves no slot. */
  lemma StageMovesNoSlot(g: Gate, id: nat, stage: Stage)
    requires id in g.requests && Conserved(g) && WellPlanned(g.requests[id].(stage := stage))
    ensures Conserved(SetRequest(g, id, g.requests[id].(stage := stage)))
  {
    var r := g.requests[id].(stage := stage);
    forall p
      ensures Balanced(SetRequest(g, id, r), p)
    {
      assert Balanced(g, p);
      OwnersAfter(g, id, r, p);
      assert Holds(r, p) == Holds(g.requests[id], p);
    }
  }

  lemma QueueMovesNoSlot(g: Gate, p: PoolId, waiting: seq<nat>)
    requires Conserved(g)
    ensures Conserved(SetPool(g, p, PoolOf(g, p).(waiting := waiting)))
  {
    var g' := SetPool(g, p, PoolOf(g, p).(waiting := waiting));
    forall q
      ensures Balanced(g', q)
    {
      assert Balanced(g, q) && Owners(g', q) == Owners(g, q);
    }
  }

  lemma HoldsOneMore(r: Request, p: PoolId, stage: Stage)
    requires WellPlanned(r) && r.got < |r.plan|
    ensures Holds(Request(r.plan, r.got + 1, stage), p) <==> Holds(r, p) || p == r.plan[r.got]
    ensures !Holds(r, r.plan[r.got])
  {
    assert r.plan[..r.got + 1] == r.plan[..r.got] + [r.plan[r.got]];
  }

  lemma TakingMovesOneSlot(g: Gate, id: nat, stage: Stage)
    requires Conserved(g) && id in g.requests && g.requests[id].got < |g.requests[id].plan|
    requires WellPlanned(Request(g.requests[id].plan, g.requests[id].got + 1, stage))
    requires PoolOf(g, g.requests[id].plan[g.requests[id].got]).free > 0
    ensures var r := g.requests[id];
      var p := r.plan[r.got];
      var pool := PoolOf(g, p);
      Conserved(SetRequest(SetPool(g, p, pool.(free := pool.free - 1)), id, Request(r.plan, r.got + 1, stage)))
  {
    var r := g.requests[id];
    var p := r.plan[r.got];
    var pool := PoolOf(g, p);
    var g1 := SetPool(g, p, pool.(free := pool.free - 1));
    var r' := Request(r.plan, r.got + 1, stage);
    forall q
      ensures Balanced(SetRequest(g1, id, r'), q)
    {
      assert Balanced(g, q) && Owners(g1, q) == Owners(g, q);
      OwnersAfter(g1, id, r', q);
      HoldsOneMore(r, q, stage);
    }
  }

  function Returned(g: Gate, id: nat, r: Request): Gate
    requires 0 < r.got <= |r.plan|
  {
    var p := r.plan[r.got - 1];
    SetPool(SetRequest(g, id, r.(got := r.got - 1)), p, Pool(PoolOf(g, p).free + 1, PoolOf(g, p).waiting))
  }

  lemma ReturningBalances(g: Gate, id: nat, q: PoolId)
    requires id in g.requests && Balanced(g, q) && WellPlanned(g.requests[id])
    requires g.requests[id].stage.Unwinding? && 0 < g.requests[id].got
    ensures Balanced(Returned(g, id, g.requests[id]), q)
  {
    var r := g.requests[id];
    var r' := r.(got := r.got - 1);
    OwnersAfter(g, id, r', q);
    HoldsOneMore(r', q, r.stage);
    assert Request(r'.plan, r'.got + 1, r.stage) == r;
    assert Owners(Returned(g, id, r), q) == Owners(SetRequest(g, id, r'), q);
    assert Holds(r, q) ==> id in Owners(g, q);
  }

  lemma ReturningMovesOneSlot(g: Gate, id: nat)
    requires Conserved(g) && id in g.requests
    requires g.requests[id].stage.Unwinding? && 0 < g.requests[id].got
    ensures Conserved(Returned(g, id, g.requests[id]))
  {
    forall q
      ensures Balanced(Returned(g, id, g.requests[id]), q)
    {
      assert Balanced(g, q);
      ReturningBalances(g, id, q);
    }
  }

  lemma WakingMovesNoSlot(g: Gate, p: PoolId)
    requires PoolOf(g, p).waiting != [] && Sleeps(g, PoolOf(g, p).waiting[0])
    requires Conserved(SetPool(g, p, Pool(PoolOf(g, p).free + 1, PoolOf(g, p).waiting)))
    ensures Conserved(ReleaseSlot(g, p))
  {
    var pool := PoolOf(g, p);
    var woken := pool.waiting[0];
    var g2 := SetPool(g, p, Pool(pool.free + 1, pool.waiting));
    var g3 := SetPool(g2, p, PoolOf(g2, p).(waiting := pool.waiting[1..]));
    QueueMovesNoSlot(g2, p, pool.waiting[1..]);
    StageMovesNoSlot(g3, woken, Woken(false));
    assert g3.pools == ReleaseSlot(g, p).pools;
  }

  lemma GivingBackMovesOneSlot(g: Gate, id: nat)
    requires Conserved(g) && id in g.requests
    requires g.requests[id].stage.Unwinding? && 0 < g.requests[id].got <= |g.requests[id].plan|
    ensures var r := g.requests[id];
      Conserved(ReleaseSlot(SetRequest(g, id, r.(got := r.got - 1)), r.plan[r.got - 1]))
  {
    var r := g.requests[id];
    var g1 := SetRequest(g, id, r.(got := r.got - 1));
    var pool := PoolOf(g1, r.plan[r.got - 1]);
    ReturningMovesOneSlot(g, id);
    if pool.waiting != [] && Sleeps(g1, pool.waiting[0]) {
      WakingMovesNoSlot(g1, r.plan[r.got - 1]);
    }
  }

  lemma LookMovesAtMostOneSlot(g: Gate, id: nat, outOfTime: bool)
    requires Conserved(g) && id in g.requests && Awake(g.requests[id])
    ensures Conserved(LookAt(g, id, outOfTime))
  {
    var r := g.requests[id];
    var p := Target(r);
    var pool := PoolOf(g, p);
    if pool.free > 0 {
      TakingMovesOneSlot(g, id, if r.got + 1 == |r.plan| then Held else Ready);
    } else {
      var g1 := SetPool(g, p, LookAt(g, id, outOfTime).pools[p]);
      QueueMovesNoSlot(g, p, g1.pools[p].waiting);
      StageMovesNoSlot(g1, id, LookAt(g, id, outOfTime).requests[id].stage);
    }
  }

  lemma LeavingMovesNoSlot(g: Gate, id: nat, stage: Stage)
    requires Conserved(g) && id in g.requests && Acquiring(g.requests[id])
    requires stage == Unwinding(true) || stage == Expired
    ensures Conserved(SetRequest(LeaveQueue(g, id), id, g.requests[id].(stage := stage)))
  {
    var r := g.requests[id];
    if r.stage == Asleep {
      QueueMovesNoSlot(g, Target(r), Without(PoolOf(g, Target(r)).waiting, id));
    }
    StageMovesNoSlot(LeaveQueue(g, id), id, stage);
  }

  lemma StartMovesNoSlot(g: Gate, id: nat, plan: seq<PoolId>)
    requires Conserved(g) && id !in g.requests
    requires WellPlanned(Request(plan, 0, Ready))
    ensures Conserved(SetRequest(g, id, Request(plan, 0, Ready)))
  {
    forall p
      ensures Balanced(SetRequest(g, id, Request(plan, 0, Ready)), p)
    {
      assert Balanced(g, p);
      OwnersAfter(g, id, Request(plan, 0, Ready), p);
      assert id !in Owners(g, p);
    }
  }

  /** Every step keeps the balance of every pool: taking, timing out or being cancelled at any layer,
      releasing, releasing again, and giving back. */
  lemma StepConservesSlots(g: Gate, step: Step)
    requires Conserved(g) && Next(g, step).Some?
    ensures Conserved(Next(g, step).value)
  {
    match step
    case StartModel(id, tenant, model) => StartMovesNoSlot(g, id, ModelPlan(g.config, tenant, model));
    case StartTool(id) => StartMovesNoSlot(g, id, [Tool]);
    case StartBackground(id) => StartMovesNoSlot(g, id, [Background]);
    case Look(id, outOfTime) => LookMovesAtMostOneSlot(g, id, outOfTime);
    case Expire(id) =>
      if g.requests[id].stage == Asleep {
        LeavingMovesNoSlot(g, id, Expired);
      } else {
        StageMovesNoSlot(g, id, Woken(true));
      }
    case Cancel(id) => LeavingMovesNoSlot(g, id, Unwinding(true));
    case Release(id) =>
      if g.requests[id].stage == Held {
        StageMovesNoSlot(g, id, Unwinding(false));
      }
    case GiveBack(id) => GivingBackMovesOneSlot(g, id);
  }

  /** Conservation in every reachable state. */
  lemma {:induction false} ReachableConservesSlots(c: Config, steps: seq<Step>)
    requires Run(c, steps).Some?
    ensures Conserved(Run(c, steps).value) && Run(c, steps).value.config == c
  {
    if steps == [] {
      forall p
        ensures Balanced(Empty(c), p)
      {
        assert Owners(Empty(c), p) == {};
      }
    } else {
      ReachableConservesSlots(c, steps[..|steps| - 1]);
      StepConservesSlots(Run(c, steps[..|steps| - 1]).value, steps[|steps| - 1]);
    }
  }

  // ---- The limits ----

  /** A model request that was started keeps a plan for its tenant and its model. */
  lemma {:induction false} StartedIsPlanned(c: Config, steps: seq<Step>, id: nat, tenant: string, model: string)
    requires Run(c, steps).Some? && StartModel(id, tenant, model) in steps
    ensures var g := Run(c, steps).value; id in g.requests && PlannedFor(c, g.requests[id].plan, tenant, model)
  {
    var front, last := steps[..|steps| - 1], steps[|steps| - 1];
    var before := Run(c, front).value;
    ReachableConservesSlots(c, front);
    RequestsStay(before, last);
    if StartModel(id, tenant, model) in front {
      StartedIsPlanned(c, front, id, tenant, model);
    } else {
      assert last == StartModel(id, tenant, model);
      PlanIsFor(c, tenant, model);
    }
  }

  /** No step forgets a request or changes what it needs. */
  lemma RequestsStay(g: Gate, step: Step)
    requires Next(g, step).Some?
    ensures var g' := Next(g, step).value;
      forall id | id in g.requests :: id in g'.requests && g'.requests[id].plan == g.requests[id].plan
  {
  }

  /** Those of the requests that hold all they need. */
  ghost function HeldAmong(g: Gate, ids: set<nat>): set<nat> {
    set id | id in ids && id in g.requests && g.requests[id].stage == Held
  }

  /** The model requests started, those for a tenant, and those for a model. */
  ghost function ForModels(steps: seq<Step>): set<nat> {
    set i | 0 <= i < |steps| && steps[i].StartModel? :: steps[i].id
  }

  ghost function ForTenant(steps: seq<Step>, tenant: string): set<nat> {
    set i | 0 <= i < |steps| && steps[i].StartModel? && steps[i].tenant == tenant :: steps[i].id
  }

  ghost function ForModel(steps: seq<Step>, model: string): set<nat> {
    set i | 0 <= i < |steps| && steps[i].StartModel? && steps[i].model == model :: steps[i].id
  }

  ghost function ForTools(steps: seq<Step>): set<nat> {
    set i | 0 <= i < |steps| && steps[i].StartTool? :: steps[i].id
  }

  ghost function ForBackground(steps: seq<Step>): set<nat> {
    set i | 0 <= i < |steps| && steps[i].StartBackground? :: steps[i].id
  }

  lemma {:induction false} IsolatedIsPlanned(c: Config, steps: seq<Step>, id: nat)
    requires Run(c, steps).Some?
    ensures var g := Run(c, steps).value;
      && (StartTool(id) in steps ==> id in g.requests && g.requests[id].plan == [Tool])
      && (StartBackground(id) in steps ==> id in g.requests && g.requests[id].plan == [Background])
  {
    if steps != [] {
      var front, last := steps[..|steps| - 1], steps[|steps| - 1];
      IsolatedIsPlanned(c, front, id);
      RequestsStay(Run(c, front).value, last);
      assert steps == front + [last];
    }
  }

  /** At most as many requests hold the pool as it has slots. */
  lemma HoldersFit(g: Gate, p: PoolId, ids: set<nat>)
    requires Conserved(g) && forall id | id in ids :: id in g.requests && Holds(g.requests[id], p)
    ensures |ids| <= Size(g.config, p)
  {
    assert ids <= Owners(g, p);
    SubsetIsNoLarger(ids, Owners(g, p));
    assert Balanced(g, p);
  }

  lemma SubsetIsNoLarger<T>(a: set<T>, b: set<T>)
    requires a <= b
    ensures |a| <= |b|
  {
    if x :| x in a {
      SubsetIsNoLarger(a - {x}, b - {x});
    }
  }

  lemma HeldHoldsItsPlan(r: Request, p: PoolId)
    requires WellPlanned(r) && r.stage == Held && p in r.plan
    ensures Holds(r, p)
  {
    assert r.plan[..|r.plan|] == r.plan;
  }

  lemma StartedHolds(c: Config, steps: seq<Step>, i: nat, id: nat)
    requires Run(c, steps).Some? && i < |steps| && steps[i].StartModel? && steps[i].id == id
    requires var g := Run(c, steps).value;
      Conserved(g) && id in g.requests && g.requests[id].stage == Held
    ensures var r := Run(c, steps).value.requests[id];
      && Holds(r, Global)
      && (c.tenantLimit > 0 ==> Holds(r, Tenant(steps[i].tenant)))
      && (c.modelLimit > 0 ==> Holds(r, Model(steps[i].model)))
  {
    var r := Run(c, steps).value.requests[id];
    assert WellPlanned(r);
    StartedIsPlanned(c, steps, id, steps[i].tenant, steps[i].model);
    HeldHoldsItsPlan(r, Global);
    if c.tenantLimit > 0 {
      HeldHoldsItsPlan(r, Tenant(steps[i].tenant));
    }
    if c.modelLimit > 0 {
      HeldHoldsItsPlan(r, Model(steps[i].model));
    }
  }

  /** The limits are kept, in every reachable state.  The global limit bounds the model requests that hold their
      slots at the same time, a positive limit per tenant those of a tenant, and a positive limit per model those of
      a model. */
  lemma LimitsAreKept(c: Config, steps: seq<Step>, tenant: string, model: string)
    requires Run(c, steps).Some?
    ensures var g := Run(c, steps).value;
      && |HeldAmong(g, ForModels(steps))| <= c.globalLimit
      && (c.tenantLimit > 0 ==> |HeldAmong(g, ForTenant(steps, tenant))| <= c.tenantLimit)
      && (c.modelLimit > 0 ==> |HeldAmong(g, ForModel(steps, model))| <= c.modelLimit)
  {
    var g := Run(c, steps).value;
    ReachableConservesSlots(c, steps);
    forall id | id in HeldAmong(g, ForModels(steps))
      ensures Holds(g.requests[id], Global)
    {
      var i :| 0 <= i < |steps| && steps[i].StartModel? && steps[i].id == id;
      StartedHolds(c, steps, i, id);
    }
    HoldersFit(g, Global, HeldAmong(g, ForModels(steps)));
    if c.tenantLimit > 0 {
      forall id | id in HeldAmong(g, ForTenant(steps, tenant))
        ensures Holds(g.requests[id], Tenant(tenant))
      {
        var i :| 0 <= i < |steps| && steps[i].StartModel? && steps[i].tenant == tenant && steps[i].id == id;
        StartedHolds(c, steps, i, id);
      }
      HoldersFit(g, Tenant(tenant), HeldAmong(g, ForTenant(steps, tenant)));
    }
    if c.modelLimit > 0 {
      forall id | id in HeldAmong(g, ForModel(steps, model))
        ensures Holds(g.requests[id], Model(model))
      {
        var i :| 0 <= i < |steps| && steps[i].StartModel? && steps[i].model == model && steps[i].id == id;
        StartedHolds(c, steps, i, id);
      }
      HoldersFit(g, Model(model), HeldAmong(g, ForModel(steps, model)));
    }
  }

  /** So are the sizes of the isolated pools. */
  lemma IsolatedLimitsAreKept(c: Config, steps: seq<Step>)
    requires Run(c, steps).Some?
    ensures var g := Run(c, steps).value;
      && |HeldAmong(g, ForTools(steps))| <= c.toolSize
      && |HeldAmong(g, ForBackground(steps))| <= c.backgroundLimit
  {
    var g := Run(c, steps).value;
    ReachableConservesSlots(c, steps);
    assert forall id | id in g.requests :: WellPlanned(g.requests[id]);
    forall id | id in HeldAmong(g, ForTools(steps))
      ensures Holds(g.requests[id], Tool)
    {
      var i :| 0 <= i < |steps| && steps[i].StartTool? && steps[i].id == id;
      IsolatedIsPlanned(c, steps, id);
      HeldHoldsItsPlan(g.requests[id], Tool);
    }
    forall id | id in HeldAmong(g, ForBackground(steps))
      ensures Holds(g.requests[id], Background)
    {
      var i :| 0 <= i < |steps| && steps[i].StartBackground? && steps[i].id == id;
      IsolatedIsPlanned(c, steps, id);
      HeldHoldsItsPlan(g.requests[id], Background);
    }
    HoldersFit(g, Tool, HeldAmong(g, ForTools(steps)));
    HoldersFit(g, Background, HeldAmong(g, ForBackground(steps)));
  }

  // ---- No lost wake-up ----

  /** The queue of a pool lists, each once, exactly the requests asleep at that pool. */
  ghost predicate Queued(g: Gate) {
    forall p :: QueuedAt(g, p)
  }

  ghost predicate QueuedAt(g: Gate, p: PoolId) {
    var waiting := PoolOf(g, p).waiting;
    && NoRepeats(waiting)
    && (forall id :: id in waiting <==> id in g.requests && SleepsAt(g.requests[id], p))
  }

  ghost predicate NoRepeats(queue: seq<nat>) {
    forall i, j | 0 <= i < j < |queue| :: queue[i] != queue[j]
  }

  predicate SleepsAt(r: Request, p: PoolId) {
    Acquiring(r) && r.stage == Asleep && Target(r) == p
  }

  predicate NotifiedAt(r: Request, p: PoolId) {
    Acquiring(r) && r.stage.Woken? && Target(r) == p
  }

  /** The requests notified by `p` that have not run yet. */
  ghost function Notified(g: Gate, p: PoolId): set<nat> {
    set id | id in g.requests && NotifiedAt(g.requests[id], p)
  }

  /** As long as somebody sleeps at a pool, there is a notified request for each of its free slots. */
  ghost predicate AllWokenAt(g: Gate, p: PoolId) {
    PoolOf(g, p).waiting != [] ==> PoolOf(g, p).free <= |Notified(g, p)|
  }

  ghost predicate AllWoken(g: Gate) {
    forall p :: AllWokenAt(g, p)
  }

  lemma NotifiedAfter(g: Gate, id: nat, r: Request, p: PoolId)
    ensures Notified(SetRequest(g, id, r), p) == if NotifiedAt(r, p) then Notified(g, p) + {id} else Notified(g, p) - {id}
  {
  }

  /** Everything but the cancellation of a request that was notified and has not run yet. */
  predicate Gentle(g: Gate, step: Step) {
    step.Cancel? && step.id in g.requests ==> !g.requests[step.id].stage.Woken?
  }

  ghost predicate Sound(g: Gate) {
    Conserved(g) && Queued(g) && AllWoken(g)
  }

  lemma WithoutKeepsDistinct(queue: seq<nat>, id: nat)
    requires NoRepeats(queue)
    ensures NoRepeats(Without(queue, id))
  {
    if queue != [] {
      WithoutKeepsDistinct(queue[1..], id);
      var rest := Without(queue[1..], id);
      assert forall i | 0 <= i < |rest| :: rest[i] in rest && rest[i] in queue[1..];
      assert queue[0] !in queue[1..];
    }
  }

  lemma AppendKeepsDistinct(queue: seq<nat>, id: nat)
    requires NoRepeats(queue) && id !in queue
    ensures NoRepeats(queue + [id])
  {
    assert forall i | 0 <= i < |queue| :: queue[i] in queue;
  }

  lemma HeadLeaves(queue: seq<nat>)
    requires NoRepeats(queue) && queue != []
    ensures NoRepeats(queue[1..]) && forall id :: id in queue[1..] <==> id in queue && id != queue[0]
  {
    assert queue == [queue[0]] + queue[1..];
    assert forall i | 0 <= i < |queue[1..]| :: queue[1..][i] == queue[i + 1];
  }

  lemma StartWakes(g: Gate, id: nat, plan: seq<PoolId>)
    requires Sound(g) && id !in g.requests
    ensures var g' := SetRequest(g, id, Request(plan, 0, Ready)); Queued(g') && AllWoken(g')
  {
    var g' := SetRequest(g, id, Request(plan, 0, Ready));
    forall p
      ensures QueuedAt(g', p) && AllWokenAt(g', p)
    {
      assert QueuedAt(g, p) && AllWokenAt(g, p);
      NotifiedAfter(g, id, Request(plan, 0, Ready), p);
    }
  }

  lemma TakingQueuesAt(g: Gate, id: nat, q: PoolId)
    requires QueuedAt(g, q) && id in g.requests && Awake(g.requests[id])
    requires PoolOf(g, Target(g.requests[id])).free > 0
    ensures QueuedAt(LookAt(g, id, false), q)
  {
    var g' := LookAt(g, id, false);
    assert PoolOf(g', q).waiting == PoolOf(g, q).waiting;
    assert !SleepsAt(g.requests[id], q) && !SleepsAt(g'.requests[id], q);
  }

  lemma TakingWakesAt(g: Gate, id: nat, q: PoolId)
    requires AllWokenAt(g, q) && id in g.requests && Awake(g.requests[id])
    requires PoolOf(g, Target(g.requests[id])).free > 0
    ensures AllWokenAt(LookAt(g, id, false), q)
  {
    var g' := LookAt(g, id, false);
    NotifiedAfter(g, id, g'.requests[id], q);
    assert Notified(g', q) == Notified(SetRequest(g, id, g'.requests[id]), q) == Notified(g, q) - {id};
    if q != Target(g.requests[id]) {
      assert PoolOf(g', q) == PoolOf(g, q) && id !in Notified(g, q);
    }
  }

  lemma GivingUpWakesAt(g: Gate, id: nat, outOfTime: bool, q: PoolId)
    requires id in g.requests && Awake(g.requests[id])
    requires QueuedAt(g, q) && AllWokenAt(g, q) && PoolOf(g, Target(g.requests[id])).free == 0
    requires LookAt(g, id, outOfTime).requests[id].stage == Unwinding(true)
    ensures var g' := LookAt(g, id, outOfTime); QueuedAt(g', q) && AllWokenAt(g', q)
  {
    var r := g.requests[id];
    var g' := LookAt(g, id, outOfTime);
    assert PoolOf(g', q) == PoolOf(g, q);
    NotifiedAfter(g, id, g'.requests[id], q);
    assert Notified(g', q) == Notified(SetRequest(g, id, g'.requests[id]), q);
  }

  lemma SleepingQueuesAt(g: Gate, id: nat, outOfTime: bool, q: PoolId)
    requires QueuedAt(g, q) && id in g.requests && Awake(g.requests[id])
    requires LookAt(g, id, outOfTime).requests[id].stage == Asleep
    ensures QueuedAt(LookAt(g, id, outOfTime), q)
  {
    var p := Target(g.requests[id]);
    var g' := LookAt(g, id, outOfTime);
    if q == p {
      assert id !in PoolOf(g, p).waiting;
      AppendKeepsDistinct(PoolOf(g, p).waiting, id);
      assert PoolOf(g', q).waiting == PoolOf(g, p).waiting + [id];
    } else {
      assert PoolOf(g', q) == PoolOf(g, q);
    }
  }

  lemma SleepingWakesAt(g: Gate, id: nat, outOfTime: bool, q: PoolId)
    requires AllWokenAt(g, q) && id in g.requests && Awake(g.requests[id])
    requires PoolOf(g, Target(g.requests[id])).free == 0
    requires LookAt(g, id, outOfTime).requests[id].stage == Asleep
    ensures AllWokenAt(LookAt(g, id, outOfTime), q)
  {
    var p := Target(g.requests[id]);
    var g' := LookAt(g, id, outOfTime);
    NotifiedAfter(g, id, g'.requests[id], q);
    assert Notified(g', q) == Notified(SetRequest(g, id, g'.requests[id]), q);
    if q == p {
      assert PoolOf(g', q).free == PoolOf(g, p).free == 0;
    } else {
      assert PoolOf(g', q) == PoolOf(g, q);
    }
  }

  lemma LookWakes(g: Gate, id: nat, outOfTime: bool)
    requires Sound(g) && id in g.requests && Awake(g.requests[id])
    ensures var g' := LookAt(g, id, outOfTime); Queued(g') && AllWoken(g')
  {
    forall q
      ensures QueuedAt(LookAt(g, id, outOfTime), q) && AllWokenAt(LookAt(g, id, outOfTime), q)
    {
      assert QueuedAt(g, q) && AllWokenAt(g, q) && Balanced(g, Target(g.requests[id]));
      if PoolOf(g, Target(g.requests[id])).free > 0 {
        TakingQueuesAt(g, id, q);
        TakingWakesAt(g, id, q);
      } else if LookAt(g, id, outOfTime).requests[id].stage == Asleep {
        SleepingQueuesAt(g, id, outOfTime, q);
        SleepingWakesAt(g, id, outOfTime, q);
      } else {
        GivingUpWakesAt(g, id, outOfTime, q);
      }
    }
  }

  lemma LeaveWakes(g: Gate, id: nat, stage: Stage)
    requires Sound(g) && id in g.requests && Acquiring(g.requests[id]) && !g.requests[id].stage.Woken?
    requires stage == Unwinding(true) || stage == Expired
    ensures var g' := SetRequest(LeaveQueue(g, id), id, g.requests[id].(stage := stage)); Queued(g') && AllWoken(g')
  {
    var r := g.requests[id];
    var g1 := LeaveQueue(g, id);
    var r' := r.(stage := stage);
    var g' := SetRequest(g1, id, r');
    assert QueuedAt(g, Target(r));
    WithoutKeepsDistinct(PoolOf(g, Target(r)).waiting, id);
    forall q
      ensures QueuedAt(g', q) && AllWokenAt(g', q)
    {
      assert QueuedAt(g, q) && AllWokenAt(g, q);
      NotifiedAfter(g1, id, r', q);
      assert Notified(g1, q) == Notified(g, q) && id !in Notified(g, q);
      assert PoolOf(g1, q).waiting != [] ==> PoolOf(g1, q).waiting[0] in PoolOf(g, q).waiting;
    }
  }

  /** A change of stage that neither enters nor leaves a queue and loses no notification. */
  lemma RestageWakes(g: Gate, id: nat, r': Request)
    requires Sound(g) && id in g.requests
    requires forall p :: !SleepsAt(g.requests[id], p) && !SleepsAt(r', p) && NotifiedAt(r', p) == NotifiedAt(g.requests[id], p)
    ensures Queued(SetRequest(g, id, r')) && AllWoken(SetRequest(g, id, r'))
  {
    forall q
      ensures QueuedAt(SetRequest(g, id, r'), q) && AllWokenAt(SetRequest(g, id, r'), q)
    {
      assert QueuedAt(g, q) && AllWokenAt(g, q);
      assert !SleepsAt(g.requests[id], q) && !SleepsAt(r', q);
      NotifiedAfter(g, id, r', q);
    }
  }

  lemma WakingQueuesAt(g: Gate, p: PoolId, q: PoolId)
    requires QueuedAt(g, p) && QueuedAt(g, q) && PoolOf(g, p).waiting != []
    ensures QueuedAt(ReleaseSlot(g, p), q)
  {
    var waiting := PoolOf(g, p).waiting;
    assert waiting[0] in waiting;
    HeadLeaves(waiting);
    assert PoolOf(ReleaseSlot(g, p), q).waiting == if q == p then waiting[1..] else PoolOf(g, q).waiting;
  }

  lemma WakingWakesAt(g: Gate, p: PoolId, q: PoolId)
    requires AllWokenAt(g, q) && PoolOf(g, p).waiting != []
    requires var woken := PoolOf(g, p).waiting[0]; woken in g.requests && SleepsAt(g.requests[woken], p)
    ensures AllWokenAt(ReleaseSlot(g, p), q)
  {
    var pool := PoolOf(g, p);
    var woken := pool.waiting[0];
    var r' := g.requests[woken].(stage := Woken(false));
    var g' := ReleaseSlot(g, p);
    NotifiedAfter(g, woken, r', q);
    assert Notified(g', q) == Notified(SetRequest(g, woken, r'), q) && woken !in Notified(g, q);
    if q != p {
      assert PoolOf(g', q) == PoolOf(g, q);
    }
  }

  lemma ReleaseWakes(g: Gate, p: PoolId)
    requires Queued(g) && AllWoken(g)
    ensures Queued(ReleaseSlot(g, p)) && AllWoken(ReleaseSlot(g, p))
  {
    var g' := ReleaseSlot(g, p);
    forall q
      ensures QueuedAt(g', q) && AllWokenAt(g', q)
    {
      if PoolOf(g, p).waiting != [] {
        assert QueuedAt(g, p) && QueuedAt(g, q) && AllWokenAt(g, q) && PoolOf(g, p).waiting[0] in PoolOf(g, p).waiting;
        WakingQueuesAt(g, p, q);
        WakingWakesAt(g, p, q);
      } else {
        assert QueuedAt(g, q) && AllWokenAt(g, q);
        assert Notified(g', q) == Notified(g, q);
      }
    }
  }

  lemma StepWakes(g: Gate, step: Step)
    requires Sound(g) && Next(g, step).Some? && Gentle(g, step)
    ensures Sound(Next(g, step).value)
  {
    StepConservesSlots(g, step);
    match step
    case StartModel(id, tenant, model) => StartWakes(g, id, ModelPlan(g.config, tenant, model));
    case StartTool(id) => StartWakes(g, id, [Tool]);
    case StartBackground(id) => StartWakes(g, id, [Background]);
    case Look(id, outOfTime) => LookWakes(g, id, outOfTime);
    case Expire(id) =>
      if g.requests[id].stage == Asleep {
        LeaveWakes(g, id, Expired);
      } else {
        RestageWakes(g, id, g.requests[id].(stage := Woken(true)));
      }
    case Cancel(id) => LeaveWakes(g, id, Unwinding(true));
    case Release(id) =>
      if g.requests[id].stage == Held {
        RestageWakes(g, id, g.requests[id].(stage := Unwinding(false)));
      }
    case GiveBack(id) =>
      var r := g.requests[id];
      RestageWakes(g, id, r.(got := r.got - 1));
      ReleaseWakes(SetRequest(g, id, r.(got := r.got - 1)), r.plan[r.got - 1]);
  }

  /** A slot given back notifies the request that has slept longest at its pool, and no other; a request that goes to
      sleep queues up behind all others. */
  lemma LongestSleeperIsNotified(g: Gate, id: nat, p: PoolId)
    requires Queued(g) && id in g.requests && Next(g, GiveBack(id)).Some?
    requires p == g.requests[id].plan[g.requests[id].got - 1]
    ensures var g', queue := Next(g, GiveBack(id)).value, PoolOf(g, p).waiting;
      && (queue != [] ==>
            (queue[0] in g'.requests && g'.requests[queue[0]].stage == Woken(false) && PoolOf(g', p).waiting == queue[1..]))
      && (forall other | other in g.requests && other != id && (queue == [] || other != queue[0]) ::
            g'.requests[other] == g.requests[other])
  {
    if PoolOf(g, p).waiting != [] {
      assert QueuedAt(g, p);
      assert PoolOf(g, p).waiting[0] in PoolOf(g, p).waiting;
    }
  }

  lemma SleeperQueuesBehind(g: Gate, id: nat, outOfTime: bool)
    requires id in g.requests && Awake(g.requests[id])
    ensures var g', p := LookAt(g, id, outOfTime), Target(g.requests[id]);
      g'.requests[id].stage == Asleep ==> PoolOf(g', p).waiting == PoolOf(g, p).waiting + [id]
  {
  }

  /** A run in which no notified request is cancelled before it runs. */
  ghost predicate GentleRun(c: Config, steps: seq<Step>) {
    steps == []
    || (GentleRun(c, steps[..|steps| - 1])
        && (Run(c, steps[..|steps| - 1]).Some? ==> Gentle(Run(c, steps[..|steps| - 1]).value, steps[|steps| - 1])))
  }

  /** No wake-up is lost, in any interleaving of arrivals, barging, releases and timeouts. */
  lemma {:induction false} NoLostWakeup(c: Config, steps: seq<Step>)
    requires Run(c, steps).Some? && GentleRun(c, steps)
    ensures Sound(Run(c, steps).value)
  {
    ReachableConservesSlots(c, steps);
    if steps == [] {
      assert forall p :: QueuedAt(Empty(c), p) && AllWokenAt(Empty(c), p);
    } else {
      NoLostWakeup(c, steps[..|steps| - 1]);
      StepWakes(Run(c, steps[..|steps| - 1]).value, steps[|steps| - 1]);
    }
  }

  ghost predicate AwakeAt(g: Gate, id: nat, p: PoolId) {
    id in g.requests && Awake(g.requests[id]) && Target(g.requests[id]) == p
  }

  /** A free slot beside a sleeping queue has somebody awake to take it. */
  ghost predicate SlotIsWatched(g: Gate, p: PoolId) {
    PoolOf(g, p).free > 0 && PoolOf(g, p).waiting != [] ==> exists id :: AwakeAt(g, id, p)
  }

  /** The exception: cancelling a notified request.  Its pool is watched afterwards exactly when no slot is free, or
      nobody sleeps there, or another request is awake at the pool; two free slots are always enough, because then
      another one was notified too.  The full promise, a notified request for every free slot, is kept exactly when
      nobody sleeps there or there are more notified requests than free slots. */
  lemma CancellingNotifiedKeepsWakeupsIff(g: Gate, id: nat)
    requires Sound(g) && id in g.requests && Acquiring(g.requests[id]) && g.requests[id].stage.Woken?
    ensures var p, g' := Target(g.requests[id]), Next(g, Cancel(id)).value;
      && (SlotIsWatched(g', p) <==>
          (PoolOf(g, p).free == 0 || PoolOf(g, p).waiting == [] || exists other :: other != id && AwakeAt(g, other, p)))
      && (PoolOf(g, p).free >= 2 ==> SlotIsWatched(g', p))
      && (AllWokenAt(g', p) <==> PoolOf(g, p).waiting == [] || PoolOf(g, p).free < |Notified(g, p)|)
  {
    var p, g' := Target(g.requests[id]), Next(g, Cancel(id)).value;
    NotifiedAfter(g, id, g.requests[id].(stage := Unwinding(true)), p);
    assert AllWokenAt(g, p) && Balanced(g, p);
    assert forall other :: AwakeAt(g', other, p) <==> other != id && AwakeAt(g, other, p);
    if PoolOf(g, p).free >= 2 && PoolOf(g, p).waiting != [] {
      var others := Notified(g, p) - {id};
      assert |Notified(g, p)| >= 2 && id in Notified(g, p);
      assert |others| == |Notified(g, p)| - 1;
      var other :| other in others;
      assert AwakeAt(g, other, p);
    }
  }

  lemma RunExtends(c: Config, steps: seq<Step>, g: Gate, step: Step, g': Gate)
    requires Run(c, steps) == Some(g) && Next(g, step) == Some(g')
    ensures Run(c, steps + [step]) == Some(g')
  {
    assert (steps + [step])[..|steps|] == steps;
  }

  /** Three requests at a pool of one slot: the first holds it, the others sleep. */
  lemma TwoSleepBehindOne(c: Config, plan: seq<PoolId>) returns (steps: seq<Step>, g: Gate)
    requires c.globalLimit == 1 && c.tenantLimit == 0 && c.modelLimit == 0 && plan == [Global]
    ensures Run(c, steps) == Some(g) && GentleRun(c, steps)
    ensures g == Gate(c, map[Global := Pool(0, [1, 2])],
                      map[0 := Request(plan, 1, Held), 1 := Request(plan, 0, Asleep), 2 := Request(plan, 0, Asleep)])
  {
    assert forall model :: ModelPlan(c, "", model) == plan;
    var ready, held, asleep := Request(plan, 0, Ready), Request(plan, 1, Held), Request(plan, 0, Asleep);
    var g1 := Gate(c, map[], map[0 := ready]);
    var g2 := Gate(c, map[Global := Pool(0, [])], map[0 := held]);
    var g3 := Gate(c, g2.pools, map[0 := held, 1 := ready]);
    var g4 := Gate(c, map[Global := Pool(0, [1])], map[0 := held, 1 := asleep]);
    var g5 := Gate(c, g4.pools, map[0 := held, 1 := asleep, 2 := ready]);
    g := Gate(c, map[Global := Pool(0, [1, 2])], map[0 := held, 1 := asleep, 2 := asleep]);
    steps := [];
    steps := ExtendGently(c, steps, Empty(c), StartModel(0, "", ""), g1);
    assert g1.requests[0 := held] == g2.requests;
    assert LookAt(g1, 0, false) == g2;
    steps := ExtendGently(c, steps, g1, Look(0, false), g2);
    steps := ExtendGently(c, steps, g2, StartModel(1, "", ""), g3);
    assert g3.requests[1 := asleep] == g4.requests && [] + [1] == [1] && g3.pools[Global := Pool(0, [1])] == g4.pools;
    assert LookAt(g3, 1, false) == g4;
    steps := ExtendGently(c, steps, g3, Look(1, false), g4);
    steps := ExtendGently(c, steps, g4, StartModel(2, "", ""), g5);
    assert g5.requests[2 := asleep] == g.requests && [1] + [2] == [1, 2] && g5.pools[Global := Pool(0, [1, 2])] == g.pools;
    assert LookAt(g5, 2, false) == g;
    steps := ExtendGently(c, steps, g5, Look(2, false), g);
  }

  lemma ExtendGently(c: Config, steps: seq<Step>, g: Gate, step: Step, g': Gate) returns (more: seq<Step>)
    requires Run(c, steps) == Some(g) && GentleRun(c, steps)
    requires Next(g, step) == Some(g') && Gentle(g, step)
    ensures more == steps + [step] && Run(c, more) == Some(g') && GentleRun(c, more)
  {
    more := steps + [step];
    RunExtends(c, steps, g, step, g');
    assert more[..|steps|] == steps;
  }

  lemma HolderReleases(g: Gate, g': Gate, plan: seq<PoolId>, asleep: Request)
    requires g.requests == map[0 := Request(plan, 1, Held), 1 := asleep, 2 := asleep]
    requires g' == Gate(g.config, g.pools, map[0 := Request(plan, 1, Unwinding(false)), 1 := asleep, 2 := asleep])
    ensures Next(g, Release(0)) == Some(g')
  {
    assert g.requests[0 := Request(plan, 1, Unwinding(false))] == g'.requests;
  }

  lemma HolderNotifies(g: Gate, g': Gate, plan: seq<PoolId>, asleep: Request, done: Request, woken: Request)
    requires plan == [Global] && asleep == Request(plan, 0, Asleep)
    requires done == Request(plan, 0, Unwinding(false)) && woken == Request(plan, 0, Woken(false))
    requires g.pools == map[Global := Pool(0, [1, 2])]
    requires g.requests == map[0 := Request(plan, 1, Unwinding(false)), 1 := asleep, 2 := asleep]
    requires g' == Gate(g.config, map[Global := Pool(1, [2])], map[0 := done, 1 := woken, 2 := asleep])
    ensures Next(g, GiveBack(0)) == Some(g')
  {
    assert g.requests[0 := done][1 := woken] == g'.requests && [1, 2][1..] == [2];
    assert g.pools[Global := Pool(1, [2])] == g'.pools;
  }

  lemma NotifiedIsCancelled(g: Gate, g': Gate, plan: seq<PoolId>, asleep: Request, done: Request)
    requires plan == [Global]
    requires g.requests == map[0 := done, 1 := Request(plan, 0, Woken(false)), 2 := asleep]
    requires g' == Gate(g.config, g.pools, map[0 := done, 1 := Request(plan, 0, Unwinding(true)), 2 := asleep])
    ensures Next(g, Cancel(1)) == Some(g')
  {
    assert g.requests[1 := Request(plan, 0, Unwinding(true))] == g'.requests;
  }

  /** A run in which a wake-up is lost: the holder gives its slot back, which notifies the first sleeper, and that
      one is cancelled before it runs.  A slot is free, a request sleeps in its queue, and nobody is able to run. */
  lemma WakeupCanBeLost(c: Config) returns (steps: seq<Step>, g: Gate)
    requires c.globalLimit == 1 && c.tenantLimit == 0 && c.modelLimit == 0
    ensures steps != [] && Run(c, steps) == Some(g) && GentleRun(c, steps[..|steps| - 1])
    ensures PoolOf(g, Global) == Pool(1, [2]) && Sleeps(g, 2) && forall id | id in g.requests :: !Awake(g.requests[id])
  {
    var plan := [Global];
    var before, g0 := TwoSleepBehindOne(c, plan);
    var asleep, woken, done := Request(plan, 0, Asleep), Request(plan, 0, Woken(false)), Request(plan, 0, Unwinding(false));
    var g1 := Gate(c, g0.pools, map[0 := Request(plan, 1, Unwinding(false)), 1 := asleep, 2 := asleep]);
    var g2 := Gate(c, map[Global := Pool(1, [2])], map[0 := done, 1 := woken, 2 := asleep]);
    g := Gate(c, g2.pools, map[0 := done, 1 := Request(plan, 0, Unwinding(true)), 2 := asleep]);
    HolderReleases(g0, g1, plan, asleep);
    HolderNotifies(g1, g2, plan, asleep, done, woken);
    NotifiedIsCancelled(g2, g, plan, asleep, done);
    steps := LostRun(c, before, g0, g1, g2, g);
  }

  lemma LostRun(c: Config, before: seq<Step>, g0: Gate, g1: Gate, g2: Gate, g3: Gate) returns (steps: seq<Step>)
    requires Run(c, before) == Some(g0) && GentleRun(c, before)
    requires Next(g0, Release(0)) == Some(g1) && Next(g1, GiveBack(0)) == Some(g2) && Next(g2, Cancel(1)) == Some(g3)
    ensures steps != [] && Run(c, steps) == Some(g3) && GentleRun(c, steps[..|steps| - 1])
  {
    var gentle := ExtendGently(c, before, g0, Release(0), g1);
    gentle := ExtendGently(c, gentle, g1, GiveBack(0), g2);
    RunExtends(c, gentle, g2, Cancel(1), g3);
    steps := gentle + [Cancel(1)];
    assert steps[..|steps| - 1] == gentle;
  }

  // ---- Progress ----

  /** `QueueTimeout` is raised only where no slot is free. */
  lemma TimeoutOnlyWhenFull(g: Gate, id: nat, outOfTime: bool)
    requires Conserved(g) && id in g.requests && Awake(g.requests[id])
    ensures var r, pool := g.requests[id], PoolOf(g, Target(g.requests[id]));
      (LookAt(g, id, outOfTime).requests[id].stage == Unwinding(true)) <==>
      (pool.free == 0 && (outOfTime || r.stage == Expired || r.stage == Woken(true)))
  {
    assert Balanced(g, Target(g.requests[id]));
  }

  /** A free slot never sits idle beside a sleeping queue: some request that is able to run will find it. */
  lemma FreeSlotHasTaker(g: Gate, sleeper: nat)
    returns (taker: nat)
    requires Sound(g) && sleeper in g.requests && Acquiring(g.requests[sleeper])
    requires PoolOf(g, Target(g.requests[sleeper])).free > 0
    ensures taker in g.requests && Awake(g.requests[taker])
    ensures Target(g.requests[taker]) == Target(g.requests[sleeper])
  {
    var p := Target(g.requests[sleeper]);
    taker := sleeper;
    if g.requests[sleeper].stage == Asleep {
      assert QueuedAt(g, p) && AllWokenAt(g, p);
      assert sleeper in PoolOf(g, p).waiting;
      assert Notified(g, p) != {};
      taker :| taker in Notified(g, p);
    }
  }

  /** Requests of different families share no pool. */
  datatype Family = Layers | Tools | Backgrounds

  function FamilyOf(p: PoolId): Family {
    match p
    case Tool => Tools
    case Background => Backgrounds
    case _ => Layers
  }

  /** All pools the request needs are of the family. */
  predicate InFamily(r: Request, f: Family) {
    r.plan != [] && forall p | p in r.plan :: FamilyOf(p) == f
  }

  /** Nobody of the family holds a complete set of slots or is giving slots back. */
  ghost predicate OnlyAcquiring(g: Gate, f: Family) {
    forall id | id in g.requests && InFamily(g.requests[id], f) :: Acquiring(g.requests[id]) || g.requests[id].got == 0
  }

  ghost predicate TopAcquirer(g: Gate, f: Family, top: nat) {
    && top in g.requests && Acquiring(g.requests[top]) && InFamily(g.requests[top], f)
    && forall id | id in g.requests && Acquiring(g.requests[id]) && InFamily(g.requests[id], f) ::
         Rank(Target(g.requests[id])) <= Rank(Target(g.requests[top]))
  }

  lemma TopAcquirerExists(g: Gate, ids: set<nat>, some: nat)
    returns (top: nat)
    requires ids <= g.requests.Keys && some in ids && forall id | id in ids :: Acquiring(g.requests[id])
    ensures top in ids
    ensures forall id | id in ids :: Rank(Target(g.requests[id])) <= Rank(Target(g.requests[top]))
  {
    var rest := ids - {some};
    top := some;
    if rest != {} {
      var other :| other in rest;
      var best := TopAcquirerExists(g, rest, other);
      if Rank(Target(g.requests[best])) > Rank(Target(g.requests[some])) {
        top := best;
      }
    }
    assert forall id | id in ids :: id in rest || id == some;
  }

  /** Pools that are used at all have slots, and every request stays within one family. */
  ghost predicate PlansFit(g: Gate) {
    && (forall id, p | id in g.requests && p in g.requests[id].plan :: Size(g.config, p) > 0)
    && (forall id | id in g.requests :: exists f :: InFamily(g.requests[id], f))
  }

  lemma SharedPoolSameFamily(r: Request, f: Family, p: PoolId)
    requires p in r.plan && FamilyOf(p) == f && exists other :: InFamily(r, other)
    ensures InFamily(r, f)
  {
  }

  /** Whoever of a family waits at the highest layer finds its pool unused, because only requests of the family
      further up hold it. */
  lemma TopTargetIsFree(g: Gate, f: Family, top: nat)
    requires Conserved(g) && PlansFit(g) && OnlyAcquiring(g, f) && TopAcquirer(g, f, top)
    ensures PoolOf(g, Target(g.requests[top])).free == Size(g.config, Target(g.requests[top]))
  {
    var p := Target(g.requests[top]);
    assert p in g.requests[top].plan;
    forall id | id in g.requests
      ensures !Holds(g.requests[id], p)
    {
      var r := g.requests[id];
      assert WellPlanned(r);
      if p in r.plan {
        SharedPoolSameFamily(r, f, p);
        if Acquiring(r) {
          assert forall i | 0 <= i < r.got :: Rank(r.plan[i]) < Rank(Target(r)) <= Rank(p);
        }
      }
    }
    assert Owners(g, p) == {};
    assert Balanced(g, p);
  }

  /** Deadlock freedom, family by family: when no request of the family holds all its slots or is giving slots
      back, and at least one is acquiring, then some request of the family is able to run and takes its next slot
      when it does, whatever the other families hold. */
  lemma DeadlockFree(g: Gate, f: Family, some: nat)
    returns (taker: nat)
    requires Sound(g) && PlansFit(g) && OnlyAcquiring(g, f)
    requires some in g.requests && Acquiring(g.requests[some]) && InFamily(g.requests[some], f)
    ensures taker in g.requests && InFamily(g.requests[taker], f) && Awake(g.requests[taker])
    ensures forall outOfTime ::
      Next(g, Look(taker, outOfTime)) == Some(LookAt(g, taker, outOfTime))
      && LookAt(g, taker, outOfTime).requests[taker].got == g.requests[taker].got + 1
  {
    var ids := set id | id in g.requests && Acquiring(g.requests[id]) && InFamily(g.requests[id], f);
    var top := TopAcquirerExists(g, ids, some);
    assert TopAcquirer(g, f, top) by {
      assert forall id | id in g.requests && Acquiring(g.requests[id]) && InFamily(g.requests[id], f) :: id in ids;
    }
    TopTargetIsFree(g, f, top);
    var p := Target(g.requests[top]);
    assert p in g.requests[top].plan;
    taker := FreeSlotHasTaker(g, top);
    assert Target(g.requests[taker]) in g.requests[taker].plan;
    SharedPoolSameFamily(g.requests[taker], f, p);
  }

  /** Plans fit in every reachable state: a tenant or model pool is planned only when its limit is positive. */
  lemma {:induction false} ReachablePlansFit(c: Config, steps: seq<Step>)
    requires c.globalLimit > 0 && c.toolSize > 0 && c.backgroundLimit > 0
    requires Run(c, steps).Some?
    ensures PlansFit(Run(c, steps).value)
  {
    if steps != [] {
      var before := steps[..|steps| - 1];
      ReachableConservesSlots(c, before);
      ReachablePlansFit(c, before);
      var g := Run(c, before).value;
      PlansAreKept(g, steps[|steps| - 1]);
    }
  }

  lemma ModelPlanFits(c: Config, tenant: string, model: string)
    requires c.globalLimit > 0
    ensures var plan := ModelPlan(c, tenant, model);
      plan != [] && forall p | p in plan :: Size(c, p) > 0 && FamilyOf(p) == Layers
  {
    assert Global in ModelPlan(c, tenant, model);
  }

  /** A step changes no plan, and the plan it may add asks only for pools of positive size, of one family. */
  lemma PlansAreKept(g: Gate, step: Step)
    requires g.config.globalLimit > 0 && g.config.toolSize > 0 && g.config.backgroundLimit > 0
    requires PlansFit(g) && Next(g, step).Some?
    ensures PlansFit(Next(g, step).value)
  {
    var g' := Next(g, step).value;
    assert g'.config == g.config;
    assert forall id | id in g.requests :: id in g'.requests && g'.requests[id].plan == g.requests[id].plan;
    forall id | id in g'.requests
      ensures (forall p | p in g'.requests[id].plan :: Size(g.config, p) > 0) && exists f :: InFamily(g'.requests[id], f)
    {
      if id in g.requests {
        var f :| InFamily(g.requests[id], f);
        assert InFamily(g'.requests[id], f);
      } else if step.StartModel? {
        ModelPlanFits(g.config, step.tenant, step.model);
        assert InFamily(g'.requests[id], Layers);
      } else {
        assert InFamily(g'.requests[id], if step.StartTool? then Tools else Backgrounds);
      }
    }
  }

  /** Deadlock freedom of every family in every reachable state of a gate with positive sizes. */
  lemma NoReachableDeadlock(c: Config, steps: seq<Step>, f: Family, some: nat)
    returns (taker: nat)
    requires c.globalLimit > 0 && c.toolSize > 0 && c.backgroundLimit > 0
    requires Run(c, steps).Some? && GentleRun(c, steps) && OnlyAcquiring(Run(c, steps).value, f)
    requires var g := Run(c, steps).value;
      some in g.requests && Acquiring(g.requests[some]) && InFamily(g.requests[some], f)
    ensures var g := Run(c, steps).value;
      && taker in g.requests && InFamily(g.requests[taker], f) && Awake(g.requests[taker])
      && Run(c, steps + [Look(taker, true)]) == Some(LookAt(g, taker, true))
      && LookAt(g, taker, true).requests[taker].got == g.requests[taker].got + 1
  {
    NoLostWakeup(c, steps);
    ReachablePlansFit(c, steps);
    taker := DeadlockFree(Run(c, steps).value, f, some);
    assert (steps + [Look(taker, true)])[..|steps|] == steps;
  }

  /** Nobody of the family holds a complete set of slots. */
  ghost predicate NobodyHolds(g: Gate, f: Family) {
    forall id | id in g.requests && InFamily(g.requests[id], f) :: g.requests[id].stage != Held
  }

  /** Progress of a family while its requests are rolling back or releasing too: with no complete hold outstanding,
      a request that is acquiring or still has slots to return means that some request of the family can take a
      step that returns or takes a slot. */
  lemma SomeoneProceeds(g: Gate, f: Family, some: nat) returns (step: Step)
    requires Sound(g) && PlansFit(g) && NobodyHolds(g, f)
    requires some in g.requests && InFamily(g.requests[some], f)
    requires Acquiring(g.requests[some]) || g.requests[some].got > 0
    ensures step.id in g.requests && InFamily(g.requests[step.id], f) && Next(g, step).Some?
    ensures var before, after := g.requests[step.id].got, Next(g, step).value.requests[step.id].got;
      (step.GiveBack? && after == before - 1) || (step.Look? && after == before + 1)
  {
    assert forall id | id in g.requests :: WellPlanned(g.requests[id]);
    if id :| id in g.requests && InFamily(g.requests[id], f) && g.requests[id].stage.Unwinding? && g.requests[id].got > 0 {
      step := GiveBack(id);
    } else {
      assert OnlyAcquiring(g, f);
      var taker := DeadlockFree(g, f, some);
      step := Look(taker, true);
    }
  }

  /** The same of every reachable state of a gate with positive sizes. */
  lemma ReachableProceeds(c: Config, steps: seq<Step>, f: Family, some: nat) returns (step: Step)
    requires c.globalLimit > 0 && c.toolSize > 0 && c.backgroundLimit > 0
    requires Run(c, steps).Some? && GentleRun(c, steps) && NobodyHolds(Run(c, steps).value, f)
    requires var g := Run(c, steps).value;
      && some in g.requests && InFamily(g.requests[some], f)
      && (Acquiring(g.requests[some]) || g.requests[some].got > 0)
    ensures var g := Run(c, steps).value;
      && step.id in g.requests && InFamily(g.requests[step.id], f) && Next(g, step).Some?
      && var before, after := g.requests[step.id].got, Next(g, step).value.requests[step.id].got;
         (step.GiveBack? && after == before - 1) || (step.Look? && after == before + 1)
  {
    NoLostWakeup(c, steps);
    ReachablePlansFit(c, steps);
    step := SomeoneProceeds(Run(c, steps).value, f, some);
  }

  // ---- Isolation ----

  predicate Layered(p: PoolId) {
    FamilyOf(p) == Layers
  }

  ghost predicate Isolated(r: Request) {
    forall p | p in r.plan :: !Layered(p)
  }

  /** Tool and background traffic never changes the global, a tenant's or a model's pool. */
  lemma IsolatedStepsTouchNoLayer(g: Gate, step: Step, p: PoolId)
    requires Next(g, step).Some? && Layered(p)
    requires step.id in g.requests ==> Isolated(g.requests[step.id])
    requires step.id !in g.requests ==> !step.StartModel?
    ensures PoolOf(Next(g, step).value, p) == PoolOf(g, p)
  {
  }
}
