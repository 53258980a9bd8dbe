/** The learned state of an upstream key, and what a reload of the key pool keeps of it. */
module KeyHealths {
  import opened Wrappers

  const HEALTHY := "healthy"
  const RATE_LIMITED := "rate_limited"
  const INVALID := "invalid"
  const ERROR := "error"

  datatype Health = Health(
    status: string, cooldownUntil: real, rpmLimit: nat, tpmLimit: nat, tpmWindowLimit: Option<nat>,
    successCount: nat, totalFailures: nat, consecutiveFailures: nat, recent429Count: nat,
    backoffLevel: nat, failureClass: string, lastFailureAt: real)

  predicate Transient(status: string) {
    status == ERROR || status == RATE_LIMITED
  }

  /** A transient cooldown that has run out ends in the healthy state; nothing else changes. */
  function Normalized(h: Health, now: real): Health {
    if Transient(h.status) && h.cooldownUntil <= now then h.(status := HEALTHY, cooldownUntil := 0.0) else h
  }

  class KeyHealth {
    const keyId: int
    var status: string
    var cooldownUntil: real
    var rpmLimit: nat
    var tpmLimit: nat
    var tpmWindowLimit: Option<nat>  // the limit of the token window, if the key has one
    var successCount: nat
    var totalFailures: nat
    var consecutiveFailures: nat
    var recent429Count: nat
    var backoffLevel: nat
    var failureClass: string
    var lastFailureAt: real

    constructor (keyId: int, h: Health)
      ensures this.keyId == keyId && State() == h
    {
      this.keyId, status, cooldownUntil, rpmLimit := keyId, h.status, h.cooldownUntil, h.rpmLimit;
      tpmLimit, tpmWindowLimit, successCount := h.tpmLimit, h.tpmWindowLimit, h.successCount;
      totalFailures, consecutiveFailures, recent429Count := h.totalFailures, h.consecutiveFailures, h.recent429Count;
      backoffLevel, failureClass, lastFailureAt := h.backoffLevel, h.failureClass, h.lastFailureAt;
    }

    function State(): Health
      reads this
    {
      Health(status, cooldownUntil, rpmLimit, tpmLimit, tpmWindowLimit, successCount, totalFailures,
             consecutiveFailures, recent429Count, backoffLevel, failureClass, lastFailureAt)
    }

    method NormalizeExpiredCooldown(now: real) returns (changed: bool)
      modifies this
      ensures State() == Normalized(old(State()), now)
      ensures changed <==> old(status) in {ERROR, RATE_LIMITED} && old(cooldownUntil) <= now
      ensures State() == if changed then old(State()).(status := HEALTHY, cooldownUntil := 0.0) else old(State())
    {
      changed := Transient(status) && cooldownUntil <= now;
      if changed {
        status := HEALTHY;
        cooldownUntil := 0.0;
      }
    }

    /** Copies the state of failure of `old`, as a reload does for a key it keeps. */
    method KeepFailureOf(older: KeyHealth)
      modifies this
      requires older != this
      ensures State() == WithFailureOf(old(State()), older.State())
    {
      status := older.status;
      cooldownUntil := older.cooldownUntil;
      backoffLevel := older.backoffLevel;
      failureClass := older.failureClass;
      lastFailureAt := older.lastFailureAt;
      consecutiveFailures := older.consecutiveFailures;
      totalFailures := older.totalFailures;
      recent429Count := older.recent429Count;
    }
  }

  // ---- Reload ----

  function WithFailureOf(loaded: Health, older: Health): Health {
    loaded.(status := older.status, cooldownUntil := older.cooldownUntil, backoffLevel := older.backoffLevel,
            failureClass := older.failureClass, lastFailureAt := older.lastFailureAt,
            consecutiveFailures := older.consecutiveFailures, totalFailures := older.totalFailures,
            recent429Count := older.recent429Count)
  }

  /** The stricter of a learned and a loaded limit, where 0 stands for no limit. */
  function Stricter(learned: nat, loaded: nat): nat {
    if learned > 0 && (loaded == 0 || learned < loaded) then learned else loaded
  }

  /** What a freshly loaded key becomes, given the key of the same id in the pool before. */
  function Merged(before: Option<Health>, loaded: Health, now: real): Health {
    match before
    case None => loaded.(status := HEALTHY, cooldownUntil := 0.0, recent429Count := 0)
    case Some(h) =>
      var tpm := Stricter(h.tpmLimit, loaded.tpmLimit);
      var window := if tpm != loaded.tpmLimit && loaded.tpmWindowLimit.Some? then Some(tpm) else loaded.tpmWindowLimit;
      var limited := loaded.(rpmLimit := Stricter(h.rpmLimit, loaded.rpmLimit), tpmLimit := tpm, tpmWindowLimit := window);
      if h.status == INVALID || (h.status != HEALTHY && h.cooldownUntil > now)
      then WithFailureOf(limited, h)
      else limited
  }

  ghost predicate AllDistinct(keys: seq<KeyHealth>) {
    forall i, j | 0 <= i < j < |keys| :: keys[i] != keys[j]
  }

  /** The old key a reload consults: the last one of that id, and none for ids that are not positive. */
  function Lookup(keys: seq<KeyHealth>, id: int): (found: Option<KeyHealth>)
    ensures found.Some? ==> found.value in keys && found.value.keyId == id && id > 0
    ensures found.None? <==> id <= 0 || forall k | k in keys :: k.keyId != id
  {
    if keys == [] || id <= 0 then None
    else if keys[|keys| - 1].keyId == id then Some(keys[|keys| - 1])
    else Lookup(keys[..|keys| - 1], id)
  }

  // ---- The pool as values ----

  datatype Entry = Entry(id: int, health: Health)

  ghost function PoolOf(keys: seq<KeyHealth>): (pool: seq<Entry>)
    reads keys
    ensures |pool| == |keys| && forall i | 0 <= i < |keys| :: pool[i] == Entry(keys[i].keyId, keys[i].State())
  {
    seq(|keys|, i requires 0 <= i < |keys| reads keys => Entry(keys[i].keyId, keys[i].State()))
  }

  /** The position of the last entry of that id, or -1. */
  function Last(pool: seq<Entry>, id: int): (i: int)
    ensures -1 <= i < |pool| && (i >= 0 ==> pool[i].id == id)
    ensures forall j | i < j < |pool| :: pool[j].id != id
  {
    if pool == [] then -1
    else if pool[|pool| - 1].id == id then |pool| - 1
    else Last(pool[..|pool| - 1], id)
  }

  /** The entry a reload consults. */
  function Find(pool: seq<Entry>, id: int): Option<Health> {
    if id <= 0 || Last(pool, id) < 0 then None else Some(pool[Last(pool, id)].health)
  }

  function ReloadedPool(pool: seq<Entry>, loaded: seq<Entry>, now: nat -> real): (r: seq<Entry>)
    ensures |r| == |loaded|
    ensures forall i | 0 <= i < |loaded| ::
      r[i] == Entry(loaded[i].id, Merged(Find(pool, loaded[i].id), loaded[i].health, now(i)))
  {
    seq(|loaded|, i requires 0 <= i < |loaded| =>
      Entry(loaded[i].id, Merged(Find(pool, loaded[i].id), loaded[i].health, now(i))))
  }

  lemma {:induction false} LookupFinds(keys: seq<KeyHealth>, id: int)
    ensures HealthOf(Lookup(keys, id)) == Find(PoolOf(keys), id)
  {
    if keys != [] && id > 0 && keys[|keys| - 1].keyId != id {
      var front := keys[..|keys| - 1];
      LookupFinds(front, id);
      assert PoolOf(keys)[..|keys| - 1] == PoolOf(front);
    }
  }

  method OldState(keys: seq<KeyHealth>) returns (byId: map<int, KeyHealth>)
    ensures forall id :: Lookup(keys, id) == if id in byId then Some(byId[id]) else None
  {
    byId := map[];
    for i := 0 to |keys|
      invariant forall id :: Lookup(keys[..i], id) == if id in byId then Some(byId[id]) else None
    {
      assert keys[..i + 1][..i] == keys[..i];
      if keys[i].keyId > 0 {
        byId := byId[keys[i].keyId := keys[i]];
      }
    }
    assert keys[..|keys|] == keys;
  }

  function HealthOf(found: Option<KeyHealth>): Option<Health>
    reads match found { case None => {} case Some(k) => {k} }
  {
    match found
    case None => None
    case Some(k) => Some(k.State())
  }

  /** The two agree on the status, its cooldown and all that is known of the failures. */
  predicate SameFailure(a: Health, b: Health) {
    && a.status == b.status && a.cooldownUntil == b.cooldownUntil && a.backoffLevel == b.backoffLevel
    && a.failureClass == b.failureClass && a.lastFailureAt == b.lastFailureAt
    && a.consecutiveFailures == b.consecutiveFailures && a.totalFailures == b.totalFailures
    && a.recent429Count == b.recent429Count
  }

  /** The limits of `r` are the stricter ones of `a` and `b`, and a token window of `b` follows its new limit. */
  predicate LimitsMeet(r: Health, a: Health, b: Health) {
    && AtLeastAsStrict(r.rpmLimit, a.rpmLimit) && AtLeastAsStrict(r.rpmLimit, b.rpmLimit)
    && r.rpmLimit in {a.rpmLimit, b.rpmLimit}
    && AtLeastAsStrict(r.tpmLimit, a.tpmLimit) && AtLeastAsStrict(r.tpmLimit, b.tpmLimit)
    && r.tpmLimit in {a.tpmLimit, b.tpmLimit}
    && (r.tpmLimit == b.tpmLimit ==> r.tpmWindowLimit == b.tpmWindowLimit)
    && (r.tpmLimit != b.tpmLimit ==> r.tpmWindowLimit == if b.tpmWindowLimit.Some? then Some(r.tpmLimit) else None)
  }

  /** A key without an old one starts healthy.  Otherwise the limits meet, the number of successes is the loaded one,
      and the failure is that of the old key while it is invalid or cooling, the loaded one when it is healthy or its
      cooldown has run out. */
  method MergeKey(loaded: KeyHealth, before: Option<KeyHealth>, now: real)
    requires before.Some? ==> before.value != loaded
    modifies loaded
    ensures loaded.State() == Merged(old(HealthOf(before)), old(loaded.State()), now)
    ensures before.None? ==>
      loaded.State() == old(loaded.State()).(status := HEALTHY, cooldownUntil := 0.0, recent429Count := 0)
    ensures before.Some? ==>
      var older, was := old(before.value.State()), old(loaded.State());
      && LimitsMeet(loaded.State(), older, was) && loaded.successCount == was.successCount
      && (older.status == INVALID ==> SameFailure(loaded.State(), older))
      && (older.status == HEALTHY ==> SameFailure(loaded.State(), was))
      && (older.status !in {HEALTHY, INVALID} ==> SameFailure(loaded.State(), if older.cooldownUntil > now then older else was))
  {
    match before
    case None =>
      loaded.status := HEALTHY;
      loaded.cooldownUntil := 0.0;
      loaded.recent429Count := 0;
    case Some(older) =>
      if older.rpmLimit > 0 && (loaded.rpmLimit == 0 || older.rpmLimit < loaded.rpmLimit) {
        loaded.rpmLimit := older.rpmLimit;
      }
      if older.tpmLimit > 0 && (loaded.tpmLimit == 0 || older.tpmLimit < loaded.tpmLimit) {
        loaded.tpmLimit := older.tpmLimit;
        if loaded.tpmWindowLimit.Some? {
          loaded.tpmWindowLimit := Some(older.tpmLimit);
        }
      }
      if older.status != HEALTHY {
        if older.status == INVALID {
          loaded.KeepFailureOf(older);
        } else if older.cooldownUntil > now {
          loaded.KeepFailureOf(older);
        }
      }
  }

  method MergeAll(keys: seq<KeyHealth>, loaded: seq<KeyHealth>, now: nat -> real)
    requires AllDistinct(loaded) && forall k | k in loaded :: k !in keys
    modifies loaded
    ensures forall i | 0 <= i < |loaded| ::
      loaded[i].State() == Merged(old(HealthOf(Lookup(keys, loaded[i].keyId))), old(loaded[i].State()), now(i))
    ensures forall k | k in keys :: k.State() == old(k.State())
  {
    var byId := OldState(keys);
    for i := 0 to |loaded|
      invariant forall j | 0 <= j < i ::
        loaded[j].State() == Merged(old(HealthOf(Lookup(keys, loaded[j].keyId))), old(loaded[j].State()), now(j))
      invariant forall j | i <= j < |loaded| :: loaded[j].State() == old(loaded[j].State())
      invariant forall k | k in keys :: k.State() == old(k.State())
    {
      var before := if loaded[i].keyId in byId then Some(byId[loaded[i].keyId]) else None;
      assert before == Lookup(keys, loaded[i].keyId);
      MergeKey(loaded[i], before, now(i));
    }
  }

  /** The new pool: every loaded key merged with the old key of its id. */
  method ReloadKeys(keys: seq<KeyHealth>, loaded: seq<KeyHealth>, now: nat -> real)
    requires AllDistinct(loaded) && forall k | k in loaded :: k !in keys
    modifies loaded
    ensures PoolOf(loaded) == ReloadedPool(old(PoolOf(keys)), old(PoolOf(loaded)), now)
    ensures PoolOf(keys) == old(PoolOf(keys))
  {
    forall i | 0 <= i < |loaded|
      ensures HealthOf(Lookup(keys, loaded[i].keyId)) == Find(PoolOf(keys), loaded[i].keyId)
    {
      LookupFinds(keys, loaded[i].keyId);
    }
    MergeAll(keys, loaded, now);
  }

  // ---- Any number of reloads ----

  datatype Load = Load(health: Health, now: real)

  /** A key carried through a series of reloads, without reactivation and without traffic in between. */
  function Reloaded(h: Health, loads: seq<Load>): Health {
    if loads == [] then h
    else Merged(Some(Reloaded(h, loads[..|loads| - 1])), loads[|loads| - 1].health, loads[|loads| - 1].now)
  }

  /** At least as strict, 0 being no limit at all. */
  predicate AtLeastAsStrict(a: nat, b: nat) {
    b == 0 || (a != 0 && a <= b)
  }

  /** An invalid key stays invalid, with everything that says why. */
  lemma {:induction false} InvalidStaysInvalid(h: Health, loads: seq<Load>)
    requires h.status == INVALID
    ensures var r := Reloaded(h, loads);
      && r.status == INVALID && r.cooldownUntil == h.cooldownUntil && r.backoffLevel == h.backoffLevel
      && r.failureClass == h.failureClass && r.lastFailureAt == h.lastFailureAt
      && r.consecutiveFailures == h.consecutiveFailures && r.totalFailures == h.totalFailures
      && r.recent429Count == h.recent429Count
  {
    if loads != [] {
      InvalidStaysInvalid(h, loads[..|loads| - 1]);
    }
  }

  /** So does a transient failure, through every reload before its cooldown runs out. */
  lemma {:induction false} CooldownIsKept(h: Health, loads: seq<Load>)
    requires Transient(h.status) && forall i | 0 <= i < |loads| :: loads[i].now < h.cooldownUntil
    ensures var r := Reloaded(h, loads);
      && r.status == h.status && r.cooldownUntil == h.cooldownUntil && r.backoffLevel == h.backoffLevel
      && r.failureClass == h.failureClass && r.lastFailureAt == h.lastFailureAt
      && r.consecutiveFailures == h.consecutiveFailures && r.totalFailures == h.totalFailures
      && r.recent429Count == h.recent429Count
  {
    if loads != [] {
      CooldownIsKept(h, loads[..|loads| - 1]);
    }
  }

  /** The dual of `InvalidStaysInvalid`: a key is invalid after its reloads exactly when it was invalid before, or
      some load said so while the key was not cooling. */
  lemma {:induction false} InvalidAfterReloadsIff(h: Health, loads: seq<Load>)
    ensures Reloaded(h, loads).status == INVALID <==>
      || h.status == INVALID
      || exists i :: 0 <= i < |loads| && SaidInvalid(h, loads, i)
  {
    if loads != [] {
      var front := loads[..|loads| - 1];
      InvalidAfterReloadsIff(h, front);
      forall i | 0 <= i < |front|
        ensures SaidInvalid(h, loads, i) <==> SaidInvalid(h, front, i)
      {
        assert loads[..i] == front[..i];
      }
      var r, last := Reloaded(h, front), loads[|front|];
      assert r.status != INVALID ==> (Reloaded(h, loads).status == INVALID <==> SaidInvalid(h, loads, |front|));
      assert r.status != INVALID && h.status != INVALID ==> forall i | 0 <= i < |front| :: !SaidInvalid(h, front, i);
    }
  }

  predicate SaidInvalid(h: Health, loads: seq<Load>, i: int)
    requires 0 <= i < |loads|
  {
    && loads[i].health.status == INVALID
    && var r := Reloaded(h, loads[..i]);
       r.status == HEALTHY || r.cooldownUntil <= loads[i].now
  }

  /** A key that is neither invalid nor cooling when it is reloaded comes out with the failure that was loaded: a
      healthy one healthy, whatever the failures it has behind it. */
  lemma RecoveredIsAsLoaded(h: Health, loads: seq<Load>, load: Load)
    requires var r := Reloaded(h, loads); r.status == HEALTHY || (r.status != INVALID && r.cooldownUntil <= load.now)
    ensures var r := Reloaded(h, loads + [load]);
      && r.status == load.health.status && r.cooldownUntil == load.health.cooldownUntil
      && r.backoffLevel == load.health.backoffLevel && r.failureClass == load.health.failureClass
      && r.lastFailureAt == load.health.lastFailureAt && r.consecutiveFailures == load.health.consecutiveFailures
      && r.totalFailures == load.health.totalFailures && r.recent429Count == load.health.recent429Count
  {
    MergesSnoc(h, loads, load);
  }

  /** Limits only tighten: the limits in the end are the strictest of the learned ones and of all those
      loaded, and each is one of them. */
  lemma {:induction false} LimitsOnlyTighten(h: Health, loads: seq<Load>)
    ensures var r := Reloaded(h, loads);
      && AtLeastAsStrict(r.rpmLimit, h.rpmLimit) && AtLeastAsStrict(r.tpmLimit, h.tpmLimit)
      && (forall i | 0 <= i < |loads| :: AtLeastAsStrict(r.rpmLimit, loads[i].health.rpmLimit)
                                      && AtLeastAsStrict(r.tpmLimit, loads[i].health.tpmLimit))
      && (r.rpmLimit == h.rpmLimit || exists i :: 0 <= i < |loads| && r.rpmLimit == loads[i].health.rpmLimit)
      && (r.tpmLimit == h.tpmLimit || exists i :: 0 <= i < |loads| && r.tpmLimit == loads[i].health.tpmLimit)
  {
    if loads != [] {
      var front := loads[..|loads| - 1];
      LimitsOnlyTighten(h, front);
      assert forall i | 0 <= i < |front| :: front[i] == loads[i];
      var r, last := Reloaded(h, front), loads[|loads| - 1].health;
      assert Reloaded(h, loads).rpmLimit == r.rpmLimit || Reloaded(h, loads).rpmLimit == loads[|loads| - 1].health.rpmLimit;
      assert Reloaded(h, loads).tpmLimit == r.tpmLimit || Reloaded(h, loads).tpmLimit == loads[|loads| - 1].health.tpmLimit;
    }
  }

  // ---- Any number of reloads of the whole pool ----

  datatype PoolLoad = PoolLoad(loaded: seq<Entry>, now: nat -> real)

  function PoolAfter(pool: seq<Entry>, loads: seq<PoolLoad>): seq<Entry> {
    if loads == [] then pool
    else
      var last := loads[|loads| - 1];
      ReloadedPool(PoolAfter(pool, loads[..|loads| - 1]), last.loaded, last.now)
  }

  /** Every load still has the key. */
  predicate Keeps(loads: seq<PoolLoad>, id: int) {
    forall i | 0 <= i < |loads| :: Last(loads[i].loaded, id) >= 0
  }

  /** What the loads say about one key. */
  function LoadsOf(loads: seq<PoolLoad>, id: int): seq<Load>
    requires Keeps(loads, id)
  {
    if loads == [] then []
    else
      var last := loads[|loads| - 1];
      var i := Last(last.loaded, id);
      LoadsOf(loads[..|loads| - 1], id) + [Load(last.loaded[i].health, last.now(i))]
  }

  lemma SameIdsSameLast(a: seq<Entry>, b: seq<Entry>, id: int)
    requires |a| == |b| && forall i | 0 <= i < |a| :: a[i].id == b[i].id
    ensures Last(a, id) == Last(b, id)
  {
    assert Last(a, id) >= 0 ==> b[Last(a, id)].id == id;
    assert Last(b, id) >= 0 ==> a[Last(b, id)].id == id;
  }

  /** A key with a positive id goes through reloads of the pool as through merges of its own: what was shown above
      of one key holds of it in the pool. */
  lemma {:induction false} PoolFollowsMerges(pool: seq<Entry>, loads: seq<PoolLoad>, id: int)
    requires id > 0 && Find(pool, id).Some? && Keeps(loads, id)
    ensures Find(PoolAfter(pool, loads), id) == Some(Reloaded(Find(pool, id).value, LoadsOf(loads, id)))
  {
    if loads != [] {
      var front, last := loads[..|loads| - 1], loads[|loads| - 1];
      PoolFollowsMerges(pool, front, id);
      SameIdsSameLast(PoolAfter(pool, loads), last.loaded, id);
      MergesSnoc(Find(pool, id).value, LoadsOf(front, id), Load(last.loaded[Last(last.loaded, id)].health,
                                                                last.now(Last(last.loaded, id))));
    }
  }

  lemma MergesSnoc(h: Health, loads: seq<Load>, load: Load)
    ensures Reloaded(h, loads + [load]) == Merged(Some(Reloaded(h, loads)), load.health, load.now)
  {
    assert (loads + [load])[..|loads|] == loads;
  }

  ghost predicate AllInvalid(pool: seq<Entry>, id: int) {
    forall i | 0 <= i < |pool| && pool[i].id == id :: pool[i].health.status == INVALID
  }

  /** An invalid key that every reload keeps is still invalid afterwards exactly when its id is positive: a key
      without one is made healthy by the first reload. */
  lemma {:induction false} InvalidIsKeptIff(pool: seq<Entry>, loads: seq<PoolLoad>, id: int)
    requires Last(pool, id) >= 0 && AllInvalid(pool, id) && loads != [] && Keeps(loads, id)
    ensures AllInvalid(PoolAfter(pool, loads), id) <==> id > 0
  {
    var front, last := loads[..|loads| - 1], loads[|loads| - 1];
    var before, after := PoolAfter(pool, front), PoolAfter(pool, loads);
    var i := Last(last.loaded, id);
    assert after[i] == Entry(id, Merged(Find(before, id), last.loaded[i].health, last.now(i)));
    if id > 0 {
      if front != [] {
        InvalidIsKeptIff(pool, front, id);
        SameIdsSameLast(before, front[|front| - 1].loaded, id);
      }
      assert Find(before, id).Some? && Find(before, id).value.status == INVALID;
    }
  }
}
