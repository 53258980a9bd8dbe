/** The periodic snapshot of key health: only rows that differ are written, judged by a baseline of
    fingerprints or, in a reconciling round, by the rows read back from the store. */
module HealthSnapshots {
  import opened Wrappers
  import opened KeyHealths

  /** A stored row; a column may be NULL. */
  datatype Row = Row(
    status: Option<string>, cooldownUntil: Option<real>, rpmLimit: Option<nat>, tpmLimit: Option<nat>,
    successCount: Option<nat>, failureCount: Option<nat>, recent429Count: Option<nat>,
    failureClass: Option<string>, lastFailureAt: Option<real>)

  datatype Fingerprint = Fingerprint(
    status: string, cooldownUntil: real, rpmLimit: nat, tpmLimit: nat,
    successCount: nat, failureCount: nat, recent429Count: nat, failureClass: string, lastFailureAt: real)

  function FingerprintOf(h: Health): Fingerprint {
    Fingerprint(h.status, h.cooldownUntil, h.rpmLimit, h.tpmLimit, h.successCount, h.totalFailures,
                h.recent429Count, h.failureClass, h.lastFailureAt)
  }

  function RowFingerprint(r: Row): Fingerprint {
    Fingerprint(r.status.GetOr(""), r.cooldownUntil.GetOr(0.0), r.rpmLimit.GetOr(0), r.tpmLimit.GetOr(0),
                r.successCount.GetOr(0), r.failureCount.GetOr(0), r.recent429Count.GetOr(0),
                r.failureClass.GetOr(""), r.lastFailureAt.GetOr(0.0))
  }

  /** The fingerprints of a key and a row are equal exactly when the row says, column by column, what the key says,
      where a NULL stands for nothing learned. */
  lemma FingerprintsAreEqualIff(h: Health, r: Row)
    ensures RowFingerprint(r) == FingerprintOf(h) <==>
      && (r.status == Some(h.status) || (r.status == None && h.status == ""))
      && (r.cooldownUntil == Some(h.cooldownUntil) || (r.cooldownUntil == None && h.cooldownUntil == 0.0))
      && (r.rpmLimit == Some(h.rpmLimit) || (r.rpmLimit == None && h.rpmLimit == 0))
      && (r.tpmLimit == Some(h.tpmLimit) || (r.tpmLimit == None && h.tpmLimit == 0))
      && (r.successCount == Some(h.successCount) || (r.successCount == None && h.successCount == 0))
      && (r.failureCount == Some(h.totalFailures) || (r.failureCount == None && h.totalFailures == 0))
      && (r.recent429Count == Some(h.recent429Count) || (r.recent429Count == None && h.recent429Count == 0))
      && (r.failureClass == Some(h.failureClass) || (r.failureClass == None && h.failureClass == ""))
      && (r.lastFailureAt == Some(h.lastFailureAt) || (r.lastFailureAt == None && h.lastFailureAt == 0.0))
  {
  }

  /** Two keys have one fingerprint exactly when they agree in the nine fields. */
  lemma FingerprintIsFaithful(a: Health, b: Health)
    ensures FingerprintOf(a) == FingerprintOf(b) <==>
      && a.status == b.status && a.cooldownUntil == b.cooldownUntil && a.rpmLimit == b.rpmLimit
      && a.tpmLimit == b.tpmLimit && a.successCount == b.successCount && a.totalFailures == b.totalFailures
      && a.recent429Count == b.recent429Count && a.failureClass == b.failureClass && a.lastFailureAt == b.lastFailureAt
  {
  }

  /** The row a save stores. */
  function RowOf(h: Health): (r: Row)
    ensures RowFingerprint(r) == FingerprintOf(h)
  {
    Row(Some(h.status), Some(h.cooldownUntil), Some(h.rpmLimit), Some(h.tpmLimit), Some(h.successCount),
        Some(h.totalFailures), Some(h.recent429Count), Some(h.failureClass), Some(h.lastFailureAt))
  }

  // ---- What a round does to one key ----

  /** The baseline entry and the stored row of one key. */
  datatype Books = Books(baseline: Option<Fingerprint>, row: Option<Row>)

  predicate Correct(b: Books, h: Health) {
    b.row.Some? && RowFingerprint(b.row.value) == FingerprintOf(h)
  }

  /** Whether the round tries to save a key whose (normalized) health is `h`. */
  predicate Attempts(b: Books, readBack: bool, h: Health) {
    if readBack then !Correct(b, h) else b.baseline != Some(FingerprintOf(h))
  }

  function Visited(b: Books, readBack: bool, h: Health, saves: bool): Books {
    if !Attempts(b, readBack, h) then b.(baseline := Some(FingerprintOf(h)))
    else if saves then Books(Some(FingerprintOf(h)), Some(RowOf(h)))
    else b
  }

  /** Baseline and store as a whole. */
  datatype Store = Store(baseline: map<int, Fingerprint>, rows: map<int, Row>)

  function Look<V>(m: map<int, V>, id: int): Option<V> {
    if id in m then Some(m[id]) else None
  }

  function BooksOf(s: Store, id: int): Books {
    Books(Look(s.baseline, id), Look(s.rows, id))
  }

  /** One round: `keys` gives the normalized health of every key with a positive id, `saves` the keys whose
      save succeeds if it is tried. */
  datatype Round = Round(keys: map<int, Health>, readBack: bool, saves: set<int>)

  ghost predicate IsRound(s: Store, s': Store, r: Round) {
    forall id :: BooksOf(s', id)
      == if id in r.keys then Visited(BooksOf(s, id), r.readBack, r.keys[id], id in r.saves) else BooksOf(s, id)
  }

  // ---- The snapshot in place ----

  ghost predicate DistinctIds(keys: seq<KeyHealth>) {
    forall i, j | 0 <= i < j < |keys| :: keys[i] != keys[j] && (keys[i].keyId > 0 ==> keys[i].keyId != keys[j].keyId)
  }

  /** The i-th key of the pool as the round finds it. */
  datatype Visit = Visit(id: int, health: Health, saves: bool)

  ghost function Visits(keys: seq<KeyHealth>, saveWorks: nat -> bool, now: nat -> real): (v: seq<Visit>)
    reads keys
    ensures |v| == |keys|
    ensures forall i | 0 <= i < |keys| ::
      v[i] == Visit(keys[i].keyId, Normalized(keys[i].State(), now(i)), saveWorks(i))
  {
    seq(|keys|, i requires 0 <= i < |keys| reads keys =>
      Visit(keys[i].keyId, Normalized(keys[i].State(), now(i)), saveWorks(i)))
  }

  /** The round those visits make up; keys without a positive id are left out. */
  function RoundOf(visits: seq<Visit>, readBack: bool): Round {
    if visits == [] then Round(map[], readBack, {})
    else
      var r, v := RoundOf(visits[..|visits| - 1], readBack), visits[|visits| - 1];
      if v.id <= 0 then r else Round(r.keys[v.id := v.health], readBack, if v.saves then r.saves + {v.id} else r.saves)
  }

  lemma {:induction false} RoundHasVisitedKeys(visits: seq<Visit>, readBack: bool)
    ensures var r := RoundOf(visits, readBack);
      && r.readBack == readBack
      && (forall id | id in r.keys || id in r.saves :: exists j :: 0 <= j < |visits| && visits[j].id == id > 0)
  {
    if visits != [] {
      var front := visits[..|visits| - 1];
      RoundHasVisitedKeys(front, readBack);
      assert forall j | 0 <= j < |front| :: front[j] == visits[j];
    }
  }

  /** A round does to every key with a positive id what its visit says, and touches no other. */
  lemma {:induction false} RoundIsItsVisits(visits: seq<Visit>, readBack: bool, i: nat)
    requires i < |visits|
    requires forall j, k | 0 <= j < k < |visits| && visits[j].id > 0 :: visits[j].id != visits[k].id
    ensures var (r, v) := (RoundOf(visits, readBack), visits[i]);
      && (v.id in r.keys <==> v.id > 0)
      && (v.id > 0 ==> r.keys[v.id] == v.health && (v.id in r.saves <==> v.saves))
  {
    var front, last := visits[..|visits| - 1], visits[|visits| - 1];
    RoundHasVisitedKeys(front, readBack);
    if i < |front| {
      assert front[i] == visits[i];
      RoundIsItsVisits(front, readBack, i);
    }
  }

  lemma NotVisitedBefore(visits: seq<Visit>, i: nat, readBack: bool)
    requires i < |visits| && forall j | 0 <= j < i :: visits[j].id != visits[i].id
    ensures var r := RoundOf(visits[..i], readBack); visits[i].id !in r.keys && visits[i].id !in r.saves
  {
    RoundHasVisitedKeys(visits[..i], readBack);
  }

  /** The books of a key stay as they are until it is visited. */
  lemma NotVisitedBooks(s: Store, mid: Store, visits: seq<Visit>, i: nat, readBack: bool)
    requires i < |visits| && forall j | 0 <= j < i :: visits[j].id != visits[i].id
    requires IsRound(s, mid, RoundOf(visits[..i], readBack))
    ensures BooksOf(mid, visits[i].id) == BooksOf(s, visits[i].id)
  {
    NotVisitedBefore(visits, i, readBack);
  }

  ghost predicate IsVisit(s: Store, s': Store, readBack: bool, v: Visit) {
    && BooksOf(s', v.id) == Visited(BooksOf(s, v.id), readBack, v.health, v.saves)
    && forall id | id != v.id :: BooksOf(s', id) == BooksOf(s, id)
  }

  lemma RoundExtends(s: Store, mid: Store, s': Store, visits: seq<Visit>, i: nat, readBack: bool)
    requires i < |visits| && visits[i].id > 0
    requires forall j | 0 <= j < i :: visits[j].id != visits[i].id
    requires IsRound(s, mid, RoundOf(visits[..i], readBack))
    requires IsVisit(mid, s', readBack, visits[i])
    ensures IsRound(s, s', RoundOf(visits[..i + 1], readBack))
  {
    assert visits[..i + 1][..i] == visits[..i];
    NotVisitedBefore(visits, i, readBack);
    RoundHasVisitedKeys(visits[..i], readBack);
    var r, r' := RoundOf(visits[..i], readBack), RoundOf(visits[..i + 1], readBack);
    forall id
      ensures BooksOf(s', id)
           == if id in r'.keys then Visited(BooksOf(s, id), r'.readBack, r'.keys[id], id in r'.saves) else BooksOf(s, id)
    {
      assert BooksOf(mid, id)
          == if id in r.keys then Visited(BooksOf(s, id), r.readBack, r.keys[id], id in r.saves) else BooksOf(s, id);
    }
  }

  lemma SkippedVisit(visits: seq<Visit>, i: nat, readBack: bool)
    requires i < |visits| && visits[i].id <= 0
    ensures RoundOf(visits[..i + 1], readBack) == RoundOf(visits[..i], readBack)
  {
    assert visits[..i + 1][..i] == visits[..i];
  }

  /** Whether the visit writes a row, the round having started with the books `s`. */
  predicate Writes(s: Store, v: Visit, readBack: bool) {
    v.id > 0 && v.saves && Attempts(BooksOf(s, v.id), readBack, v.health)
  }

  function CountWrites(s: Store, visits: seq<Visit>, readBack: bool): nat {
    if visits == [] then 0
    else CountWrites(s, visits[..|visits| - 1], readBack) + if Writes(s, visits[|visits| - 1], readBack) then 1 else 0
  }

  /** The number of rows written is the number of visits that write one. */
  lemma {:induction false} WritesAreCounted(s: Store, visits: seq<Visit>, readBack: bool)
    ensures CountWrites(s, visits, readBack) == |WritesIn(s, visits, readBack)|
  {
    if visits != [] {
      var n := |visits| - 1;
      WritesAreCounted(s, visits[..n], readBack);
      var one := if Writes(s, visits[n], readBack) then {n} else {};
      assert WritesIn(s, visits, readBack) == WritesIn(s, visits[..n], readBack) + one;
    }
  }

  function WritesIn(s: Store, visits: seq<Visit>, readBack: bool): set<int> {
    set i | 0 <= i < |visits| && Writes(s, visits[i], readBack)
  }

  lemma OneMoreWrite(s: Store, visits: seq<Visit>, i: nat, readBack: bool)
    requires i < |visits|
    ensures CountWrites(s, visits[..i + 1], readBack)
         == CountWrites(s, visits[..i], readBack) + if Writes(s, visits[i], readBack) then 1 else 0
  {
    assert visits[..i + 1][..i] == visits[..i];
  }

  /** A round that started with the books `s` has made these visits, with `written` rows written. */
  ghost predicate Visiting(s: Store, s': Store, visits: seq<Visit>, readBack: bool, written: nat) {
    IsRound(s, s', RoundOf(visits, readBack)) && written == CountWrites(s, visits, readBack)
  }

  /** The health of a key after the round. */
  function After(keyId: int, h: Health, now: real): Health {
    if keyId > 0 then Normalized(h, now) else h
  }

  class HealthSnapshot {
    var baseline: map<int, Fingerprint>
    var rows: map<int, Row>  // the table of the store

    constructor (rows: map<int, Row>)
      ensures baseline == map[] && this.rows == rows
    {
      baseline := map[];
      this.rows := rows;
    }

    function State(): Store
      reads this
    {
      Store(baseline, rows)
    }

    /** One round over the pool.  `readable` says whether reading the table back works, `saveWorks` whether
        the save of the i-th key does, and `now` is the clock when the i-th key is looked at. */
    method SnapshotOnce(keys: seq<KeyHealth>, forceFull: bool, readable: bool, saveWorks: nat -> bool, now: nat -> real)
      returns (written: nat)
      requires DistinctIds(keys)
      modifies this, keys
      ensures IsRound(old(State()), State(),
                      RoundOf(old(Visits(keys, saveWorks, now)), (forceFull || old(baseline) == map[]) && readable))
      ensures forall i | 0 <= i < |keys| ::
        keys[i].State() == if keys[i].keyId > 0 then Normalized(old(keys[i].State()), now(i)) else old(keys[i].State())
      ensures written == CountWrites(old(State()), old(Visits(keys, saveWorks, now)),
                                     (forceFull || old(baseline) == map[]) && readable)
    {
      var reconcile := forceFull || baseline == map[];
      var truth: Option<map<int, Row>> := None;
      if reconcile && readable {
        truth := Some(rows);
      }
      ghost var states := seq(|keys|, i requires 0 <= i < |keys| reads keys => keys[i].State());
      written := VisitAll(keys, truth, saveWorks, now, State(), Visits(keys, saveWorks, now), states);
    }

    /** The loop of a round that starts with the books `before` and the keys in the given states. */
    method VisitAll(keys: seq<KeyHealth>, truth: Option<map<int, Row>>, saveWorks: nat -> bool, now: nat -> real,
                    ghost before: Store, ghost visits: seq<Visit>, ghost states: seq<Health>) returns (written: nat)
      requires DistinctIds(keys) && |visits| == |states| == |keys|
      requires forall i | 0 <= i < |keys| :: states[i] == keys[i].State()
      requires forall i | 0 <= i < |keys| :: visits[i] == Visit(keys[i].keyId, Normalized(states[i], now(i)), saveWorks(i))
      requires before == State() && (truth.Some? ==> truth.value == rows)
      modifies this, keys
      ensures Visiting(before, State(), visits, truth.Some?, written)
      ensures forall i | 0 <= i < |keys| :: keys[i].State() == After(keys[i].keyId, states[i], now(i))
    {
      written := 0;
      for i := 0 to |keys|
        invariant truth.Some? ==> truth.value == before.rows
        invariant Visiting(before, State(), visits[..i], truth.Some?, written)
        invariant forall j | 0 <= j < i :: keys[j].State() == After(keys[j].keyId, states[j], now(j))
        invariant forall j | i <= j < |keys| :: keys[j].State() == states[j]
      {
        assert forall j | 0 <= j < |keys| && j != i :: keys[j] != keys[i];
        var saved := VisitNth(keys, i, truth, saveWorks(i), now(i), before, visits, written);
        written := written + if saved then 1 else 0;
      }
      assert visits[..|keys|] == visits;
    }

    /** The i-th step of a round that started with the books `before`. */
    method VisitNth(keys: seq<KeyHealth>, i: nat, truth: Option<map<int, Row>>, saveWorks: bool, now: real,
                    ghost before: Store, ghost visits: seq<Visit>, ghost written: nat) returns (saved: bool)
      requires DistinctIds(keys) && i < |keys| == |visits|
      requires forall j | 0 <= j < |keys| :: visits[j].id == keys[j].keyId
      requires visits[i] == Visit(keys[i].keyId, Normalized(keys[i].State(), now), saveWorks)
      requires truth.Some? ==> truth.value == before.rows
      requires Visiting(before, State(), visits[..i], truth.Some?, written)
      modifies this, keys[i]
      ensures keys[i].State() == After(keys[i].keyId, old(keys[i].State()), now)
      ensures Visiting(before, State(), visits[..i + 1], truth.Some?, written + if saved then 1 else 0)
    {
      var k := keys[i];
      OneMoreWrite(before, visits, i, truth.Some?);
      if k.keyId <= 0 {
        SkippedVisit(visits, i, truth.Some?);
        return false;
      }
      ghost var mid := State();
      NotVisitedBooks(before, mid, visits, i, truth.Some?);
      saved := VisitKey(k, truth, saveWorks, now);
      RoundExtends(before, mid, State(), visits, i, truth.Some?);
    }

    /** Compares one key with the truth, or with the baseline without one, and saves it when it differs. */
    method VisitKey(k: KeyHealth, truth: Option<map<int, Row>>, saveWorks: bool, now: real) returns (saved: bool)
      requires truth.Some? ==> Look(truth.value, k.keyId) == Look(rows, k.keyId)
      modifies this, k
      ensures k.State() == Normalized(old(k.State()), now)
      ensures IsVisit(old(State()), State(), truth.Some?, Visit(k.keyId, k.State(), saveWorks))
      ensures saved <==> saveWorks && Attempts(old(BooksOf(State(), k.keyId)), truth.Some?, k.State())
      ensures saved ==> k.keyId in rows
      ensures saved ==>
        var row := rows[k.keyId];
        && row.status == Some(k.status) && row.cooldownUntil == Some(k.cooldownUntil)
        && row.rpmLimit == Some(k.rpmLimit) && row.tpmLimit == Some(k.tpmLimit)
        && row.successCount == Some(k.successCount) && row.failureCount == Some(k.totalFailures)
        && row.recent429Count == Some(k.recent429Count) && row.failureClass == Some(k.failureClass)
        && row.lastFailureAt == Some(k.lastFailureAt)
      ensures !saved ==> rows == old(rows)
    {
      var changed := k.NormalizeExpiredCooldown(now);
      var fp := FingerprintOf(k.State());
      if truth.Some? {
        if k.keyId in truth.value && RowFingerprint(truth.value[k.keyId]) == fp {
          baseline := baseline[k.keyId := fp];
          return false;
        }
      } else if k.keyId in baseline && baseline[k.keyId] == fp {
        return false;
      }
      if !saveWorks {
        return false;
      }
      rows := rows[k.keyId := RowOf(k.State())];
      baseline := baseline[k.keyId := fp];
      saved := true;
    }
  }

  // ---- Agreement of baseline and store ----

  predicate Agrees(b: Books) {
    b.baseline.Some? ==> b.row.Some? && RowFingerprint(b.row.value) == b.baseline.value
  }

  ghost predicate InSync(s: Store) {
    forall id :: Agrees(BooksOf(s, id))
  }

  /** Every baseline entry equals the stored fingerprint, after every round that starts that way. */
  lemma RoundKeepsSync(s: Store, s': Store, r: Round)
    requires IsRound(s, s', r) && InSync(s)
    ensures InSync(s')
  {
    forall id
      ensures Agrees(BooksOf(s', id))
    {
      assert Agrees(BooksOf(s, id));
    }
  }

  /** A reconciling round repairs whatever outside writers did, with one exception: the books of a key agree
      afterwards exactly when they agreed before, or the key was visited and its row was already right or
      could be saved. */
  lemma ReadBackRestoresSync(s: Store, s': Store, r: Round, id: int)
    requires IsRound(s, s', r) && r.readBack
    ensures Agrees(BooksOf(s', id)) <==>
      (Agrees(BooksOf(s, id)) || (id in r.keys && (Correct(BooksOf(s, id), r.keys[id]) || id in r.saves)))
  {
    assert BooksOf(s', id)
        == if id in r.keys then Visited(BooksOf(s, id), r.readBack, r.keys[id], id in r.saves) else BooksOf(s, id);
  }

  /** After a round that starts in sync, or reads back, a key whose save did not fail has the row a full
      rewrite would store, and a key whose save failed has the row it had. */
  lemma RoundStoresHealth(s: Store, s': Store, r: Round, id: int)
    requires IsRound(s, s', r) && (InSync(s) || r.readBack) && id in r.keys
    ensures id in r.saves ==> id in s'.rows && RowFingerprint(s'.rows[id]) == FingerprintOf(r.keys[id])
    ensures id !in r.saves ==> Look(s'.rows, id) == Look(s.rows, id)
  {
    assert Agrees(BooksOf(s, id)) || r.readBack;
    assert BooksOf(s', id) == Visited(BooksOf(s, id), r.readBack, r.keys[id], id in r.saves);
  }

  /** What a round has settled, by finding it right or by saving it, the next round leaves alone, whether that one
      reads back or not. */
  lemma SettledKeyIsLeftAlone(s: Store, s': Store, r: Round, id: int, readBack: bool)
    requires IsRound(s, s', r) && (InSync(s) || r.readBack) && id in r.keys
    requires id in r.saves || !Attempts(BooksOf(s, id), r.readBack, r.keys[id])
    ensures !Attempts(BooksOf(s', id), readBack, r.keys[id])
  {
    assert Agrees(BooksOf(s, id)) || r.readBack;
    assert BooksOf(s', id) == Visited(BooksOf(s, id), r.readBack, r.keys[id], id in r.saves);
  }

  /** A key whose save failed is tried again by the next round. */
  lemma FailedKeyIsTriedAgain(s: Store, s': Store, r: Round, id: int)
    requires IsRound(s, s', r) && id in r.keys && id !in r.saves
    requires Attempts(BooksOf(s, id), r.readBack, r.keys[id])
    ensures Attempts(BooksOf(s', id), r.readBack, r.keys[id])
  {
    assert BooksOf(s', id) == Visited(BooksOf(s, id), r.readBack, r.keys[id], id in r.saves);
  }

  /** A row that is already right is written again exactly when there was no read-back and the baseline has
      no entry for the key. */
  lemma CorrectRowIsRewrittenIff(s: Store, r: Round, id: int)
    requires InSync(s) && id in r.keys && Correct(BooksOf(s, id), r.keys[id])
    ensures Attempts(BooksOf(s, id), r.readBack, r.keys[id]) <==> !r.readBack && id !in s.baseline
  {
    assert Agrees(BooksOf(s, id));
  }

  /** So a non-empty baseline does not suffice: a key that joined the pool since is rewritten once. */
  lemma NewcomerIsRewritten(h: Health, s: Store, r: Round)
    requires s == Store(map[1 := FingerprintOf(h)], map[1 := RowOf(h), 2 := RowOf(h)])
    requires r == Round(map[1 := h, 2 := h], false, {1, 2})
    ensures InSync(s) && s.baseline != map[]
    ensures Correct(BooksOf(s, 2), h) && Attempts(BooksOf(s, 2), r.readBack, h)
  {
    assert 1 in s.baseline;
  }

  // ---- Refinement of the unconditional rewrite ----

  /** The table after a round that saves every key it can, whatever is stored. */
  function FullRewrite(rows: map<int, Row>, r: Round): map<int, Row> {
    rows + map id | id in r.keys && id in r.saves :: RowOf(r.keys[id])
  }

  function Fingerprints(rows: map<int, Row>): map<int, Fingerprint> {
    map id | id in rows :: RowFingerprint(rows[id])
  }

  lemma RoundRefinesFullRewrite(s: Store, s': Store, r: Round, full: map<int, Row>)
    requires IsRound(s, s', r) && (InSync(s) || r.readBack)
    requires Fingerprints(s.rows) == Fingerprints(full)
    ensures Fingerprints(s'.rows) == Fingerprints(FullRewrite(full, r))
  {
    var full' := FullRewrite(full, r);
    forall id
      ensures id in s'.rows <==> id in full'
      ensures id in s'.rows ==> RowFingerprint(s'.rows[id]) == RowFingerprint(full'[id])
    {
      assert id in s.rows <==> id in Fingerprints(full);
      assert id in s.rows ==> Fingerprints(s.rows)[id] == Fingerprints(full)[id];
      assert BooksOf(s', id)
          == if id in r.keys then Visited(BooksOf(s, id), r.readBack, r.keys[id], id in r.saves) else BooksOf(s, id);
      if id in r.keys {
        RoundStoresHealth(s, s', r, id);
      }
    }
  }

  ghost predicate IsRun(states: seq<Store>, rounds: seq<Round>) {
    && |states| == |rounds| + 1
    && forall i | 0 <= i < |rounds| :: IsRound(states[i], states[i + 1], rounds[i])
  }

  function FullRewrites(rows: map<int, Row>, rounds: seq<Round>): map<int, Row> {
    if rounds == [] then rows else FullRewrite(FullRewrites(rows, rounds[..|rounds| - 1]), rounds[|rounds| - 1])
  }

  /** With no other writer, after any number of rounds and whichever saves failed, the table holds the same
      fingerprints as if every round had rewritten every key. */
  lemma {:induction false} RunRefinesFullRewrites(states: seq<Store>, rounds: seq<Round>)
    requires IsRun(states, rounds) && states[0].baseline == map[]
    ensures InSync(states[|rounds|])
    ensures Fingerprints(states[|rounds|].rows) == Fingerprints(FullRewrites(states[0].rows, rounds))
  {
    if rounds != [] {
      var n := |rounds| - 1;
      assert IsRun(states[..n + 1], rounds[..n]) by {
        forall i | 0 <= i < n
          ensures IsRound(states[..n + 1][i], states[..n + 1][i + 1], rounds[..n][i])
        {
          assert IsRound(states[i], states[i + 1], rounds[i]);
        }
      }
      RunRefinesFullRewrites(states[..n + 1], rounds[..n]);
      assert IsRound(states[n], states[n + 1], rounds[n]);
      RoundKeepsSync(states[n], states[n + 1], rounds[n]);
      RoundRefinesFullRewrite(states[n], states[n + 1], rounds[n], FullRewrites(states[0].rows, rounds[..n]));
    }
  }
}
