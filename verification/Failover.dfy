/** Choosing the next upstream key: the score-driven `pick_key`, the strict member-order failover on top
    of it, the stable member order of a group, and the selection rule of the streaming retry loop. */
module Failover {
  import opened Wrappers

  datatype Key = Key(keyId: int, modelId: int)

  /** One evaluation of the health score, -1.0 for a key that is not available.  The real score has a
      random term, so every call of `pick_key` gets a score of its own. */
  type Score = Key -> real

  predicate Available(score: Score, k: Key) {
    score(k) > -1.0
  }

  predicate Distinct(keys: seq<Key>) {
    forall i, j | 0 <= i < j < |keys| :: keys[i].keyId != keys[j].keyId
  }

  // ---- pick_key ----

  /** What `pick_key` promises: an available key of the pool with the highest score, or nothing when the
      pool has no available key. */
  predicate IsPick(pool: seq<Key>, score: Score, best: Option<Key>) {
    match best
    case None => forall k | k in pool :: !Available(score, k)
    case Some(b) => b in pool && Available(score, b) && forall k | k in pool :: score(k) <= score(b)
  }

  function Pick(pool: seq<Key>, score: Score): (best: Option<Key>)
    ensures IsPick(pool, score, best)
  {
    if pool == [] then None
    else
      var best := Pick(pool[..|pool| - 1], score);
      var k := pool[|pool| - 1];
      var bestScore := match best { case None => -1.0 case Some(b) => score(b) };
      assert pool == pool[..|pool| - 1] + [k];
      if score(k) > bestScore then Some(k) else best
  }

  /** Of several keys with the highest score it is the first. */
  lemma {:induction false} PickIsFirstBest(pool: seq<Key>, score: Score, i: nat)
    requires i < |pool| && Available(score, pool[i])
    requires forall k | k in pool :: score(k) <= score(pool[i])
    requires forall j | 0 <= j < i :: score(pool[j]) < score(pool[i])
    ensures Pick(pool, score) == Some(pool[i])
  {
    var front := pool[..|pool| - 1];
    assert pool == front + [pool[|pool| - 1]];
    if i < |front| {
      assert front[i] == pool[i];
      PickIsFirstBest(front, score, i);
    } else {
      assert forall k | k in front :: score(k) < score(pool[i]);
    }
  }

  method PickKey(keys: seq<Key>, score: Score) returns (best: Option<Key>)
    ensures best == Pick(keys, score)
    ensures IsPick(keys, score, best)
  {
    best := None;
    var bestScore := -1.0;
    for i := 0 to |keys|
      invariant best == Pick(keys[..i], score)
      invariant bestScore == match best { case None => -1.0 case Some(b) => score(b) }
    {
      assert keys[..i + 1][..i] == keys[..i];
      if score(keys[i]) > bestScore {
        best, bestScore := Some(keys[i]), score(keys[i]);
      }
    }
    assert keys[..|keys|] == keys;
  }

  // ---- Untried candidates ----

  function Untried(candidates: seq<Key>, tried: set<int>): (pool: seq<Key>)
    ensures forall k :: k in pool <==> k in candidates && k.keyId !in tried
    ensures |pool| <= |candidates|
  {
    if candidates == [] then []
    else (if candidates[0].keyId in tried then [] else [candidates[0]]) + Untried(candidates[1..], tried)
  }

  function OfMember(candidates: seq<Key>, tried: set<int>, member: int): (pool: seq<Key>)
    ensures forall k :: k in pool <==> k in candidates && k.modelId == member && k.keyId !in tried
  {
    if candidates == [] then []
    else (if candidates[0].modelId == member && candidates[0].keyId !in tried then [candidates[0]] else [])
         + OfMember(candidates[1..], tried, member)
  }

  // ---- Strict member-order failover ----

  function NextFailoverKey(candidates: seq<Key>, tried: set<int>, order: seq<int>, score: Score): Option<Key> {
    if order == [] then None
    else
      var pool := OfMember(candidates, tried, order[0]);
      if pool != [] then Pick(pool, score) else NextFailoverKey(candidates, tried, order[1..], score)
  }

  ghost predicate Exhausted(candidates: seq<Key>, tried: set<int>, member: int) {
    forall k | k in candidates && k.modelId == member :: k.keyId in tried
  }

  /** Member number `tier` is the first of `order` that still has an untried candidate. */
  ghost predicate CurrentTier(candidates: seq<Key>, tried: set<int>, order: seq<int>, tier: nat) {
    && tier < |order|
    && !Exhausted(candidates, tried, order[tier])
    && forall i | 0 <= i < tier :: Exhausted(candidates, tried, order[i])
  }

  /** The number of members, from the front of `order`, that have no untried candidate left. */
  function Tier(candidates: seq<Key>, tried: set<int>, order: seq<int>): (tier: nat)
    ensures tier <= |order|
  {
    if order == [] || OfMember(candidates, tried, order[0]) != [] then 0
    else 1 + Tier(candidates, tried, order[1..])
  }

  lemma {:induction false} TierIsFirstUnexhausted(candidates: seq<Key>, tried: set<int>, order: seq<int>)
    ensures var tier := Tier(candidates, tried, order);
      && (forall i | 0 <= i < tier :: OfMember(candidates, tried, order[i]) == [])
      && (tier < |order| ==> OfMember(candidates, tried, order[tier]) != [])
  {
    if order != [] && OfMember(candidates, tried, order[0]) == [] {
      TierIsFirstUnexhausted(candidates, tried, order[1..]);
    }
  }

  lemma {:induction false} NextKeyOfTier(candidates: seq<Key>, tried: set<int>, order: seq<int>, score: Score)
    ensures var tier := Tier(candidates, tried, order);
      NextFailoverKey(candidates, tried, order, score)
        == if tier == |order| then None else Pick(OfMember(candidates, tried, order[tier]), score)
  {
    if order != [] {
      NextKeyOfTier(candidates, tried, order[1..], score);
    }
  }

  lemma EmptyPoolIsExhausted(candidates: seq<Key>, tried: set<int>, member: int)
    ensures OfMember(candidates, tried, member) == [] <==> Exhausted(candidates, tried, member)
  {
    var pool := OfMember(candidates, tried, member);
    if pool != [] {
      assert pool[0] in pool;
    } else {
      forall k | k in candidates && k.modelId == member
        ensures k.keyId in tried
      {
        assert k !in pool;
      }
    }
  }

  /** Everything a caller can rely on: with no untried candidate left there is no key, and otherwise the
      answer is the pick of the first tier that still has an untried candidate. */
  lemma NextKeyIsPickOfCurrentTier(candidates: seq<Key>, tried: set<int>, order: seq<int>, score: Score)
    returns (tier: nat)
    ensures tier <= |order|
    ensures forall i | 0 <= i < tier :: Exhausted(candidates, tried, order[i])
    ensures tier == |order| ==> NextFailoverKey(candidates, tried, order, score) == None
    ensures tier < |order| ==>
      && CurrentTier(candidates, tried, order, tier)
      && NextFailoverKey(candidates, tried, order, score) == Pick(OfMember(candidates, tried, order[tier]), score)
  {
    tier := Tier(candidates, tried, order);
    TierIsFirstUnexhausted(candidates, tried, order);
    NextKeyOfTier(candidates, tried, order, score);
    forall i | 0 <= i < |order|
      ensures OfMember(candidates, tried, order[i]) == [] <==> Exhausted(candidates, tried, order[i])
    {
      EmptyPoolIsExhausted(candidates, tried, order[i]);
    }
  }

  /** No key comes back exactly when every listed member is used up, or when the first member that is
      not has no available untried key.  In the second case the search stops although a later member may
      have available keys: it does not spill over to the next member. */
  lemma NoKeyExactlyWhen(candidates: seq<Key>, tried: set<int>, order: seq<int>, score: Score)
    ensures NextFailoverKey(candidates, tried, order, score) == None <==>
      || (forall i | 0 <= i < |order| :: Exhausted(candidates, tried, order[i]))
      || (exists tier: nat :: CurrentTier(candidates, tried, order, tier)
           && forall k | k in candidates && k.modelId == order[tier] && k.keyId !in tried :: !Available(score, k))
  {
    var tier := NextKeyIsPickOfCurrentTier(candidates, tried, order, score);
    if tier < |order| {
      forall other: nat | CurrentTier(candidates, tried, order, other)
        ensures other == tier
      {
      }
      var pool := OfMember(candidates, tried, order[tier]);
      assert IsPick(pool, score, Pick(pool, score));
    }
  }

  /** An instance: the primary's one key is cooling, the backup's is fine, and no key is returned. */
  lemma CoolingPrimaryHidesBackup(score: Score)
    requires score(Key(1, 10)) == -1.0 && score(Key(2, 20)) == 0.8
    ensures NextFailoverKey([Key(1, 10), Key(2, 20)], {}, [10, 20], score) == None
  {
    var candidates := [Key(1, 10), Key(2, 20)];
    assert OfMember(candidates, {}, 10) == [Key(1, 10)] by {
      assert candidates[1..] == [Key(2, 20)];
    }
  }

  // ---- A whole request: the same `tried` threaded through every selection ----

  function CandidateIds(candidates: seq<Key>): (ids: set<int>)
    ensures forall k | k in candidates :: k.keyId in ids
    ensures forall id | id in ids :: exists k :: k in candidates && k.keyId == id
  {
    set k | k in candidates :: k.keyId
  }

  lemma NextKeyIsUntried(candidates: seq<Key>, tried: set<int>, order: seq<int>, score: Score)
    requires NextFailoverKey(candidates, tried, order, score).Some?
    ensures var k := NextFailoverKey(candidates, tried, order, score).value;
      k in candidates && k.keyId !in tried && k.modelId in order && Available(score, k)
  {
    var tier := NextKeyIsPickOfCurrentTier(candidates, tried, order, score);
  }

  /** The keys handed out when the caller marks each one as tried and asks again; the n-th question is
      answered under the n-th score. */
  function Visits(candidates: seq<Key>, tried: set<int>, order: seq<int>, scores: nat -> Score, n: nat): seq<Key>
    decreases |CandidateIds(candidates) - tried|
  {
    var next := NextFailoverKey(candidates, tried, order, scores(n));
    if next == None then []
    else
      NextKeyIsUntried(candidates, tried, order, scores(n));
      ShrinksBy(CandidateIds(candidates), tried, next.value.keyId);
      [next.value] + Visits(candidates, tried + {next.value.keyId}, order, scores, n + 1)
  }

  lemma ShrinksBy(ids: set<int>, tried: set<int>, id: int)
    requires id in ids && id !in tried
    ensures |ids - (tried + {id})| < |ids - tried|
  {
    assert ids - (tried + {id}) == (ids - tried) - {id};
  }

  function IdsOf(keys: seq<Key>): set<int> {
    set k | k in keys :: k.keyId
  }

  /** No key is ever handed out twice, and none of those already tried. */
  lemma {:induction false} VisitsNeverRepeat(candidates: seq<Key>, tried: set<int>, order: seq<int>,
                                             scores: nat -> Score, n: nat)
    ensures var v := Visits(candidates, tried, order, scores, n);
      && Distinct(v)
      && (forall k | k in v :: k in candidates && k.modelId in order && k.keyId !in tried)
    decreases |CandidateIds(candidates) - tried|
  {
    var next := NextFailoverKey(candidates, tried, order, scores(n));
    if next.Some? {
      NextKeyIsUntried(candidates, tried, order, scores(n));
      ShrinksBy(CandidateIds(candidates), tried, next.value.keyId);
      VisitsNeverRepeat(candidates, tried + {next.value.keyId}, order, scores, n + 1);
      DistinctCons(next.value, Visits(candidates, tried + {next.value.keyId}, order, scores, n + 1));
    }
  }

  lemma DistinctCons(k: Key, rest: seq<Key>)
    requires Distinct(rest) && forall r | r in rest :: r.keyId != k.keyId
    ensures Distinct([k] + rest)
  {
  }

  /** A key of a member is handed out only after every candidate of every earlier member was. */
  lemma {:induction false} VisitsDrainTiersInOrder(candidates: seq<Key>, tried: set<int>, order: seq<int>,
                                                   scores: nat -> Score, n: nat, i: nat, earlier: nat, later: nat)
    requires i < |Visits(candidates, tried, order, scores, n)|
    requires earlier < later < |order|
    requires Visits(candidates, tried, order, scores, n)[i].modelId == order[later]
    requires order[later] !in order[..later]
    ensures Exhausted(candidates, tried + IdsOf(Visits(candidates, tried, order, scores, n)[..i]), order[earlier])
    decreases |CandidateIds(candidates) - tried|
  {
    var v := Visits(candidates, tried, order, scores, n);
    NextKeyIsUntried(candidates, tried, order, scores(n));
    if i == 0 {
      assert tried + IdsOf(v[..0]) == tried;
      FirstVisitIsInCurrentTier(candidates, tried, order, scores(n), earlier, later);
    } else {
      var mine, rest := tried + {v[0].keyId}, v[1..];
      ShrinksBy(CandidateIds(candidates), tried, v[0].keyId);
      VisitsDrainTiersInOrder(candidates, mine, order, scores, n + 1, i - 1, earlier, later);
      IdsOfPrefix(v, i, tried);
    }
  }

  lemma IdsOfPrefix(v: seq<Key>, i: nat, tried: set<int>)
    requires 0 < i <= |v|
    ensures tried + IdsOf(v[..i]) == tried + {v[0].keyId} + IdsOf(v[1..][..i - 1])
  {
    IdsOfCons(v[0], v[1..][..i - 1]);
    assert v[..i] == [v[0]] + v[1..][..i - 1];
  }

  lemma IdsOfCons(k: Key, rest: seq<Key>)
    ensures IdsOf([k] + rest) == {k.keyId} + IdsOf(rest)
  {
    assert k in [k] + rest;
    forall r | r in rest
      ensures r in [k] + rest
    {
    }
  }

  lemma FirstVisitIsInCurrentTier(candidates: seq<Key>, tried: set<int>, order: seq<int>, score: Score,
                                  earlier: nat, later: nat)
    requires earlier < later < |order| && order[later] !in order[..later]
    requires NextFailoverKey(candidates, tried, order, score).Some?
    requires NextFailoverKey(candidates, tried, order, score).value.modelId == order[later]
    ensures Exhausted(candidates, tried, order[earlier])
  {
    var tier := NextKeyIsPickOfCurrentTier(candidates, tried, order, score);
    FirstOccurrence(order, later, tier);
  }

  lemma FirstOccurrence(order: seq<int>, later: nat, tier: nat)
    requires later < |order| && tier < |order| && order[tier] == order[later]
    requires order[later] !in order[..later]
    ensures later <= tier
  {
  }

  ghost predicate AlwaysAvailable(candidates: seq<Key>, scores: nat -> Score) {
    forall n: nat, k | k in candidates :: Available(scores(n), k)
  }

  /** When no candidate is ever unavailable, the search hands out the untried candidates of the listed
      members, all of them, before it gives up (and by `VisitsNeverRepeat` each of them once). */
  lemma {:induction false} VisitsEveryListedCandidate(candidates: seq<Key>, tried: set<int>, order: seq<int>,
                                                      scores: nat -> Score, n: nat, k: Key)
    requires AlwaysAvailable(candidates, scores)
    ensures k.keyId in IdsOf(Visits(candidates, tried, order, scores, n)) || k.keyId in tried
         || k !in candidates || k.modelId !in order
    decreases |CandidateIds(candidates) - tried|
  {
    var next := NextFailoverKey(candidates, tried, order, scores(n));
    if next == None {
      NoKeyExactlyWhen(candidates, tried, order, scores(n));
    } else {
      NextKeyIsUntried(candidates, tried, order, scores(n));
      ShrinksBy(CandidateIds(candidates), tried, next.value.keyId);
      VisitsEveryListedCandidate(candidates, tried + {next.value.keyId}, order, scores, n + 1, k);
      var rest := Visits(candidates, tried + {next.value.keyId}, order, scores, n + 1);
      if k.keyId in IdsOf(rest) {
        var r :| r in rest && r.keyId == k.keyId;
        assert r in [next.value] + rest;
      } else if k.keyId == next.value.keyId {
        assert next.value in [next.value] + rest;
      }
    }
  }

  // ---- The retry loop's selection rule ----

  /** The routed key first, then failover order when the request names a failover group, otherwise the
      best untried candidate. */
  function SelectRetryKey(routed: Option<Key>, candidates: seq<Key>, tried: set<int>,
                          order: Option<seq<int>>, score: Score): (choice: Option<Key>)
    ensures choice.Some? ==> choice.value.keyId !in tried
    ensures choice.Some? ==> choice == routed || choice.value in candidates
    ensures routed.Some? && routed.value.keyId !in tried ==> choice == routed
    ensures (routed.None? || routed.value.keyId in tried) && order.Some? ==>
      choice == NextFailoverKey(candidates, tried, order.value, score)
    ensures (routed.None? || routed.value.keyId in tried) && order.None? ==>
      match choice
      case None => forall k | k in candidates && k.keyId !in tried :: !Available(score, k)
      case Some(c) => Available(score, c) && forall k | k in candidates && k.keyId !in tried :: score(k) <= score(c)
  {
    if routed.Some? && routed.value.keyId !in tried then routed
    else if order.Some? then
      var next := NextFailoverKey(candidates, tried, order.value, score);
      if next.Some? then
        NextKeyIsUntried(candidates, tried, order.value, score);
        next
      else None
    else Pick(Untried(candidates, tried), score)
  }

  // ---- The member order of a group ----

  /** A member as configured: a bare model id, or a record whose fields may be missing. */
  datatype RawMember = Id(modelId: int) | Record(model: Option<int>, ord: Option<int>)

  datatype Ranked = Ranked(ord: int, modelId: int)

  function Rank(m: RawMember): Option<Ranked> {
    match m
    case Id(mid) => Some(Ranked(0, mid))
    case Record(None, _) => None
    case Record(Some(mid), ord) => Some(Ranked(ord.GetOr(0), mid))
  }

  function RankAll(raw: seq<RawMember>): seq<Ranked> {
    if raw == [] then []
    else
      var front := RankAll(raw[..|raw| - 1]);
      match Rank(raw[|raw| - 1])
      case None => front
      case Some(r) => front + [r]
  }

  /** What a member contributes, wherever it stands: a missing id drops it, and a bare id or a missing `ord` counts
      as 0. */
  lemma {:induction false} MemberIsRanked(before: seq<RawMember>, m: RawMember, after: seq<RawMember>)
    ensures var mine := match m
                        case Id(mid) => [Ranked(0, mid)]
                        case Record(None, _) => []
                        case Record(Some(mid), None) => [Ranked(0, mid)]
                        case Record(Some(mid), Some(ord)) => [Ranked(ord, mid)];
      RankAll(before + [m] + after) == RankAll(before) + mine + RankAll(after)
  {
    if after == [] {
      assert before + [m] + after == before + [m] && (before + [m])[..|before|] == before;
    } else {
      var front, last := after[..|after| - 1], after[|after| - 1];
      MemberIsRanked(before, m, front);
      var all := before + [m] + after;
      assert all[..|all| - 1] == before + [m] + front && all[|all| - 1] == last;
    }
  }

  /** Stable sort by `ord`: a later element goes behind every element whose `ord` is not larger. */
  function SortByOrd(pairs: seq<Ranked>): seq<Ranked> {
    if pairs == [] then [] else Insert(SortByOrd(pairs[..|pairs| - 1]), pairs[|pairs| - 1])
  }

  function Insert(sorted: seq<Ranked>, r: Ranked): seq<Ranked> {
    if sorted != [] && sorted[|sorted| - 1].ord > r.ord
    then Insert(sorted[..|sorted| - 1], r) + [sorted[|sorted| - 1]]
    else sorted + [r]
  }

  ghost predicate Ascending(pairs: seq<Ranked>) {
    forall i, j | 0 <= i < j < |pairs| :: pairs[i].ord <= pairs[j].ord
  }

  function WithOrd(pairs: seq<Ranked>, ord: int): seq<Ranked> {
    if pairs == [] then []
    else WithOrd(pairs[..|pairs| - 1], ord) + if pairs[|pairs| - 1].ord == ord then [pairs[|pairs| - 1]] else []
  }

  lemma WithOrdSnoc(pairs: seq<Ranked>, r: Ranked, ord: int)
    ensures WithOrd(pairs + [r], ord) == WithOrd(pairs, ord) + if r.ord == ord then [r] else []
  {
    assert (pairs + [r])[..|pairs|] == pairs;
  }

  lemma {:induction false} InsertKeepsOrder(sorted: seq<Ranked>, r: Ranked)
    requires Ascending(sorted)
    ensures Ascending(Insert(sorted, r))
    ensures forall x | x in Insert(sorted, r) :: x in sorted || x == r
  {
    if sorted != [] && sorted[|sorted| - 1].ord > r.ord {
      var inner := Insert(sorted[..|sorted| - 1], r);
      InsertKeepsOrder(sorted[..|sorted| - 1], r);
      forall i | 0 <= i < |inner|
        ensures inner[i].ord <= sorted[|sorted| - 1].ord
      {
        assert inner[i] in inner;
      }
    }
  }

  lemma {:induction false} InsertKeepsEntries(sorted: seq<Ranked>, r: Ranked, ord: int)
    ensures WithOrd(Insert(sorted, r), ord) == WithOrd(sorted + [r], ord)
  {
    if sorted != [] && sorted[|sorted| - 1].ord > r.ord {
      var front, last := sorted[..|sorted| - 1], sorted[|sorted| - 1];
      InsertKeepsEntries(front, r, ord);
      assert WithOrd(Insert(sorted, r), ord) == WithOrd(front + [r] + [last], ord) by {
        WithOrdSnoc(Insert(front, r), last, ord);
        WithOrdSnoc(front + [r], last, ord);
      }
      SwapUnequal(front, last, r, ord);
      assert sorted == front + [last];
    }
  }

  lemma SwapUnequal(front: seq<Ranked>, a: Ranked, b: Ranked, ord: int)
    requires a.ord != b.ord
    ensures WithOrd(front + [b] + [a], ord) == WithOrd(front + [a] + [b], ord)
  {
    WithOrdSnoc(front, a, ord);
    WithOrdSnoc(front, b, ord);
    WithOrdSnoc(front + [a], b, ord);
    WithOrdSnoc(front + [b], a, ord);
  }

  /** The order is ascending and stable: the entries of every `ord` are those configured, in the
      configured order, none lost and none added. */
  lemma {:induction false} MemberOrderIsStableSort(pairs: seq<Ranked>, ord: int)
    ensures Ascending(SortByOrd(pairs))
    ensures WithOrd(SortByOrd(pairs), ord) == WithOrd(pairs, ord)
  {
    if pairs != [] {
      MemberOrderIsStableSort(pairs[..|pairs| - 1], ord);
      InsertKeepsOrder(SortByOrd(pairs[..|pairs| - 1]), pairs[|pairs| - 1]);
      InsertKeepsEntries(SortByOrd(pairs[..|pairs| - 1]), pairs[|pairs| - 1], ord);
      WithOrdSnoc(SortByOrd(pairs[..|pairs| - 1]), pairs[|pairs| - 1], ord);
    }
  }

  function ModelIds(pairs: seq<Ranked>): (ids: seq<int>)
    ensures |ids| == |pairs| && forall i | 0 <= i < |pairs| :: ids[i] == pairs[i].modelId
  {
    seq(|pairs|, i requires 0 <= i < |pairs| => pairs[i].modelId)
  }

  lemma {:induction false} AmongItsOrd(pairs: seq<Ranked>, r: Ranked)
    ensures r in pairs <==> r in WithOrd(pairs, r.ord)
  {
    if pairs != [] {
      var front, last := pairs[..|pairs| - 1], pairs[|pairs| - 1];
      AmongItsOrd(front, r);
      assert pairs == front + [last];
    }
  }

  /** Sorting loses no member and adds none. */
  lemma SortKeepsMembers(pairs: seq<Ranked>, r: Ranked)
    ensures r in SortByOrd(pairs) <==> r in pairs
  {
    MemberOrderIsStableSort(pairs, r.ord);
    AmongItsOrd(pairs, r);
    AmongItsOrd(SortByOrd(pairs), r);
  }

  lemma OrderNamesMembers(pairs: seq<Ranked>, id: int)
    ensures id in ModelIds(SortByOrd(pairs)) <==> exists r :: r in pairs && r.modelId == id
  {
    var sorted := SortByOrd(pairs);
    if id in ModelIds(sorted) {
      var i :| 0 <= i < |sorted| && ModelIds(sorted)[i] == id;
      SortKeepsMembers(pairs, sorted[i]);
    }
    if r :| r in pairs && r.modelId == id {
      SortKeepsMembers(pairs, r);
      var i :| 0 <= i < |sorted| && sorted[i] == r;
      assert ModelIds(sorted)[i] == id;
    }
  }

  /** The routing entry of one group: its member set and its member order, which name the same ids. */
  method SetGroup(raw: seq<RawMember>) returns (members: set<int>, order: seq<int>)
    ensures order == ModelIds(SortByOrd(RankAll(raw)))
    ensures members == set r | r in RankAll(raw) :: r.modelId
    ensures members == set id | id in order
  {
    members := {};
    var pairs: seq<Ranked> := [];
    for i := 0 to |raw|
      invariant pairs == RankAll(raw[..i])
      invariant members == set r | r in pairs :: r.modelId
    {
      assert raw[..i + 1][..i] == raw[..i];
      match Rank(raw[i])
      case None =>
      case Some(r) =>
        members := members + {r.modelId};
        pairs := pairs + [r];
    }
    assert raw[..|raw|] == raw;
    order := ModelIds(SortByOrd(pairs));
    forall id
      ensures id in members <==> id in order
    {
      OrderNamesMembers(pairs, id);
    }
  }
}
