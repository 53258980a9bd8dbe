/** The bounded debug capture: a queue of anonymised entries under an entry cap, a byte budget and a time to
    live, and its serialised form for offline replay. */
module Captures {
  import opened Wrappers

  /** A cap of 0 (or less) means no cap; a `ttl` of 0 (or less) means entries never expire. */
  datatype Config = Config(enabled: bool, ttl: real, maxEntries: int, maxBytes: int)

  datatype Entry = Entry(kind: string, timestamp: real, num: nat, index: Option<int>,
                         responseId: string, itemId: string, callId: string, lengths: map<string, nat>)

  // ---- One entry and its dictionary ----

  datatype Field = Type | Timestamp | Num | Index | ResponseId | ItemId | CallId | Lengths

  datatype Json = Text(text: string) | Float(float: real) | Integer(int_: int) | Table(table: map<string, nat>)

  type Dict = map<Field, Json>

  /** The length of the JSON text of an entry's dictionary; the encoder itself is not modelled. */
  type SizeOf = Entry -> nat

  function With(d: Dict, f: Field, condition: bool, value: Json): Dict {
    if condition then d[f := value] else d
  }

  /** Optional fields are left out when they are empty. */
  function ToDict(e: Entry): Dict {
    var d: Dict := map[Type := Text(e.kind), Timestamp := Float(e.timestamp), Num := Integer(e.num)];
    var d := With(d, Index, e.index.Some?, Integer(e.index.GetOr(0)));
    var d := With(d, ResponseId, e.responseId != "", Text(e.responseId));
    var d := With(d, ItemId, e.itemId != "", Text(e.itemId));
    var d := With(d, CallId, e.callId != "", Text(e.callId));
    With(d, Lengths, e.lengths != map[], Table(e.lengths))
  }

  function TextAt(d: Dict, f: Field): string {
    if f in d && d[f].Text? then d[f].text else ""
  }

  function IntegerAt(d: Dict, f: Field): Option<int> {
    if f in d && d[f].Integer? then Some(d[f].int_) else None
  }

  function FromDict(d: Dict): Entry {
    Entry(TextAt(d, Type),
          if Timestamp in d && d[Timestamp].Float? then d[Timestamp].float else 0.0,
          var n := IntegerAt(d, Num).GetOr(0); if n >= 0 then n else 0,
          IntegerAt(d, Index),
          TextAt(d, ResponseId), TextAt(d, ItemId), TextAt(d, CallId),
          if Lengths in d && d[Lengths].Table? then d[Lengths].table else map[])
  }

  /** Nothing is lost between an entry and its dictionary, although empty fields are not written. */
  lemma EntryRoundTrip(e: Entry)
    ensures FromDict(ToDict(e)) == e
  {
    var d := ToDict(e);
    assert Type in d && Timestamp in d && Num in d;
    assert Index in d <==> e.index.Some?;
    assert ResponseId in d <==> e.responseId != "";
    assert ItemId in d <==> e.itemId != "";
    assert CallId in d <==> e.callId != "";
    assert Lengths in d <==> e.lengths != map[];
  }

  /** Each field of an entry is written under its own name; the optional ones exactly when they are not empty. */
  lemma FieldsAreWritten(e: Entry)
    ensures var d := ToDict(e);
      && {Type, Timestamp, Num} <= d.Keys
      && d[Type] == Text(e.kind) && d[Timestamp] == Float(e.timestamp) && d[Num] == Integer(e.num)
      && (if e.index.Some? then Index in d && d[Index] == Integer(e.index.value) else Index !in d)
      && (if e.responseId != "" then ResponseId in d && d[ResponseId] == Text(e.responseId) else ResponseId !in d)
      && (if e.itemId != "" then ItemId in d && d[ItemId] == Text(e.itemId) else ItemId !in d)
      && (if e.callId != "" then CallId in d && d[CallId] == Text(e.callId) else CallId !in d)
      && (if e.lengths != map[] then Lengths in d && d[Lengths] == Table(e.lengths) else Lengths !in d)
  {
  }

  // ---- The buffer ----

  datatype Buffer = Buffer(entries: seq<Entry>, bytes: int, counter: nat, dropped: nat, expired: nat)

  datatype Reason = BySize | ByAge

  function Evicted(size: SizeOf, b: Buffer, reason: Reason): Buffer
    requires b.entries != []
  {
    var bytes := b.bytes - size(b.entries[0]);
    Buffer(b.entries[1..], if bytes < 0 then 0 else bytes, b.counter,
           b.dropped + (if reason == BySize then 1 else 0), b.expired + (if reason == ByAge then 1 else 0))
  }

  function MadeRoom(c: Config, size: SizeOf, b: Buffer, extra: nat): Buffer
    decreases |b.entries|
  {
    if b.entries != [] && b.bytes + extra > c.maxBytes then MadeRoom(c, size, Evicted(size, b, BySize), extra) else b
  }

  function Appended(c: Config, size: SizeOf, b: Buffer, e: Entry): Buffer {
    var extra := size(e);
    var b := if c.maxEntries > 0 && |b.entries| >= c.maxEntries && b.entries != [] then Evicted(size, b, BySize) else b;
    var b := if c.maxBytes > 0 then MadeRoom(c, size, b, extra) else b;
    b.(entries := b.entries + [e], bytes := b.bytes + extra)
  }

  predicate Old(c: Config, e: Entry, now: real) {
    c.ttl > 0.0 && now - e.timestamp > c.ttl
  }

  function Pruned(c: Config, size: SizeOf, b: Buffer, now: real): Buffer
    decreases |b.entries|
  {
    if b.entries != [] && Old(c, b.entries[0], now) then Pruned(c, size, Evicted(size, b, ByAge), now) else b
  }

  /** What the event projects to, apart from time and number. */
  datatype Projection = Projection(kind: string, index: Option<int>, responseId: string, itemId: string,
                                   callId: string, lengths: map<string, nat>)

  function EntryOf(p: Projection, now: real, num: nat): Entry {
    Entry(p.kind, now, num, p.index, p.responseId, p.itemId, p.callId, p.lengths)
  }

  function Captured(c: Config, size: SizeOf, b: Buffer, p: Projection, now: real): Buffer {
    if !c.enabled then b
    else
      var b := Pruned(c, size, b, now);
      Appended(c, size, b.(counter := b.counter + 1), EntryOf(p, now, b.counter))
  }

  /** The entries a reader is shown, in order. */
  function Readable(c: Config, entries: seq<Entry>, now: real): seq<Entry> {
    if entries == [] then []
    else Readable(c, entries[..|entries| - 1], now)
         + if Old(c, entries[|entries| - 1], now) then [] else [entries[|entries| - 1]]
  }

  function Dicts(entries: seq<Entry>): (d: seq<Dict>)
    ensures |d| == |entries| && forall i | 0 <= i < |d| :: d[i] == ToDict(entries[i])
  {
    seq(|entries|, i requires 0 <= i < |entries| => ToDict(entries[i]))
  }

  const EMPTY := Buffer([], 0, 0, 0, 0)

  function LoadedEntries(c: Config, size: SizeOf, dicts: seq<Dict>): Buffer {
    if dicts == [] then EMPTY
    else Appended(c, size, LoadedEntries(c, size, dicts[..|dicts| - 1]), FromDict(dicts[|dicts| - 1]))
  }

  function Loaded(c: Config, size: SizeOf, dicts: seq<Dict>): Buffer {
    var b := LoadedEntries(c, size, dicts);
    if b.entries != [] then b.(counter := b.entries[|b.entries| - 1].num + 1) else b
  }

  // ---- The store in place ----

  class DebugCapture {
    const config: Config
    const size: SizeOf
    var entries: seq<Entry>
    var bytes: int
    var counter: nat
    var dropped: nat
    var expired: nat

    constructor (config: Config, size: SizeOf)
      ensures this.config == config && this.size == size && State() == EMPTY
    {
      this.config, this.size := config, size;
      entries, bytes, counter, dropped, expired := [], 0, 0, 0, 0;
    }

    function State(): Buffer
      reads this
    {
      Buffer(entries, bytes, counter, dropped, expired)
    }

    method Capture(p: Projection, now: real)
      modifies this
      ensures State() == Captured(config, size, old(State()), p, now)
      ensures !config.enabled ==> State() == old(State())
      ensures config.enabled ==> counter == old(counter) + 1 && entries != []
      ensures config.enabled ==>
        entries[|entries| - 1] == Entry(p.kind, now, old(counter), p.index, p.responseId, p.itemId, p.callId, p.lengths)
    {
      if !config.enabled {
        return;
      }
      PruneExpired(now);
      var entry := EntryOf(p, now, counter);
      counter := counter + 1;
      Append(entry);
    }

    method Replay(now: real) returns (out: seq<Dict>)
      ensures out == Dicts(Readable(config, entries, now))
    {
      out := [];
      for i := 0 to |entries|
        invariant out == Dicts(Readable(config, entries[..i], now))
      {
        assert entries[..i + 1][..i] == entries[..i];
        if config.ttl > 0.0 && now - entries[i].timestamp > config.ttl {
          continue;
        }
        out := out + [ToDict(entries[i])];
      }
      assert entries[..|entries|] == entries;
    }

    method LoadFrom(dicts: seq<Dict>)
      requires State() == EMPTY
      modifies this
      ensures State() == Loaded(config, size, dicts)
    {
      for i := 0 to |dicts|
        invariant State() == LoadedEntries(config, size, dicts[..i])
      {
        assert dicts[..i + 1][..i] == dicts[..i];
        Append(FromDict(dicts[i]));
      }
      assert dicts[..|dicts|] == dicts;
      if entries != [] {
        counter := entries[|entries| - 1].num + 1;
      }
    }

    method Clear()
      modifies this
      ensures State() == EMPTY.(counter := old(counter))
    {
      entries, bytes, dropped, expired := [], 0, 0, 0;
    }

    method Append(entry: Entry)
      modifies this
      ensures State() == Appended(config, size, old(State()), entry)
      ensures entries != [] && entries[|entries| - 1] == entry && counter == old(counter)
    {
      var extra := size(entry);
      if config.maxEntries > 0 && |entries| >= config.maxEntries {
        EvictOldest(BySize);
      }
      if config.maxBytes > 0 {
        ghost var before := State();
        while entries != [] && bytes + extra > config.maxBytes
          invariant MadeRoom(config, size, State(), extra) == MadeRoom(config, size, before, extra)
          invariant counter == old(counter)
          decreases |entries|
        {
          EvictOldest(BySize);
        }
      }
      entries := entries + [entry];
      bytes := bytes + extra;
    }

    method EvictOldest(reason: Reason)
      modifies this
      ensures State() == if old(entries) == [] then old(State()) else Evicted(size, old(State()), reason)
    {
      if entries == [] {
        return;
      }
      var oldest := entries[0];
      entries := entries[1..];
      bytes := bytes - size(oldest);
      if bytes < 0 {
        bytes := 0;
      }
      if reason == ByAge {
        expired := expired + 1;
      } else {
        dropped := dropped + 1;
      }
    }

    method PruneExpired(now: real)
      modifies this
      ensures State() == Pruned(config, size, old(State()), now)
      ensures counter == old(counter)
    {
      if config.ttl <= 0.0 {
        return;
      }
      ghost var before := State();
      while entries != [] && now - entries[0].timestamp > config.ttl
        invariant Pruned(config, size, State(), now) == Pruned(config, size, before, now)
        invariant counter == old(counter)
        decreases |entries|
      {
        EvictOldest(ByAge);
      }
    }
  }

  // ---- Any number of events ----

  datatype Event = Arrive(p: Projection, now: real) | Clear

  function Run(c: Config, size: SizeOf, events: seq<Event>): Buffer {
    if events == [] then EMPTY
    else
      var b := Run(c, size, events[..|events| - 1]);
      match events[|events| - 1]
      case Arrive(p, now) => Captured(c, size, b, p, now)
      case Clear => EMPTY.(counter := b.counter)
  }

  /** How many entries were ever recorded: the next number. */
  function Count(c: Config, events: seq<Event>): nat {
    if events == [] then 0
    else Count(c, events[..|events| - 1]) + if c.enabled && events[|events| - 1].Arrive? then 1 else 0
  }

  /** The simple history: everything recorded since the last clear, with no cap and no time to live. */
  function Log(c: Config, events: seq<Event>): seq<Entry> {
    if events == [] || events[|events| - 1].Clear? then []
    else
      var front, last := events[..|events| - 1], events[|events| - 1];
      Log(c, front) + if c.enabled then [EntryOf(last.p, last.now, Count(c, front))] else []
  }

  /** The time of the last event, `start` before the first. */
  function LastTime(start: real, events: seq<Event>): real {
    if events == [] then start
    else
      match events[|events| - 1]
      case Arrive(_, now) => now
      case Clear => LastTime(start, events[..|events| - 1])
  }

  ghost predicate Monotone(start: real, events: seq<Event>) {
    events == [] ||
    (Monotone(start, events[..|events| - 1]) && LastTime(start, events[..|events| - 1]) <= LastTime(start, events))
  }

  function SumSizes(size: SizeOf, entries: seq<Entry>): nat {
    if entries == [] then 0 else size(entries[0]) + SumSizes(size, entries[1..])
  }

  lemma {:induction false} SumSizesSnoc(size: SizeOf, entries: seq<Entry>, e: Entry)
    ensures SumSizes(size, entries + [e]) == SumSizes(size, entries) + size(e)
  {
    if entries != [] {
      assert (entries + [e])[1..] == entries[1..] + [e];
      SumSizesSnoc(size, entries[1..], e);
    }
  }

  /** The buffer agrees with the history: it holds all of it but the `dropped + expired` oldest entries, and
      its byte count is the sum of the sizes it holds. */
  ghost predicate Books(size: SizeOf, b: Buffer, log: seq<Entry>) {
    && b.bytes == SumSizes(size, b.entries)
    && b.dropped + b.expired <= |log|
    && b.entries == log[b.dropped + b.expired..]
  }

  ghost predicate Capped(c: Config, b: Buffer) {
    && (c.maxEntries > 0 ==> |b.entries| <= c.maxEntries)
    && (c.maxBytes > 0 ==> b.bytes <= c.maxBytes || |b.entries| == 1)
  }

  ghost predicate Timed(entries: seq<Entry>, now: real) {
    && (forall i, j | 0 <= i < j < |entries| :: entries[i].timestamp <= entries[j].timestamp)
    && (forall i | 0 <= i < |entries| :: entries[i].timestamp <= now)
  }

  /** `b'` holds no more than `b`. */
  ghost predicate NoLarger(b: Buffer, b': Buffer) {
    && b'.counter == b.counter && b'.bytes <= b.bytes
    && |b'.entries| <= |b.entries| && b.dropped <= b'.dropped
    && (|b'.entries| == |b.entries| ==> b' == b)
  }

  lemma EvictionKeepsBooks(size: SizeOf, b: Buffer, reason: Reason, log: seq<Entry>)
    requires Books(size, b, log) && b.entries != []
    ensures var b' := Evicted(size, b, reason); Books(size, b', log) && NoLarger(b, b')
  {
    assert log[b.dropped + b.expired..][1..] == log[b.dropped + b.expired + 1..];
  }

  lemma {:induction false} RoomKeepsBooks(c: Config, size: SizeOf, b: Buffer, extra: nat, log: seq<Entry>)
    requires Books(size, b, log)
    ensures var b' := MadeRoom(c, size, b, extra);
      Books(size, b', log) && NoLarger(b, b') && (b'.entries == [] || b'.bytes + extra <= c.maxBytes)
    decreases |b.entries|
  {
    if b.entries != [] && b.bytes + extra > c.maxBytes {
      EvictionKeepsBooks(size, b, BySize, log);
      RoomKeepsBooks(c, size, Evicted(size, b, BySize), extra, log);
    }
  }

  lemma {:induction false} PruningKeepsBooks(c: Config, size: SizeOf, b: Buffer, now: real, log: seq<Entry>)
    requires Books(size, b, log)
    ensures var b' := Pruned(c, size, b, now); Books(size, b', log) && NoLarger(b, b') && b'.dropped == b.dropped
    decreases |b.entries|
  {
    if b.entries != [] && Old(c, b.entries[0], now) {
      EvictionKeepsBooks(size, b, ByAge, log);
      PruningKeepsBooks(c, size, Evicted(size, b, ByAge), now, log);
    }
  }

  lemma NoLargerIsCapped(c: Config, b: Buffer, b': Buffer)
    requires Capped(c, b) && NoLarger(b, b')
    requires b'.entries == [] ==> b'.bytes == 0
    ensures Capped(c, b')
  {
  }

  /** The buffer `Appended` puts the new entry behind. */
  function Room(c: Config, size: SizeOf, b: Buffer, extra: nat): Buffer {
    var b := if c.maxEntries > 0 && |b.entries| >= c.maxEntries && b.entries != [] then Evicted(size, b, BySize) else b;
    if c.maxBytes > 0 then MadeRoom(c, size, b, extra) else b
  }

  lemma RoomIsEnough(c: Config, size: SizeOf, b: Buffer, extra: nat, log: seq<Entry>)
    requires Books(size, b, log) && Capped(c, b)
    ensures var r := Room(c, size, b, extra);
      && Books(size, r, log) && NoLarger(b, r)
      && (c.maxEntries > 0 ==> |r.entries| < c.maxEntries)
      && (c.maxBytes > 0 ==> r.entries == [] || r.bytes + extra <= c.maxBytes)
  {
    var first := if c.maxEntries > 0 && |b.entries| >= c.maxEntries && b.entries != [] then Evicted(size, b, BySize) else b;
    if first != b {
      EvictionKeepsBooks(size, b, BySize, log);
    }
    if c.maxBytes > 0 {
      RoomKeepsBooks(c, size, first, extra, log);
    }
  }

  lemma AppendIsRoomPlusEntry(c: Config, size: SizeOf, b: Buffer, e: Entry)
    ensures var r := Room(c, size, b, size(e));
      Appended(c, size, b, e) == r.(entries := r.entries + [e], bytes := r.bytes + size(e))
  {
  }

  lemma PushKeepsBooks(size: SizeOf, r: Buffer, e: Entry, log: seq<Entry>)
    requires Books(size, r, log)
    ensures Books(size, r.(entries := r.entries + [e], bytes := r.bytes + size(e)), log + [e])
  {
    SumSizesSnoc(size, r.entries, e);
  }

  /** An append keeps the books and the caps, and drops nothing only when it just adds the entry. */
  lemma AppendKeeps(c: Config, size: SizeOf, b: Buffer, e: Entry, log: seq<Entry>)
    requires Books(size, b, log) && Capped(c, b)
    ensures var b' := Appended(c, size, b, e);
      && Books(size, b', log + [e]) && Capped(c, b') && b'.counter == b.counter && b.dropped <= b'.dropped
      && (b'.dropped == b.dropped ==> b'.entries == b.entries + [e])
  {
    var r := Room(c, size, b, size(e));
    RoomIsEnough(c, size, b, size(e), log);
    AppendIsRoomPlusEntry(c, size, b, e);
    PushKeepsBooks(size, r, e, log);
    RoomOnlyDrops(c, size, b, size(e));
  }

  lemma {:induction false} RoomOnlyDrops(c: Config, size: SizeOf, b: Buffer, extra: nat)
    ensures var r := Room(c, size, b, extra); r.dropped - b.dropped == |b.entries| - |r.entries|
  {
    var first := if c.maxEntries > 0 && |b.entries| >= c.maxEntries && b.entries != [] then Evicted(size, b, BySize) else b;
    MakingRoomOnlyDrops(c, size, first, extra);
  }

  lemma {:induction false} MakingRoomOnlyDrops(c: Config, size: SizeOf, b: Buffer, extra: nat)
    ensures var r := MadeRoom(c, size, b, extra); r.dropped - b.dropped == |b.entries| - |r.entries|
    decreases |b.entries|
  {
    if b.entries != [] && b.bytes + extra > c.maxBytes {
      MakingRoomOnlyDrops(c, size, Evicted(size, b, BySize), extra);
    }
  }

  lemma CaptureKeeps(c: Config, size: SizeOf, b: Buffer, p: Projection, now: real, log: seq<Entry>)
    requires c.enabled && Books(size, b, log) && Capped(c, b)
    ensures var b', e := Captured(c, size, b, p, now), EntryOf(p, now, b.counter);
      && Books(size, b', log + [e]) && Capped(c, b') && b'.counter == b.counter + 1 && b.dropped <= b'.dropped
      && (b'.dropped == b.dropped ==> b'.entries == Pruned(c, size, b, now).entries + [e])
  {
    PruningKeepsBooks(c, size, b, now, log);
    var r := Pruned(c, size, b, now);
    NoLargerIsCapped(c, b, r);
    CountingKeeps(c, size, r, log);
    CaptureIsPruneThenAppend(c, size, b, p, now);
    AppendKeeps(c, size, r.(counter := b.counter + 1), EntryOf(p, now, b.counter), log);
  }

  // ---- No more is dropped than needed ----

  /** The new entry fits behind those kept, within both caps. */
  predicate Fits(c: Config, size: SizeOf, kept: seq<Entry>, e: Entry) {
    && (c.maxEntries > 0 ==> |kept| + 1 <= c.maxEntries)
    && (c.maxBytes > 0 ==> SumSizes(size, kept) + size(e) <= c.maxBytes)
  }

  /** `k` of the entries are dropped: with any fewer the new entry would not fit, and with so many it does, or none
      is left. */
  ghost predicate DropsLeast(c: Config, size: SizeOf, entries: seq<Entry>, e: Entry, k: nat) {
    && k <= |entries| && (forall j | 0 <= j < k :: !Fits(c, size, entries[j..], e))
    && (k < |entries| ==> Fits(c, size, entries[k..], e))
  }

  lemma {:induction false} RoomDropsLeast(c: Config, size: SizeOf, b: Buffer, e: Entry) returns (k: nat)
    requires b.bytes == SumSizes(size, b.entries) && c.maxBytes > 0
    requires c.maxEntries > 0 ==> |b.entries| < c.maxEntries
    ensures DropsLeast(c, size, b.entries, e, k)
    ensures MadeRoom(c, size, b, size(e))
         == b.(entries := b.entries[k..], bytes := SumSizes(size, b.entries[k..]), dropped := b.dropped + k)
    decreases |b.entries|
  {
    assert b.entries[0..] == b.entries;
    if b.entries != [] && b.bytes + size(e) > c.maxBytes {
      var n := RoomDropsLeast(c, size, Evicted(size, b, BySize), e);
      k := n + 1;
      DropsOneMore(c, size, b.entries, e, n);
    } else {
      k := 0;
    }
  }

  lemma DropsOneMore(c: Config, size: SizeOf, entries: seq<Entry>, e: Entry, n: nat)
    requires entries != [] && DropsLeast(c, size, entries[1..], e, n) && !Fits(c, size, entries, e)
    ensures DropsLeast(c, size, entries, e, n + 1) && entries[1..][n..] == entries[n + 1..]
  {
    forall j | 0 <= j < n + 1
      ensures !Fits(c, size, entries[j..], e)
    {
      if j == 0 {
        assert entries[0..] == entries;
      } else {
        assert entries[1..][j - 1..] == entries[j..];
      }
    }
    assert entries[1..][n..] == entries[n + 1..];
  }

  /** What an append drops is the least that makes the new entry fit. */
  lemma AppendDropsLeast(c: Config, size: SizeOf, b: Buffer, e: Entry) returns (k: nat)
    requires b.bytes == SumSizes(size, b.entries) && Capped(c, b)
    ensures DropsLeast(c, size, b.entries, e, k)
    ensures Appended(c, size, b, e)
         == Buffer(b.entries[k..] + [e], SumSizes(size, b.entries[k..]) + size(e), b.counter, b.dropped + k, b.expired)
  {
    assert b.entries[0..] == b.entries;
    if c.maxEntries > 0 && |b.entries| >= c.maxEntries {
      var first := Evicted(size, b, BySize);
      k := 0;
      if c.maxBytes > 0 {
        k := RoomDropsLeast(c, size, first, e);
      } else {
        assert first.entries[0..] == first.entries;
      }
      DropsOneMore(c, size, b.entries, e, k);
      k := k + 1;
    } else if c.maxBytes > 0 {
      k := RoomDropsLeast(c, size, b, e);
    } else {
      k := 0;
    }
  }

  lemma {:induction false} PruneDropsOldFront(c: Config, size: SizeOf, b: Buffer, now: real) returns (k: nat)
    requires b.bytes == SumSizes(size, b.entries)
    ensures IsOldFront(c, b.entries, now, k)
    ensures Pruned(c, size, b, now)
         == b.(entries := b.entries[k..], bytes := SumSizes(size, b.entries[k..]), expired := b.expired + k)
    decreases |b.entries|
  {
    assert b.entries[0..] == b.entries;
    if b.entries != [] && Old(c, b.entries[0], now) {
      var n := PruneDropsOldFront(c, size, Evicted(size, b, ByAge), now);
      k := n + 1;
      assert b.entries[1..][n..] == b.entries[k..];
    } else {
      k := 0;
    }
  }

  /** The first `k` entries are older than the time to live, and the one behind them is not. */
  ghost predicate IsOldFront(c: Config, entries: seq<Entry>, now: real, k: nat) {
    && k <= |entries| && (k > 0 ==> c.ttl > 0.0)
    && (forall i | 0 <= i < k :: now - entries[i].timestamp > c.ttl)
    && (k < |entries| && c.ttl > 0.0 ==> now - entries[k].timestamp <= c.ttl)
  }

  /** After any events, one more entry costs the old front, which expires, and then the least that makes the entry fit,
      which is dropped; nothing else leaves, and the entry comes last under the next number. */
  lemma CaptureDropsLeast(c: Config, size: SizeOf, events: seq<Event>, p: Projection, now: real) returns (k: nat, m: nat)
    requires c.enabled
    ensures var b, b', e := Run(c, size, events), Run(c, size, events + [Arrive(p, now)]), EntryOf(p, now, Count(c, events));
      && IsOldFront(c, b.entries, now, k) && DropsLeast(c, size, b.entries[k..], e, m)
      && b'.entries == b.entries[k..][m..] + [e]
      && b'.expired == b.expired + k && b'.dropped == b.dropped + m
  {
    RunAgreesWithLog(c, size, events);
    k, m := CapturedDropsLeast(c, size, Run(c, size, events), p, now, Log(c, events));
    assert (events + [Arrive(p, now)])[..|events|] == events;
  }

  lemma CapturedDropsLeast(c: Config, size: SizeOf, b: Buffer, p: Projection, now: real, log: seq<Entry>)
    returns (k: nat, m: nat)
    requires c.enabled && Books(size, b, log) && Capped(c, b)
    ensures var b', e := Captured(c, size, b, p, now), EntryOf(p, now, b.counter);
      && IsOldFront(c, b.entries, now, k) && DropsLeast(c, size, b.entries[k..], e, m)
      && b'.entries == b.entries[k..][m..] + [e]
      && b'.expired == b.expired + k && b'.dropped == b.dropped + m
  {
    PruningKeepsBooks(c, size, b, now, log);
    var r := Pruned(c, size, b, now);
    NoLargerIsCapped(c, b, r);
    k := PruneDropsOldFront(c, size, b, now);
    CaptureIsPruneThenAppend(c, size, b, p, now);
    m := AppendDropsLeast(c, size, r.(counter := b.counter + 1), EntryOf(p, now, b.counter));
  }

  lemma CaptureIsPruneThenAppend(c: Config, size: SizeOf, b: Buffer, p: Projection, now: real)
    requires c.enabled && Pruned(c, size, b, now).counter == b.counter
    ensures Captured(c, size, b, p, now)
         == Appended(c, size, Pruned(c, size, b, now).(counter := b.counter + 1), EntryOf(p, now, b.counter))
  {
  }

  lemma CountingKeeps(c: Config, size: SizeOf, b: Buffer, log: seq<Entry>)
    requires Books(size, b, log) && Capped(c, b)
    ensures Books(size, b.(counter := b.counter + 1), log) && Capped(c, b.(counter := b.counter + 1))
  {
  }

  /** The bounded buffer agrees with the simple history after any events: it holds the history without its
      oldest entries, as many as were dropped or have expired; the byte count is the sum of the entry sizes;
      and the caps hold, except that a single entry may exceed the byte budget when it is alone. */
  lemma {:induction false} RunAgreesWithLog(c: Config, size: SizeOf, events: seq<Event>)
    ensures var b := Run(c, size, events);
      Books(size, b, Log(c, events)) && Capped(c, b) && b.counter == Count(c, events)
  {
    if events != [] {
      var front, e := events[..|events| - 1], events[|events| - 1];
      RunAgreesWithLog(c, size, front);
      if e.Arrive? && c.enabled {
        CaptureKeeps(c, size, Run(c, size, front), e.p, e.now, Log(c, front));
      }
    }
  }

  /** Numbers in the history are consecutive, also across a clear, and end at the counter. */
  lemma {:induction false} LogIsNumbered(c: Config, events: seq<Event>)
    ensures var log := Log(c, events);
      |log| <= Count(c, events) && forall i | 0 <= i < |log| :: log[i].num == Count(c, events) - |log| + i
  {
    if events != [] {
      LogIsNumbered(c, events[..|events| - 1]);
    }
  }

  lemma {:induction false} LogIsTimed(c: Config, start: real, events: seq<Event>)
    requires Monotone(start, events)
    ensures Timed(Log(c, events), LastTime(start, events))
  {
    if events != [] {
      LogIsTimed(c, start, events[..|events| - 1]);
    }
  }

  lemma SuffixIsTimed(log: seq<Entry>, entries: seq<Entry>, k: nat, now: real, later: real)
    requires Timed(log, now) && now <= later && k <= |log| && entries == log[k..]
    ensures Timed(entries, later)
  {
    assert forall i | 0 <= i < |entries| :: entries[i] == log[k + i];
  }

  // ---- Pruning is filtering ----

  lemma {:induction false} ReadableDropsOldFirst(c: Config, entries: seq<Entry>, now: real)
    requires entries != [] && Old(c, entries[0], now)
    ensures Readable(c, entries, now) == Readable(c, entries[1..], now)
  {
    if |entries| > 1 {
      ReadableDropsOldFirst(c, entries[..|entries| - 1], now);
      assert entries[1..][..|entries| - 2] == entries[..|entries| - 1][1..];
    }
  }

  lemma {:induction false} ReadableKeepsFresh(c: Config, entries: seq<Entry>, now: real)
    requires forall i | 0 <= i < |entries| :: !Old(c, entries[i], now)
    ensures Readable(c, entries, now) == entries
  {
    if entries != [] {
      ReadableKeepsFresh(c, entries[..|entries| - 1], now);
    }
  }

  /** Under a clock that does not go back, dropping the expired front leaves exactly the readable entries. */
  lemma {:induction false} PruningIsFiltering(c: Config, size: SizeOf, b: Buffer, now: real)
    requires Timed(b.entries, now)
    ensures Pruned(c, size, b, now).entries == Readable(c, b.entries, now)
    decreases |b.entries|
  {
    if b.entries != [] && Old(c, b.entries[0], now) {
      ReadableDropsOldFirst(c, b.entries, now);
      PruningIsFiltering(c, size, Evicted(size, b, ByAge), now);
    } else {
      forall i | 0 <= i < |b.entries|
        ensures !Old(c, b.entries[i], now)
      {
        assert i > 0 ==> b.entries[0].timestamp <= b.entries[i].timestamp;
      }
      ReadableKeepsFresh(c, b.entries, now);
    }
  }

  /** Pruning never takes away what a reader, then or later, would be shown. */
  lemma {:induction false} PruningHidesNothing(c: Config, size: SizeOf, b: Buffer, now: real, later: real)
    requires now <= later
    ensures Readable(c, Pruned(c, size, b, now).entries, later) == Readable(c, b.entries, later)
    decreases |b.entries|
  {
    if b.entries != [] && Old(c, b.entries[0], now) {
      ReadableDropsOldFirst(c, b.entries, later);
      PruningHidesNothing(c, size, Evicted(size, b, ByAge), now, later);
    }
  }

  /** As long as the caps have dropped nothing, a reader is shown exactly the recorded entries that are not
      too old, however often expired entries were pruned on the way. */
  lemma {:induction false} ReplayShowsTheLog(c: Config, size: SizeOf, start: real, events: seq<Event>, now: real)
    requires Monotone(start, events) && LastTime(start, events) <= now
    requires Run(c, size, events).dropped == 0
    ensures Readable(c, Run(c, size, events).entries, now) == Readable(c, Log(c, events), now)
  {
    if events != [] {
      var front, e := events[..|events| - 1], events[|events| - 1];
      if e.Arrive? {
        var b := Run(c, size, front);
        if c.enabled {
          RunAgreesWithLog(c, size, front);
          CaptureKeeps(c, size, b, e.p, e.now, Log(c, front));
          PruningHidesNothing(c, size, b, e.now, now);
          ReadableSnoc(c, Pruned(c, size, b, e.now).entries, EntryOf(e.p, e.now, b.counter), now);
          ReadableSnoc(c, Log(c, front), EntryOf(e.p, e.now, b.counter), now);
        } else {
          assert Log(c, events) == Log(c, front);
        }
        ReplayShowsTheLog(c, size, start, front, now);
      }
    }
  }

  /** An entry between others is shown exactly when there is no time to live or it is not older, whatever the others
      are, and what is shown keeps its order. */
  lemma {:induction false} EntryIsShownIff(c: Config, before: seq<Entry>, e: Entry, after: seq<Entry>, now: real)
    ensures Readable(c, before + [e] + after, now)
         == Readable(c, before, now) + (if c.ttl <= 0.0 || now - e.timestamp <= c.ttl then [e] else [])
            + Readable(c, after, now)
  {
    if after == [] {
      assert before + [e] + after == before + [e];
      ReadableSnoc(c, before, e, now);
    } else {
      var front, last := after[..|after| - 1], after[|after| - 1];
      EntryIsShownIff(c, before, e, front, now);
      assert before + [e] + after == before + [e] + front + [last] && after == front + [last];
      ReadableSnoc(c, before + [e] + front, last, now);
      ReadableSnoc(c, front, last, now);
    }
  }

  lemma ReadableSnoc(c: Config, entries: seq<Entry>, e: Entry, now: real)
    ensures Readable(c, entries + [e], now) == Readable(c, entries, now) + if Old(c, e, now) then [] else [e]
  {
    assert (entries + [e])[..|entries|] == entries;
  }

  // ---- Offline replay ----

  /** Entries that fit the caps together are loaded without a single eviction. */
  lemma {:induction false} LoadingEvictsNothing(c: Config, size: SizeOf, entries: seq<Entry>)
    requires c.maxEntries > 0 ==> |entries| <= c.maxEntries
    requires c.maxBytes > 0 ==> SumSizes(size, entries) <= c.maxBytes || |entries| <= 1
    ensures LoadedEntries(c, size, Dicts(entries)) == Buffer(entries, SumSizes(size, entries), 0, 0, 0)
  {
    if entries != [] {
      var front, last := entries[..|entries| - 1], entries[|entries| - 1];
      assert entries == front + [last];
      SumSizesSnoc(size, front, last);
      LoadingEvictsNothing(c, size, front);
      LoadingOneMore(c, size, front, last);
    }
  }

  lemma LoadingOneMore(c: Config, size: SizeOf, front: seq<Entry>, last: Entry)
    requires LoadedEntries(c, size, Dicts(front)) == Buffer(front, SumSizes(size, front), 0, 0, 0)
    requires c.maxEntries > 0 ==> |front| < c.maxEntries
    requires c.maxBytes > 0 ==> SumSizes(size, front) + size(last) <= c.maxBytes || front == []
    ensures LoadedEntries(c, size, Dicts(front + [last]))
         == Buffer(front + [last], SumSizes(size, front) + size(last), 0, 0, 0)
  {
    DictsSnoc(front, last);
    LoadingLast(c, size, Dicts(front), Dicts(front + [last]), last);
    AppendWithRoom(c, size, Buffer(front, SumSizes(size, front), 0, 0, 0), last);
  }

  lemma DictsSnoc(front: seq<Entry>, last: Entry)
    ensures var dicts := Dicts(front + [last]);
      |dicts| == |front| + 1 && dicts[..|front|] == Dicts(front) && FromDict(dicts[|front|]) == last
  {
    EntryRoundTrip(last);
    var dicts := Dicts(front + [last]);
    assert forall i | 0 <= i < |front| :: dicts[i] == Dicts(front)[i];
  }

  lemma LoadingLast(c: Config, size: SizeOf, before: seq<Dict>, after: seq<Dict>, last: Entry)
    requires |after| == |before| + 1 && after[..|before|] == before && FromDict(after[|before|]) == last
    ensures LoadedEntries(c, size, after) == Appended(c, size, LoadedEntries(c, size, before), last)
  {
  }

  lemma AppendWithRoom(c: Config, size: SizeOf, b: Buffer, e: Entry)
    requires c.maxEntries > 0 ==> |b.entries| < c.maxEntries
    requires c.maxBytes > 0 ==> b.bytes + size(e) <= c.maxBytes || b.entries == []
    ensures Appended(c, size, b, e) == b.(entries := b.entries + [e], bytes := b.bytes + size(e))
  {
  }

  /** Round trip.  Loading what a capture wrote, under the same configuration and at the same instant,
      evicts nothing and shows the reader the same entries.  Numbering goes on after the last entry shown;
      that is where the original would go on exactly when something was shown or nothing was ever recorded. */
  lemma LoadReplaysTheSame(c: Config, size: SizeOf, start: real, events: seq<Event>, now: real)
    requires Monotone(start, events) && LastTime(start, events) <= now
    ensures var b := Run(c, size, events);
      var shown := Readable(c, b.entries, now);
      var l := Loaded(c, size, Dicts(shown));
      && l.entries == shown && l.dropped == 0 && l.expired == 0
      && Readable(c, l.entries, now) == shown
      && (l.counter == b.counter <==> shown != [] || b.counter == 0)
  {
    var b, log := Run(c, size, events), Log(c, events);
    var shown := Readable(c, b.entries, now);
    ShownIsPruned(c, size, start, events, now);
    var pruned := Pruned(c, size, b, now);
    LoadingEvictsNothing(c, size, shown);
    PruningHidesNothing(c, size, b, now, now);
    LogIsNumbered(c, events);
    assert shown != [] ==> shown[|shown| - 1] == log[|log| - 1];
  }

  /** What is shown is what pruning would leave: the end of the history, within the caps. */
  lemma ShownIsPruned(c: Config, size: SizeOf, start: real, events: seq<Event>, now: real)
    requires Monotone(start, events) && LastTime(start, events) <= now
    ensures var b := Run(c, size, events);
      var pruned := Pruned(c, size, b, now);
      && pruned.entries == Readable(c, b.entries, now)
      && Books(size, pruned, Log(c, events)) && Capped(c, pruned) && b.counter == Count(c, events)
  {
    var b, log := Run(c, size, events), Log(c, events);
    RunAgreesWithLog(c, size, events);
    LogIsTimed(c, start, events);
    SuffixIsTimed(log, b.entries, b.dropped + b.expired, LastTime(start, events), now);
    PruningIsFiltering(c, size, b, now);
    PruningKeepsBooks(c, size, b, now, log);
    NoLargerIsCapped(c, b, Pruned(c, size, b, now));
  }
}
