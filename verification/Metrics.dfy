/** Counters with a cap on the number of label combinations, and the text form of their labels. */
module Metrics {
  import opened Sequences
  import opened Wrappers

  /** The values of a label set, in the order of the sorted label names. */
  type Key = seq<string>

  datatype KeyError = UnknownLabel | MissingLabel

  datatype KeyResult = Found(key: Key) | Rejected(error: KeyError)

  function LabelKey(names: seq<string>, labels: map<string, string>): KeyResult {
    if exists n :: n in labels.Keys && n !in names then Rejected(UnknownLabel)
    else if exists n :: n in names && n !in labels.Keys then Rejected(MissingLabel)
    else Found(seq(|names|, i requires 0 <= i < |names| => labels[names[i]]))
  }

  /** A key is found exactly for the declared labels, and different label sets have different keys. */
  lemma LabelKeyIsFaithful(names: seq<string>, a: map<string, string>, b: map<string, string>)
    ensures LabelKey(names, a).Found? <==> forall n :: n in a <==> n in names
    ensures LabelKey(names, a).Found? && LabelKey(names, a) == LabelKey(names, b) ==> a == b
    ensures LabelKey(names, a).Found? ==>
      var key := LabelKey(names, a).key;
      |key| == |names| && forall i | 0 <= i < |names| :: names[i] in a && key[i] == a[names[i]]
    ensures LabelKey(names, a) == Rejected(UnknownLabel) <==> exists n :: n in a && n !in names
  {
    if LabelKey(names, a).Found? && LabelKey(names, a) == LabelKey(names, b) {
      var k := LabelKey(names, a).key;
      forall n | n in a.Keys
        ensures n in b.Keys && a[n] == b[n]
      {
        var i :| 0 <= i < |names| && names[i] == n;
        assert k[i] == a[n] && LabelKey(names, b).key[i] == b[n];
      }
      assert a.Keys == b.Keys;
    }
  }

  const OVERFLOW_LABEL_VALUE := "_overflow_"

  function OverflowKey(names: seq<string>): (key: Key)
    ensures |key| == |names| && forall v | v in key :: v == "_overflow_"
  {
    seq(|names|, i => OVERFLOW_LABEL_VALUE)
  }

  // ---- Counting ----

  /** The series an increment for `key` goes to. */
  function Target(values: map<Key, real>, maxSeries: int, overflow: Key, key: Key): Key {
    if key !in values && |values| >= maxSeries then overflow else key
  }

  function Increased(values: map<Key, real>, maxSeries: int, overflow: Key, key: Key, amount: real): map<Key, real> {
    var k := Target(values, maxSeries, overflow, key);
    values[k := (if k in values then values[k] else 0.0) + amount]
  }

  class Counter {
    const names: seq<string>  // the label names, sorted
    const maxSeries: int
    var values: map<Key, real>

    constructor (names: seq<string>, maxSeries: int)
      ensures this.names == names && this.maxSeries == maxSeries && values == map[]
    {
      this.names, this.maxSeries := names, maxSeries;
      values := map[];
    }

    method Inc(amount: real, labels: map<string, string>) returns (error: Option<KeyError>)
      modifies this
      ensures match LabelKey(names, labels)
        case Rejected(e) => error == Some(e) && values == old(values)
        case Found(key) => error == None && values == Increased(old(values), maxSeries, OverflowKey(names), key, amount)
    {
      var r := LabelKey(names, labels);
      if r.Rejected? {
        return Some(r.error);
      }
      var key := r.key;
      if key !in values && |values| >= maxSeries {
        key := OverflowKey(names);
      }
      var present := if key in values then values[key] else 0.0;
      values := values[key := present + amount];
      return None;
    }
  }

  // ---- Any sequence of increments ----

  datatype Increment = Increment(key: Key, amount: real)

  function Run(maxSeries: int, overflow: Key, log: seq<Increment>): map<Key, real> {
    if log == [] then map[]
    else
      var last := log[|log| - 1];
      Increased(Run(maxSeries, overflow, log[..|log| - 1]), maxSeries, overflow, last.key, last.amount)
  }

  function Seen(log: seq<Increment>): set<Key> {
    if log == [] then {} else Seen(log[..|log| - 1]) + {log[|log| - 1].key}
  }

  /** The keys among the first `maxSeries` different ones. */
  function Early(maxSeries: int, log: seq<Increment>): set<Key> {
    if log == [] then {}
    else
      var front, key := log[..|log| - 1], log[|log| - 1].key;
      Early(maxSeries, front) + if key !in Seen(front) && |Seen(front)| < maxSeries then {key} else {}
  }

  function Total(log: seq<Increment>): real {
    if log == [] then 0.0 else Total(log[..|log| - 1]) + log[|log| - 1].amount
  }

  function TotalFor(log: seq<Increment>, key: Key): real {
    if log == [] then 0.0
    else TotalFor(log[..|log| - 1], key) + if log[|log| - 1].key == key then log[|log| - 1].amount else 0.0
  }

  ghost function Sum(m: map<Key, real>): real
    decreases |m|
  {
    if m == map[] then 0.0
    else
      var k :| k in m;
      m[k] + Sum(m - {k})
  }

  lemma {:induction false} SumTakesOut(m: map<Key, real>, k: Key)
    requires k in m
    ensures Sum(m) == m[k] + Sum(m - {k})
    decreases |m|
  {
    var first :| first in m && Sum(m) == m[first] + Sum(m - {first});
    if first != k {
      SumTakesOut(m - {first}, k);
      SumTakesOut(m - {k}, first);
      assert m - {first} - {k} == m - {k} - {first};
    }
  }

  lemma SumOfUpdate(m: map<Key, real>, k: Key, v: real)
    ensures Sum(m[k := v]) == Sum(m) - (if k in m then m[k] else 0.0) + v
  {
    SumTakesOut(m[k := v], k);
    assert m[k := v] - {k} == m - {k};
    if k in m {
      SumTakesOut(m, k);
    } else {
      assert m - {k} == m;
    }
  }

  /** Nothing is lost: the series add up to all increments ever made. */
  lemma {:induction false} SumIsConserved(maxSeries: int, overflow: Key, log: seq<Increment>)
    ensures Sum(Run(maxSeries, overflow, log)) == Total(log)
  {
    if log != [] {
      var front, last := log[..|log| - 1], log[|log| - 1];
      SumIsConserved(maxSeries, overflow, front);
      IncreaseAddsAmount(Run(maxSeries, overflow, front), maxSeries, overflow, last.key, last.amount);
    }
  }

  lemma IncreaseAddsAmount(values: map<Key, real>, maxSeries: int, overflow: Key, key: Key, amount: real)
    ensures Sum(Increased(values, maxSeries, overflow, key, amount)) == Sum(values) + amount
  {
    var k := Target(values, maxSeries, overflow, key);
    SumOfUpdate(values, k, (if k in values then values[k] else 0.0) + amount);
  }

  /** There are at most `maxSeries` series, and one more for the overflow. */
  lemma {:induction false} SeriesAreCapped(maxSeries: int, overflow: Key, log: seq<Increment>)
    ensures var v, cap := Run(maxSeries, overflow, log), if maxSeries > 0 then maxSeries else 0;
      |v| <= cap + 1 && (|v| == cap + 1 ==> overflow in v)
  {
    if log != [] {
      var front, last := log[..|log| - 1], log[|log| - 1];
      SeriesAreCapped(maxSeries, overflow, front);
      var v := Run(maxSeries, overflow, front);
      var k := Target(v, maxSeries, overflow, last.key);
      UpdateSize(v, k, (if k in v then v[k] else 0.0) + last.amount);
    }
  }

  lemma UpdateSize(m: map<Key, real>, k: Key, v: real)
    ensures m[k := v].Keys == m.Keys + {k}
    ensures |m[k := v]| == |m| + if k in m then 0 else 1
  {
    assert m[k := v].Keys == m.Keys + {k};
    assert |m[k := v]| == |m[k := v].Keys| && |m| == |m.Keys|;
  }

  /** Below the cap every key that was seen has its series; above it the series do not go below the cap. */
  lemma {:induction false} SeriesBelowCap(maxSeries: int, overflow: Key, log: seq<Increment>)
    ensures var v := Run(maxSeries, overflow, log);
      if |Seen(log)| <= maxSeries then v.Keys == Seen(log) else |v| >= maxSeries
  {
    if log != [] {
      var front, last := log[..|log| - 1], log[|log| - 1];
      SeriesBelowCap(maxSeries, overflow, front);
      var v := Run(maxSeries, overflow, front);
      var k := Target(v, maxSeries, overflow, last.key);
      UpdateSize(v, k, (if k in v then v[k] else 0.0) + last.amount);
      assert |v| == |v.Keys|;
      SeenGrows(log);
    }
  }

  lemma SeenGrows(log: seq<Increment>)
    requires log != []
    ensures var front, key := log[..|log| - 1], log[|log| - 1].key;
      && (key in Seen(front) ==> Seen(log) == Seen(front))
      && (key !in Seen(front) ==> |Seen(log)| == |Seen(front)| + 1)
  {
  }

  /** Apart from the overflow, exactly the first `maxSeries` different keys ever used have a series: a key that
      was turned away once is never admitted later. */
  lemma {:induction false} AdmittedIffEarly(maxSeries: int, overflow: Key, log: seq<Increment>, key: Key)
    requires key != overflow
    ensures key in Run(maxSeries, overflow, log) <==> key in Early(maxSeries, log)
  {
    if log != [] {
      var front, last := log[..|log| - 1], log[|log| - 1];
      AdmittedIffEarly(maxSeries, overflow, front, key);
      SeriesBelowCap(maxSeries, overflow, front);
      var v := Run(maxSeries, overflow, front);
      assert |v| == |v.Keys|;
      assert key in v ==> key in Early(maxSeries, front);
      EarlyIsSeen(maxSeries, front);
    }
  }

  lemma {:induction false} EarlyIsSeen(maxSeries: int, log: seq<Increment>)
    ensures Early(maxSeries, log) <= Seen(log)
  {
    if log != [] {
      EarlyIsSeen(maxSeries, log[..|log| - 1]);
    }
  }

  lemma {:induction false} UnseenHasNoTotal(log: seq<Increment>, key: Key)
    requires key !in Seen(log)
    ensures TotalFor(log, key) == 0.0
  {
    if log != [] {
      UnseenHasNoTotal(log[..|log| - 1], key);
    }
  }

  /** A series other than the overflow holds every increment ever made with its labels. */
  lemma {:induction false} SeriesAreExact(maxSeries: int, overflow: Key, log: seq<Increment>, key: Key)
    requires key != overflow && key in Run(maxSeries, overflow, log)
    ensures Run(maxSeries, overflow, log)[key] == TotalFor(log, key)
  {
    var front, last := log[..|log| - 1], log[|log| - 1];
    var v := Run(maxSeries, overflow, front);
    if key in v {
      SeriesAreExact(maxSeries, overflow, front, key);
    } else {
      SeriesBelowCap(maxSeries, overflow, front);
      assert |v| == |v.Keys|;
      UnseenHasNoTotal(front, key);
    }
  }

  // ---- Label text ----

  /** Replaces every occurrence of one character by a text. */
  function Replaced(s: string, c: char, with: string): string {
    if s == "" then "" else (if s[0] == c then with else [s[0]]) + Replaced(s[1..], c, with)
  }

  function EscapeLabel(s: string): string {
    Replaced(Replaced(Replaced(s, '\\', "\\\\"), '"', "\\\""), '\n', "\\n")
  }

  function EscapedChar(c: char): string {
    if c == '\\' then "\\\\" else if c == '"' then "\\\"" else if c == '\n' then "\\n" else [c]
  }

  function EscapedChars(s: string): string {
    if s == "" then "" else EscapedChar(s[0]) + EscapedChars(s[1..])
  }

  lemma {:induction false} ReplacedSplits(a: string, b: string, c: char, with: string)
    ensures Replaced(a + b, c, with) == Replaced(a, c, with) + Replaced(b, c, with)
  {
    if a == "" {
      assert a + b == b;
    } else {
      ReplacedSplits(a[1..], b, c, with);
      assert (a + b)[1..] == a[1..] + b;
      Associates(if a[0] == c then with else [a[0]], Replaced(a[1..], c, with), Replaced(b, c, with));
    }
  }

  lemma ReplacedKeeps(s: string, c: char, with: string)
    requires c !in s
    ensures Replaced(s, c, with) == s
  {
    if s != "" {
      ReplacedKeeps(s[1..], c, with);
    }
  }

  /** The three replacements, one after the other, do not interfere: each character is escaped by itself. */
  lemma {:induction false} EscapingIsPerCharacter(s: string)
    ensures EscapeLabel(s) == EscapedChars(s)
  {
    if s != "" {
      EscapingIsPerCharacter(s[1..]);
      var first, slashes := [s[0]], Replaced(s[1..], '\\', "\\\\");
      var quotes := Replaced(slashes, '"', "\\\"");
      var head := if s[0] == '\\' then "\\\\" else first;
      ReplacedSplits(head, slashes, '"', "\\\"");
      var head' := if s[0] == '"' then "\\\"" else head;
      EscapeOne(s[0]);
      ReplacedSplits(head', quotes, '\n', "\\n");
    }
  }

  lemma EscapeOne(c: char)
    ensures var head := if c == '\\' then "\\\\" else [c];
      var head' := if c == '"' then "\\\"" else head;
      Replaced(head, '"', "\\\"") == head' && Replaced(head', '\n', "\\n") == EscapedChar(c)
  {
    var head := if c == '\\' then "\\\\" else [c];
    var head' := if c == '"' then "\\\"" else head;
    if c != '"' {
      ReplacedKeeps(head, '"', "\\\"");
    } else {
      assert [c][1..] == "";
    }
    if c != '\n' {
      ReplacedKeeps(head', '\n', "\\n");
    } else {
      assert [c][1..] == "";
    }
  }

  /** A reader of a quoted label value, after its opening quote: the value, and what follows its closing quote. */
  function ReadValue(s: string): Option<(string, string)>
    decreases |s|
  {
    if s == "" then None
    else if s[0] == '"' then Some(("", s[1..]))
    else if s[0] != '\\' then Prepend(s[0], ReadValue(s[1..]))
    else if |s| < 2 then None
    else if s[1] == 'n' then Prepend('\n', ReadValue(s[2..]))
    else if s[1] == '\\' || s[1] == '"' then Prepend(s[1], ReadValue(s[2..]))
    else None
  }

  function Prepend(c: char, r: Option<(string, string)>): Option<(string, string)> {
    match r
    case None => None
    case Some((value, rest)) => Some(([c] + value, rest))
  }

  /** The reader gets back any value from its escaped form, and stops right behind it. */
  lemma {:induction false} EscapedValueReadsBack(value: string, rest: string)
    ensures ReadValue(EscapeLabel(value) + "\"" + rest) == Some((value, rest))
  {
    EscapingIsPerCharacter(value);
    if value == "" {
      assert EscapeLabel(value) + "\"" + rest == "\"" + rest;
    } else {
      var others := value[1..];
      EscapedValueReadsBack(others, rest);
      EscapingIsPerCharacter(others);
      assert EscapeLabel(value) + "\"" + rest == EscapedChar(value[0]) + (EscapedChars(others) + "\"" + rest);
      ReadOneChar(value[0], EscapedChars(others) + "\"" + rest);
      assert [value[0]] + others == value;
    }
  }

  lemma ReadOneChar(c: char, rest: string)
    ensures ReadValue(EscapedChar(c) + rest) == Prepend(c, ReadValue(rest))
  {
    var s := EscapedChar(c) + rest;
    if |EscapedChar(c)| == 2 {
      assert s[2..] == rest;
    } else {
      assert s[1..] == rest;
    }
  }

  datatype Label = Label(name: string, value: string)

  function RenderPair(l: Label): string {
    l.name + "=\"" + EscapeLabel(l.value) + "\""
  }

  function RenderPairs(labels: seq<Label>): string {
    if labels == [] then "" else if |labels| == 1 then RenderPair(labels[0])
    else RenderPair(labels[0]) + "," + RenderPairs(labels[1..])
  }

  function RenderLabels(labels: seq<Label>): string {
    if labels == [] then "" else "{" + RenderPairs(labels) + "}"
  }

  /** A name up to the equals sign, and what follows the sign. */
  function ReadName(s: string): Option<(string, string)> {
    if s == "" then None else if s[0] == '=' then Some(("", s[1..])) else Prepend(s[0], ReadName(s[1..]))
  }

  lemma {:induction false} ReadNameStopsBehind(s: string)
    ensures ReadName(s).Some? ==> |ReadName(s).value.1| < |s|
  {
    if s != "" && s[0] != '=' {
      ReadNameStopsBehind(s[1..]);
    }
  }

  lemma {:induction false} ReadValueStopsBehind(s: string)
    ensures ReadValue(s).Some? ==> |ReadValue(s).value.1| < |s|
    decreases |s|
  {
    if s != "" && s[0] != '"' {
      if s[0] != '\\' {
        ReadValueStopsBehind(s[1..]);
      } else if |s| >= 2 {
        ReadValueStopsBehind(s[2..]);
      }
    }
  }

  /** One label, and what follows it. */
  function ReadPair(s: string): (r: Option<(Label, string)>)
    ensures r.Some? ==> |r.value.1| < |s|
  {
    ReadNameStopsBehind(s);
    match ReadName(s)
    case None => None
    case Some((name, rest)) =>
      if rest == "" || rest[0] != '"' then None
      else
        ReadValueStopsBehind(rest[1..]);
        match ReadValue(rest[1..])
        case None => None
        case Some((value, end)) => Some((Label(name, value), end))
  }

  /** The labels up to the closing brace, and what follows it. */
  function ReadPairs(s: string): Option<(seq<Label>, string)>
    decreases |s|
  {
    match ReadPair(s)
    case None => None
    case Some((first, rest)) =>
      if rest == "" then None
      else if rest[0] == '}' then Some(([first], rest[1..]))
      else if rest[0] != ',' then None
      else
        match ReadPairs(rest[1..])
        case None => None
        case Some((labels, end)) => Some(([first] + labels, end))
  }

  lemma {:induction false} NameReadsBack(name: string, rest: string)
    requires '=' !in name
    ensures ReadName(name + "=" + rest) == Some((name, rest))
  {
    if name == "" {
      assert name + "=" + rest == "=" + rest;
    } else {
      NameReadsBack(name[1..], rest);
      assert (name + "=" + rest)[1..] == name[1..] + "=" + rest;
      assert [name[0]] + name[1..] == name;
    }
  }

  lemma PairReadsBack(l: Label, rest: string)
    requires '=' !in l.name
    ensures ReadPair(RenderPair(l) + rest) == Some((l, rest))
  {
    var quoted := "\"" + EscapeLabel(l.value) + "\"" + rest;
    NameReadsBack(l.name, quoted);
    assert RenderPair(l) + rest == l.name + "=" + quoted;
    EscapedValueReadsBack(l.value, rest);
    assert quoted[1..] == EscapeLabel(l.value) + "\"" + rest;
  }

  lemma LastPairReadsBack(l: Label, rest: string)
    requires '=' !in l.name
    ensures ReadPairs(RenderPair(l) + "}" + rest) == Some(([l], rest))
  {
    PairReadsBack(l, "}" + rest);
    assert RenderPair(l) + "}" + rest == RenderPair(l) + ("}" + rest);
  }

  lemma NextPairReadsBack(l: Label, more: string, labels: seq<Label>, rest: string)
    requires '=' !in l.name && ReadPairs(more) == Some((labels, rest))
    ensures ReadPairs(RenderPair(l) + "," + more) == Some(([l] + labels, rest))
  {
    PairReadsBack(l, "," + more);
    assert RenderPair(l) + "," + more == RenderPair(l) + ("," + more);
    assert ("," + more)[1..] == more;
  }

  lemma {:induction false} PairsReadBack(labels: seq<Label>, rest: string)
    requires labels != [] && forall l | l in labels :: '=' !in l.name
    ensures ReadPairs(RenderPairs(labels) + "}" + rest) == Some((labels, rest))
  {
    if |labels| == 1 {
      LastPairReadsBack(labels[0], rest);
      assert labels == [labels[0]];
    } else {
      var more := RenderPairs(labels[1..]) + "}" + rest;
      PairsReadBack(labels[1..], rest);
      NextPairReadsBack(labels[0], more, labels[1..], rest);
      CommaThenBrace(RenderPair(labels[0]), RenderPairs(labels[1..]), rest);
      assert [labels[0]] + labels[1..] == labels;
    }
  }

  lemma CommaThenBrace(a: string, b: string, rest: string)
    ensures a + "," + b + "}" + rest == a + "," + (b + "}" + rest)
  {
  }

  function ReadLabels(s: string): Option<(seq<Label>, string)> {
    if s != "" && s[0] == '{' then ReadPairs(s[1..]) else Some(([], s))
  }

  lemma AfterBrace(pairs: string, rest: string)
    ensures ReadLabels("{" + pairs + "}" + rest) == ReadPairs(pairs + "}" + rest)
  {
    assert ("{" + pairs + "}" + rest)[1..] == pairs + "}" + rest;
  }

  /** A scraper reading the rendered labels of a sample gets back names and values, whatever characters the
      values contain, and goes on behind them. */
  lemma LabelsReadBack(labels: seq<Label>, rest: string)
    requires forall l | l in labels :: '=' !in l.name
    requires rest == "" || rest[0] != '{'
    ensures ReadLabels(RenderLabels(labels) + rest) == Some((labels, rest))
  {
    if labels != [] {
      PairsReadBack(labels, rest);
      AfterBrace(RenderPairs(labels), rest);
    } else {
      assert RenderLabels(labels) + rest == rest;
    }
  }
}
