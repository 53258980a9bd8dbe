/** The incremental scanner of a raw upstream stream: it looks for model output and for a top-level error,
    line by line, whatever way the network cuts the stream into chunks. */
module SseScanner {
  import opened Sequences
  import opened Wrappers

  newtype byte = x: int | 0 <= x < 256

  type Bytes = seq<byte>

  const NEWLINE: byte := 10
  const OPEN_BRACE: byte := 123
  const CLOSE_BRACE: byte := 125
  const DATA_PREFIX: Bytes := [100, 97, 116, 97, 58]  // data:
  const DONE_MARK: Bytes := [91, 68, 79, 78, 69, 93]  // [DONE]

  // ---- One line ----

  /** What decoding a candidate for a JSON object yields: nothing usable, or an object with the message of
      its top-level error, if it has one, and whether it carries model output. */
  datatype Json = NotAnObject | Object(error: Option<string>, payload: bool)

  /** The decoder and payload search are not modelled: any function will do. */
  type Decoder = Bytes -> Json

  datatype Class = Ignored | Failure(message: string) | Output

  predicate IsSpace(b: byte) {
    b == 32 || 9 <= b <= 13
  }

  /** The text of a line that may be a JSON object: blanks and the field name are dropped, and a bare line
      is looked at like a data line. */
  function PayloadText(line: Bytes): Bytes {
    var s := Strip(IsSpace, line);
    if DATA_PREFIX <= s then Strip(IsSpace, s[5..]) else s
  }

  function Classify(decode: Decoder, line: Bytes): Class {
    var s := PayloadText(line);
    if s == [] || s == DONE_MARK || !(s[0] == OPEN_BRACE && s[|s| - 1] == CLOSE_BRACE) then Ignored
    else
      match decode(s)
      case NotAnObject => Ignored
      case Object(Some(message), _) => Failure(message)
      case Object(None, payload) => if payload then Output else Ignored
  }

  // ---- What a line says ----

  ghost predicate Blank(s: Bytes) {
    forall i | 0 <= i < |s| :: s[i] in {9, 10, 11, 12, 13, 32}
  }

  /** The bytes begin with an opening and end with a closing brace. */
  predicate InBraces(s: Bytes) {
    s != [] && s[0] == 123 && s[|s| - 1] == 125
  }

  /** The line is `text` with blanks around it, behind a field name or not. */
  ghost predicate Carries(line: Bytes, text: Bytes) {
    && InBraces(text)
    && exists before, after :: Blank(before) && Blank(after) && Around(line, before, text, after)
  }

  ghost predicate Around(line: Bytes, before: Bytes, text: Bytes, after: Bytes) {
    || line == before + text + after
    || exists between :: Blank(between) && line == before + [100, 97, 116, 97, 58] + between + text + after
  }

  lemma CarriedIsText(line: Bytes, text: Bytes)
    requires Carries(line, text)
    ensures PayloadText(line) == text
  {
    var before, after :| Blank(before) && Blank(after) && Around(line, before, text, after);
    if line == before + text + after {
      StripOf(IsSpace, before, text, after);
    } else {
      var between :| Blank(between) && line == before + [100, 97, 116, 97, 58] + between + text + after;
      FieldIsText(before, between, text, after);
    }
  }

  lemma FieldIsText(before: Bytes, between: Bytes, text: Bytes, after: Bytes)
    requires Blank(before) && Blank(between) && Blank(after) && InBraces(text)
    ensures PayloadText(before + DATA_PREFIX + between + text + after) == text
  {
    var s := DATA_PREFIX + between + text;
    Regrouped(before, DATA_PREFIX, between, text, after);
    assert s[0] == 100 && s[|s| - 1] == 125;
    StripOf(IsSpace, before, s, after);
    StripOf(IsSpace, between, text, []);
    assert s[5..] == between + text + [];
  }

  lemma Regrouped(a: Bytes, b: Bytes, c: Bytes, d: Bytes, e: Bytes)
    ensures a + b + c + d + e == a + (b + c + d) + e
  {
  }

  lemma TextIsCarried(line: Bytes)
    requires InBraces(PayloadText(line))
    ensures Carries(line, PayloadText(line))
  {
    var s, text := Strip(IsSpace, line), PayloadText(line);
    var before, after := StripSplits(IsSpace, line);
    if DATA_PREFIX <= s {
      var between, rest := StripSplits(IsSpace, s[5..]);
      assert s == DATA_PREFIX + s[5..];
      assert Blank(rest + after);
      assert line == before + [100, 97, 116, 97, 58] + between + text + (rest + after);
      assert Around(line, before, text, rest + after);
    } else {
      assert Around(line, before, text, after);
    }
  }

  /** A line is output exactly when it carries an object with output and without a top-level error, and a failure
      exactly when it carries an object with that error. */
  lemma ClassIsOfTheObject(decode: Decoder, line: Bytes, message: string)
    ensures Classify(decode, line) == Output <==>
      exists text :: Carries(line, text) && decode(text) == Object(None, true)
    ensures Classify(decode, line) == Failure(message) <==>
      exists text, payload :: Carries(line, text) && decode(text) == Object(Some(message), payload)
  {
    var s := PayloadText(line);
    if InBraces(s) {
      TextIsCarried(line);
      if Classify(decode, line) == Failure(message) {
        assert decode(s) == Object(Some(message), decode(s).payload);
      }
    }
    forall text | Carries(line, text)
      ensures text == s
    {
      CarriedIsText(line, text);
    }
  }

  /** A blank line and the end mark, among others, carry no object. */
  lemma CarriedHasBrace(line: Bytes, text: Bytes)
    requires Carries(line, text)
    ensures 123 in line
  {
    var before, after :| Blank(before) && Blank(after) && Around(line, before, text, after);
    if line == before + text + after {
      assert line[|before|] == text[0];
    } else {
      var between :| Blank(between) && line == before + [100, 97, 116, 97, 58] + between + text + after;
      assert line[|before| + 5 + |between|] == text[0];
    }
  }

  /** Anything else is ignored. */
  lemma NothingElseCounts(decode: Decoder, line: Bytes)
    requires forall text :: !Carries(line, text)
    ensures Classify(decode, line) == Ignored
  {
    if InBraces(PayloadText(line)) {
      TextIsCarried(line);
    }
  }

  // ---- Many lines ----

  /** Whether there was output, and the last error. */
  datatype Verdict = Verdict(payload: bool, error: Option<string>)

  function Combine(a: Verdict, b: Verdict): Verdict {
    Verdict(a.payload || b.payload, if b.error.Some? then b.error else a.error)
  }

  function Judge(c: Class): Verdict {
    match c
    case Ignored => Verdict(false, None)
    case Failure(message) => Verdict(false, Some(message))
    case Output => Verdict(true, None)
  }

  function JudgeAll(decode: Decoder, lines: seq<Bytes>): Verdict {
    if lines == [] then Verdict(false, None)
    else Combine(JudgeAll(decode, lines[..|lines| - 1]), Judge(Classify(decode, lines[|lines| - 1])))
  }

  ghost predicate SomeOutput(decode: Decoder, lines: seq<Bytes>) {
    exists i :: 0 <= i < |lines| && Classify(decode, lines[i]) == Output
  }

  /** The error is that of the last line with one, and there is none when no line has one. */
  ghost predicate IsLastError(decode: Decoder, lines: seq<Bytes>, error: Option<string>) {
    match error
    case None => forall i | 0 <= i < |lines| :: !Classify(decode, lines[i]).Failure?
    case Some(message) => exists i :: IsErrorOf(decode, lines, i, message)
  }

  /** Line `i` is the last with an error, and this is its message. */
  ghost predicate IsErrorOf(decode: Decoder, lines: seq<Bytes>, i: int, message: string) {
    && 0 <= i < |lines| && Classify(decode, lines[i]) == Failure(message)
    && forall j | i < j < |lines| :: !Classify(decode, lines[j]).Failure?
  }

  lemma {:induction false} JudgedByLines(decode: Decoder, lines: seq<Bytes>)
    ensures JudgeAll(decode, lines).payload <==> SomeOutput(decode, lines)
    ensures IsLastError(decode, lines, JudgeAll(decode, lines).error)
  {
    if lines != [] {
      var front, last := lines[..|lines| - 1], lines[|lines| - 1];
      assert lines == front + [last];
      JudgedByLines(decode, front);
      JudgedSnoc(decode, front, last);
    }
  }

  lemma JudgedSnoc(decode: Decoder, lines: seq<Bytes>, line: Bytes)
    requires JudgeAll(decode, lines).payload <==> SomeOutput(decode, lines)
    requires IsLastError(decode, lines, JudgeAll(decode, lines).error)
    ensures JudgeAll(decode, lines + [line]).payload <==> SomeOutput(decode, lines + [line])
    ensures IsLastError(decode, lines + [line], JudgeAll(decode, lines + [line]).error)
  {
    JudgeOneMore(decode, lines, line);
    OutputSnoc(decode, lines, line);
    ErrorSnoc(decode, lines, line, JudgeAll(decode, lines).error);
  }

  lemma OutputSnoc(decode: Decoder, lines: seq<Bytes>, line: Bytes)
    ensures SomeOutput(decode, lines + [line]) <==> SomeOutput(decode, lines) || Classify(decode, line) == Output
  {
    var more := lines + [line];
    assert more[|lines|] == line;
    if SomeOutput(decode, lines) {
      var i :| 0 <= i < |lines| && Classify(decode, lines[i]) == Output;
      assert more[i] == lines[i];
    }
  }

  lemma ErrorSnoc(decode: Decoder, lines: seq<Bytes>, line: Bytes, error: Option<string>)
    requires IsLastError(decode, lines, error)
    ensures var c := Classify(decode, line);
      IsLastError(decode, lines + [line], if c.Failure? then Some(c.message) else error)
  {
    var more := lines + [line];
    assert more[|lines|] == line && forall i | 0 <= i < |lines| :: more[i] == lines[i];
    if !Classify(decode, line).Failure? && error.Some? {
      var i :| IsErrorOf(decode, lines, i, error.value);
      assert IsErrorOf(decode, more, i, error.value);
    } else if Classify(decode, line).Failure? {
      assert IsErrorOf(decode, more, |lines|, Classify(decode, line).message);
    }
  }

  lemma {:induction false} JudgeAllSplits(decode: Decoder, a: seq<Bytes>, b: seq<Bytes>)
    ensures JudgeAll(decode, a + b) == Combine(JudgeAll(decode, a), JudgeAll(decode, b))
  {
    if b == [] {
      assert a + b == a;
    } else {
      JudgeAllSplits(decode, a, b[..|b| - 1]);
      assert (a + b)[..|a + b| - 1] == a + b[..|b| - 1];
    }
  }

  // ---- Cutting a byte string into lines ----

  /** The complete lines, without their newlines, and what follows the last newline. */
  datatype Pieces = Pieces(lines: seq<Bytes>, tail: Bytes)

  function Cut(data: Bytes): Pieces {
    if data == [] then Pieces([], [])
    else
      var p, b := Cut(data[..|data| - 1]), data[|data| - 1];
      if b == NEWLINE then Pieces(p.lines + [p.tail], []) else Pieces(p.lines, p.tail + [b])
  }

  function Join(lines: seq<Bytes>): Bytes {
    if lines == [] then [] else Join(lines[..|lines| - 1]) + lines[|lines| - 1] + [NEWLINE]
  }

  /** Lines and tail are the data, cut up: nothing is lost and neither a line nor the tail has a newline. */
  lemma {:induction false} PiecesAreData(data: Bytes)
    ensures var p := Cut(data);
      && Join(p.lines) + p.tail == data
      && NEWLINE !in p.tail && forall line | line in p.lines :: NEWLINE !in line
  {
    if data != [] {
      var front, b := data[..|data| - 1], data[|data| - 1];
      PiecesAreData(front);
      var p := Cut(front);
      assert front == Join(p.lines) + p.tail && data == front + [b];
      if b == NEWLINE {
        assert (p.lines + [p.tail])[..|p.lines|] == p.lines;
      }
    }
  }

  /** Cutting in two steps is cutting at once. */
  lemma {:induction false} CutContinues(a: Bytes, b: Bytes)
    ensures var p, q := Cut(a), Cut(Cut(a).tail + b); Cut(a + b) == Pieces(p.lines + q.lines, q.tail)
  {
    if b == [] {
      assert a + b == a && Cut(a).tail + b == Cut(a).tail;
      PiecesAreData(a);
      CutWithoutNewline(Cut(a).tail);
    } else {
      var front := b[..|b| - 1];
      CutContinues(a, front);
      assert (a + b)[..|a + b| - 1] == a + front;
      assert (Cut(a).tail + b)[..|Cut(a).tail + b| - 1] == Cut(a).tail + front;
    }
  }

  lemma {:induction false} CutWithoutNewline(data: Bytes)
    requires NEWLINE !in data
    ensures Cut(data) == Pieces([], data)
  {
    if data != [] {
      CutWithoutNewline(data[..|data| - 1]);
    }
  }

  /** The position of the first newline, or the length. */
  function LineEnd(data: Bytes): (n: nat)
    ensures n <= |data|
  {
    if data == [] || data[0] == NEWLINE then 0 else 1 + LineEnd(data[1..])
  }

  lemma {:induction false} LineEndIsFirstNewline(data: Bytes)
    ensures var n := LineEnd(data); NEWLINE !in data[..n] && (n < |data| ==> data[n] == NEWLINE)
  {
    if data != [] && data[0] != NEWLINE {
      var n := LineEnd(data[1..]);
      LineEndIsFirstNewline(data[1..]);
      assert data[..1 + n] == [data[0]] + data[1..][..n];
    }
  }

  /** Up to its first newline the data is one line, and cutting goes on behind it. */
  lemma CutAtLineEnd(data: Bytes)
    requires LineEnd(data) < |data|
    ensures var n := LineEnd(data); var q := Cut(data[n + 1..]); Cut(data) == Pieces([data[..n]] + q.lines, q.tail)
  {
    var n := LineEnd(data);
    LineEndIsFirstNewline(data);
    CutOneLine(data[..n], data[n + 1..]);
    SplitAt(data, n);
  }

  lemma SplitAt(data: Bytes, n: nat)
    requires n < |data|
    ensures data[..n] + [data[n]] + data[n + 1..] == data
  {
  }

  lemma CutOneLine(line: Bytes, rest: Bytes)
    requires NEWLINE !in line
    ensures var q := Cut(rest); Cut(line + [NEWLINE] + rest) == Pieces([line] + q.lines, q.tail)
  {
    CutJustOneLine(line);
    CutContinues(line + [NEWLINE], rest);
    NothingBefore(rest);
  }

  lemma CutJustOneLine(line: Bytes)
    requires NEWLINE !in line
    ensures Cut(line + [NEWLINE]) == Pieces([line], [])
  {
    CutWithoutNewline(line);
    assert (line + [NEWLINE])[..|line|] == line;
  }

  lemma NothingBefore(s: Bytes)
    ensures [] + s == s
  {
  }

  /** `lines` are the complete lines of `data` before `rest`. */
  ghost predicate Progress(data: Bytes, lines: seq<Bytes>, rest: Bytes) {
    Cut(data) == Pieces(lines + Cut(rest).lines, Cut(rest).tail)
  }

  lemma ProgressContinues(data: Bytes, lines: seq<Bytes>, rest: Bytes, later: Bytes)
    requires Progress(data, lines, rest)
    requires LineEnd(rest) < |rest| && later == rest[LineEnd(rest) + 1..]
    ensures Progress(data, lines + [rest[..LineEnd(rest)]], later)
  {
    CutAtLineEnd(rest);
    Regroup(lines, rest[..LineEnd(rest)], Cut(later).lines);
  }

  lemma DropTwice(data: Bytes, start: nat, n: nat)
    requires start + n <= |data|
    ensures data[start..][n..] == data[start + n..]
  {
  }

  lemma ProgressEnds(data: Bytes, lines: seq<Bytes>, rest: Bytes)
    requires Progress(data, lines, rest) && LineEnd(rest) == |rest|
    ensures Cut(data) == Pieces(lines, rest)
  {
    LineEndIsFirstNewline(rest);
    assert rest[..|rest|] == rest;
    CutWithoutNewline(rest);
  }

  lemma JudgeOneMore(decode: Decoder, lines: seq<Bytes>, line: Bytes)
    ensures JudgeAll(decode, lines + [line]) == Combine(JudgeAll(decode, lines), Judge(Classify(decode, line)))
  {
    assert (lines + [line])[..|lines|] == lines;
  }

  // ---- The scanner in place ----

  class Scanner {
    var buf: Bytes  // the incomplete last line

    constructor ()
      ensures buf == []
    {
      buf := [];
    }

    /** Classifies every line completed by `chunk`, each once and in order, and keeps the rest. */
    method Scan(decode: Decoder, chunk: Bytes) returns (sawPayload: bool, error: Option<string>)
      modifies this
      ensures buf == Cut(old(buf) + chunk).tail
      ensures var lines := Cut(old(buf) + chunk).lines;
        && Verdict(sawPayload, error) == JudgeAll(decode, lines)
        && (sawPayload <==> SomeOutput(decode, lines)) && IsLastError(decode, lines, error)
    {
      buf := buf + chunk;
      var data := buf;
      sawPayload, error := false, None;
      var start := 0;
      ghost var lines: seq<Bytes> := [];
      var n := LineEnd(data[start..]);
      while n < |data[start..]|
        invariant start <= |data| && n == LineEnd(data[start..])
        invariant Progress(data, lines, data[start..])
        invariant Verdict(sawPayload, error) == JudgeAll(decode, lines)
        decreases |data| - start
      {
        var line := data[start..][..n];
        DropTwice(data, start, n + 1);
        ProgressContinues(data, lines, data[start..], data[start + n + 1..]);
        JudgeOneMore(decode, lines, line);
        start := start + n + 1;
        match Classify(decode, line) {
          case Ignored =>
          case Failure(message) => error := Some(message);
          case Output =>
            if !sawPayload {
              sawPayload := true;
            }
        }
        lines := lines + [line];
        n := LineEnd(data[start..]);
      }
      ProgressEnds(data, lines, data[start..]);
      JudgedByLines(decode, lines);
      buf := data[start..];
    }
  }

  // ---- Chunking invariance ----

  function Concat(chunks: seq<Bytes>): Bytes {
    if chunks == [] then [] else Concat(chunks[..|chunks| - 1]) + chunks[|chunks| - 1]
  }

  /** Buffer, verdicts combined, and lines classified, after scanning the chunks one by one. */
  datatype Scanned = Scanned(buf: Bytes, verdict: Verdict, lines: seq<Bytes>)

  function ScanAll(decode: Decoder, chunks: seq<Bytes>): Scanned {
    if chunks == [] then Scanned([], Verdict(false, None), [])
    else
      var s := ScanAll(decode, chunks[..|chunks| - 1]);
      var p := Cut(s.buf + chunks[|chunks| - 1]);
      Scanned(p.tail, Combine(s.verdict, JudgeAll(decode, p.lines)), s.lines + p.lines)
  }

  /** However the stream is cut, buffer, verdict and classified lines are those of one scan of the whole. */
  lemma {:induction false} ChunkingDoesNotMatter(decode: Decoder, chunks: seq<Bytes>)
    ensures var p := Cut(Concat(chunks));
      ScanAll(decode, chunks) == Scanned(p.tail, JudgeAll(decode, p.lines), p.lines)
  {
    if chunks != [] {
      var front, last := chunks[..|chunks| - 1], chunks[|chunks| - 1];
      ChunkingDoesNotMatter(decode, front);
      var a := Concat(front);
      CutContinues(a, last);
      JudgeAllSplits(decode, Cut(a).lines, Cut(Cut(a).tail + last).lines);
    }
  }

  /** Two ways of cutting the same stream cannot be told apart. */
  lemma SameStreamSameVerdict(decode: Decoder, chunks: seq<Bytes>, others: seq<Bytes>)
    requires Concat(chunks) == Concat(others)
    ensures ScanAll(decode, chunks) == ScanAll(decode, others)
  {
    ChunkingDoesNotMatter(decode, chunks);
    ChunkingDoesNotMatter(decode, others);
  }
}
