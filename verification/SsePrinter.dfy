/** Turning one complete response into the event stream a client expects, and a strict reader of such streams. */
module SsePrinters {
  import opened Sequences
  import opened Wrappers

  // ---- The response ----

  /** A part with a text to show, or anything else. */
  datatype Part = OutputText(text: string) | OtherPart

  /** `id` is empty when the item has none. */
  datatype Item = Item(id: string, content: seq<Part>) | NotADict

  // ---- The events ----

  datatype Event =
    | Created(responseId: string)
    | InProgress(responseId: string)
    | ItemAdded(outputIndex: nat, itemId: string)
    | PartAdded(itemId: string, outputIndex: nat, contentIndex: nat)
    | Delta(itemId: string, outputIndex: nat, contentIndex: nat, delta: string)
    | TextDone(itemId: string, outputIndex: nat, contentIndex: nat, text: string)
    | PartDone(itemId: string, outputIndex: nat, contentIndex: nat, text: string)
    | ItemDone(outputIndex: nat, itemId: string)
    | Completed(responseId: string, output: seq<Item>)

  datatype Frame = Frame(event: Event, number: nat)

  const STEP := 120

  /** The generated id of the item at a position. */
  type NewId = nat -> string

  function IdOf(newId: NewId, oi: nat, item: Item): string
    requires item.Item?
  {
    if item.id != "" then item.id else newId(oi)
  }

  function Cut(text: string): nat {
    if |text| < STEP then |text| else STEP
  }

  function DeltaEvents(id: string, oi: nat, ci: nat, text: string): seq<Event>
    decreases |text|
  {
    if text == "" then []
    else [Delta(id, oi, ci, text[..Cut(text)])] + DeltaEvents(id, oi, ci, text[Cut(text)..])
  }

  function PartEvents(id: string, oi: nat, ci: nat, text: string): seq<Event> {
    [PartAdded(id, oi, ci)] + DeltaEvents(id, oi, ci, text) + [TextDone(id, oi, ci, text), PartDone(id, oi, ci, text)]
  }

  function ContentEvents(id: string, oi: nat, parts: seq<Part>): seq<Event> {
    if parts == [] then []
    else
      var ci, part := |parts| - 1, parts[|parts| - 1];
      ContentEvents(id, oi, parts[..ci]) + if part.OutputText? then PartEvents(id, oi, ci, part.text) else []
  }

  function ItemEvents(newId: NewId, oi: nat, item: Item): seq<Event> {
    if item.NotADict? then []
    else
      var id := IdOf(newId, oi, item);
      [ItemAdded(oi, id)] + ContentEvents(id, oi, item.content) + [ItemDone(oi, id)]
  }

  function Flattened(pieces: seq<seq<Event>>): seq<Event> {
    if pieces == [] then [] else Flattened(pieces[..|pieces| - 1]) + pieces[|pieces| - 1]
  }

  function ItemPieces(newId: NewId, output: seq<Item>): (pieces: seq<seq<Event>>)
    ensures |pieces| == |output| && forall oi | 0 <= oi < |output| :: pieces[oi] == ItemEvents(newId, oi, output[oi])
  {
    seq(|output|, oi requires 0 <= oi < |output| => ItemEvents(newId, oi, output[oi]))
  }

  function OutputEvents(newId: NewId, output: seq<Item>): seq<Event> {
    Flattened(ItemPieces(newId, output))
  }

  function ResponseEvents(newId: NewId, rid: string, output: seq<Item>): seq<Event> {
    [Created(rid), InProgress(rid)] + OutputEvents(newId, output) + [Completed(rid, output)]
  }

  /** What is left of the text from position `i` on. */
  function Behind(text: string, i: nat): string {
    if i < |text| then text[i..] else ""
  }

  lemma FirstDelta(id: string, oi: nat, ci: nat, text: string, i: nat)
    requires i < |text|
    ensures var rest := Behind(text, i);
      DeltaEvents(id, oi, ci, rest)
      == [Delta(id, oi, ci, rest[..Cut(rest)])] + DeltaEvents(id, oi, ci, Behind(text, i + STEP))
  {
    assert text[i..][Cut(text[i..])..] == Behind(text, i + STEP);
  }

  lemma OneMorePiece(pieces: seq<seq<Event>>, i: nat)
    requires i < |pieces|
    ensures Flattened(pieces[..i + 1]) == Flattened(pieces[..i]) + pieces[i]
  {
    assert pieces[..i + 1][..i] == pieces[..i];
  }

  // ---- The printer ----

  ghost predicate Numbered(frames: seq<Frame>) {
    forall i | 0 <= i < |frames| :: frames[i].number == i
  }

  ghost function EventsOf(frames: seq<Frame>): (events: seq<Event>)
    ensures |events| == |frames| && forall i | 0 <= i < |events| :: events[i] == frames[i].event
  {
    seq(|frames|, i requires 0 <= i < |frames| => frames[i].event)
  }

  class Printer {
    var frames: seq<Frame>
    var next: nat

    constructor ()
      ensures Valid() && Events() == []
    {
      frames, next := [], 0;
    }

    /** Sequence numbers are 0, 1, 2 and so on, without gaps. */
    ghost predicate Valid()
      reads this
    {
      next == |frames| && Numbered(frames)
    }

    ghost function Events(): seq<Event>
      reads this
    {
      EventsOf(frames)
    }

    method Emit(event: Event)
      requires Valid()
      modifies this
      ensures Valid() && Events() == old(Events()) + [event]
    {
      frames := frames + [Frame(event, next)];
      next := next + 1;
    }

    method PrintDeltas(id: string, oi: nat, ci: nat, text: string)
      requires Valid()
      modifies this
      ensures Valid() && Events() == old(Events()) + DeltaEvents(id, oi, ci, text)
    {
      var i := 0;
      ghost var before, printed: seq<Event> := Events(), [];
      while i < |text|
        invariant Valid() && Events() == before + printed
        invariant DeltaEvents(id, oi, ci, text) == printed + DeltaEvents(id, oi, ci, Behind(text, i))
        decreases |text| - i
      {
        var delta := Behind(text, i)[..Cut(Behind(text, i))];
        FirstDelta(id, oi, ci, text, i);
        Regroup(printed, Delta(id, oi, ci, delta), DeltaEvents(id, oi, ci, Behind(text, i + STEP)));
        Emit(Delta(id, oi, ci, delta));
        printed := printed + [Delta(id, oi, ci, delta)];
        i := i + STEP;
      }
    }

    method PrintPart(id: string, oi: nat, ci: nat, text: string)
      requires Valid()
      modifies this
      ensures Valid() && Events() == old(Events()) + PartEvents(id, oi, ci, text)
    {
      Emit(PartAdded(id, oi, ci));
      PrintDeltas(id, oi, ci, text);
      Emit(TextDone(id, oi, ci, text));
      Emit(PartDone(id, oi, ci, text));
    }

    method PrintItem(newId: NewId, oi: nat, item: Item)
      requires Valid()
      modifies this
      ensures Valid() && Events() == old(Events()) + ItemEvents(newId, oi, item)
    {
      if item.NotADict? {
        return;
      }
      var id := IdOf(newId, oi, item);
      ghost var before := Events();
      Emit(ItemAdded(oi, id));
      PrintContent(id, oi, item.content);
      Emit(ItemDone(oi, id));
      Associates(before + [ItemAdded(oi, id)], ContentEvents(id, oi, item.content), [ItemDone(oi, id)]);
    }

    method PrintContent(id: string, oi: nat, parts: seq<Part>)
      requires Valid()
      modifies this
      ensures Valid() && Events() == old(Events()) + ContentEvents(id, oi, parts)
    {
      ghost var before := Events();
      for ci := 0 to |parts|
        invariant Valid() && Events() == before + ContentEvents(id, oi, parts[..ci])
      {
        assert parts[..ci + 1][..ci] == parts[..ci];
        if parts[ci].OutputText? {
          PrintPart(id, oi, ci, parts[ci].text);
          Associates(before, ContentEvents(id, oi, parts[..ci]), PartEvents(id, oi, ci, parts[ci].text));
        }
      }
      assert parts[..|parts|] == parts;
    }

    method PrintOutput(newId: NewId, output: seq<Item>)
      requires Valid()
      modifies this
      ensures Valid() && Events() == old(Events()) + OutputEvents(newId, output)
    {
      ghost var before, pieces := Events(), ItemPieces(newId, output);
      ghost var printed: seq<Event> := [];
      for oi := 0 to |output|
        invariant Valid() && Events() == before + printed && printed == Flattened(pieces[..oi])
      {
        OneMorePiece(pieces, oi);
        PrintItem(newId, oi, output[oi]);
        Associates(before, printed, pieces[oi]);
        printed := printed + pieces[oi];
      }
      assert pieces[..|output|] == pieces;
    }

    method PrintResponse(newId: NewId, rid: string, output: seq<Item>)
      requires Valid() && Events() == []
      modifies this
      ensures Valid() && Events() == ResponseEvents(newId, rid, output)
    {
      Emit(Created(rid));
      Emit(InProgress(rid));
      PrintOutput(newId, output);
      Emit(Completed(rid, output));
    }
  }

  // ---- A strict reader ----

  /** Where the reader is: before an item it knows the least index the next one may have. */
  datatype Phase =
    | Start
    | Announced
    | BetweenItems(nextItem: nat)
    | InItem(oi: nat, id: string, nextPart: nat)
    | InPart(oi: nat, id: string, ci: nat)
    | AfterText(oi: nat, id: string, ci: nat)
    | Finished(output: seq<Item>)

  datatype Reader = Reader(phase: Phase, ids: map<nat, string>, texts: map<(nat, nat), string>, responseId: string)

  const NEW_READER := Reader(Start, map[], map[], "")

  /** Refuses whatever is out of place: an item or part that opens inside another one, closes with another id
      or index, or comes out of order; a delta that is empty or longer than 120 characters, or comes behind a shorter
      one; a closing text that is not the text accumulated from the deltas; another response id than the first; a
      completed response whose items and texts are not those read; anything behind the completion. */
  function Step(r: Reader, e: Event): Option<Reader> {
    match e
    case Created(rid) => if r.phase.Start? then Some(r.(phase := Announced, responseId := rid)) else None
    case InProgress(rid) =>
      if r.phase.Announced? && r.responseId == rid then Some(r.(phase := BetweenItems(0))) else None
    case ItemAdded(oi, id) =>
      if r.phase.BetweenItems? && r.phase.nextItem <= oi then Some(r.(phase := InItem(oi, id, 0), ids := r.ids[oi := id]))
      else None
    case PartAdded(id, oi, ci) =>
      if r.phase.InItem? && r.phase.id == id && r.phase.oi == oi && r.phase.nextPart <= ci
      then Some(r.(phase := InPart(oi, id, ci), texts := r.texts[(oi, ci) := ""]))
      else None
    case Delta(id, oi, ci, delta) =>
      if r.phase == InPart(oi, id, ci) && (oi, ci) in r.texts && 0 < |delta| <= 120 && |r.texts[(oi, ci)]| % 120 == 0
      then Some(r.(texts := r.texts[(oi, ci) := r.texts[(oi, ci)] + delta]))
      else None
    case TextDone(id, oi, ci, text) =>
      if r.phase == InPart(oi, id, ci) && (oi, ci) in r.texts && r.texts[(oi, ci)] == text
      then Some(r.(phase := AfterText(oi, id, ci)))
      else None
    case PartDone(id, oi, ci, text) =>
      if r.phase == AfterText(oi, id, ci) && (oi, ci) in r.texts && r.texts[(oi, ci)] == text
      then Some(r.(phase := InItem(oi, id, ci + 1)))
      else None
    case ItemDone(oi, id) =>
      if r.phase.InItem? && r.phase.oi == oi && r.phase.id == id then Some(r.(phase := BetweenItems(oi + 1))) else None
    case Completed(rid, output) =>
      if r.phase.BetweenItems? && r.responseId == rid && ItemsOf(output) == r.ids.Keys && Texts(output) == r.texts
      then Some(r.(phase := Finished(output)))
      else None
  }

  function Read(r: Reader, events: seq<Event>): Option<Reader>
    decreases |events|
  {
    if events == [] then Some(r)
    else
      match Step(r, events[0])
      case None => None
      case Some(r') => Read(r', events[1..])
  }

  lemma {:induction false} ReadSplits(r: Reader, a: seq<Event>, b: seq<Event>)
    ensures Read(r, a + b) == match Read(r, a) case None => None case Some(r') => Read(r', b)
    decreases |a|
  {
    if a == [] {
      assert a + b == b;
    } else {
      assert (a + b)[1..] == a[1..] + b;
      var s := Step(r, a[0]);
      if s.Some? {
        ReadSplits(s.value, a[1..], b);
      }
    }
  }

  lemma ReadOne(r: Reader, e: Event)
    ensures Read(r, [e]) == Step(r, e)
  {
  }

  /** The texts of the parts of one item, added to `texts`. */
  function WithTexts(texts: map<(nat, nat), string>, oi: nat, parts: seq<Part>): map<(nat, nat), string> {
    if parts == [] then texts
    else
      var ci, part := |parts| - 1, parts[|parts| - 1];
      var before := WithTexts(texts, oi, parts[..ci]);
      if part.OutputText? then before[(oi, ci) := part.text] else before
  }

  function Texts(output: seq<Item>): map<(nat, nat), string> {
    if output == [] then map[]
    else
      var oi := |output| - 1;
      var before := Texts(output[..oi]);
      if output[oi].Item? then WithTexts(before, oi, output[oi].content) else before
  }

  function ItemsOf(output: seq<Item>): set<nat> {
    set oi: nat | oi < |output| && output[oi].Item?
  }

  function Ids(newId: NewId, output: seq<Item>): map<nat, string> {
    map oi | 0 <= oi < |output| && output[oi].Item? :: IdOf(newId, oi, output[oi])
  }

  predicate HasText(output: seq<Item>, oi: nat, ci: nat) {
    oi < |output| && output[oi].Item? && ci < |output[oi].content| && output[oi].content[ci].OutputText?
  }

  lemma {:induction false} WithTextsAreTexts(texts: map<(nat, nat), string>, oi: nat, parts: seq<Part>, o: nat, ci: nat)
    ensures var t := WithTexts(texts, oi, parts);
      if o == oi && ci < |parts| && parts[ci].OutputText? then (o, ci) in t && t[(o, ci)] == parts[ci].text
      else ((o, ci) in t <==> (o, ci) in texts) && ((o, ci) in t ==> t[(o, ci)] == texts[(o, ci)])
  {
    if parts != [] {
      WithTextsAreTexts(texts, oi, parts[..|parts| - 1], o, ci);
    }
  }

  lemma {:induction false} TextsAreTexts(output: seq<Item>, oi: nat, ci: nat)
    ensures (oi, ci) in Texts(output) <==> HasText(output, oi, ci)
    ensures HasText(output, oi, ci) ==> Texts(output)[(oi, ci)] == output[oi].content[ci].text
  {
    if output != [] {
      var last := |output| - 1;
      TextsAreTexts(output[..last], oi, ci);
      if output[last].Item? {
        WithTextsAreTexts(Texts(output[..last]), last, output[last].content, oi, ci);
      }
    }
  }

  lemma ReadThen(r: Reader, a: seq<Event>, mid: Reader, b: seq<Event>, end: Reader)
    requires Read(r, a) == Some(mid) && Read(mid, b) == Some(end)
    ensures Read(r, a + b) == Some(end)
  {
    ReadSplits(r, a, b);
  }

  function WithText(r: Reader, oi: nat, ci: nat, text: string): Reader {
    r.(texts := r.texts[(oi, ci) := text])
  }

  lemma {:induction false} DeltasReadBack(r: Reader, id: string, oi: nat, ci: nat, text: string)
    requires r.phase == InPart(oi, id, ci) && (oi, ci) in r.texts && |r.texts[(oi, ci)]| % 120 == 0
    ensures Read(r, DeltaEvents(id, oi, ci, text)) == Some(WithText(r, oi, ci, r.texts[(oi, ci)] + text))
    decreases |text|
  {
    var before := r.texts[(oi, ci)];
    if text == "" {
      assert before + text == before && r.texts[(oi, ci) := before] == r.texts;
    } else {
      var delta, rest := text[..Cut(text)], text[Cut(text)..];
      var e, r' := Delta(id, oi, ci, delta), WithText(r, oi, ci, before + delta);
      if rest == "" {
        assert before + delta + "" == before + delta == before + text;
      } else {
        DeltasReadBack(r', id, oi, ci, rest);
      }
      ReadOne(r, e);
      assert before + text == before + delta + rest;
      assert r'.texts[(oi, ci) := before + text] == r.texts[(oi, ci) := before + text];
      ReadThen(r, [e], r', DeltaEvents(id, oi, ci, rest), WithText(r, oi, ci, before + text));
    }
  }

  lemma ClosingReadsBack(r: Reader, id: string, oi: nat, ci: nat, text: string)
    requires r.phase == InPart(oi, id, ci) && (oi, ci) in r.texts && r.texts[(oi, ci)] == text
    ensures Read(r, [TextDone(id, oi, ci, text), PartDone(id, oi, ci, text)]) == Some(r.(phase := InItem(oi, id, ci + 1)))
  {
    var mid, end := r.(phase := AfterText(oi, id, ci)), r.(phase := InItem(oi, id, ci + 1));
    ReadOne(r, TextDone(id, oi, ci, text));
    ReadOne(mid, PartDone(id, oi, ci, text));
    ReadThen(r, [TextDone(id, oi, ci, text)], mid, [PartDone(id, oi, ci, text)], end);
    assert [TextDone(id, oi, ci, text)] + [PartDone(id, oi, ci, text)]
        == [TextDone(id, oi, ci, text), PartDone(id, oi, ci, text)];
  }

  lemma PartReadsBack(r: Reader, id: string, oi: nat, ci: nat, text: string)
    requires r.phase.InItem? && r.phase.oi == oi && r.phase.id == id && r.phase.nextPart <= ci
    ensures Read(r, PartEvents(id, oi, ci, text)) == Some(WithText(r, oi, ci, text).(phase := InItem(oi, id, ci + 1)))
  {
    var begun := r.(phase := InPart(oi, id, ci), texts := r.texts[(oi, ci) := ""]);
    var filled := WithText(r, oi, ci, text).(phase := InPart(oi, id, ci));
    var deltas := DeltaEvents(id, oi, ci, text);
    ReadOne(r, PartAdded(id, oi, ci));
    DeltasReadBack(begun, id, oi, ci, text);
    assert "" + text == text;
    assert begun.texts[(oi, ci) := text] == filled.texts;
    ReadThen(r, [PartAdded(id, oi, ci)], begun, deltas, filled);
    ClosingReadsBack(filled, id, oi, ci, text);
    ReadThen(r, [PartAdded(id, oi, ci)] + deltas, filled, [TextDone(id, oi, ci, text), PartDone(id, oi, ci, text)],
             filled.(phase := InItem(oi, id, ci + 1)));
  }

  lemma {:induction false} ContentReadsBack(r: Reader, id: string, oi: nat, parts: seq<Part>)
    requires r.phase == InItem(oi, id, 0)
    ensures var end := Read(r, ContentEvents(id, oi, parts));
      && end.Some? && end.value == r.(phase := end.value.phase, texts := WithTexts(r.texts, oi, parts))
      && end.value.phase.InItem? && end.value.phase == InItem(oi, id, end.value.phase.nextPart)
      && end.value.phase.nextPart <= |parts|
  {
    if parts != [] {
      var ci, part := |parts| - 1, parts[|parts| - 1];
      ContentReadsBack(r, id, oi, parts[..ci]);
      var front := ContentEvents(id, oi, parts[..ci]);
      var mid := Read(r, front).value;
      if part.OutputText? {
        PartReadsBack(mid, id, oi, ci, part.text);
        ReadSplits(r, front, PartEvents(id, oi, ci, part.text));
      } else {
        assert ContentEvents(id, oi, parts) == front;
      }
    }
  }

  lemma ItemReadsBack(r: Reader, newId: NewId, oi: nat, item: Item)
    requires item.Item? && r.phase.BetweenItems? && r.phase.nextItem <= oi
    ensures Read(r, ItemEvents(newId, oi, item))
         == Some(r.(phase := BetweenItems(oi + 1), ids := r.ids[oi := IdOf(newId, oi, item)],
                    texts := WithTexts(r.texts, oi, item.content)))
  {
    var id := IdOf(newId, oi, item);
    var inside := r.(phase := InItem(oi, id, 0), ids := r.ids[oi := id]);
    var content := ContentEvents(id, oi, item.content);
    ReadOne(r, ItemAdded(oi, id));
    ContentReadsBack(inside, id, oi, item.content);
    var end := Read(inside, content).value;
    ReadOne(end, ItemDone(oi, id));
    ReadSplits(r, [ItemAdded(oi, id)], content);
    ReadSplits(r, [ItemAdded(oi, id)] + content, [ItemDone(oi, id)]);
  }

  /** The reader after the first items of the output. */
  ghost predicate ReadUpTo(r: Reader, newId: NewId, output: seq<Item>) {
    && r.phase.BetweenItems? && r.phase.nextItem <= |output|
    && r.ids == Ids(newId, output) && r.texts == Texts(output)
  }

  lemma NextItemReadsBack(r: Reader, newId: NewId, front: seq<Item>, output: seq<Item>) returns (end: Reader)
    requires output != [] && front == output[..|output| - 1] && ReadUpTo(r, newId, front)
    ensures Read(r, ItemEvents(newId, |front|, output[|front|])) == Some(end) && ReadUpTo(end, newId, output)
    ensures end.responseId == r.responseId
  {
    var oi := |front|;
    var item := output[oi];
    if item.Item? {
      ItemReadsBack(r, newId, oi, item);
      end := r.(phase := BetweenItems(oi + 1), ids := r.ids[oi := IdOf(newId, oi, item)],
                texts := WithTexts(r.texts, oi, item.content));
      assert Ids(newId, output) == Ids(newId, front)[oi := IdOf(newId, oi, item)];
    } else {
      end := r;
      assert Ids(newId, output) == Ids(newId, front);
    }
  }

  lemma {:induction false} OutputReadsBack(r: Reader, newId: NewId, output: seq<Item>, k: nat) returns (end: Reader)
    requires r == Reader(BetweenItems(0), map[], map[], r.responseId) && k <= |output|
    ensures Read(r, Flattened(ItemPieces(newId, output)[..k])) == Some(end) && ReadUpTo(end, newId, output[..k])
    ensures end.responseId == r.responseId
  {
    if k == 0 {
      end := r;
    } else {
      var front, pieces := output[..k - 1], ItemPieces(newId, output);
      var mid := OutputReadsBack(r, newId, output, k - 1);
      assert output[..k][..k - 1] == front;
      end := NextItemReadsBack(mid, newId, front, output[..k]);
      OneMorePiece(pieces, k - 1);
      ReadThen(r, Flattened(pieces[..k - 1]), mid, pieces[k - 1], end);
    }
  }

  lemma HeadReadsBack(rid: string, start: Reader)
    requires start == Reader(BetweenItems(0), map[], map[], rid)
    ensures Read(NEW_READER, [Created(rid), InProgress(rid)]) == Some(start)
  {
    var announced := Reader(Announced, map[], map[], rid);
    ReadOne(NEW_READER, Created(rid));
    ReadOne(announced, InProgress(rid));
    ReadThen(NEW_READER, [Created(rid)], announced, [InProgress(rid)], start);
    assert [Created(rid)] + [InProgress(rid)] == [Created(rid), InProgress(rid)];
  }

  lemma CompletionReadsBack(r: Reader, newId: NewId, rid: string, output: seq<Item>)
    requires ReadUpTo(r, newId, output) && r.responseId == rid
    ensures Read(r, [Completed(rid, output)]) == Some(r.(phase := Finished(output)))
  {
    assert ItemsOf(output) == Ids(newId, output).Keys;
    ReadOne(r, Completed(rid, output));
  }

  /** The strict reader accepts every printed response, so its items and parts are properly nested and in
      order, keeps its id and its whole output, and rebuilds every output text exactly, under the indices it has in
      the response.  An item goes by its own id, or by the one generated for its position. */
  lemma ResponseReadsBack(newId: NewId, rid: string, output: seq<Item>)
    ensures Read(NEW_READER, ResponseEvents(newId, rid, output))
         == Some(Reader(Finished(output), Ids(newId, output), Texts(output), rid))
    ensures forall oi: nat :: oi in Ids(newId, output) <==> oi < |output| && output[oi].Item?
    ensures forall oi: nat | oi in Ids(newId, output) ::
      Ids(newId, output)[oi] == if output[oi].id == "" then newId(oi) else output[oi].id
    ensures forall oi: nat, ci: nat :: (oi, ci) in Texts(output) <==> HasText(output, oi, ci)
    ensures forall oi: nat, ci: nat | HasText(output, oi, ci) :: Texts(output)[(oi, ci)] == output[oi].content[ci].text
  {
    var start := Reader(BetweenItems(0), map[], map[], rid);
    HeadReadsBack(rid, start);
    var end := OutputReadsBack(start, newId, output, |output|);
    assert ItemPieces(newId, output)[..|output|] == ItemPieces(newId, output) && output[..|output|] == output;
    ReadThen(NEW_READER, [Created(rid), InProgress(rid)], start, OutputEvents(newId, output), end);
    CompletionReadsBack(end, newId, rid, output);
    ReadThen(NEW_READER, [Created(rid), InProgress(rid)] + OutputEvents(newId, output), end, [Completed(rid, output)],
             end.(phase := Finished(output)));
    forall oi: nat, ci: nat
      ensures (oi, ci) in Texts(output) <==> HasText(output, oi, ci)
      ensures HasText(output, oi, ci) ==> Texts(output)[(oi, ci)] == output[oi].content[ci].text
    {
      TextsAreTexts(output, oi, ci);
    }
  }

  /** The completed response lists the items under the ids they were streamed with exactly when none of them
      came without an id: a generated id is not written back. */
  lemma CompletedHasStreamedIdsIff(newId: NewId, output: seq<Item>)
    requires forall oi :: newId(oi) != ""
    ensures (forall oi | oi in Ids(newId, output) :: output[oi].id == Ids(newId, output)[oi])
       <==> (forall item | item in output && item.Item? :: item.id != "")
  {
    if forall oi | oi in Ids(newId, output) :: output[oi].id == Ids(newId, output)[oi] {
      forall item | item in output && item.Item?
        ensures item.id != ""
      {
        var oi :| 0 <= oi < |output| && output[oi] == item;
        assert oi in Ids(newId, output);
      }
    }
  }
}
