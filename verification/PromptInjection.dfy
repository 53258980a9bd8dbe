/** The system message that identifies the client to the upstream: it is put first when it is missing, and
    the marks of other clients are taken out of all instructions behind it. */
module PromptInjection {
  import opened Sequences

  // ---- Neutralizing a marker ----

  const MARKER := "codex"
  const NEUTRAL := "assistant"

  function Lower(c: char): char {
    if 'A' <= c <= 'Z' then c - 'A' + 'a' else c
  }

  /** Whether the text starts with the marker, in any mix of cases. */
  predicate StartsWithMarker(s: string) {
    |s| >= 5 && Lower(s[0]) == 'c' && Lower(s[1]) == 'o' && Lower(s[2]) == 'd' && Lower(s[3]) == 'e' && Lower(s[4]) == 'x'
  }

  /** Replaces the markers from left to right. */
  function Sanitized(s: string): string {
    if s == "" then ""
    else if StartsWithMarker(s) then NEUTRAL + Sanitized(s[5..])
    else [s[0]] + Sanitized(s[1..])
  }

  predicate Clean(s: string) {
    s == "" || (!StartsWithMarker(s) && Clean(s[1..]))
  }

  /** A clean text has the marker nowhere. */
  lemma {:induction false} CleanMeansNowhere(s: string)
    ensures Clean(s) <==> forall i | 0 <= i <= |s| :: !StartsWithMarker(s[i..])
  {
    if s != "" {
      CleanMeansNowhere(s[1..]);
      assert s[0..] == s;
      forall i | 0 < i <= |s|
        ensures s[i..] == s[1..][i - 1..]
      {
      }
      if Clean(s) {
        forall i | 0 <= i <= |s|
          ensures !StartsWithMarker(s[i..])
        {
          assert i > 0 ==> s[i..] == s[1..][i - 1..];
        }
      } else if !StartsWithMarker(s) {
        var j :| 0 <= j <= |s[1..]| && StartsWithMarker(s[1..][j..]);
        assert s[j + 1..] == s[1..][j..];
      }
    }
  }

  predicate MarkerLetters(s: string) {
    forall c | c in s :: Lower(c) in MARKER
  }

  /** The replacement shares no letter with the marker, so letters of the marker in front of a sanitized text
      were in front of the text. */
  lemma {:induction false} MarkerLettersWereThere(s: string, k: nat)
    requires k <= |Sanitized(s)| && MarkerLetters(Sanitized(s)[..k])
    ensures k <= |s| && s[..k] == Sanitized(s)[..k]
  {
    if k > 0 {
      assert Sanitized(s)[0] in Sanitized(s)[..k];
      if !StartsWithMarker(s) {
        assert Sanitized(s[1..]) == Sanitized(s)[1..];
        forall c | c in Sanitized(s[1..])[..k - 1]
          ensures Lower(c) in MARKER
        {
          assert c in Sanitized(s)[..k];
        }
        MarkerLettersWereThere(s[1..], k - 1);
        assert s[..k] == [s[0]] + s[1..][..k - 1];
        assert Sanitized(s)[..k] == [s[0]] + Sanitized(s[1..])[..k - 1];
      }
    }
  }

  lemma NoMarkerArises(s: string)
    requires s != "" && !StartsWithMarker(s)
    ensures !StartsWithMarker(Sanitized(s))
  {
    var r := Sanitized(s);
    if StartsWithMarker(r) {
      assert forall i | 0 <= i < 5 :: Lower(r[..5][i]) in MARKER;
      MarkerLettersWereThere(s, 5);
      assert forall i | 0 <= i < 5 :: s[..5][i] == s[i] && r[..5][i] == r[i];
    }
  }

  lemma CleanBehindNeutral(s: string)
    requires Clean(s)
    ensures Clean(NEUTRAL + s)
  {
    CleanMeansNowhere(s);
    var t := NEUTRAL + s;
    forall i | 0 <= i <= |t|
      ensures !StartsWithMarker(t[i..])
    {
      if i < |NEUTRAL| {
        assert t[i] == NEUTRAL[i];
      } else {
        assert t[i..] == s[i - |NEUTRAL|..];
      }
    }
    CleanMeansNowhere(t);
  }

  /** No marker is left, in any mix of cases, and none arises from what stood around the replaced ones. */
  lemma {:induction false} SanitizedIsClean(s: string)
    ensures Clean(Sanitized(s))
  {
    if s != "" {
      if StartsWithMarker(s) {
        SanitizedIsClean(s[5..]);
        CleanBehindNeutral(Sanitized(s[5..]));
      } else {
        SanitizedIsClean(s[1..]);
        NoMarkerArises(s);
        assert Sanitized(s)[1..] == Sanitized(s[1..]);
      }
    }
  }

  /** A text is left alone exactly when it has no marker. */
  lemma {:induction false} SanitizedUnchangedIff(s: string)
    ensures Sanitized(s) == s <==> Clean(s)
  {
    if Clean(s) {
      CleanIsUnchanged(s);
    } else {
      SanitizedIsClean(s);
    }
  }

  lemma {:induction false} CleanIsUnchanged(s: string)
    requires Clean(s)
    ensures Sanitized(s) == s
  {
    if s != "" {
      CleanIsUnchanged(s[1..]);
    }
  }

  /** The five letters of the marker, each in either case. */
  predicate IsMarker(s: string) {
    |s| == 5 && forall i | 0 <= i < 5 :: s[i] == "codex"[i] || s[i] == "CODEX"[i]
  }

  lemma StartsWithMarkerIff(s: string)
    ensures StartsWithMarker(s) <==> |s| >= 5 && IsMarker(s[..5])
  {
    if |s| >= 5 {
      var t := s[..5];
      assert StartsWithMarker(s) <==> forall i | 0 <= i < 5 :: Lower(t[i]) == "codex"[i];
      assert forall i | 0 <= i < 5 :: Lower(t[i]) == "codex"[i] <==> t[i] == "codex"[i] || t[i] == "CODEX"[i];
    }
  }

  /** A marker overlaps no other, so what stands in front of the first one is kept as it is, the neutral word takes the
      place of the marker, and the rest is sanitized by itself. */
  lemma {:induction false} SanitizedAroundMarker(before: string, marker: string, rest: string)
    requires Clean(before) && IsMarker(marker)
    ensures Sanitized(before + marker + rest) == before + "assistant" + Sanitized(rest)
  {
    if before == "" {
      SanitizedAtMarker(marker, rest);
      assert before + marker + rest == marker + rest;
      assert before + "assistant" + Sanitized(rest) == "assistant" + Sanitized(rest);
    } else {
      SanitizedAroundMarker(before[1..], marker, rest);
      NoMarkerAcross(before, marker, rest);
      SanitizedStep(before, marker, rest);
      Unconsed(before, "assistant", Sanitized(rest));
    }
  }

  lemma SanitizedAtMarker(marker: string, rest: string)
    requires IsMarker(marker)
    ensures Sanitized(marker + rest) == NEUTRAL + Sanitized(rest)
  {
    assert (marker + rest)[..5] == marker && (marker + rest)[5..] == rest;
    StartsWithMarkerIff(marker + rest);
  }

  lemma SanitizedStep(before: string, marker: string, rest: string)
    requires before != "" && !StartsWithMarker(before + marker + rest)
    ensures Sanitized(before + marker + rest) == [before[0]] + Sanitized(before[1..] + marker + rest)
  {
    assert (before + marker + rest)[1..] == before[1..] + marker + rest;
  }

  lemma NoMarkerAcross(before: string, marker: string, rest: string)
    requires before != "" && Clean(before) && IsMarker(marker)
    ensures !StartsWithMarker(before + marker + rest)
  {
    var s := before + marker + rest;
    StartsWithMarkerIff(s);
    StartsWithMarkerIff(before);
    if |before| < 5 {
      assert s[..5][|before|] == marker[0];
    } else {
      assert s[..5] == before[..5];
    }
  }

  // ---- Messages ----

  /** Parsed JSON this code only passes on. */
  type Other = string

  /** A content block with a text, or anything else. */
  datatype Block = TextBlock(text: string, fields: Other) | OtherBlock(value: Other)

  datatype Content = Text(text: string) | Blocks(blocks: seq<Block>) | OtherContent(value: Other)

  datatype Role = System | Developer | OtherRole(name: Other)

  datatype Message = Message(role: Role, content: Content, fields: Other) | NotADict(value: Other)

  /** What `str` makes of a content that is not a string; any function will do. */
  type Repr = Content -> string

  predicate IsInstruction(m: Message) {
    m.Message? && (m.role.System? || m.role.Developer?)
  }

  function SanitizedBlock(b: Block): Block {
    if b.TextBlock? then b.(text := Sanitized(b.text)) else b
  }

  function SanitizedBlocks(blocks: seq<Block>): (r: seq<Block>)
    ensures |r| == |blocks| && forall i | 0 <= i < |r| :: r[i] == SanitizedBlock(blocks[i])
  {
    seq(|blocks|, i requires 0 <= i < |blocks| => SanitizedBlock(blocks[i]))
  }

  function SanitizedContent(c: Content): Content {
    match c
    case Text(text) => Text(Sanitized(text))
    case Blocks(blocks) => Blocks(SanitizedBlocks(blocks))
    case OtherContent(_) => c
  }

  function SanitizedMessage(m: Message): Message {
    if IsInstruction(m) then m.(content := SanitizedContent(m.content)) else m
  }

  function SanitizedMessages(messages: seq<Message>): (r: seq<Message>)
    ensures |r| == |messages| && forall i | 0 <= i < |r| :: r[i] == SanitizedMessage(messages[i])
  {
    seq(|messages|, i requires 0 <= i < |messages| => SanitizedMessage(messages[i]))
  }

  predicate IsSpace(c: char) {
    var n := c as int;
    || 9 <= n <= 13 || 28 <= n <= 32 || n == 0x85 || n == 0xA0 || n == 0x1680 || 0x2000 <= n <= 0x200A
    || n == 0x2028 || n == 0x2029 || n == 0x202F || n == 0x205F || n == 0x3000
  }

  function Str(repr: Repr, c: Content): string {
    if c.Text? then c.text else repr(c)
  }

  /** Whether the message already identifies the client. */
  predicate IsFingerprint(repr: Repr, prefix: string, m: Message) {
    m.Message? && m.role.System? && prefix != "" && Strip(IsSpace, prefix) <= Strip(IsSpace, Str(repr, m.content))
  }

  /** A system message identifies the client exactly when its text begins, but for spaces, with the words of the
      prefix, which are the prefix without the spaces around it. */
  lemma FingerprintIff(repr: Repr, lead: string, words: string, trail: string, m: Message)
    requires All(IsSpace, lead) && All(IsSpace, trail) && words != "" && HasBareEnds(IsSpace, words)
    ensures IsFingerprint(repr, lead + words + trail, m) <==>
      && m.Message? && m.role.System?
      && exists before, rest :: All(IsSpace, before) && Str(repr, m.content) == before + words + rest
  {
    var prefix := lead + words + trail;
    StripOf(IsSpace, lead, words, trail);
    assert prefix[|lead|] == words[0];
    if m.Message? {
      BeginsWithIff(words, Str(repr, m.content));
    }
  }

  lemma BeginsWithIff(words: string, text: string)
    requires words != "" && HasBareEnds(IsSpace, words)
    ensures words <= Strip(IsSpace, text) <==> exists before, rest :: All(IsSpace, before) && text == before + words + rest
  {
    if words <= Strip(IsSpace, text) {
      var before, after := StripSplits(IsSpace, text);
      var rest := Strip(IsSpace, text)[|words|..];
      assert Strip(IsSpace, text) == words + rest;
      SplitBehind(before, words, rest, after);
      assert text == before + words + (rest + after);
    }
    forall before, rest | All(IsSpace, before) && text == before + words + rest
      ensures words <= Strip(IsSpace, text)
    {
      Associates(before, words, rest);
      StripLeftOf(IsSpace, before, words + rest);
      StripRightKeeps(words, rest);
    }
  }

  lemma SplitBehind(a: string, b: string, c: string, d: string)
    ensures a + (b + c) + d == a + b + (c + d)
  {
  }

  lemma {:induction false} StripRightKeeps(words: string, rest: string)
    requires words != "" && HasBareEnds(IsSpace, words)
    ensures words <= StripRight(IsSpace, words + rest)
  {
    if rest == "" {
      StripRightOf(IsSpace, words, "");
    } else {
      StripRightKeeps(words, rest[..|rest| - 1]);
      assert (words + rest)[..|words + rest| - 1] == words + rest[..|rest| - 1];
    }
  }

  // ---- The text that identifies the client ----

  const PLACEHOLDER := "{model}"
  const DEFAULT_TEMPLATE := "This conversation is powered by {model}"

  /** The first template there is: the file of the preset, its short text, the default. */
  function TemplateOf(file: string, short: string): string {
    if file != "" then file else if short != "" then short else DEFAULT_TEMPLATE
  }

  function FilledIn(template: string, model: string): string {
    if template == "" then ""
    else if PLACEHOLDER <= template then model + FilledIn(template[|PLACEHOLDER|..], model)
    else [template[0]] + FilledIn(template[1..], model)
  }

  function FingerprintPrefix(file: string, short: string, model: string): string {
    FilledIn(TemplateOf(file, short), model)
  }

  predicate OnlyPlaceholders(template: string) {
    template == "" || (PLACEHOLDER <= template && OnlyPlaceholders(template[|PLACEHOLDER|..]))
  }

  lemma {:induction false} FilledInIsEmptyIff(template: string, model: string)
    ensures FilledIn(template, model) == "" <==> OnlyPlaceholders(template) && (template == "" || model == "")
  {
    if PLACEHOLDER <= template {
      FilledInIsEmptyIff(template[|PLACEHOLDER|..], model);
    }
  }

  /** No placeholder starts anywhere in the text. */
  predicate NoPlaceholder(text: string) {
    text == "" || (!(PLACEHOLDER <= text) && NoPlaceholder(text[1..]))
  }

  lemma {:induction false} NothingToFillIn(template: string, model: string)
    requires NoPlaceholder(template)
    ensures FilledIn(template, model) == template
  {
    if template != "" {
      NothingToFillIn(template[1..], model);
    }
  }

  /** The text in front of the first placeholder is kept, the model takes the place of the placeholder, and the rest
      is filled in by itself: a model is never looked at again. */
  lemma {:induction false} FilledInAroundPlaceholder(before: string, rest: string, model: string)
    requires NoPlaceholder(before)
    ensures FilledIn(before + "{model}" + rest, model) == before + model + FilledIn(rest, model)
  {
    if before == "" {
      FilledInAtPlaceholder(rest, model);
      assert before + "{model}" + rest == "{model}" + rest;
      assert before + model + FilledIn(rest, model) == model + FilledIn(rest, model);
    } else {
      FilledInAroundPlaceholder(before[1..], rest, model);
      NoPlaceholderAcross(before, rest);
      FilledInStep(before, rest, model);
      Unconsed(before, model, FilledIn(rest, model));
    }
  }

  lemma FilledInAtPlaceholder(rest: string, model: string)
    ensures FilledIn(PLACEHOLDER + rest, model) == model + FilledIn(rest, model)
  {
    assert (PLACEHOLDER + rest)[7..] == rest;
  }

  lemma FilledInStep(before: string, rest: string, model: string)
    requires before != "" && !(PLACEHOLDER <= before + PLACEHOLDER + rest)
    ensures FilledIn(before + PLACEHOLDER + rest, model) == [before[0]] + FilledIn(before[1..] + PLACEHOLDER + rest, model)
  {
    assert (before + PLACEHOLDER + rest)[1..] == before[1..] + PLACEHOLDER + rest;
  }

  lemma Unconsed(a: string, b: string, c: string)
    requires a != ""
    ensures [a[0]] + (a[1..] + b + c) == a + b + c
  {
  }

  lemma NoPlaceholderAcross(before: string, rest: string)
    requires before != "" && NoPlaceholder(before)
    ensures !("{model}" <= before + "{model}" + rest)
  {
    var s := before + "{model}" + rest;
    if |before| < 7 {
      assert s[|before|] == "{model}"[0];
    } else {
      assert s[..7] == before[..7];
    }
  }

  lemma FilledInBehindWords(words: string, template: string, rest: string, model: string)
    requires '{' !in words && template == words + PLACEHOLDER + rest
    ensures FilledIn(template, model) == words + model + FilledIn(rest, model)
  {
    WordsHavePlaceholderNowhere(words);
    FilledInAroundPlaceholder(words, rest, model);
  }

  /** With the preset as it is shipped the prefix begins with these words and the model, and without its file it is
      just that. */
  lemma ShippedPrefix(file: string, short: string, model: string)
    requires IsShippedPreset(file, short)
    ensures "This conversation is powered by " + model <= FingerprintPrefix(file, short, model)
    ensures file == "" ==> FingerprintPrefix(file, short, model) == "This conversation is powered by " + model
  {
    var words, template := "This conversation is powered by ", TemplateOf(file, short);
    var rest := template[|DEFAULT_TEMPLATE|..];
    assert DEFAULT_TEMPLATE == words + PLACEHOLDER;
    assert template == DEFAULT_TEMPLATE + rest;
    FilledInBehindWords(words, template, rest, model);
  }

  lemma {:induction false} WordsHavePlaceholderNowhere(words: string)
    requires '{' !in words
    ensures NoPlaceholder(words)
  {
    if words != "" {
      assert words[0] in words;
      WordsHavePlaceholderNowhere(words[1..]);
    }
  }

  /** The file of a preset counts before its short text, and the short text before the default. */
  lemma PrefixIsOfTheFirstTemplate(file: string, short: string, model: string)
    requires NoPlaceholder(file) && NoPlaceholder(short)
    ensures file != "" ==> FingerprintPrefix(file, short, model) == file
    ensures file == "" && short != "" ==> FingerprintPrefix(file, short, model) == short
    ensures file == "" && short == "" ==>
      FingerprintPrefix(file, short, model) == "This conversation is powered by " + model
  {
    if file == "" && short == "" {
      ShippedPrefix("", DEFAULT_TEMPLATE, model);
    } else {
      NothingToFillIn(TemplateOf(file, short), model);
    }
  }

  /** A preset whose templates, as far as it has any, say something of their own. */
  predicate SaysSomething(file: string, short: string) {
    (file == "" || !OnlyPlaceholders(file)) && (short == "" || !OnlyPlaceholders(short))
  }

  /** Thanks to the default there is always something to identify the client with, for every model. */
  lemma PrefixIsNotEmpty(file: string, short: string, model: string)
    requires SaysSomething(file, short)
    ensures FingerprintPrefix(file, short, model) != ""
  {
    FilledInIsEmptyIff(TemplateOf(file, short), model);
    assert DEFAULT_TEMPLATE[0] == 'T' && PLACEHOLDER[0] == '{';
  }

  /** Whatever file and short text there are, one that starts with anything but a placeholder says something. */
  lemma WordsSaySomething(file: string, short: string)
    requires file == "" || file[0] != '{'
    requires short == "" || short[0] != '{'
    ensures SaysSomething(file, short)
  {
    assert PLACEHOLDER[0] == '{';
  }

  /** The one preset that asks for a system message: its short text is the default one, and its file, when it can
      be read, begins with the same words. */
  predicate IsShippedPreset(file: string, short: string) {
    short == DEFAULT_TEMPLATE && (file == "" || DEFAULT_TEMPLATE <= file)
  }

  // ---- Injection ----

  function Injected(repr: Repr, prefix: string, messages: seq<Message>): seq<Message> {
    if messages != [] && IsFingerprint(repr, prefix, messages[0]) then [messages[0]] + SanitizedMessages(messages[1..])
    else [Message(System, Text(prefix), "")] + SanitizedMessages(messages)
  }

  /** The second is the first with the texts of an instruction sanitized, and nothing else changed. */
  predicate IsSanitizedForm(m: Message, r: Message) {
    if m.Message? && m.role in {System, Developer} then
      r.Message? && r.role == m.role && r.fields == m.fields
      && match m.content
         case Text(text) => r.content == Text(Sanitized(text))
         case OtherContent(_) => r.content == m.content
         case Blocks(blocks) =>
           r.content.Blocks? && |r.content.blocks| == |blocks| && forall i | 0 <= i < |blocks| ::
             r.content.blocks[i] == match blocks[i]
                                    case TextBlock(text, fields) => TextBlock(Sanitized(text), fields)
                                    case OtherBlock(_) => blocks[i]
    else r == m
  }

  ghost predicate AreSanitizedForms(messages: seq<Message>, r: seq<Message>) {
    |r| == |messages| && forall i | 0 <= i < |r| :: IsSanitizedForm(messages[i], r[i])
  }

  /** The list keeps all its messages in order, the instructions sanitized, except for a first message that already
      identifies the client, which stays as it is; otherwise a system message with the prefix is put in front. */
  lemma InjectedForm(repr: Repr, prefix: string, messages: seq<Message>)
    ensures var r := Injected(repr, prefix, messages);
      if messages != [] && IsFingerprint(repr, prefix, messages[0])
      then r != [] && r[0] == messages[0] && AreSanitizedForms(messages[1..], r[1..])
      else r != [] && r[0] == Message(System, Text(prefix), "") && AreSanitizedForms(messages, r[1..])
  {
    var r := Injected(repr, prefix, messages);
    var behind := if messages != [] && IsFingerprint(repr, prefix, messages[0]) then messages[1..] else messages;
    SanitizedMessagesHaveForm(behind);
    assert r[1..] == SanitizedMessages(behind);
  }

  lemma SanitizedMessagesHaveForm(messages: seq<Message>)
    ensures AreSanitizedForms(messages, SanitizedMessages(messages))
  {
    forall i | 0 <= i < |messages|
      ensures IsSanitizedForm(messages[i], SanitizedMessages(messages)[i])
    {
      SanitizedMessageHasForm(messages[i]);
    }
  }

  lemma SanitizedMessageHasForm(m: Message)
    ensures IsSanitizedForm(m, SanitizedMessage(m))
  {
  }

  // ---- The list in place ----

  method SanitizeContent(content: Content) returns (r: Content)
    ensures r == SanitizedContent(content)
  {
    match content {
      case Text(text) => r := Text(Sanitized(text));
      case OtherContent(_) => r := content;
      case Blocks(blocks) =>
        var changed := false;
        var out: seq<Block> := [];
        for i := 0 to |blocks|
          invariant |out| == i && forall j | 0 <= j < i :: out[j] == SanitizedBlock(blocks[j])
          invariant !changed ==> out == blocks[..i]
        {
          if blocks[i].TextBlock? {
            var cleaned := Sanitized(blocks[i].text);
            if cleaned != blocks[i].text {
              out := out + [blocks[i].(text := cleaned)];
              changed := true;
              continue;
            }
          }
          out := out + [blocks[i]];
        }
        assert out == SanitizedBlocks(blocks);
        r := if changed then Blocks(out) else content;
    }
  }

  /** Rewrites the instructions of the list from position `first` on. */
  method SanitizeFrom(messages: array<Message>, first: nat)
    requires first <= messages.Length
    modifies messages
    ensures messages[..] == old(messages[..])[..first] + SanitizedMessages(old(messages[..])[first..])
  {
    for i := first to messages.Length
      invariant forall j | 0 <= j < messages.Length ::
        messages[j] == if first <= j < i then SanitizedMessage(old(messages[j])) else old(messages[j])
    {
      if IsInstruction(messages[i]) {
        var cleaned := SanitizeContent(messages[i].content);
        if cleaned != messages[i].content {
          messages[i] := messages[i].(content := cleaned);
        }
      }
    }
  }

  method InjectPrefix(repr: Repr, prefix: string, messages: array<Message>) returns (r: seq<Message>)
    modifies messages
    ensures r == Injected(repr, prefix, old(messages[..]))
  {
    ghost var before := messages[..];
    if messages.Length > 0 && IsFingerprint(repr, prefix, messages[0]) {
      SanitizeFrom(messages, 1);
      assert before[..1] == [before[0]];
      return messages[..];
    }
    SanitizeFrom(messages, 0);
    assert before[0..] == before && messages[..] == SanitizedMessages(before);
    return [Message(System, Text(prefix), "")] + messages[..];
  }

  method InjectSystemMessage(repr: Repr, file: string, short: string, model: string, messages: array<Message>)
    returns (r: seq<Message>)
    modifies messages
    ensures r == Injected(repr, FingerprintPrefix(file, short, model), old(messages[..]))
  {
    r := InjectPrefix(repr, FingerprintPrefix(file, short, model), messages);
  }

  // ---- What the upstream gets to see ----

  predicate CleanContent(c: Content) {
    match c
    case Text(text) => Clean(text)
    case Blocks(blocks) => forall b | b in blocks :: b.TextBlock? ==> Clean(b.text)
    case OtherContent(_) => true
  }

  lemma SanitizedMessageIsClean(m: Message)
    ensures IsInstruction(m) ==> CleanContent(SanitizedMessage(m).content)
  {
    if IsInstruction(m) {
      match m.content {
        case Text(text) => SanitizedIsClean(text);
        case OtherContent(_) =>
        case Blocks(blocks) =>
          forall b | b in blocks && b.TextBlock?
            ensures Clean(SanitizedBlock(b).text)
          {
            SanitizedIsClean(b.text);
          }
      }
    }
  }

  lemma CleanMessageIsUnchanged(m: Message)
    requires IsInstruction(m) ==> CleanContent(m.content)
    ensures SanitizedMessage(m) == m
  {
    if IsInstruction(m) {
      match m.content {
        case Text(text) => CleanIsUnchanged(text);
        case OtherContent(_) =>
        case Blocks(blocks) =>
          forall i | 0 <= i < |blocks|
            ensures SanitizedBlock(blocks[i]) == blocks[i]
          {
            if blocks[i].TextBlock? {
              CleanIsUnchanged(blocks[i].text);
            }
          }
          assert SanitizedBlocks(blocks) == blocks;
      }
    }
  }

  predicate CleanMessages(messages: seq<Message>) {
    forall i | 0 <= i < |messages| :: IsInstruction(messages[i]) ==> CleanContent(messages[i].content)
  }

  lemma SanitizedMessagesAreClean(messages: seq<Message>)
    ensures CleanMessages(SanitizedMessages(messages))
  {
    forall i | 0 <= i < |messages|
      ensures IsInstruction(messages[i]) ==> CleanContent(SanitizedMessage(messages[i]).content)
    {
      SanitizedMessageIsClean(messages[i]);
    }
  }

  lemma CleanMessagesAreUnchanged(messages: seq<Message>)
    requires CleanMessages(messages)
    ensures SanitizedMessages(messages) == messages
  {
    forall i | 0 <= i < |messages|
      ensures SanitizedMessage(messages[i]) == messages[i]
    {
      CleanMessageIsUnchanged(messages[i]);
    }
  }

  lemma AnyInjectedIsAcceptable(repr: Repr, prefix: string, messages: seq<Message>)
    requires prefix != ""
    ensures var r := Injected(repr, prefix, messages);
      r != [] && IsFingerprint(repr, prefix, r[0]) && CleanMessages(r[1..])
  {
    var r := Injected(repr, prefix, messages);
    if messages != [] && IsFingerprint(repr, prefix, messages[0]) {
      SanitizedMessagesAreClean(messages[1..]);
      assert r[1..] == SanitizedMessages(messages[1..]);
    } else {
      SanitizedMessagesAreClean(messages);
      assert r[1..] == SanitizedMessages(messages);
    }
  }

  /** The first message identifies the client, and no instruction behind it has the marker, in whatever form its
      content comes. */
  lemma InjectedIsAcceptable(repr: Repr, file: string, short: string, model: string, messages: seq<Message>)
    requires SaysSomething(file, short)
    ensures var prefix := FingerprintPrefix(file, short, model);
      var r := Injected(repr, prefix, messages);
      r != [] && IsFingerprint(repr, prefix, r[0]) && CleanMessages(r[1..])
  {
    PrefixIsNotEmpty(file, short, model);
    AnyInjectedIsAcceptable(repr, FingerprintPrefix(file, short, model), messages);
  }

  /** Injecting again changes nothing. */
  lemma InjectedIsIdempotent(repr: Repr, file: string, short: string, model: string, messages: seq<Message>)
    requires SaysSomething(file, short)
    ensures var prefix := FingerprintPrefix(file, short, model);
      Injected(repr, prefix, Injected(repr, prefix, messages)) == Injected(repr, prefix, messages)
  {
    var prefix := FingerprintPrefix(file, short, model);
    InjectedIsAcceptable(repr, file, short, model, messages);
    AcceptableIsUnchanged(repr, prefix, Injected(repr, prefix, messages));
  }

  /** With the preset as it is shipped, whether or not its file can be read, and for every model: the injected
      list is acceptable, and injecting again changes nothing. */
  lemma ShippedPresetIsInjectedOnce(repr: Repr, file: string, short: string, model: string, messages: seq<Message>)
    requires IsShippedPreset(file, short)
    ensures var prefix := FingerprintPrefix(file, short, model);
      var r := Injected(repr, prefix, messages);
      && r != [] && IsFingerprint(repr, prefix, r[0]) && CleanMessages(r[1..])
      && Injected(repr, prefix, r) == r
  {
    assert DEFAULT_TEMPLATE[0] == 'T';
    WordsSaySomething(file, short);
    InjectedIsAcceptable(repr, file, short, model, messages);
    InjectedIsIdempotent(repr, file, short, model, messages);
  }

  /** A list that is acceptable already is not touched. */
  lemma AcceptableIsUnchanged(repr: Repr, prefix: string, messages: seq<Message>)
    requires messages != [] && IsFingerprint(repr, prefix, messages[0]) && CleanMessages(messages[1..])
    ensures Injected(repr, prefix, messages) == messages
  {
    CleanMessagesAreUnchanged(messages[1..]);
    assert [messages[0]] + messages[1..] == messages;
  }

  /** The conversation: everything but the instructions. */
  function Conversation(messages: seq<Message>): seq<Message> {
    if messages == [] then []
    else (if IsInstruction(messages[0]) then [] else [messages[0]]) + Conversation(messages[1..])
  }

  lemma {:induction false} SanitizingKeepsConversation(messages: seq<Message>)
    ensures Conversation(SanitizedMessages(messages)) == Conversation(messages)
  {
    if messages != [] {
      SanitizingKeepsConversation(messages[1..]);
      assert SanitizedMessages(messages)[1..] == SanitizedMessages(messages[1..]);
    }
  }

  /** All messages that are not instructions are kept, unchanged and in order. */
  lemma InjectionKeepsConversation(repr: Repr, prefix: string, messages: seq<Message>)
    ensures Conversation(Injected(repr, prefix, messages)) == Conversation(messages)
  {
    var r := Injected(repr, prefix, messages);
    if messages != [] && IsFingerprint(repr, prefix, messages[0]) {
      SanitizingKeepsConversation(messages[1..]);
      assert r[1..] == SanitizedMessages(messages[1..]);
    } else {
      SanitizingKeepsConversation(messages);
      assert r[1..] == SanitizedMessages(messages);
    }
  }
}
