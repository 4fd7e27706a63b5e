/** Prompt building and answer parsing for the GraphRAG question-answering
    service (lib/graphRag.ts). The network call itself is not modelled: the
    runner and the chat receive its outcome as a parameter. */
module GraphRag {
  import opened Wrappers
  import opened Text
  import opened Seqs
  import opened JsNumber
  import opened Types

  /** What one query of the service ends in: its text, or a thrown error with
      its message (`None` when the thrown value is not an `Error`). */
  datatype QueryOutcome = Answered(text: string) | Failed(message: Option<string>)

  // ---------------------------------------------------------------------------
  // buildPrompt

  const NumberSuffixHead := " (return only the number). Does it meet "

  /** The request to answer with a number, naming the comparison to meet. */
  function NumberSuffix(c: Comparator, threshold: Num): string {
    NumberSuffixHead + c.Symbol() + " " + NumToString(threshold) + "?"
  }

  const BooleanSuffix := " Please answer in the format: \"Yes/No - [reason]\" where the reason explains why."

  const LookupSuffix := " Please provide your answer followed by the reasoning: \"[answer] - [reason why]\""

  /** The one-line source template the prompt asks the service to fill in. */
  const TemplateLine := "filename: [filename] human_readable: [human readable] page_num: [page num] sheet_number: [sheet_number] section: [section reference if applicable]"

  /** The paragraphs the prompt appends after the question and its type
      suffix, each after a blank line. */
  const TrailerParagraphs := [
    "",
    "Please provide specific document references with page numbers and section numbers where applicable.",
    "Please provide a clear, natural response fit for a chatbot widget to the question. Only provide explanation and sources for up to a maximum of 2 of the BEST, MOST RELEVANT sources. Do not say things like Introduction to Site Plans or provide multiple sections. One concise response. After your response, include source metadata in the following format for each source used:",
    "```metadata\n" + TemplateLine + "\n```",
    "Ensure each source has at least filename and human_readable fields but try to provide as much source information as possible."
  ]

  /** Everything the prompt appends after the question and its type suffix. */
  const Trailer := Join(TrailerParagraphs, "\n\n")

  /** The type-specific request placed between the question and the trailer. */
  function TypeSuffix(q: Question): string {
    (if q.qtype == NumberType && q.threshold.Some? && q.comparator.Some?
     then NumberSuffix(q.comparator.value, q.threshold.value) else "")
    + (if q.qtype == BooleanType then BooleanSuffix else "")
    + (if q.qtype == LookupType then LookupSuffix else "")
  }

  /** `buildPrompt`. */
  function BuildPrompt(q: Question): string {
    q.text + TypeSuffix(q) + Trailer
  }

  /** The prompt starts with the question text and ends with the trailer. */
  lemma PromptShape(q: Question)
    ensures StartsWith(BuildPrompt(q), q.text)
    ensures EndsWith(BuildPrompt(q), Trailer)
    ensures |BuildPrompt(q)| >= |q.text| + |Trailer|
  {
    ConcatParts(q.text, TypeSuffix(q), Trailer);
  }

  /** The part of a prompt between the question text and the trailer. */
  function PromptMiddle(q: Question): string {
    var r := BuildPrompt(q);
    PromptShape(q);
    r[|q.text|..|r| - |Trailer|]
  }

  /** Which request the prompt adds: the number request exactly when a number
      question has both a threshold and a comparator, the boolean and lookup
      requests exactly for their types, and nothing for enum questions. */
  lemma PromptMiddleByType(q: Question)
    ensures q.qtype == NumberType && q.threshold.Some? && q.comparator.Some? ==>
      PromptMiddle(q) == NumberSuffix(q.comparator.value, q.threshold.value)
    ensures q.qtype == NumberType && (q.threshold.None? || q.comparator.None?) ==> PromptMiddle(q) == ""
    ensures q.qtype == BooleanType ==> PromptMiddle(q) == BooleanSuffix
    ensures q.qtype == LookupType ==> PromptMiddle(q) == LookupSuffix
    ensures q.qtype == EnumType || q.qtype.OtherType? ==> PromptMiddle(q) == ""
  {
    ConcatParts(q.text, TypeSuffix(q), Trailer);
  }

  /** Every number request names its comparator and then its threshold. */
  lemma NumberSuffixNames(c: Comparator, t: Num)
    ensures StartsWith(NumberSuffix(c, t), NumberSuffixHead + c.Symbol() + " ")
    ensures EndsWith(NumberSuffix(c, t), NumToString(t) + "?")
  {
    var head := NumberSuffixHead + c.Symbol() + " ";
    var tail := NumToString(t) + "?";
    var n := NumberSuffix(c, t);
    assert n == head + tail;
    assert n[..|head|] == head;
    assert n[|n| - |tail|..] == tail;
  }

  // ---------------------------------------------------------------------------
  // The metadata-block regular expression /```metadata\s+([\s\S]+?)```/g

  const Fence := "```"
  const BlockOpen := "```metadata"

  /** One match: it spans `start..end`, and its capture group `groupStart..groupEnd`. */
  datatype BlockMatch = BlockMatch(start: nat, groupStart: nat, groupEnd: nat, end: nat)

  /** The match of the metadata expression starting exactly at `p`, if any.
      `\s+` first takes the whole whitespace run; the lazy group then ends at
      the first fence at least one character later. Failing that, `\s+` gives
      back one character, which matches only when a fence follows the run at
      once and the run is at least two long. */
  function MatchAt(s: string, p: nat): (m: Option<BlockMatch>)
    ensures m.Some? ==> OccursAt(s, BlockOpen, p) && m.value.start == p
    ensures m.Some? ==> p + |BlockOpen| < m.value.groupStart < m.value.groupEnd
    ensures m.Some? ==> m.value.end == m.value.groupEnd + 3 <= |s| && OccursAt(s, Fence, m.value.groupEnd)
    ensures m.Some? ==> forall i :: p + |BlockOpen| <= i < m.value.groupStart ==> IsWhitespace(s[i])
  {
    if !OccursAt(s, BlockOpen, p) then None
    else
      var g0 := p + |BlockOpen|;
      var w := LeadingWs(s[g0..]);
      assert forall i :: g0 <= i < g0 + w ==> s[i] == s[g0..][i - g0];
      if w == 0 then None
      else
        var g := g0 + w;
        match IndexOfFrom(s, Fence, g + 1)
        case Some(c) => Some(BlockMatch(p, g, c, c + 3))
        case None =>
          if w >= 2 && OccursAt(s, Fence, g) then Some(BlockMatch(p, g - 1, g, g + 3)) else None
  }

  /** The match `exec` finds when it searches from `from`: the earliest one. */
  function NextMatch(s: string, from: nat): (m: Option<BlockMatch>)
    ensures m.Some? ==> from <= m.value.start && MatchAt(s, m.value.start) == m
    decreases |s| - from
  {
    if from >= |s| then None
    else
      match MatchAt(s, from)
      case Some(m) => Some(m)
      case None => NextMatch(s, from + 1)
  }

  /** No match starts between `from` and the one `NextMatch` finds, and none
      at all at or after `from` when it finds nothing. */
  lemma NextMatchIsEarliest(s: string, from: nat)
    ensures var m := NextMatch(s, from);
      m.Some? ==> forall p :: from <= p < m.value.start ==> MatchAt(s, p).None?
    ensures NextMatch(s, from).None? ==> forall p :: from <= p ==> MatchAt(s, p).None?
  {
    var m := NextMatch(s, from);
    if m.Some? {
      forall p | from <= p < m.value.start
        ensures MatchAt(s, p).None?
      {
        NoMatchBeforeNext(s, from, p);
      }
    } else {
      forall p | from <= p
        ensures MatchAt(s, p).None?
      {
        NoMatchBeforeNext(s, from, p);
      }
    }
  }

  /** Position `p` holds no match unless `NextMatch` from `from` finds one
      starting at or before it. */
  predicate NoMatchUnlessFound(s: string, from: nat, p: nat) {
    match NextMatch(s, from)
    case None => MatchAt(s, p).None?
    case Some(m) => p < m.start ==> MatchAt(s, p).None?
  }

  lemma {:induction false} NoMatchBeforeNext(s: string, from: nat, p: nat)
    requires from <= p
    ensures NoMatchUnlessFound(s, from, p)
    decreases |s| - from
  {
    if from >= |s| {
      assert !OccursAt(s, BlockOpen, p);
    } else if MatchAt(s, from).None? {
      assert NextMatch(s, from) == NextMatch(s, from + 1);
      if from < p {
        NoMatchBeforeNext(s, from + 1, p);
      }
    }
  }

  /** The captured texts of all matches found from `from` on, in order. */
  function BlocksFrom(s: string, from: nat): seq<string>
    decreases |s| - from
  {
    match NextMatch(s, from)
    case None => []
    case Some(m) => [s[m.groupStart..m.groupEnd]] + BlocksFrom(s, m.end)
  }

  /** `s.replace(metadataRegex, '')` from `from` on: the text between matches. */
  function RemoveBlocksFrom(s: string, from: nat): (r: string)
    requires from <= |s|
    ensures |r| <= |s| - from
    decreases |s| - from
  {
    match NextMatch(s, from)
    case None => s[from..]
    case Some(m) => s[from..m.start] + RemoveBlocksFrom(s, m.end)
  }

  // ---------------------------------------------------------------------------
  // /\n{3,}/g -> "\n\n"

  /** Number of newlines at the start of `s`. */
  function NewlineRun(s: string): (n: nat)
    ensures n <= |s|
    ensures forall i :: 0 <= i < n ==> s[i] == '\n'
    ensures n < |s| ==> s[n] != '\n'
  {
    if s == [] || s[0] != '\n' then 0 else 1 + NewlineRun(s[1..])
  }

  /** No three newlines in a row. */
  predicate NoTripleNewline(s: string) {
    forall i :: 0 <= i < |s| - 2 ==> !(s[i] == '\n' && s[i + 1] == '\n' && s[i + 2] == '\n')
  }

  /** Every run of three or more newlines replaced by two. */
  function CollapseNewlines(s: string): (r: string)
    ensures NoTripleNewline(r)
    ensures |r| <= |s|
    ensures s != [] && s[0] != '\n' ==> r != [] && r[0] == s[0]
    ensures s == [] <==> r == []
  {
    if s == [] then []
    else if s[0] != '\n' then
      var t := CollapseNewlines(s[1..]);
      NoTripleAfter([s[0]], t);
      [s[0]] + t
    else
      var n := NewlineRun(s);
      var head := if n >= 3 then "\n\n" else s[..n];
      var t := CollapseNewlines(s[n..]);
      assert t != [] ==> t[0] != '\n';
      NoTripleAfter(head, t);
      head + t
  }

  /** A head of at most two characters followed by text without three
      newlines in a row has none either, when the text does not start with
      a newline or the head is one other character. */
  lemma NoTripleAfter(head: string, t: string)
    requires |head| <= 2 && NoTripleNewline(t)
    requires head != [] && head[0] != '\n' ==> |head| == 1
    requires t == [] || t[0] != '\n' || (head != [] && head[0] != '\n')
    ensures NoTripleNewline(head + t)
  {
    var r := head + t;
    forall i | 0 <= i < |r| - 2
      ensures !(r[i] == '\n' && r[i + 1] == '\n' && r[i + 2] == '\n')
    {
      if i >= |head| {
        assert r[i] == t[i - |head|] && r[i + 1] == t[i + 1 - |head|] && r[i + 2] == t[i + 2 - |head|];
      } else if |head| == 1 {
        assert r[i] == head[0];
        assert r[i + 1] == t[0];
      } else {
        assert r[2] == t[0];
      }
    }
  }

  /** Text without three newlines in a row is left as it is. */
  lemma {:induction false} CollapseNewlinesIdentity(s: string)
    requires NoTripleNewline(s)
    ensures CollapseNewlines(s) == s
  {
    if s != [] {
      var t := s[1..];
      assert NoTripleNewline(t) by {
        forall i | 0 <= i < |t| - 2 ensures !(t[i] == '\n' && t[i + 1] == '\n' && t[i + 2] == '\n') {
          assert t[i] == s[i + 1] && t[i + 1] == s[i + 2] && t[i + 2] == s[i + 3];
        }
      }
      if s[0] != '\n' {
        CollapseNewlinesIdentity(t);
      } else {
        var n := NewlineRun(s);
        if |s| >= 3 {
          assert !(s[0] == '\n' && s[1] == '\n' && s[2] == '\n');
        }
        assert n < 3;
        var u := s[n..];
        assert NoTripleNewline(u) by {
          forall i | 0 <= i < |u| - 2 ensures !(u[i] == '\n' && u[i + 1] == '\n' && u[i + 2] == '\n') {
            assert u[i] == s[n + i] && u[i + 1] == s[n + i + 1] && u[i + 2] == s[n + i + 2];
          }
        }
        CollapseNewlinesIdentity(u);
        assert s == s[..n] + u;
      }
    }
  }

  /** `cleanResponse`: the metadata blocks removed, newline runs collapsed,
      then trimmed. */
  function CleanText(response: string): string {
    Trim(CollapseNewlines(RemoveBlocksFrom(response, 0)))
  }

  // ---------------------------------------------------------------------------
  // Field extraction: /(?:k1|k2):\s*([^\n]+)/i

  /** Key `key` followed by a colon at `p` of `lm`, the message lower-cased
      (the keys are lower case, so this ignores letter case). */
  predicate KeyAt(lm: string, key: string, p: int) {
    OccursAt(lm, key + ":", p)
  }

  /** The first of `keys` that sits at `p`, as the alternation tries them. */
  function KeyHere(lm: string, keys: seq<string>, p: nat): (k: Option<string>)
    ensures k.Some? ==> k.value in keys && KeyAt(lm, k.value, p)
    ensures k.None? ==> forall i :: 0 <= i < |keys| ==> !KeyAt(lm, keys[i], p)
  {
    if keys == [] then None
    else if KeyAt(lm, keys[0], p) then Some(keys[0])
    else KeyHere(lm, keys[1..], p)
  }

  /** The earliest position at or after `from` where one of `keys` sits,
      with the position just after its colon. */
  function FirstKey(lm: string, keys: seq<string>, from: nat): (r: Option<(nat, nat)>)
    ensures r.Some? ==> from <= r.value.0 < r.value.1 <= |lm|
    decreases |lm| - from
  {
    if from >= |lm| then None
    else
      match KeyHere(lm, keys, from)
      case Some(k) =>
        Some((from, from + |k| + 1))
      case None => FirstKey(lm, keys, from + 1)
  }

  /** `FirstKey` finds a key occurrence, and no key sits before it; with no
      result, no key sits anywhere at or after `from`. */
  lemma FirstKeyIsEarliest(lm: string, keys: seq<string>, from: nat)
    ensures var r := FirstKey(lm, keys, from);
      r.Some? ==> exists i :: 0 <= i < |keys| && KeyAt(lm, keys[i], r.value.0) && r.value.1 == r.value.0 + |keys[i]| + 1
    ensures var r := FirstKey(lm, keys, from);
      r.Some? ==> forall p, i :: from <= p < r.value.0 && 0 <= i < |keys| ==> !KeyAt(lm, keys[i], p)
    ensures var r := FirstKey(lm, keys, from);
      r.None? ==> forall p, i :: from <= p && 0 <= i < |keys| ==> !KeyAt(lm, keys[i], p)
  {
    FirstKeyFound(lm, keys, from);
    var r := FirstKey(lm, keys, from);
    forall p, i | from <= p && (r.Some? ==> p < r.value.0) && 0 <= i < |keys|
      ensures !KeyAt(lm, keys[i], p)
    {
      NoKeyBeforeFirst(lm, keys, from, p);
    }
  }

  /** What `FirstKey` finds is an occurrence of one of the keys. */
  lemma {:induction false} FirstKeyFound(lm: string, keys: seq<string>, from: nat)
    ensures var r := FirstKey(lm, keys, from);
      r.Some? ==> exists i :: 0 <= i < |keys| && KeyAt(lm, keys[i], r.value.0) && r.value.1 == r.value.0 + |keys[i]| + 1
    decreases |lm| - from
  {
    if from < |lm| {
      match KeyHere(lm, keys, from)
      case Some(k) =>
        var i :| 0 <= i < |keys| && keys[i] == k;
        assert KeyAt(lm, keys[i], from);
      case None =>
        FirstKeyFound(lm, keys, from + 1);
    }
  }

  /** Position `p` holds no key unless `FirstKey` from `from` finds one at
      or before it. */
  predicate NoKeyUnlessFound(lm: string, keys: seq<string>, from: nat, p: nat) {
    match FirstKey(lm, keys, from)
    case None => forall i :: 0 <= i < |keys| ==> !KeyAt(lm, keys[i], p)
    case Some(r) => p < r.0 ==> forall i :: 0 <= i < |keys| ==> !KeyAt(lm, keys[i], p)
  }

  lemma {:induction false} NoKeyBeforeFirst(lm: string, keys: seq<string>, from: nat, p: nat)
    requires from <= p
    ensures NoKeyUnlessFound(lm, keys, from, p)
    decreases |lm| - from
  {
    if from >= |lm| {
      forall i | 0 <= i < |keys| ensures !KeyAt(lm, keys[i], p) {
        assert !OccursAt(lm, keys[i] + ":", p);
      }
    } else if KeyHere(lm, keys, from).None? {
      assert FirstKey(lm, keys, from) == FirstKey(lm, keys, from + 1);
      if from < p {
        NoKeyBeforeFirst(lm, keys, from + 1, p);
      }
    }
  }

  /** The capture after a key whose colon ends at `q`, trimmed: the
      whitespace after the colon may span lines, the value then runs to the
      end of the line it starts on. */
  function ValueAfter(m: string, q: nat): (v: string)
    requires q <= |m|
    ensures v == "" || !IsWhitespace(v[0])
    ensures forall i :: 0 <= i < |v| ==> v[i] != '\n'
  {
    var r := q + LeadingWs(m[q..]);
    if r >= |m| then ""
    else
      var line := TakeUntil(m[r..], '\n');
      var v := Trim(line);
      assert forall i :: 0 <= i < |v| ==> v[i] != '\n' by {
        var a :| PaddedAt(line, v, a);
        forall i | 0 <= i < |v| ensures v[i] != '\n' {
          assert v[i] == line[a + i];
        }
      }
      v
  }

  /** The trimmed capture of the field expression for `keys`, or "" when it
      does not match or captures only whitespace (both read as absent): the
      capture follows the earliest key occurrence (`FirstKeyIsEarliest`). */
  function FieldValue(m: string, keys: seq<string>): (v: string)
    ensures v == "" || !IsWhitespace(v[0])
    ensures forall i :: 0 <= i < |v| ==> v[i] != '\n'
  {
    match FirstKey(ToLower(m), keys, 0)
    case None => ""
    case Some(k) => ValueAfter(m, k.1)
  }

  const FilenameKeys := ["filename", "document_id"]
  const HumanReadableKeys := ["human_readable"]
  const PageKeys := ["page_num", "page_number"]
  const SheetKeys := ["sheet_number"]
  const SectionKeys := ["section"]

  /** `pageNum ? parseInt(pageNum) || 0 : 0`. */
  function NumberField(v: string): int {
    if v == "" then 0 else ParseInt(v).GetOr(0)
  }

  // ---------------------------------------------------------------------------
  // makeHumanReadable

  const DocumentExtensions := [".pdf", ".dwg", ".doc", ".docx"]

  /** The name without a trailing `.pdf`, `.dwg`, `.doc` or `.docx`, in any case. */
  function StripExtension(name: string): (r: string)
    ensures |r| <= |name|
  {
    var low := ToLower(name);
    if EndsWith(low, ".docx") then name[..|name| - 5]
    else if EndsWith(low, ".pdf") || EndsWith(low, ".dwg") || EndsWith(low, ".doc") then name[..|name| - 4]
    else name
  }

  /** Underscore runs and whitespace runs each replaced by one space. */
  function SpaceOut(s: string): (r: string)
    ensures forall i :: 0 <= i < |r| ==> r[i] != '_'
    ensures forall i :: 0 <= i < |r| ==> IsWhitespace(r[i]) ==> r[i] == ' '
    ensures forall i :: 0 <= i < |r| - 1 ==> !(r[i] == ' ' && r[i + 1] == ' ')
    ensures s != [] ==> r != []
    ensures r != [] && r[0] == ' ' ==> s != [] && (s[0] == '_' || IsWhitespace(s[0]))
    decreases |s|
  {
    if s == [] then []
    else if s[0] == '_' || IsWhitespace(s[0]) then
      var n := SeparatorRun(s);
      var t := SpaceOut(s[n..]);
      var r := " " + t;
      assert forall i :: 1 <= i < |r| ==> r[i] == t[i - 1];
      r
    else
      var t := SpaceOut(s[1..]);
      var r := [s[0]] + t;
      assert forall i :: 1 <= i < |r| ==> r[i] == t[i - 1];
      r
  }

  /** Length of the leading run of underscores and whitespace. */
  function SeparatorRun(s: string): (n: nat)
    requires s != [] && (s[0] == '_' || IsWhitespace(s[0]))
    ensures 1 <= n <= |s|
    ensures n < |s| ==> s[n] != '_' && !IsWhitespace(s[n])
    decreases |s|
  {
    if |s| == 1 || !(s[1] == '_' || IsWhitespace(s[1])) then 1 else 1 + SeparatorRun(s[1..])
  }

  /** Each space-separated word with its first letter upper-cased and the rest
      lower-cased (ASCII letters). */
  function TitleCase(s: string): (r: string)
    ensures |r| == |s|
    ensures forall i :: 0 <= i < |s| ==> r[i] == if i == 0 || s[i - 1] == ' ' then Upper(s[i]) else Lower(s[i])
  {
    seq(|s|, i requires 0 <= i < |s| => if i == 0 || s[i - 1] == ' ' then Upper(s[i]) else Lower(s[i]))
  }

  /** Title case adds no underscore. */
  lemma TitleCaseNoUnderscore(s: string)
    requires '_' !in s
    ensures '_' !in TitleCase(s)
  {
    var r := TitleCase(s);
    forall i | 0 <= i < |r| ensures r[i] != '_' {
      assert s[i] != '_';
    }
  }

  /** `makeHumanReadable`, with the document-specific rename rules left out:
      the extension is dropped, underscores and whitespace become single
      spaces, the result is trimmed and title-cased, and the original name is
      returned when nothing is left. */
  function MakeHumanReadable(filename: string): (r: string)
    ensures filename == "" ==> r == "Unknown Document"
    ensures r != ""
    ensures r != filename ==> '_' !in r
  {
    if filename == "" then "Unknown Document"
    else
      var spaced := SpaceOut(StripExtension(filename));
      var name := Trim(spaced);
      TrimKeepsOut(spaced, '_');
      if name != "" then TitleCaseNoUnderscore(name); TitleCase(name) else filename
  }

  // ---------------------------------------------------------------------------
  // parseSources

  /** The source one metadata block describes. */
  function SourceOf(block: string): (src: Source)
    ensures src.filename != ""
    ensures src.humanReadable != ""
  {
    var filename := FieldValue(block, FilenameKeys);
    var humanReadable := FieldValue(block, HumanReadableKeys);
    Source(
      if filename == "" then "Unknown Document" else filename,
      if humanReadable == "" then MakeHumanReadable(filename) else humanReadable,
      NumberField(FieldValue(block, PageKeys)),
      NumberField(FieldValue(block, SheetKeys)),
      FieldValue(block, SectionKeys))
  }

  /** A parsed source is kept when it names a real file. */
  predicate Kept(src: Source) {
    src.filename != "" && src.filename != "Unknown Document"
  }

  /** The source described by the block a match captures. */
  function BlockSource(s: string, m: BlockMatch): Source
    requires m.groupStart <= m.groupEnd <= |s|
  {
    SourceOf(s[m.groupStart..m.groupEnd])
  }

  /** The sources of the blocks matched from `from` on, in block order. */
  function SourcesFrom(s: string, from: nat): seq<Source>
    decreases |s| - from
  {
    match NextMatch(s, from)
    case None => []
    case Some(m) =>
      var src := BlockSource(s, m);
      (if Kept(src) then [src] else []) + SourcesFrom(s, m.end)
  }

  /** One match of the pass: its block's source, if kept, then the rest. */
  lemma SourcesFromStep(s: string, from: nat)
    requires NextMatch(s, from).Some?
    ensures var m := NextMatch(s, from).value;
      Kept(BlockSource(s, m)) ==> SourcesFrom(s, from) == [BlockSource(s, m)] + SourcesFrom(s, m.end)
    ensures var m := NextMatch(s, from).value;
      !Kept(BlockSource(s, m)) ==> SourcesFrom(s, from) == SourcesFrom(s, m.end)
  {
  }

  /** `parseSources`: one pass of `exec` over the metadata blocks, keeping
      each block's source when it names a file. */
  method ParseSources(response: string) returns (cleanResponse: string, sources: seq<Source>)
    ensures sources == SourcesFrom(response, 0)
    ensures cleanResponse == CleanText(response)
  {
    sources := [];
    var lastIndex := 0;
    var m := NextMatch(response, lastIndex);
    while m.Some?
      invariant lastIndex <= |response|
      invariant m == NextMatch(response, lastIndex)
      invariant sources + SourcesFrom(response, lastIndex) == SourcesFrom(response, 0)
      decreases |response| - lastIndex
    {
      var src := BlockSource(response, m.value);
      var next := m.value.end;
      SourcesFromStep(response, lastIndex);
      if Kept(src) {
        AppendAssoc(sources, src, SourcesFrom(response, next));
        sources := sources + [src];
      }
      lastIndex := next;
      m := NextMatch(response, lastIndex);
    }
    assert SourcesFrom(response, lastIndex) == [];
    cleanResponse := CleanText(response);
  }

  /** The source of each block, in order. */
  function SourcesOf(blocks: seq<string>): (r: seq<Source>)
    ensures |r| == |blocks|
  {
    if blocks == [] then [] else [SourceOf(blocks[0])] + SourcesOf(blocks[1..])
  }

  /** The parsed sources are exactly the sources of the matched blocks that
      name a file, in block order: at most one per block. */
  lemma {:induction false} SourcesAreKeptBlocks(s: string, from: nat)
    ensures SourcesFrom(s, from) == Filter(SourcesOf(BlocksFrom(s, from)), Kept)
    decreases |s| - from
  {
    var m := NextMatch(s, from);
    if m.Some? {
      var block := s[m.value.groupStart..m.value.groupEnd];
      var tail := BlocksFrom(s, m.value.end);
      SourcesAreKeptBlocks(s, m.value.end);
      assert BlocksFrom(s, from) == [block] + tail;
      var all := SourcesOf([block] + tail);
      assert all == [SourceOf(block)] + SourcesOf(tail) by {
        assert ([block] + tail)[1..] == tail;
      }
      var src := BlockSource(s, m.value);
      assert all[0] == src && all[1..] == SourcesOf(tail);
      assert Filter(all, Kept) == (if Kept(src) then [src] else []) + Filter(SourcesOf(tail), Kept);
      SourcesFromStep(s, from);
    }
  }

  /** Every parsed source names a real file. */
  lemma {:induction false} SourcesNameFiles(s: string, from: nat)
    ensures forall i :: 0 <= i < |SourcesFrom(s, from)| ==>
      SourcesFrom(s, from)[i].filename != "" && SourcesFrom(s, from)[i].filename != "Unknown Document"
    decreases |s| - from
  {
    var m := NextMatch(s, from);
    if m.Some? {
      SourcesNameFiles(s, m.value.end);
    }
  }

  /** Without any metadata block there are no sources, and the clean text is
      the newline-collapsed input, trimmed. */
  lemma NoBlocks(s: string)
    requires forall p :: MatchAt(s, p).None?
    ensures SourcesFrom(s, 0) == []
    ensures CleanText(s) == Trim(CollapseNewlines(s))
  {
    assert NextMatch(s, 0).None?;
    assert s[0..] == s;
  }

  /** A page or sheet number is 0 when its field is absent or has no leading
      integer, and that integer otherwise. */
  lemma NumberFieldMeaning(v: string)
    ensures ParseInt(v).None? ==> NumberField(v) == 0
    ensures ParseInt(v).Some? ==> NumberField(v) == ParseInt(v).value
  {
    if v == "" {
      assert LeadingWs(v) == 0;
      assert DigitPrefix(v) == 0;
    }
  }

  /** A missing human-readable field falls back to the generated name, and a
      missing file name to "Unknown Document". */
  lemma SourceFallbacks(block: string)
    ensures FieldValue(block, HumanReadableKeys) == "" ==>
      SourceOf(block).humanReadable == MakeHumanReadable(FieldValue(block, FilenameKeys))
    ensures FieldValue(block, FilenameKeys) == "" ==> !Kept(SourceOf(block))
    ensures FieldValue(block, FilenameKeys) != "" ==> SourceOf(block).filename == FieldValue(block, FilenameKeys)
  {
  }

  // ---------------------------------------------------------------------------
  // extractAnswer

  /** `d` occurs at `i`, no digit comes before it, and no digit right after it. */
  predicate FirstRunAt(s: string, d: string, i: int) {
    && OccursAt(s, d, i)
    && (forall j :: 0 <= j < i ==> !IsDigit(s[j]))
    && (i + |d| < |s| ==> !IsDigit(s[i + |d|]))
  }

  /** The first maximal run of decimal digits in `s`, if there is a digit. */
  function FirstDigitRun(s: string): Option<string> {
    if s == [] then None
    else if IsDigit(s[0]) then Some(s[..DigitPrefix(s)])
    else FirstDigitRun(s[1..])
  }

  /** The run found is non-empty, all digits, starts at the first digit and
      is maximal; there is none iff `s` has no digit. */
  lemma {:induction false} FirstDigitRunFound(s: string)
    ensures var r := FirstDigitRun(s);
      && (r.Some? ==> |r.value| > 0 && AllDigits(r.value) && exists i :: FirstRunAt(s, r.value, i))
      && (r.None? <==> forall j :: 0 <= j < |s| ==> !IsDigit(s[j]))
  {
    if s == [] {
    } else if IsDigit(s[0]) {
      var n := DigitPrefix(s);
      assert OccursAt(s, s[..n], 0);
      assert FirstRunAt(s, s[..n], 0);
    } else {
      FirstDigitRunFound(s[1..]);
      assert forall j :: 1 <= j < |s| ==> s[j] == s[1..][j - 1];
      match FirstDigitRun(s[1..])
      case None =>
      case Some(d) =>
        var i :| FirstRunAt(s[1..], d, i);
        assert s[i + 1..i + 1 + |d|] == s[1..][i..i + |d|];
        assert FirstRunAt(s, d, i + 1);
    }
  }

  predicate IsSentenceEnd(c: char) {
    c == '.' || c == '!' || c == '?'
  }

  /** `s.split(/[.!?]/)[0]`: everything before the first `.`, `!` or `?`. */
  function FirstSentence(s: string): (r: string)
    ensures StartsWith(s, r)
    ensures forall i :: 0 <= i < |r| ==> !IsSentenceEnd(r[i])
    ensures |r| < |s| ==> IsSentenceEnd(s[|r|])
  {
    if s == [] || IsSentenceEnd(s[0]) then []
    else
      var t := FirstSentence(s[1..]);
      var r := [s[0]] + t;
      assert forall i :: 1 <= i < |r| ==> r[i] == t[i - 1];
      r
  }

  /** `s.substring(0, n)`. */
  function Prefix(s: string, n: nat): (r: string)
    ensures |r| == if |s| < n then |s| else n
    ensures StartsWith(s, r)
  {
    if |s| <= n then s else s[..n]
  }

  /** `extractAnswer`. */
  function ExtractAnswer(response: string, t: QuestionType): (a: string) {
    var clean := CleanText(response);
    match t
    case NumberType => (match FirstDigitRun(clean) case Some(d) => d case None => "0")
    case BooleanType => Trim(clean)
    case _ =>
      var first := Trim(FirstSentence(clean));
      if |first| > 0 then (if |first| > 200 then Prefix(first, 200) + "..." else first)
      else Prefix(clean, 200)
  }

  /** A number answer is never empty and consists of digits only: the first
      digit run of the clean text, or "0" when it has no digit. */
  lemma ExtractNumber(response: string)
    ensures var a := ExtractAnswer(response, NumberType);
      |a| > 0 && AllDigits(a)
    ensures (forall j :: 0 <= j < |CleanText(response)| ==> !IsDigit(CleanText(response)[j])) ==>
      ExtractAnswer(response, NumberType) == "0"
  {
    FirstDigitRunFound(CleanText(response));
  }

  /** A boolean answer is the whole clean text, which is already trimmed. */
  lemma ExtractBoolean(response: string)
    ensures ExtractAnswer(response, BooleanType) == CleanText(response)
  {
    TrimTrimmed(CleanText(response));
  }

  /** Any other answer is a prefix of the first sentence (with "..." when
      shortened), or of the clean text when that sentence is blank; it holds at
      most 203 characters. */
  lemma ExtractSentence(response: string, t: QuestionType)
    requires t != NumberType && t != BooleanType
    ensures var a := ExtractAnswer(response, t);
      var first := Trim(FirstSentence(CleanText(response)));
      && |a| <= 203
      && (|first| == 0 ==> StartsWith(CleanText(response), a) && |a| <= 200)
      && (0 < |first| <= 200 ==> a == first)
      && (|first| > 200 ==> a == first[..200] + "...")
  {
  }
}
