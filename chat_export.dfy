/** Exporting chat conversations (lib/chatExport.ts): the CSV rows, the JSON
    export record, format dispatch and validation, file names and statistics.
    Clock rendering (`toISOString`, `toFixed`) and the text and JSON
    serialisers are parameters. */
module ChatExport {
  import opened Wrappers
  import opened Text
  import opened Seqs
  import opened Types
  import opened ChatHistory

  /** The renderers the export relies on and that are not part of the model. */
  datatype Renderers = Renderers(
    iso: int -> string,                                  // `new Date(t).toISOString()`
    seconds: int -> string,                              // `(ms / 1000).toFixed(2)`
    txt: (seq<ChatConversation>, ExportOptions) -> string, // `exportToTXT`
    json: ExportData -> string)                          // `JSON.stringify(data, null, 2)`

  function TypeName(t: MessageType): string {
    match t
    case User => "user"
    case Assistant => "assistant"
    case System => "system"
  }

  // ---------------------------------------------------------------------------
  // CSV fields

  /** A CSV field: the text between double quotes. */
  function Quoted(s: string): (r: string)
    ensures |r| == |s| + 2 && r[0] == '"' && r[|r| - 1] == '"' && r[1..|r| - 1] == s
  {
    "\"" + s + "\""
  }

  /** `s.replace(/"/g, '""')`. */
  function EscapeQuotes(s: string): (r: string)
    ensures |r| >= |s|
  {
    if s == [] then []
    else (if s[0] == '"' then "\"\"" else [s[0]]) + EscapeQuotes(s[1..])
  }

  /** How a CSV reader reads an escaped field back: `""` is one `"`. */
  function UnescapeQuotes(s: string): string {
    if s == [] then []
    else if |s| >= 2 && s[0] == '"' && s[1] == '"' then "\"" + UnescapeQuotes(s[2..])
    else [s[0]] + UnescapeQuotes(s[1..])
  }

  /** Doubling the quotes loses nothing: the content reads back unchanged. */
  lemma {:induction false} UnescapeEscape(s: string)
    ensures UnescapeQuotes(EscapeQuotes(s)) == s
  {
    if s != [] {
      var e := EscapeQuotes(s);
      UnescapeEscape(s[1..]);
      if s[0] == '"' {
        assert e == "\"\"" + EscapeQuotes(s[1..]);
        assert e[2..] == EscapeQuotes(s[1..]);
      } else {
        assert e == [s[0]] + EscapeQuotes(s[1..]);
        assert e[1..] == EscapeQuotes(s[1..]);
      }
    }
  }

  /** The number of `"` in `s`. */
  function QuoteCount(s: string): nat {
    if s == [] then 0 else (if s[0] == '"' then 1 else 0) + QuoteCount(s[1..])
  }

  /** Every embedded quote is doubled. */
  lemma {:induction false} EscapeDoublesQuotes(s: string)
    ensures QuoteCount(EscapeQuotes(s)) == 2 * QuoteCount(s)
    ensures |EscapeQuotes(s)| == |s| + QuoteCount(s)
  {
    if s != [] {
      var e := EscapeQuotes(s);
      EscapeDoublesQuotes(s[1..]);
      if s[0] == '"' {
        assert e == "\"\"" + EscapeQuotes(s[1..]);
        assert e[1..] == "\"" + EscapeQuotes(s[1..]);
        assert e[1..][1..] == EscapeQuotes(s[1..]);
      } else {
        assert e == [s[0]] + EscapeQuotes(s[1..]);
        assert e[1..] == EscapeQuotes(s[1..]);
      }
    }
  }

  function Optional<T>(wanted: bool, items: seq<T>): seq<T> {
    if wanted then items else []
  }

  const BaseHeaders: seq<string> :=
    ["Conversation ID", "Conversation Title", "Message ID", "Message Type", "Content", "Timestamp"]
  const MetadataHeaders: seq<string> := ["Response Time (s)", "Model", "Error"]
  const SourceHeaders: seq<string> := ["Sources Count", "Source Files"]
  const TimestampHeaders: seq<string> := ["Created At", "Updated At"]
  const ProjectHeaders: seq<string> := ["Project IDs", "Project Names"]

  /** The number of columns: eight always, plus three, two and two optional ones. */
  function HeaderWidth(o: ExportOptions): nat {
    8 + (if o.includeMetadata then 3 else 0) + (if o.includeSources then 2 else 0)
      + (if o.includeTimestamps then 2 else 0)
  }

  function HeaderFields(o: ExportOptions): (r: seq<string>)
    ensures |r| == HeaderWidth(o)
    ensures r[..6] == BaseHeaders && r[|r| - 2..] == ProjectHeaders
  {
    BaseHeaders + Optional(o.includeMetadata, MetadataHeaders) + Optional(o.includeSources, SourceHeaders)
      + Optional(o.includeTimestamps, TimestampHeaders) + ProjectHeaders
  }

  function Filenames(sources: seq<Source>): (r: seq<string>)
    ensures |r| == |sources|
    ensures forall i :: 0 <= i < |sources| ==> r[i] == sources[i].filename
  {
    if sources == [] then [] else [sources[0].filename] + Filenames(sources[1..])
  }

  /** The three metadata fields; a zero or absent response time is blank. */
  function MetadataFields(m: Option<MessageMetadata>, rd: Renderers): (r: seq<string>)
    ensures |r| == |MetadataHeaders|
  {
    var time := if m.Some? && m.value.responseTime.Some? && m.value.responseTime.value != 0
      then rd.seconds(m.value.responseTime.value) else "";
    var model := if m.Some? then m.value.model.GetOr("") else "";
    var error := if m.Some? then m.value.error.GetOr("") else "";
    [Quoted(time), Quoted(model), Quoted(error)]
  }

  /** The six leading fields of a message row. */
  function BaseFields(c: ChatConversation, m: ChatMessage, rd: Renderers): (r: seq<string>)
    ensures |r| == 6
    ensures r[0] == Quoted(c.id) && r[1] == Quoted(c.title) && r[2] == Quoted(m.id)
    ensures r[3] == Quoted(TypeName(m.mtype)) && r[4] == Quoted(EscapeQuotes(m.content))
    ensures r[5] == Quoted(rd.iso(m.timestamp))
  {
    [Quoted(c.id), Quoted(c.title), Quoted(m.id), Quoted(TypeName(m.mtype)),
     Quoted(EscapeQuotes(m.content)), Quoted(rd.iso(m.timestamp))]
  }

  /** The optional fields, as the options select them. */
  function OptionalFields(c: ChatConversation, m: ChatMessage, o: ExportOptions, rd: Renderers): (r: seq<string>)
    ensures |r| + 8 == HeaderWidth(o)
  {
    Optional(o.includeMetadata, MetadataFields(m.metadata, rd))
    + Optional(o.includeSources, [Quoted(NatToString(|m.sources|)), Quoted(Join(Filenames(m.sources), "; "))])
    + Optional(o.includeTimestamps, [Quoted(rd.iso(c.createdAt)), Quoted(rd.iso(c.updatedAt))])
  }

  /** The fields of the row for message `m` of conversation `c`: as many as
      the header has, the content with its quotes doubled. */
  function RowFields(c: ChatConversation, m: ChatMessage, o: ExportOptions, rd: Renderers): (r: seq<string>)
    ensures |r| == HeaderWidth(o)
  {
    BaseFields(c, m, rd) + OptionalFields(c, m, o, rd) + ProjectFields(c)
  }

  /** The row's first columns are the conversation id, the message id and
      the content with its quotes doubled, quoted. */
  lemma RowFieldsColumns(c: ChatConversation, m: ChatMessage, o: ExportOptions, rd: Renderers)
    ensures var r := RowFields(c, m, o, rd);
      r[0] == Quoted(c.id) && r[2] == Quoted(m.id) && r[4] == Quoted(EscapeQuotes(m.content))
  {
    var base := BaseFields(c, m, rd);
    assert RowFields(c, m, o, rd)[..6] == base;
  }

  /** The two trailing fields: the project ids and names, joined by "; ". */
  function ProjectFields(c: ChatConversation): (r: seq<string>)
    ensures |r| == 2
  {
    [Quoted(Join(c.projectIds, "; ")), Quoted(Join(c.projectNames, "; "))]
  }

  /** A message row as one CSV line. */
  function RowLine(o: ExportOptions, rd: Renderers): (ChatConversation, ChatMessage) -> string {
    (c: ChatConversation, m: ChatMessage) => Join(RowFields(c, m, o, rd), ",")
  }

  /** The rows of the messages `msgs` of conversation `c`, in message order. */
  function ConversationRows(c: ChatConversation, msgs: seq<ChatMessage>, row: (ChatConversation, ChatMessage) -> string): (r: seq<string>)
    ensures |r| == |msgs|
  {
    if msgs == [] then []
    else ConversationRows(c, msgs[..|msgs| - 1], row) + [row(c, msgs[|msgs| - 1])]
  }

  /** Row `j` of a conversation is the row of its message `j`. */
  lemma {:induction false} ConversationRowsAt(c: ChatConversation, msgs: seq<ChatMessage>, row: (ChatConversation, ChatMessage) -> string, j: nat)
    requires j < |msgs|
    ensures ConversationRows(c, msgs, row)[j] == row(c, msgs[j])
  {
    if j < |msgs| - 1 {
      ConversationRowsAt(c, msgs[..|msgs| - 1], row, j);
      assert msgs[..|msgs| - 1][j] == msgs[j];
    }
  }

  /** The message rows of every conversation, in conversation order. */
  function MessageRows(cs: seq<ChatConversation>, row: (ChatConversation, ChatMessage) -> string): seq<string> {
    if cs == [] then []
    else MessageRows(cs[..|cs| - 1], row) + ConversationRows(cs[|cs| - 1], cs[|cs| - 1].messages, row)
  }

  /** The rows of two lists of conversations are the rows of the first, then
      the rows of the second. */
  lemma {:induction false} MessageRowsConcat(a: seq<ChatConversation>, b: seq<ChatConversation>, row: (ChatConversation, ChatMessage) -> string)
    ensures MessageRows(a + b, row) == MessageRows(a, row) + MessageRows(b, row)
  {
    if b == [] {
      assert a + b == a;
    } else {
      assert (a + b)[..|a + b| - 1] == a + b[..|b| - 1];
      assert (a + b)[|a + b| - 1] == b[|b| - 1];
      MessageRowsConcat(a, b[..|b| - 1], row);
    }
  }

  /** There is one row per message. */
  lemma {:induction false} MessageRowsCount(cs: seq<ChatConversation>, row: (ChatConversation, ChatMessage) -> string)
    ensures |MessageRows(cs, row)| == MessageTotal(cs)
  {
    if cs != [] {
      MessageRowsCount(cs[..|cs| - 1], row);
      MessageTotalSnoc(cs[..|cs| - 1], cs[|cs| - 1]);
      assert cs[..|cs| - 1] + [cs[|cs| - 1]] == cs;
    }
  }

  /** The CSV lines: the header, then one row per message. */
  function CsvRows(cs: seq<ChatConversation>, o: ExportOptions, rd: Renderers): seq<string> {
    [Join(HeaderFields(o), ",")] + MessageRows(cs, RowLine(o, rd))
  }

  /** `exportToCSV`. The nested loops push one line per message after the header. */
  method ExportToCSV(conversations: seq<ChatConversation>, options: ExportOptions, rd: Renderers)
    returns (csv: string)
    ensures csv == Join(CsvRows(conversations, options, rd), "\n")
  {
    var headers := HeaderFields(options);
    var rows := PushRows([Join(headers, ",")], conversations, RowLine(options, rd));
    csv := Join(rows, "\n");
  }

  /** The `forEach` over the conversations and their messages, pushing
      `row(conversation, message)` after `rows`. */
  method PushRows(rows0: seq<string>, conversations: seq<ChatConversation>, row: (ChatConversation, ChatMessage) -> string)
    returns (rows: seq<string>)
    ensures rows == rows0 + MessageRows(conversations, row)
  {
    rows := rows0;
    var i := 0;
    while i < |conversations|
      invariant 0 <= i <= |conversations|
      invariant rows == rows0 + MessageRows(conversations[..i], row)
    {
      var conversation := conversations[i];
      ghost var before := rows;
      var j := 0;
      while j < |conversation.messages|
        invariant 0 <= j <= |conversation.messages|
        invariant rows == before + ConversationRows(conversation, conversation.messages[..j], row)
      {
        ghost var done := conversation.messages[..j + 1];
        assert done[..j] == conversation.messages[..j] && done[j] == conversation.messages[j];
        assert ConversationRows(conversation, done, row)
          == ConversationRows(conversation, conversation.messages[..j], row) + [row(conversation, conversation.messages[j])];
        rows := rows + [row(conversation, conversation.messages[j])];
        j := j + 1;
      }
      assert conversation.messages[..j] == conversation.messages;
      ghost var seen := conversations[..i + 1];
      assert seen[..i] == conversations[..i] && seen[i] == conversation;
      assert MessageRows(seen, row)
        == MessageRows(conversations[..i], row) + ConversationRows(conversation, conversation.messages, row);
      i := i + 1;
    }
    assert conversations[..i] == conversations;
  }

  // ---------------------------------------------------------------------------
  // JSON export record

  datatype ExportedMessage = ExportedMessage(
    id: string,
    mtype: MessageType,
    content: string,
    timestamp: int,
    sources: Option<seq<Source>>,
    metadata: Option<MessageMetadata>)

  datatype ExportedConversation = ExportedConversation(
    id: string,
    projectIds: seq<string>,
    projectNames: seq<string>,
    messages: seq<ExportedMessage>,
    createdAt: int,
    updatedAt: int,
    title: string)

  /** `ChatExportData`. */
  datatype ExportData = ExportData(
    conversations: seq<ExportedConversation>,
    exportedAt: int,
    totalMessages: nat,
    projectsIncluded: seq<string>)

  /** A message as exported: sources and metadata only when included. */
  function ExportMessage(m: ChatMessage, o: ExportOptions): (r: ExportedMessage)
    ensures r.id == m.id && r.content == m.content && r.mtype == m.mtype && r.timestamp == m.timestamp
    ensures r.sources.Some? <==> o.includeSources
    ensures r.sources.Some? ==> r.sources.value == m.sources
    ensures !o.includeMetadata ==> r.metadata.None?
    ensures o.includeMetadata ==> r.metadata == m.metadata
  {
    ExportedMessage(m.id, m.mtype, m.content, m.timestamp,
      if o.includeSources then Some(m.sources) else None,
      if o.includeMetadata then m.metadata else None)
  }

  function ExportMessages(ms: seq<ChatMessage>, o: ExportOptions): (r: seq<ExportedMessage>)
    ensures |r| == |ms|
    ensures forall j :: 0 <= j < |ms| ==> r[j] == ExportMessage(ms[j], o)
  {
    if ms == [] then [] else [ExportMessage(ms[0], o)] + ExportMessages(ms[1..], o)
  }

  function ExportConversation(c: ChatConversation, o: ExportOptions): ExportedConversation {
    ExportedConversation(c.id, c.projectIds, c.projectNames, ExportMessages(c.messages, o),
      c.createdAt, c.updatedAt, c.title)
  }

  function ExportConversationList(cs: seq<ChatConversation>, o: ExportOptions): (r: seq<ExportedConversation>)
    ensures |r| == |cs|
    ensures forall i :: 0 <= i < |cs| ==> r[i] == ExportConversation(cs[i], o)
  {
    if cs == [] then [] else [ExportConversation(cs[0], o)] + ExportConversationList(cs[1..], o)
  }

  /** `conversations.flatMap(conv => conv.projectIds)`. */
  function AllProjectIds(cs: seq<ChatConversation>): seq<string> {
    if cs == [] then [] else cs[0].projectIds + AllProjectIds(cs[1..])
  }

  /** A project id occurs in the flattened list iff some conversation names it. */
  lemma {:induction false} AllProjectIdsMembers(cs: seq<ChatConversation>, p: string)
    ensures p in AllProjectIds(cs) <==> exists i :: 0 <= i < |cs| && p in cs[i].projectIds
  {
    if cs != [] {
      AllProjectIdsMembers(cs[1..], p);
      if exists i :: 0 <= i < |cs| && p in cs[i].projectIds {
        var i :| 0 <= i < |cs| && p in cs[i].projectIds;
        if i > 0 {
          assert cs[1..][i - 1] == cs[i];
        }
      }
      if exists i :: 0 <= i < |cs| - 1 && p in cs[1..][i].projectIds {
        var i :| 0 <= i < |cs| - 1 && p in cs[1..][i].projectIds;
        assert cs[i + 1] == cs[1..][i];
      }
    }
  }

  /** The data `exportToJSON` serialises; `now` is the export clock. */
  function ExportDataOf(cs: seq<ChatConversation>, o: ExportOptions, now: int): (d: ExportData)
    ensures |d.conversations| == |cs|
    ensures forall i :: 0 <= i < |cs| ==>
      d.conversations[i].id == cs[i].id && |d.conversations[i].messages| == |cs[i].messages|
    ensures d.totalMessages == MessageTotal(cs)
    ensures NoDuplicates(d.projectsIncluded)
    ensures forall p :: p in d.projectsIncluded <==> exists i :: 0 <= i < |cs| && p in cs[i].projectIds
    ensures forall i, j :: 0 <= i < j < |d.projectsIncluded| ==>
      FirstBefore(AllProjectIds(cs), d.projectsIncluded[i], d.projectsIncluded[j])
    ensures d.conversations == ExportConversationList(cs, o) && d.exportedAt == now
  {
    var ids := Distinct(AllProjectIds(cs));
    DistinctOrder(AllProjectIds(cs));
    forall p ensures p in ids <==> exists i :: 0 <= i < |cs| && p in cs[i].projectIds {
      AllProjectIdsMembers(cs, p);
      var all := AllProjectIds(cs);
      if p in all {
        var k :| 0 <= k < |all| && all[k] == p;
      }
    }
    ExportData(ExportConversationList(cs, o), now, MessageTotal(cs), ids)
  }

  // ---------------------------------------------------------------------------
  // Dispatch and validation

  const SupportedFormats: seq<string> := ["csv", "txt", "json"]

  /** `validateExportOptions`. */
  function ValidateExportOptions(o: ExportOptions): (errors: seq<string>)
    ensures |errors| <= 1
    ensures errors == [] <==> o.format.Name() == "csv" || o.format.Name() == "txt" || o.format.Name() == "json"
    ensures errors != [] ==> errors[0] == "Invalid format. Must be csv, txt, or json."
  {
    if o.format.Name() in SupportedFormats then [] else ["Invalid format. Must be csv, txt, or json."]
  }

  /** `createDefaultExportOptions`: all three inclusions on, JSON unless a
      format is given. */
  function CreateDefaultExportOptions(format: Option<ExportFormat>): (o: ExportOptions)
    ensures o.includeMetadata && o.includeSources && o.includeTimestamps
    ensures o.format == format.GetOr(Json) && o.conversationId.None?
  {
    ExportOptions(format.GetOr(Json), true, true, true, None)
  }

  /** Default options for any of the declared formats pass validation. */
  lemma DefaultOptionsValid(format: Option<ExportFormat>)
    requires format.None? || format.value in {Csv, Txt, Json}
    ensures ValidateExportOptions(CreateDefaultExportOptions(format)) == []
  {
    var name := CreateDefaultExportOptions(format).format.Name();
    assert name == "csv" || name == "txt" || name == "json";
    assert name in SupportedFormats;
  }

  /** `exportConversations`; the thrown error is `Err`. */
  method ExportConversations(cs: seq<ChatConversation>, options: ExportOptions, rd: Renderers, now: int)
    returns (r: Result<string, string>)
    ensures options.format.Name() == "csv" ==> r == Ok(Join(CsvRows(cs, options, rd), "\n"))
    ensures options.format.Name() == "txt" ==> r == Ok(rd.txt(cs, options))
    ensures options.format.Name() == "json" ==> r == Ok(rd.json(ExportDataOf(cs, options, now)))
    ensures r.Err? <==> ValidateExportOptions(options) != []
    ensures r.Err? ==> r.error == "Unsupported export format: " + options.format.Name()
  {
    var name := options.format.Name();
    if name == "csv" {
      var csv := ExportToCSV(cs, options, rd);
      r := Ok(csv);
    } else if name == "txt" {
      r := Ok(rd.txt(cs, options));
    } else if name == "json" {
      r := Ok(rd.json(ExportDataOf(cs, options, now)));
    } else {
      r := Err("Unsupported export format: " + name);
    }
  }

  // ---------------------------------------------------------------------------
  // File names

  /** `s.replace(/[^a-zA-Z0-9]/g, '-')`. */
  function Dashify(s: string): (r: string)
    ensures |r| == |s|
    ensures forall i :: 0 <= i < |s| ==> r[i] == (if IsAlphanumeric(s[i]) then s[i] else '-')
  {
    if s == [] then [] else [if IsAlphanumeric(s[0]) then s[0] else '-'] + Dashify(s[1..])
  }

  /** `s.substring(0, n)`. */
  function Take(s: string, n: nat): (r: string)
    ensures |r| <= n && |r| <= |s| && r == s[..|r|]
    ensures |s| >= n ==> |r| == n
    ensures |s| <= n ==> r == s
  {
    if |s| <= n then s else s[..n]
  }

  /** The name part for a single conversation: its title, or its project names
      joined by "-", with every other character than a letter or a digit made
      a dash, cut to 30 characters. */
  function TitlePart(c: ChatConversation): (r: string)
    ensures |r| <= 30
    ensures forall i :: 0 <= i < |r| ==> IsAlphanumeric(r[i]) || r[i] == '-'
    ensures var text := if c.title != "" then c.title else Join(c.projectNames, "-");
      && |r| == (if |text| < 30 then |text| else 30)
      && forall i :: 0 <= i < |r| ==> r[i] == (if IsAlphanumeric(text[i]) then text[i] else '-')
  {
    var text := if c.title != "" then c.title else Join(c.projectNames, "-");
    Take(Dashify(text), 30)
  }

  /** The export targets one conversation: `conversationId` is truthy and
      exactly one conversation is exported. */
  predicate SingleConversation(cs: seq<ChatConversation>, o: ExportOptions) {
    o.conversationId.Some? && o.conversationId.value != "" && |cs| == 1
  }

  /** The file name before the date: `chat-` and the title part for a single
      conversation, else the conversation and message counts. */
  function BaseName(cs: seq<ChatConversation>, o: ExportOptions): (r: string)
    ensures StartsWith(r, "chat-")
    ensures SingleConversation(cs, o) ==> r == "chat-" + TitlePart(cs[0])
    ensures !SingleConversation(cs, o) ==>
      r == "chat-export-" + NatToString(|cs|) + "convos-" + NatToString(MessageTotal(cs)) + "msgs"
  {
    if SingleConversation(cs, o) then
      var r := "chat-" + TitlePart(cs[0]);
      assert r[..5] == "chat-";
      r
    else
      var r := "chat-export-" + NatToString(|cs|) + "convos-" + NatToString(MessageTotal(cs)) + "msgs";
      assert r[..5] == "chat-";
      r
  }

  /** `generateExportFilename`; `date` is the `YYYY-MM-DD` part of the clock's
      ISO string. */
  function GenerateExportFilename(cs: seq<ChatConversation>, o: ExportOptions, date: string): (r: string)
    ensures StartsWith(r, BaseName(cs, o)) && StartsWith(r, "chat-")
    ensures EndsWith(r, "-" + date + "." + o.format.Name())
    ensures |r| == |BaseName(cs, o)| + |date| + |o.format.Name()| + 2
  {
    var baseName := BaseName(cs, o);
    var tail := "-" + date + "." + o.format.Name();
    var r := baseName + tail;
    assert r[..|baseName|] == baseName;
    assert r[..5] == baseName[..5];
    assert r[|r| - |tail|..] == tail;
    r
  }

  // ---------------------------------------------------------------------------
  // Statistics

  datatype DateRange = DateRange(earliest: int, latest: int)

  datatype ExportStatistics = ExportStatistics(
    conversationCount: nat,
    totalMessages: nat,
    userMessages: nat,
    assistantMessages: nat,
    systemMessages: int,
    totalSources: nat,
    uniqueProjectCount: nat,
    uniqueProjects: seq<string>,
    dateRange: Option<DateRange>)

  function IsOfType(t: MessageType): ChatMessage -> bool {
    (m: ChatMessage) => m.mtype == t
  }

  /** The number of messages of type `t` over all conversations. */
  function MessagesOfType(cs: seq<ChatConversation>, t: MessageType): nat {
    if cs == [] then 0 else Count(cs[0].messages, IsOfType(t)) + MessagesOfType(cs[1..], t)
  }

  /** Every message is a user, an assistant or a system message. */
  lemma {:induction false} TypesPartitionMessages(ms: seq<ChatMessage>)
    ensures |ms| == Count(ms, IsOfType(User)) + Count(ms, IsOfType(Assistant)) + Count(ms, IsOfType(System))
  {
    if ms != [] {
      TypesPartitionMessages(ms[1..]);
    }
  }

  lemma {:induction false} TypesPartitionConversations(cs: seq<ChatConversation>)
    ensures MessageTotal(cs) == MessagesOfType(cs, User) + MessagesOfType(cs, Assistant) + MessagesOfType(cs, System)
  {
    if cs != [] {
      TypesPartitionMessages(cs[0].messages);
      TypesPartitionConversations(cs[1..]);
    }
  }

  function SourceCount(ms: seq<ChatMessage>): nat {
    if ms == [] then 0 else |ms[0].sources| + SourceCount(ms[1..])
  }

  function SourceTotal(cs: seq<ChatConversation>): nat {
    if cs == [] then 0 else SourceCount(cs[0].messages) + SourceTotal(cs[1..])
  }

  /** `Math.min(...createdAt)`. */
  function EarliestCreated(cs: seq<ChatConversation>): (t: int)
    requires cs != []
    ensures forall i :: 0 <= i < |cs| ==> t <= cs[i].createdAt
    ensures exists i :: 0 <= i < |cs| && t == cs[i].createdAt
  {
    if |cs| == 1 then cs[0].createdAt
    else
      var rest := EarliestCreated(cs[1..]);
      assert forall i :: 1 <= i < |cs| ==> cs[i] == cs[1..][i - 1];
      var k :| 0 <= k < |cs| - 1 && rest == cs[1..][k].createdAt;
      assert rest == cs[k + 1].createdAt;
      if cs[0].createdAt <= rest then cs[0].createdAt else rest
  }

  /** `Math.max(...updatedAt)`. */
  function LatestUpdated(cs: seq<ChatConversation>): (t: int)
    requires cs != []
    ensures forall i :: 0 <= i < |cs| ==> cs[i].updatedAt <= t
    ensures exists i :: 0 <= i < |cs| && t == cs[i].updatedAt
  {
    if |cs| == 1 then cs[0].updatedAt
    else
      var rest := LatestUpdated(cs[1..]);
      assert forall i :: 1 <= i < |cs| ==> cs[i] == cs[1..][i - 1];
      var k :| 0 <= k < |cs| - 1 && rest == cs[1..][k].updatedAt;
      assert rest == cs[k + 1].updatedAt;
      if cs[0].updatedAt >= rest then cs[0].updatedAt else rest
  }

  /** `getExportStatistics`. */
  function GetExportStatistics(cs: seq<ChatConversation>): (s: ExportStatistics)
    ensures s.conversationCount == |cs| && s.totalMessages == MessageTotal(cs)
    ensures s.userMessages == MessagesOfType(cs, User) && s.assistantMessages == MessagesOfType(cs, Assistant)
    ensures s.systemMessages == MessagesOfType(cs, System)
    ensures s.totalSources == SourceTotal(cs)
    ensures NoDuplicates(s.uniqueProjects) && s.uniqueProjectCount == |s.uniqueProjects|
    ensures forall p :: p in s.uniqueProjects <==> exists i :: 0 <= i < |cs| && p in cs[i].projectIds
    ensures forall i, j :: 0 <= i < j < |s.uniqueProjects| ==>
      FirstBefore(AllProjectIds(cs), s.uniqueProjects[i], s.uniqueProjects[j])
    ensures s.dateRange.None? <==> cs == []
    ensures s.dateRange.Some? ==> forall i :: 0 <= i < |cs| ==>
      s.dateRange.value.earliest <= cs[i].createdAt && cs[i].updatedAt <= s.dateRange.value.latest
    ensures s.dateRange.Some? ==>
      && (exists i :: 0 <= i < |cs| && s.dateRange.value.earliest == cs[i].createdAt)
      && (exists i :: 0 <= i < |cs| && s.dateRange.value.latest == cs[i].updatedAt)
    ensures s.dateRange.Some? ==> s.dateRange.value == DateRange(EarliestCreated(cs), LatestUpdated(cs))
  {
    var total := MessageTotal(cs);
    var user := MessagesOfType(cs, User);
    var assistant := MessagesOfType(cs, Assistant);
    TypesPartitionConversations(cs);
    var unique := Distinct(AllProjectIds(cs));
    DistinctOrder(AllProjectIds(cs));
    forall p ensures p in unique <==> exists i :: 0 <= i < |cs| && p in cs[i].projectIds {
      AllProjectIdsMembers(cs, p);
      var all := AllProjectIds(cs);
      if p in all {
        var k :| 0 <= k < |all| && all[k] == p;
      }
    }
    var range := if cs == [] then None else Some(DateRange(EarliestCreated(cs), LatestUpdated(cs)));
    ExportStatistics(|cs|, total, user, assistant, total - user - assistant, SourceTotal(cs),
      |unique|, unique, range)
  }
}
