/** Sending a chat message (components/ChatInterface.tsx, `handleSendMessage`):
    the guard, one GraphRAG query per selected project, and the combination
    of the answers into the assistant's reply with its sources de-duplicated.
    The query service is an oracle from project id and message to an
    outcome; the store callbacks are the chat history store's methods. */
module ChatInterface {
  import opened Wrappers
  import opened Text
  import opened Seqs
  import opened Types
  import opened GraphRag
  import opened ChatHistory

  const Fallback := "I was unable to find relevant information for your question."
  const SendFailurePrefix := "Failed to send message: "

  /** What one project answered: its cleaned text and sources, or the error
      text and no sources. */
  datatype ProjectResponse = ProjectResponse(projectId: string, response: string, sources: seq<Source>)

  /** The content and sources the assistant message is updated with. */
  datatype Reply = Reply(content: string, sources: seq<Source>)

  /** The `Date.now()` readings of one send: the two message timestamps, the
      start and end of the queries, and the time of the final update. */
  datatype SendClock = SendClock(userAddedAt: int, placeholderAddedAt: int, startTime: int, endTime: int, updatedAt: int)

  /** How a send ends: the guard refused it, the reply was written, or adding
      a message threw (there is no active conversation). */
  datatype SendOutcome = NotSent | Replied(reply: Reply) | Rejected(message: string)

  // ---------------------------------------------------------------------------
  // The guard and the per-project responses

  /** A message is sent only when the trimmed input is non-empty, no request
      is loading and some project is selected. */
  predicate CanSend(input: string, loading: bool, selectedProjects: seq<string>) {
    Trim(input) != "" && !loading && selectedProjects != []
  }

  /** `projectNames[projectId] || projectId`. */
  function ProjectName(projectNames: map<string, string>, projectId: string): string {
    if projectId in projectNames && projectNames[projectId] != "" then projectNames[projectId] else projectId
  }

  /** The entry pushed for `projectId` once its query ends in `outcome`. */
  function ResponseFor(projectId: string, outcome: QueryOutcome, projectNames: map<string, string>): (r: ProjectResponse)
    ensures r.projectId == projectId
    ensures outcome.Answered? ==> r.response == CleanText(outcome.text) && r.sources == SourcesFrom(outcome.text, 0)
    ensures outcome.Failed? ==> r.sources == [] && StartsWith(r.response, "Error querying project " + ProjectName(projectNames, projectId) + ": ")
  {
    match outcome
    case Answered(text) => ProjectResponse(projectId, CleanText(text), SourcesFrom(text, 0))
    case Failed(message) =>
      var head := "Error querying project " + ProjectName(projectNames, projectId) + ": ";
      var text := head + message.GetOr("Unknown error");
      assert text[..|head|] == head;
      ProjectResponse(projectId, text, [])
  }

  /** The responses for `projects`, one per project, in order. */
  function Responses(projects: seq<string>, message: string, query: (string, string) -> QueryOutcome, projectNames: map<string, string>): (r: seq<ProjectResponse>)
    ensures |r| == |projects|
  {
    if projects == [] then []
    else
      var last := projects[|projects| - 1];
      Responses(projects[..|projects| - 1], message, query, projectNames) + [ResponseFor(last, query(last, message), projectNames)]
  }

  /** Entry `i` is project `i`'s answer to the message. */
  lemma {:induction false} ResponsesAt(projects: seq<string>, message: string, query: (string, string) -> QueryOutcome, projectNames: map<string, string>, i: nat)
    requires i < |projects|
    ensures Responses(projects, message, query, projectNames)[i] == ResponseFor(projects[i], query(projects[i], message), projectNames)
  {
    if i < |projects| - 1 {
      ResponsesAt(projects[..|projects| - 1], message, query, projectNames, i);
    }
  }

  /** One more project appends its entry. */
  lemma ResponsesSnoc(projects: seq<string>, message: string, query: (string, string) -> QueryOutcome, projectNames: map<string, string>, p: nat)
    requires p < |projects|
    ensures Responses(projects[..p + 1], message, query, projectNames)
      == Responses(projects[..p], message, query, projectNames) + [ResponseFor(projects[p], query(projects[p], message), projectNames)]
  {
    assert projects[..p + 1][..p] == projects[..p];
  }

  // ---------------------------------------------------------------------------
  // Combining the text

  /** One project's part of a combined answer: its name in bold, then its
      response. */
  function Labelled(r: ProjectResponse, projectNames: map<string, string>): (s: string)
    ensures StartsWith(s, "**" + ProjectName(projectNames, r.projectId) + ":**\n")
    ensures EndsWith(s, r.response)
  {
    var head := "**" + ProjectName(projectNames, r.projectId) + ":**\n";
    assert (head + r.response)[..|head|] == head;
    assert (head + r.response)[|head|..] == r.response;
    head + r.response
  }

  /** The combined text: a single project's response as it is; several
      projects' labelled responses separated by blank lines. */
  function CombinedText(responses: seq<ProjectResponse>, projectNames: map<string, string>): string {
    if |responses| == 1 then responses[0].response
    else Join(seq(|responses|, i requires 0 <= i < |responses| => Labelled(responses[i], projectNames)), "\n\n")
  }

  /** With several projects the combined text is never empty, since every
      part carries its label: the fallback sentence is then never used. */
  lemma SeveralProjectsNeverEmpty(responses: seq<ProjectResponse>, projectNames: map<string, string>)
    requires |responses| > 1
    ensures CombinedText(responses, projectNames) != ""
  {
    var parts := seq(|responses|, i requires 0 <= i < |responses| => Labelled(responses[i], projectNames));
    JoinKeepsLast(parts, "\n\n");
  }

  /** A join ends with its last part. */
  lemma JoinKeepsLast(parts: seq<string>, sep: string)
    requires parts != []
    ensures |Join(parts, sep)| >= |parts[|parts| - 1]|
  {
    if |parts| > 1 {
      JoinSnoc(parts[..|parts| - 1], parts[|parts| - 1], sep);
      assert parts[..|parts| - 1] + [parts[|parts| - 1]] == parts;
    }
  }

  // ---------------------------------------------------------------------------
  // De-duplicating the sources

  /** The key a source is de-duplicated by. */
  function SourceKey(s: Source): string {
    s.filename + "-" + IntToString(s.pageNum) + "-" + s.section
  }

  /** The source keys of `s`, in order. */
  function Keys(s: seq<Source>): (r: seq<string>) {
    KeysBy(s, SourceKey)
  }

  /** Every project's sources, in project order. */
  function AllSources(responses: seq<ProjectResponse>): seq<Source> {
    if responses == [] then []
    else AllSources(responses[..|responses| - 1]) + responses[|responses| - 1].sources
  }

  /** The values of a `Map` filled from `s` by "set when the key is new":
      each key's first element, in the order the keys first appear. */
  function DedupedBy<T(!new), K(==,!new)>(s: seq<T>, key: T -> K): (r: seq<T>)
    ensures NoDuplicates(KeysBy(r, key))
    ensures forall x :: x in r ==> x in s
    ensures forall k :: k in KeysBy(s, key) <==> k in KeysBy(r, key)
    ensures |r| <= |s|
  {
    if s == [] then []
    else
      var prefix := DedupedBy(s[..|s| - 1], key);
      var x := s[|s| - 1];
      assert KeysBy(s, key) == KeysBy(s[..|s| - 1], key) + [key(x)];
      if key(x) in KeysBy(prefix, key) then prefix
      else
        assert KeysBy(prefix + [x], key) == KeysBy(prefix, key) + [key(x)];
        prefix + [x]
  }

  /** The sources of `s`, de-duplicated by `SourceKey`. */
  function Deduped(s: seq<Source>): seq<Source> {
    DedupedBy(s, SourceKey)
  }

  /** The position of the first occurrence of `k` in `keys`. */
  function FirstAt<K(==)>(keys: seq<K>, k: K): (i: nat)
    requires k in keys
    ensures i < |keys| && keys[i] == k
    ensures forall j :: 0 <= j < i ==> keys[j] != k
  {
    if keys[0] == k then 0 else 1 + FirstAt(keys[1..], k)
  }

  /** A first occurrence does not move when an element is appended. */
  lemma {:induction false} FirstAtSnoc<K>(keys: seq<K>, x: K, k: K)
    requires k in keys
    ensures FirstAt(keys + [x], k) == FirstAt(keys, k)
  {
    if keys[0] != k {
      assert (keys + [x])[1..] == keys[1..] + [x];
      FirstAtSnoc(keys[1..], x, k);
    }
  }

  /** One more element: kept when its key is new. */
  lemma DedupedSnoc<T(!new), K(!new)>(s: seq<T>, x: T, key: T -> K)
    ensures var d := DedupedBy(s, key);
      DedupedBy(s + [x], key) == if key(x) in KeysBy(d, key) then d else d + [x]
  {
    assert (s + [x])[..|s|] == s;
  }

  /** The first element with each key wins, and the kept elements come in
      the order their keys first appear. */
  lemma DedupedFirstWins<T(!new), K(!new)>(s: seq<T>, key: T -> K)
    ensures var r := DedupedBy(s, key);
      && (forall i :: 0 <= i < |r| ==> key(r[i]) in KeysBy(s, key) && r[i] == s[FirstAt(KeysBy(s, key), key(r[i]))])
      && (forall i, j :: 0 <= i < j < |r| ==> FirstAt(KeysBy(s, key), key(r[i])) < FirstAt(KeysBy(s, key), key(r[j])))
  {
    var r := DedupedBy(s, key);
    forall i | 0 <= i < |r| ensures key(r[i]) in KeysBy(s, key) && r[i] == s[FirstAt(KeysBy(s, key), key(r[i]))] {
      DedupedAt(s, key, i);
    }
    forall i, j | 0 <= i < j < |r| ensures FirstAt(KeysBy(s, key), key(r[i])) < FirstAt(KeysBy(s, key), key(r[j])) {
      DedupedOrderAt(s, key, i, j);
    }
  }

  /** The last element of `s`, when kept, is kept last and is the first
      with its key. */
  lemma DedupedLast<T(!new), K(!new)>(s: seq<T>, key: T -> K)
    requires s != []
    ensures var p := s[..|s| - 1];
      var rp := DedupedBy(p, key);
      && KeysBy(s, key) == KeysBy(p, key) + [key(s[|s| - 1])]
      && DedupedBy(s, key) == (if key(s[|s| - 1]) in KeysBy(rp, key) then rp else rp + [s[|s| - 1]])
      && (key(s[|s| - 1]) !in KeysBy(rp, key) ==> FirstAt(KeysBy(s, key), key(s[|s| - 1])) == |p|)
  {
    var p := s[..|s| - 1];
    var x := s[|s| - 1];
    assert p + [x] == s;
    DedupedSnoc(p, x, key);
    var ks := KeysBy(s, key);
    var kp := KeysBy(p, key);
    assert ks == kp + [key(x)];
    if key(x) !in KeysBy(DedupedBy(p, key), key) {
      assert key(x) !in kp;
      assert ks[|p|] == key(x);
    }
  }

  /** Kept element `i` is the first element of `s` with its key. */
  lemma {:induction false} DedupedAt<T(!new), K(!new)>(s: seq<T>, key: T -> K, i: nat)
    requires i < |DedupedBy(s, key)|
    ensures key(DedupedBy(s, key)[i]) in KeysBy(s, key)
    ensures DedupedBy(s, key)[i] == s[FirstAt(KeysBy(s, key), key(DedupedBy(s, key)[i]))]
  {
    var p := s[..|s| - 1];
    var rp := DedupedBy(p, key);
    DedupedLast(s, key);
    if i < |rp| {
      DedupedAt(p, key, i);
      FirstAtSnoc(KeysBy(p, key), key(s[|s| - 1]), key(rp[i]));
    }
  }

  /** Kept elements come in the order their keys first appear. */
  lemma {:induction false} DedupedOrderAt<T(!new), K(!new)>(s: seq<T>, key: T -> K, i: nat, j: nat)
    requires i < j < |DedupedBy(s, key)|
    ensures FirstAt(KeysBy(s, key), key(DedupedBy(s, key)[i])) < FirstAt(KeysBy(s, key), key(DedupedBy(s, key)[j]))
  {
    var p := s[..|s| - 1];
    var x := s[|s| - 1];
    var rp := DedupedBy(p, key);
    var kp := KeysBy(p, key);
    DedupedLast(s, key);
    assert KeysBy(rp, key)[i] == key(rp[i]);
    FirstAtSnoc(kp, key(x), key(rp[i]));
    if j < |rp| {
      DedupedOrderAt(p, key, i, j);
      assert KeysBy(rp, key)[j] == key(rp[j]);
      FirstAtSnoc(kp, key(x), key(rp[j]));
    }
  }

  /** Elements whose keys are already distinct come through unchanged. */
  lemma {:induction false} DedupedDistinct<T(!new), K(!new)>(s: seq<T>, key: T -> K)
    requires NoDuplicates(KeysBy(s, key))
    ensures DedupedBy(s, key) == s
  {
    if s != [] {
      var p := s[..|s| - 1];
      var x := s[|s| - 1];
      assert KeysBy(p, key) == KeysBy(s, key)[..|s| - 1];
      DedupedDistinct(p, key);
      assert key(x) !in KeysBy(p, key) by {
        assert KeysBy(s, key)[|s| - 1] == key(x);
      }
      assert p + [x] == s;
    }
  }

  /** De-duplicating twice is de-duplicating once. */
  lemma DedupedIdempotent(s: seq<Source>)
    ensures Deduped(Deduped(s)) == Deduped(s)
  {
    DedupedDistinct(Deduped(s), SourceKey);
  }

  /** The sources of the reply: a single project's verbatim, several
      projects' de-duplicated. */
  function CombinedSources(responses: seq<ProjectResponse>): seq<Source> {
    if |responses| == 1 then responses[0].sources else Deduped(AllSources(responses))
  }

  /** The assistant's reply, with the fallback sentence for an empty text. */
  function ReplyOf(responses: seq<ProjectResponse>, projectNames: map<string, string>): (r: Reply)
    ensures r.content != ""
    ensures CombinedText(responses, projectNames) != "" ==> r.content == CombinedText(responses, projectNames)
    ensures CombinedText(responses, projectNames) == "" ==> r.content == Fallback
    ensures r.sources == CombinedSources(responses)
  {
    var text := CombinedText(responses, projectNames);
    Reply(if text == "" then Fallback else text, CombinedSources(responses))
  }

  /** One project: its response and sources are the reply, verbatim (or the
      fallback sentence for an empty response). */
  lemma SingleProjectVerbatim(responses: seq<ProjectResponse>, projectNames: map<string, string>)
    requires |responses| == 1
    ensures ReplyOf(responses, projectNames).sources == responses[0].sources
    ensures responses[0].response != "" ==> ReplyOf(responses, projectNames).content == responses[0].response
  {
  }

  /** Several projects: the reply's sources have distinct keys, cover every
      key any project cited, and the text is never the fallback. */
  lemma SeveralProjectsCombined(responses: seq<ProjectResponse>, projectNames: map<string, string>)
    requires |responses| > 1
    ensures var r := ReplyOf(responses, projectNames);
      && NoDuplicates(Keys(r.sources))
      && (forall k :: k in Keys(AllSources(responses)) <==> k in Keys(r.sources))
      && r.content == CombinedText(responses, projectNames)
  {
    SeveralProjectsNeverEmpty(responses, projectNames);
  }

  // ---------------------------------------------------------------------------
  // The combination step as the component runs it

  /** A `Map` from key to element, with `order` its key insertion order,
      holding exactly `kept`. */
  ghost predicate MapHolds<T, K(!new)>(m: map<K, T>, order: seq<K>, kept: seq<T>, key: T -> K) {
    && order == KeysBy(kept, key)
    && (forall k :: k in m <==> k in order)
    && (forall i :: 0 <= i < |order| ==> m[order[i]] == kept[i])
  }

  /** The combination step: the single response as it is, or the labelled
      join and a `Map` from key to source filled response by response. */
  method CombineResponses(responses: seq<ProjectResponse>, projectNames: map<string, string>) returns (reply: Reply)
    ensures reply == ReplyOf(responses, projectNames)
  {
    var combinedResponse := "";
    var allSources: seq<Source> := [];
    if |responses| == 1 {
      combinedResponse := responses[0].response;
      allSources := responses[0].sources;
    } else {
      combinedResponse := Join(seq(|responses|, i requires 0 <= i < |responses| => Labelled(responses[i], projectNames)), "\n\n");
      var sourceMap: map<string, Source> := map[];
      var order: seq<string> := [];
      var r := 0;
      while r < |responses|
        invariant 0 <= r <= |responses|
        invariant MapHolds(sourceMap, order, Deduped(AllSources(responses[..r])), SourceKey)
      {
        assert responses[..r + 1][..r] == responses[..r];
        sourceMap, order := PutAll(sourceMap, order, AllSources(responses[..r]), responses[r].sources, SourceKey);
        r := r + 1;
      }
      assert responses[..r] == responses;
      allSources := seq(|order|, i requires 0 <= i < |order| => sourceMap[order[i]]);
    }
    reply := Reply(if combinedResponse == "" then Fallback else combinedResponse, allSources);
  }

  /** Setting a new key appends its element; a present key is a no-op. */
  lemma MapHoldsPut<T, K(!new)>(m: map<K, T>, order: seq<K>, kept: seq<T>, x: T, key: T -> K)
    requires MapHolds(m, order, kept, key)
    ensures key(x) in m <==> key(x) in KeysBy(kept, key)
    ensures key(x) !in m ==> MapHolds(m[key(x) := x], order + [key(x)], kept + [x], key)
  {
    if key(x) !in m {
      assert KeysBy(kept + [x], key) == order + [key(x)];
    }
  }

  /** One step of the inner `forEach`, stated on the map before and after. */
  lemma PutStep<T(!new), K(!new)>(m: map<K, T>, order: seq<K>, prefix: seq<T>, x: T, key: T -> K)
    requires MapHolds(m, order, DedupedBy(prefix, key), key)
    ensures key(x) in m ==> MapHolds(m, order, DedupedBy(prefix + [x], key), key)
    ensures key(x) !in m ==> MapHolds(m[key(x) := x], order + [key(x)], DedupedBy(prefix + [x], key), key)
  {
    DedupedSnoc(prefix, x, key);
    MapHoldsPut(m, order, DedupedBy(prefix, key), x, key);
  }

  /** The body of the inner `forEach` for `items[j]`: set it under its key
      unless the key is already present. */
  method PutIfAbsent<T(!new), K(==,!new)>(m0: map<K, T>, order0: seq<K>, ghost seen: seq<T>, items: seq<T>, j: nat, key: T -> K)
    returns (m: map<K, T>, order: seq<K>)
    requires j < |items|
    requires MapHolds(m0, order0, DedupedBy(seen + items[..j], key), key)
    ensures MapHolds(m, order, DedupedBy(seen + items[..j + 1], key), key)
  {
    var item := items[j];
    var k := key(item);
    assert seen + items[..j + 1] == (seen + items[..j]) + [item];
    PutStep(m0, order0, seen + items[..j], item, key);
    m, order := m0, order0;
    if k !in m {
      m := m[k := item];
      order := order + [k];
    }
  }

  /** The inner `forEach`: each element is set under its key unless the key
      is already present. */
  method PutAll<T(!new), K(==,!new)>(m0: map<K, T>, order0: seq<K>, ghost seen: seq<T>, items: seq<T>, key: T -> K)
    returns (m: map<K, T>, order: seq<K>)
    requires MapHolds(m0, order0, DedupedBy(seen, key), key)
    ensures MapHolds(m, order, DedupedBy(seen + items, key), key)
  {
    m, order := m0, order0;
    var j := 0;
    assert seen + items[..j] == seen;
    while j < |items|
      invariant 0 <= j <= |items|
      invariant MapHolds(m, order, DedupedBy(seen + items[..j], key), key)
    {
      m, order := PutIfAbsent(m, order, seen, items, j, key);
      j := j + 1;
    }
    assert items[..j] == items;
  }

  /** The `for` loop over the selected projects: each query's outcome is
      parsed into an entry, and a failed query becomes an error entry. */
  method QueryProjects(selectedProjects: seq<string>, userMessage: string, query: (string, string) -> QueryOutcome,
                       projectNames: map<string, string>)
    returns (responses: seq<ProjectResponse>)
    ensures responses == Responses(selectedProjects, userMessage, query, projectNames)
  {
    responses := [];
    var p := 0;
    while p < |selectedProjects|
      invariant 0 <= p <= |selectedProjects|
      invariant responses == Responses(selectedProjects[..p], userMessage, query, projectNames)
    {
      var projectId := selectedProjects[p];
      ResponsesSnoc(selectedProjects, userMessage, query, projectNames, p);
      var entry := QueryProject(projectId, userMessage, query, projectNames);
      responses := responses + [entry];
      p := p + 1;
    }
    assert selectedProjects[..p] == selectedProjects;
  }

  /** One iteration of that loop: the `try` around the query and its
      `catch`. */
  method QueryProject(projectId: string, userMessage: string, query: (string, string) -> QueryOutcome,
                      projectNames: map<string, string>)
    returns (entry: ProjectResponse)
    ensures entry == ResponseFor(projectId, query(projectId, userMessage), projectNames)
  {
    var response := query(projectId, userMessage);
    match response {
      case Answered(text) =>
        var cleanResponse, sources := ParseSources(text);
        entry := ProjectResponse(projectId, cleanResponse, sources);
      case Failed(message) =>
        entry := ProjectResponse(projectId,
          "Error querying project " + ProjectName(projectNames, projectId) + ": " + message.GetOr("Unknown error"), []);
    }
  }

  // ---------------------------------------------------------------------------
  // The component

  /** Some message has id `id`. */
  predicate HasMessage(msgs: seq<ChatMessage>, id: string) {
    exists j :: 0 <= j < |msgs| && msgs[j].id == id
  }

  /** The assistant message once the reply is written into the placeholder. */
  function AnswerMessage(id: string, reply: Reply, selectedProjects: seq<string>, clock: SendClock): ChatMessage {
    ChatMessage(id, Assistant, reply.content, clock.placeholderAddedAt, reply.sources,
      Some(MessageMetadata(Some(selectedProjects), Some(clock.endTime - clock.startTime), None, Some("GraphRAG"), None)))
  }

  /** The user's message, tagged with the selected projects. */
  function UserMessage(id: string, text: string, selectedProjects: seq<string>, clock: SendClock): ChatMessage {
    ChatMessage(id, User, text, clock.userAddedAt, [], Some(MessageMetadata(Some(selectedProjects), None, None, None, None)))
  }

  /** The empty assistant message added before the queries run. */
  function Placeholder(id: string, selectedProjects: seq<string>, clock: SendClock): ChatMessage {
    ChatMessage(id, Assistant, "", clock.placeholderAddedAt, [], Some(MessageMetadata(Some(selectedProjects), Some(0), None, None, None)))
  }

  /** The update written into the placeholder: the reply's content and
      sources, and metadata naming the model and the response time. */
  function ReplyUpdate(reply: Reply, selectedProjects: seq<string>, clock: SendClock): MessageUpdate {
    MessageUpdate(None, None, Some(reply.content), None, Some(reply.sources),
      Some(Some(MessageMetadata(Some(selectedProjects), Some(clock.endTime - clock.startTime), None, Some("GraphRAG"), None))))
  }

  /** Writing the reply into the placeholder yields the answer message. */
  lemma ReplyFillsPlaceholder(id: string, reply: Reply, selectedProjects: seq<string>, clock: SendClock)
    ensures MergeMessage(Placeholder(id, selectedProjects, clock), ReplyUpdate(reply, selectedProjects, clock))
      == AnswerMessage(id, reply, selectedProjects, clock)
  {
  }

  /** Replacing the conversation with id `id` by one with the same id makes
      it the one found under that id. */
  lemma ReplaceFound(cs: seq<ChatConversation>, id: string, c: ChatConversation)
    requires UniqueIds(cs) && HasId(cs, id) && c.id == id
    ensures Lookup(cs, id) == Some(cs[IndexOf(cs, id)])
    ensures UniqueIds(cs[IndexOf(cs, id) := c]) && Lookup(cs[IndexOf(cs, id) := c], id) == Some(c)
    ensures IndexOf(cs[IndexOf(cs, id) := c], id) == IndexOf(cs, id)
  {
    var k := IndexOf(cs, id);
    LookupUnique(cs, k);
    LookupUnique(cs[k := c], k);
  }

  /** Appending `m` to the conversation found under `a`'s id replaces it by
      the returned one, which is then found under that id; when no message
      of `a` has `m`'s id, `m` ends it and is found by its id. */
  lemma AppendedToFound(cs0: seq<ChatConversation>, a: ChatConversation, m: ChatMessage, max: nat, t: int)
    returns (c1: ChatConversation)
    requires UniqueIds(cs0) && Lookup(cs0, a.id) == Some(a)
    ensures c1 == a.(messages := Capped(a.messages + [m], max), updatedAt := t)
    ensures HasId(cs0, a.id) && cs0[IndexOf(cs0, a.id)] == a
    ensures Lookup(cs0[IndexOf(cs0, a.id) := c1], a.id) == Some(c1)
    ensures ReadyFor(Some(a), m.id) ==> PlaceholderLast(Some(c1), m)
  {
    c1 := a.(messages := Capped(a.messages + [m], max), updatedAt := t);
    ReplaceFound(cs0, a.id, c1);
    assert ReadyFor(Some(a), m.id) ==> PlaceholderLast(Some(c1), m) by {
      if ReadyFor(Some(a), m.id) {
        PlaceholderFound(a.messages, m, max);
      }
    }
  }

  /** Merging `update` into the message with id `mid` of the conversation
      found under `a`'s id replaces it by the returned one, which is then
      found under that id. */
  lemma MergedIntoFound(cs1: seq<ChatConversation>, a: ChatConversation, mid: string, update: MessageUpdate, t: int)
    returns (c2: ChatConversation)
    requires UniqueIds(cs1) && Lookup(cs1, a.id) == Some(a) && FindMessage(a.messages, mid).Some?
    ensures var i := FindMessage(a.messages, mid).value;
      c2 == a.(messages := a.messages[i := MergeMessage(a.messages[i], update)], updatedAt := t)
    ensures HasId(cs1, a.id) && cs1[IndexOf(cs1, a.id)] == a
    ensures Lookup(cs1[IndexOf(cs1, a.id) := c2], a.id) == Some(c2)
  {
    var i := FindMessage(a.messages, mid).value;
    c2 := a.(messages := a.messages[i := MergeMessage(a.messages[i], update)], updatedAt := t);
    ReplaceFound(cs1, a.id, c2);
  }

  /** Replacing the conversation with `a`'s id twice, the first time by
      one with the same id, is replacing it once by the second. */
  lemma ReplacedTwice(cs0: seq<ChatConversation>, a: ChatConversation, c1: ChatConversation, c2: ChatConversation)
    requires UniqueIds(cs0) && HasId(cs0, a.id) && c1.id == a.id
    ensures var k := IndexOf(cs0, a.id);
      HasId(cs0[k := c1], a.id) && IndexOf(cs0[k := c1], a.id) == k && cs0[k := c1][k := c2] == cs0[k := c2]
  {
    ReplaceFound(cs0, a.id, c1);
  }

  /** Adding the placeholder to conversation `a` and then writing the
      answer over it is adding the answer. */
  lemma PlaceholderThenAnswer(cs0: seq<ChatConversation>, a: ChatConversation, p: ChatMessage, ans: ChatMessage,
                              max: nat, t1: int, t2: int)
    requires UniqueIds(cs0) && HasId(cs0, a.id)
    ensures var k := IndexOf(cs0, a.id);
      var c1 := a.(messages := Capped(a.messages + [p], max), updatedAt := t1);
      var cs1 := cs0[k := c1];
      c1.messages != [] && HasId(cs1, a.id) && IndexOf(cs1, a.id) == k &&
      cs1[k := c1.(messages := c1.messages[|c1.messages| - 1 := ans], updatedAt := t2)]
        == cs0[k := a.(messages := Capped(a.messages + [ans], max), updatedAt := t2)]
  {
    var k := IndexOf(cs0, a.id);
    var c1 := a.(messages := Capped(a.messages + [p], max), updatedAt := t1);
    ReplaceFound(cs0, a.id, c1);
    CappedLastReplaced(a.messages, p, ans, max);
  }

  /** Replacing the message just appended, after capping, is appending its
      replacement. */
  lemma CappedLastReplaced(msgs: seq<ChatMessage>, p: ChatMessage, a: ChatMessage, max: nat)
    ensures var r := Capped(msgs + [p], max);
      r != [] && r[|r| - 1 := a] == Capped(msgs + [a], max)
  {
    var withP, withA := msgs + [p], msgs + [a];
    var r, q := Capped(withP, max), Capped(withA, max);
    AppendedIsLast(msgs, p, max);
    assert r == withP[|withP| - |r|..] && q == withA[|withA| - |q|..];
    assert |r| == |q|;
    forall j | 0 <= j < |r| - 1 ensures r[j] == q[j] {
      assert r[j] == withP[|withP| - |r| + j] && q[j] == withA[|withA| - |q| + j];
    }
    AppendedIsLast(msgs, a, max);
  }

  /** Capping keeps no message that was not there. */
  lemma CappedKeepsAbsent(msgs: seq<ChatMessage>, max: nat, id: string)
    requires forall j :: 0 <= j < |msgs| ==> msgs[j].id != id
    ensures forall j :: 0 <= j < |Capped(msgs, max)| ==> Capped(msgs, max)[j].id != id
  {
    var r := Capped(msgs, max);
    forall j | 0 <= j < |r| ensures r[j].id != id {
      assert r[j] == msgs[|msgs| - |r| + j];
    }
  }

  /** With a fresh id, the placeholder just appended is the message
      `updateMessage` finds: the last one. */
  lemma PlaceholderFound(msgs0: seq<ChatMessage>, ph: ChatMessage, max: nat)
    requires !HasMessage(msgs0, ph.id)
    ensures var msgs := Capped(msgs0 + [ph], max);
      msgs != [] && msgs[|msgs| - 1] == ph && FindMessage(msgs, ph.id) == Some(|msgs| - 1)
  {
    var all := msgs0 + [ph];
    var msgs := Capped(all, max);
    AppendedIsLast(msgs0, ph, max);
    assert msgs == all[|all| - |msgs|..];
    forall j | 0 <= j < |msgs| - 1 ensures msgs[j].id != ph.id {
      assert msgs[j] == msgs0[|all| - |msgs| + j];
    }
    LastFound(msgs, ph.id);
  }

  /** A message whose id no earlier message has is the one found. */
  lemma LastFound(msgs: seq<ChatMessage>, id: string)
    requires msgs != [] && msgs[|msgs| - 1].id == id
    requires forall j :: 0 <= j < |msgs| - 1 ==> msgs[j].id != id
    ensures FindMessage(msgs, id) == Some(|msgs| - 1)
  {
  }

  /** A conversation is active and has no message with the placeholder's id. */
  predicate ReadyFor(active: Option<ChatConversation>, assistantMessageId: string) {
    active.Some? && !HasMessage(active.value.messages, assistantMessageId)
  }

  /** A conversation is active and its last message is `m`. */
  predicate LastMessageIs(active: Option<ChatConversation>, m: ChatMessage) {
    active.Some? && active.value.messages != [] && active.value.messages[|active.value.messages| - 1] == m
  }

  /** A conversation is active, its last message is `m`, and `m`'s id
      finds it. */
  predicate PlaceholderLast(active: Option<ChatConversation>, m: ChatMessage) {
    LastMessageIs(active, m) && FindMessage(active.value.messages, m.id) == Some(|active.value.messages| - 1)
  }

  /** The part of `handleSendMessage` after the user message is added: set
      loading, add the empty assistant placeholder, query every project,
      write the combined reply into the placeholder, clear loading. */
  method ReplyInPlaceholder(store: ChatHistoryStore, userMessage: string, selectedProjects: seq<string>,
                            projectNames: map<string, string>, query: (string, string) -> QueryOutcome,
                            assistantMessageId: string, clock: SendClock)
    returns (reply: Reply)
    requires store.Valid()
    modifies store
    ensures store.Valid()
    ensures reply == ReplyOf(Responses(selectedProjects, userMessage, query, projectNames), projectNames)
    ensures !store.isLoading && store.activeConversationId == old(store.activeConversationId) && store.error == old(store.error)
    ensures ReadyFor(old(store.ActiveConversation()), assistantMessageId) ==>
      LastMessageIs(store.ActiveConversation(), AnswerMessage(assistantMessageId, reply, selectedProjects, clock))
    ensures old(store.ActiveConversation()).None? ==> store.conversations == old(store.conversations)
    ensures ReadyFor(old(store.ActiveConversation()), assistantMessageId) ==>
      var a := old(store.ActiveConversation()).value;
      store.conversations == old(store.conversations)[IndexOf(old(store.conversations), a.id) :=
        a.(messages := Capped(a.messages + [AnswerMessage(assistantMessageId, reply, selectedProjects, clock)], store.maxMessagesPerConversation),
           updatedAt := clock.updatedAt)]
  {
    ghost var active0 := store.ActiveConversation();
    ghost var cs0 := store.conversations;
    store.SetLoading(true);
    assert store.ActiveConversation() == active0 && store.conversations == cs0;
    AddPlaceholder(store, selectedProjects, assistantMessageId, clock);
    ghost var active1 := store.ActiveConversation();
    ghost var cs1 := store.conversations;
    var responses := QueryProjects(selectedProjects, userMessage, query, projectNames);
    reply := CombineResponses(responses, projectNames);
    WriteReply(store, reply, selectedProjects, assistantMessageId, clock);
    ghost var active2 := store.ActiveConversation();
    ghost var cs2 := store.conversations;
    store.SetLoading(false);
    assert store.ActiveConversation() == active2 && store.conversations == cs2;
    if ReadyFor(active0, assistantMessageId) {
      PlaceholderThenAnswer(cs0, active0.value, Placeholder(assistantMessageId, selectedProjects, clock),
        AnswerMessage(assistantMessageId, reply, selectedProjects, clock), store.maxMessagesPerConversation,
        clock.placeholderAddedAt, clock.updatedAt);
    }
  }

  /** `onAddMessage('', 'assistant', …)`: with a fresh id, the placeholder
      becomes the active conversation's last message, found by its id. */
  method AddPlaceholder(store: ChatHistoryStore, selectedProjects: seq<string>, assistantMessageId: string, clock: SendClock)
    requires store.Valid()
    modifies store
    ensures store.Valid()
    ensures store.activeConversationId == old(store.activeConversationId)
    ensures store.isLoading == old(store.isLoading) && store.error == old(store.error)
    ensures ReadyFor(old(store.ActiveConversation()), assistantMessageId) ==>
      PlaceholderLast(store.ActiveConversation(), Placeholder(assistantMessageId, selectedProjects, clock))
    ensures old(store.ActiveConversation()).None? ==> store.conversations == old(store.conversations)
    ensures old(store.ActiveConversation()).Some? ==>
      var a := old(store.ActiveConversation()).value;
      var p := Placeholder(assistantMessageId, selectedProjects, clock);
      store.ActiveConversation() == Some(a.(messages := Capped(a.messages + [p], store.maxMessagesPerConversation),
        updatedAt := clock.placeholderAddedAt))
    ensures old(store.ActiveConversation()).Some? ==>
      var a := old(store.ActiveConversation()).value;
      var p := Placeholder(assistantMessageId, selectedProjects, clock);
      store.conversations == old(store.conversations)[IndexOf(old(store.conversations), a.id) :=
        a.(messages := Capped(a.messages + [p], store.maxMessagesPerConversation), updatedAt := clock.placeholderAddedAt)]
  {
    ghost var active0 := store.ActiveConversation();
    ghost var cs0 := store.conversations;
    ghost var max := store.maxMessagesPerConversation;
    var placeholderMessage := Placeholder(assistantMessageId, selectedProjects, clock);
    var placeholder := store.AddMessage(placeholderMessage.content, placeholderMessage.mtype, placeholderMessage.metadata,
      assistantMessageId, clock.placeholderAddedAt);
    if active0.Some? {
      var c1 := AppendedToFound(cs0, active0.value, placeholderMessage, max, clock.placeholderAddedAt);
      assert store.conversations == cs0[IndexOf(cs0, active0.value.id) := c1];
      assert store.ActiveConversation() == Some(c1);
    }
  }

  /** `onUpdateMessage(assistantMessageId, …)`: the placeholder, when it is
      the last message, becomes the answer. */
  method WriteReply(store: ChatHistoryStore, reply: Reply, selectedProjects: seq<string>, assistantMessageId: string, clock: SendClock)
    requires store.Valid()
    modifies store
    ensures store.Valid()
    ensures store.activeConversationId == old(store.activeConversationId)
    ensures store.isLoading == old(store.isLoading) && store.error == old(store.error)
    ensures PlaceholderLast(old(store.ActiveConversation()), Placeholder(assistantMessageId, selectedProjects, clock)) ==>
      LastMessageIs(store.ActiveConversation(), AnswerMessage(assistantMessageId, reply, selectedProjects, clock))
    ensures old(store.ActiveConversation()).None? ==> store.conversations == old(store.conversations)
    ensures old(store.ActiveConversation()).Some? && FindMessage(old(store.ActiveConversation()).value.messages, assistantMessageId).None? ==>
      store.conversations == old(store.conversations)
    ensures old(store.ActiveConversation()).Some? && FindMessage(old(store.ActiveConversation()).value.messages, assistantMessageId).Some? ==>
      var a := old(store.ActiveConversation()).value;
      var i := FindMessage(a.messages, assistantMessageId).value;
      store.conversations == old(store.conversations)[IndexOf(old(store.conversations), a.id) :=
        a.(messages := a.messages[i := MergeMessage(a.messages[i], ReplyUpdate(reply, selectedProjects, clock))], updatedAt := clock.updatedAt)]
    ensures PlaceholderLast(old(store.ActiveConversation()), Placeholder(assistantMessageId, selectedProjects, clock)) ==>
      var a := old(store.ActiveConversation()).value;
      store.conversations == old(store.conversations)[IndexOf(old(store.conversations), a.id) :=
        a.(messages := a.messages[|a.messages| - 1 := AnswerMessage(assistantMessageId, reply, selectedProjects, clock)],
           updatedAt := clock.updatedAt)]
  {
    ghost var active1 := store.ActiveConversation();
    ghost var cs1 := store.conversations;
    var update := ReplyUpdate(reply, selectedProjects, clock);
    store.UpdateMessage(assistantMessageId, update, clock.updatedAt);
    if active1.Some? && FindMessage(active1.value.messages, assistantMessageId).Some? {
      var a := active1.value;
      var c2 := MergedIntoFound(cs1, a, assistantMessageId, update, clock.updatedAt);
      assert store.conversations == cs1[IndexOf(cs1, a.id) := c2];
      assert store.ActiveConversation() == Some(c2);
      if PlaceholderLast(active1, Placeholder(assistantMessageId, selectedProjects, clock)) {
        ReplyFillsPlaceholder(assistantMessageId, reply, selectedProjects, clock);
        assert c2.messages == a.messages[|a.messages| - 1 := AnswerMessage(assistantMessageId, reply, selectedProjects, clock)];
      }
    }
  }

  /** A user message with another id leaves no message with the
      placeholder's id. */
  lemma StillReady(msgs: seq<ChatMessage>, u: ChatMessage, max: nat, assistantMessageId: string)
    requires !HasMessage(msgs, assistantMessageId) && u.id != assistantMessageId
    ensures !HasMessage(Capped(msgs + [u], max), assistantMessageId)
  {
    var withUser := msgs + [u];
    assert forall j :: 0 <= j < |msgs| ==> withUser[j] == msgs[j];
    CappedKeepsAbsent(withUser, max, assistantMessageId);
  }

  /** Adding the user message, tagged with the selected projects: it fails
      only without an active id, and a user message with another id keeps
      the active conversation ready for the placeholder. */
  method AddUserMessage(store: ChatHistoryStore, userMessage: string, selectedProjects: seq<string>,
                        userMessageId: string, assistantMessageId: string, clock: SendClock)
    returns (added: Result<string, string>)
    requires store.Valid()
    modifies store
    ensures store.Valid()
    ensures store.activeConversationId == old(store.activeConversationId)
    ensures store.isLoading == old(store.isLoading) && store.error == old(store.error)
    ensures added.Err? <==> old(store.ActiveId()).None?
    ensures added.Err? ==> added == Err(NoActiveConversation) && store.conversations == old(store.conversations)
    ensures userMessageId != assistantMessageId && ReadyFor(old(store.ActiveConversation()), assistantMessageId) ==>
      ReadyFor(store.ActiveConversation(), assistantMessageId)
    ensures old(store.ActiveConversation()).None? ==> store.conversations == old(store.conversations)
    ensures old(store.ActiveConversation()).Some? ==>
      var a := old(store.ActiveConversation()).value;
      var u := UserMessage(userMessageId, userMessage, selectedProjects, clock);
      store.ActiveConversation() == Some(a.(messages := Capped(a.messages + [u], store.maxMessagesPerConversation),
        updatedAt := clock.userAddedAt))
    ensures old(store.ActiveConversation()).Some? ==>
      var a := old(store.ActiveConversation()).value;
      var u := UserMessage(userMessageId, userMessage, selectedProjects, clock);
      store.conversations == old(store.conversations)[IndexOf(old(store.conversations), a.id) :=
        a.(messages := Capped(a.messages + [u], store.maxMessagesPerConversation), updatedAt := clock.userAddedAt)]
  {
    ghost var active0 := store.ActiveConversation();
    ghost var cs0 := store.conversations;
    var u := UserMessage(userMessageId, userMessage, selectedProjects, clock);
    added := store.AddMessage(u.content, u.mtype, u.metadata, userMessageId, clock.userAddedAt);
    if active0.Some? {
      var c1 := AppendedToFound(cs0, active0.value, u, store.maxMessagesPerConversation, clock.userAddedAt);
      assert store.conversations == cs0[IndexOf(cs0, active0.value.id) := c1];
      assert store.ActiveConversation() == Some(c1);
      if userMessageId != assistantMessageId && ReadyFor(active0, assistantMessageId) {
        StillReady(active0.value.messages, u, store.maxMessagesPerConversation, assistantMessageId);
      }
    }
  }

  /** The `catch` block once adding the user message has thrown: record the
      error, then try to add the apology, which throws again for the same
      reason; `finally` clears loading. */
  method ReportSendFailure(store: ChatHistoryStore, message: string, selectedProjects: seq<string>,
                           assistantMessageId: string, clock: SendClock)
    requires store.Valid() && store.ActiveId().None?
    modifies store
    ensures store.Valid()
    ensures store.conversations == old(store.conversations) && store.activeConversationId == old(store.activeConversationId)
    ensures store.error == Some(SendFailurePrefix + message) && !store.isLoading
  {
    store.SetError(Some(SendFailurePrefix + message));
    var apology := store.AddMessage("I apologize, but I encountered an error: " + message + ". Please try again.", Assistant,
      Some(MessageMetadata(Some(selectedProjects), None, None, None, Some(message))), assistantMessageId, clock.placeholderAddedAt);
    store.SetLoading(false);
  }

  /** The chat input's state: the text typed so far. */
  class ChatInput {
    var inputValue: string

    constructor()
      ensures inputValue == ""
    {
      inputValue := "";
    }

    /** `handleSendMessage`. `selectedProjects` and `projectNames` are the
        component's props, `loading` is the store's flag, `query` the
        service, the two ids the store's fresh message ids. */
    method HandleSendMessage(store: ChatHistoryStore, selectedProjects: seq<string>, projectNames: map<string, string>,
                             query: (string, string) -> QueryOutcome, userMessageId: string, assistantMessageId: string,
                             clock: SendClock)
      returns (outcome: SendOutcome)
      requires store.Valid()
      modifies this, store
      ensures store.Valid()
      ensures !CanSend(old(inputValue), old(store.isLoading), selectedProjects) ==>
        outcome == NotSent && unchanged(this) && unchanged(store)
      ensures CanSend(old(inputValue), old(store.isLoading), selectedProjects) ==>
        inputValue == "" && !store.isLoading && store.activeConversationId == old(store.activeConversationId)
      ensures CanSend(old(inputValue), old(store.isLoading), selectedProjects) && old(store.ActiveId()).None? ==>
        && outcome == Rejected(NoActiveConversation)
        && store.conversations == old(store.conversations)
        && store.error == Some(SendFailurePrefix + NoActiveConversation)
      ensures CanSend(old(inputValue), old(store.isLoading), selectedProjects) && old(store.ActiveId()).Some? ==>
        && outcome == Replied(ReplyOf(Responses(selectedProjects, Trim(old(inputValue)), query, projectNames), projectNames))
        && store.error == None
      ensures (CanSend(old(inputValue), old(store.isLoading), selectedProjects) && userMessageId != assistantMessageId &&
        ReadyFor(old(store.ActiveConversation()), assistantMessageId)) ==>
        outcome.Replied? && LastMessageIs(store.ActiveConversation(), AnswerMessage(assistantMessageId, outcome.reply, selectedProjects, clock))
      ensures CanSend(old(inputValue), old(store.isLoading), selectedProjects) && old(store.ActiveConversation()).None? ==>
        store.conversations == old(store.conversations)
      ensures (CanSend(old(inputValue), old(store.isLoading), selectedProjects) && userMessageId != assistantMessageId &&
        ReadyFor(old(store.ActiveConversation()), assistantMessageId)) ==>
        var a := old(store.ActiveConversation()).value;
        var max := store.maxMessagesPerConversation;
        var u := UserMessage(userMessageId, Trim(old(inputValue)), selectedProjects, clock);
        store.conversations == old(store.conversations)[IndexOf(old(store.conversations), a.id) :=
          a.(messages := Capped(Capped(a.messages + [u], max) + [AnswerMessage(assistantMessageId, outcome.reply, selectedProjects, clock)], max),
             updatedAt := clock.updatedAt)]
    {
      if !CanSend(inputValue, store.isLoading, selectedProjects) {
        return NotSent;
      }
      var userMessage := Trim(inputValue);
      inputValue := "";
      store.SetError(None);
      ghost var active0 := store.ActiveConversation();
      ghost var cs0 := store.conversations;
      assert active0 == old(store.ActiveConversation()) && cs0 == old(store.conversations);
      var added := AddUserMessage(store, userMessage, selectedProjects, userMessageId, assistantMessageId, clock);
      if added.Err? {
        ReportSendFailure(store, added.error, selectedProjects, assistantMessageId, clock);
        return Rejected(added.error);
      }
      ghost var active1 := store.ActiveConversation();
      ghost var cs1 := store.conversations;
      if active0.None? {
        assert active1.None?;
      }
      var reply := ReplyInPlaceholder(store, userMessage, selectedProjects, projectNames, query, assistantMessageId, clock);
      outcome := Replied(reply);
      if userMessageId != assistantMessageId && ReadyFor(active0, assistantMessageId) {
        ghost var c1 := active1.value;
        ReplacedTwice(cs0, active0.value, c1, c1.(messages := Capped(c1.messages + [AnswerMessage(assistantMessageId, reply, selectedProjects, clock)],
          store.maxMessagesPerConversation), updatedAt := clock.updatedAt));
      }
    }
  }
}
