# BidBoard question-pack testing and document chat, modelled in Dafny

BidBoard is a Next.js front end for checking construction projects against
question packs. A pack is a list of questions taken from a trade catalog. For
each question the test runner asks a GraphRAG service about a project's ITB
(invitation to bid) documents. It extracts an answer, judges it against the
question's expected value and scores the run into a verdict: "Bid", "Pass",
"Fail (critical)" or "No questions". Saved runs form a history that can be
searched and sorted. A second part of the application is a document chat.
The user selects up to five projects and asks a question. Each project is
queried, and the answers are combined into one assistant message with its
cited sources de-duplicated. Conversations live in a chat history store and
can be exported as CSV, text or JSON.

This project models that logic:

- scoring (`Scoring`);
- prompt building and answer parsing (`GraphRag`, on top of `JsNumber`'s
  model of `parseFloat`, `parseInt` and number rendering), and the proof
  that a source's metadata block reads back as that source (`SourceBlocks`);
- the test runner loop (`TestRunner`);
- the test history store and its table (`TestHistory`, `TestHistoryView`);
- the chat history store (`ChatHistory`), the send handler of the chat
  (`ChatInterface`) and the chat page (`ChatPage`);
- chat export (`ChatExport`);
- catalog parsing and the catalog and pack stores (`ParseCatalog`,
  `CatalogStore`, `PacksStore`);
- the pack-creation wizard (`PackWizard`);
- the project lists (`ProjectsStore`, `ProjectManager`, `ProjectSelector`,
  `ApiProjects`);
- source links (`SourceReference`);
- the breadcrumb and the navigation bar (`Breadcrumb`, `Navigation`).

`Text`, `Seqs`, `Types`, `Storage` and `Wrappers` hold the string and list
operations, the records of `lib/types.ts`, what a browser-storage read can
find, and the option and result types.

The model takes the form of the code it follows:

- Pure helpers are functions with lemmas.
- Stores and components whose state is updated in place are classes. Their
  list and map state is held in `seq` and `map` fields, which their methods
  reassign.
- Loops are methods with `while` or `for` loops, proved equal to a function
  that specifies them.
- The GraphRAG service, the clock, generated ids, `slugify` and
  browser-storage reads are parameters.

The model follows the code where it departs from the declared types:

- The run page builds its run with `score` and `passed` fields, not the
  fields declared for a test run (`TestRunner.RunOf`).
- The workbook reader types questions with its own word list, not with
  `inferQuestionType` (`ParseCatalog.TypingsDifferOnList`).

## Model

| member | source | states |
|---|---|---|
| Scoring.EvaluateBoolean | lib/scoring.ts:5-7 | a boolean question passes iff `expectedBoolean` is set and equals whether "yes" or "true" occurs in the lower-cased answer |
| Scoring.EvaluateNumberNeedsAll | lib/scoring.ts:9-11 | a number question fails whenever the answer does not parse, the threshold is unset or the comparator is unset |
| Scoring.EvaluateNumberDigits | lib/scoring.ts:9-20 | for a digit-string answer (what the answer extraction yields) and a set threshold and comparator, the verdict is exactly the chosen comparison of the answer's value against the threshold |
| Scoring.CompareFinite | lib/scoring.ts:13-18 | each of `>=`, `<=`, `>`, `<`, `==` compares the two decimals' exact values |
| Scoring.EvaluateEnum | lib/scoring.ts:22-23 | an enum question passes iff `expectedEnum` is non-empty and occurs in the lower-cased answer, lower-cased |
| Scoring.EvaluateLookupAndOther | lib/scoring.ts:25-29 | a lookup question always passes; a question of any other type always fails |
| Scoring.HasCriticalFail | lib/scoring.ts:47 | holds iff some result is critical and not passed |
| Scoring.EarnedWithinTotal | lib/scoring.ts:50-51 | with non-negative weights the earned weight lies between 0 and the total weight |
| Scoring.RoundedPercent | lib/scoring.ts:52 | the result is `Math.round(100 * earned / total)`: the integer within one half of the exact percentage, halves rounded up |
| Scoring.RoundedPercentBounds | lib/scoring.ts:52 | the rounded percentage of an earned weight within the total lies in 0..100 |
| Scoring.RoundedPercentFull | lib/scoring.ts:52 | earning the whole total rounds to exactly 100 |
| Scoring.CalculateScore | lib/scoring.ts:33-60 | no results give (0, 0, no critical fail, "No questions"); the critical flag holds iff some critical result failed, and then the final score is 0 and the verdict "Fail (critical)"; otherwise the final score is the base score and the verdict is "Bid" iff the base score is at least 70, else "Pass"; the base score is 0 for a non-positive total and the rounded percentage otherwise |
| Scoring.ScoreBounds | lib/scoring.ts:50-57 | with non-negative weights, 0 <= final score <= base score <= 100 |
| Scoring.AllPassedScoresFull | lib/scoring.ts:47-57 | when every result passed and the total weight is positive, the summary is (100, 100, no critical fail, "Bid") |
| Scoring.AllPassedEarnsTotal | lib/scoring.ts:50-51 | when every result passed, the earned weight equals the total weight |
| JsNumber.NumLeTotal | lib/scoring.ts:14-17 | the order on parsed numbers (finite values and the two infinities) is total |
| JsNumber.ParseFloatDigits | lib/scoring.ts:10 | `parseFloat` of a non-empty digit string is that integer |
| JsNumber.IntToStringShape | lib/graphRag.ts:131-132 | the decimal text of an integer has no leading whitespace, starts with "-" iff the integer is negative, and is otherwise the text of its magnitude |
| JsNumber.ParseIntIntToString | lib/graphRag.ts:131-132 | `parseInt` reads the decimal text of any integer back as that integer |
| JsNumber.NumToString | lib/graphRag.ts:8 | the text `${threshold}` gives is never empty |
| JsNumber.WholeNumberRoundTrip | lib/graphRag.ts:8 | a whole number prints as its integer text, and `parseFloat` reads that text back as the same number |
| GraphRag.PromptShape | lib/graphRag.ts:3-32 | the prompt starts with the question text and ends with the fixed trailer holding the one-line metadata template |
| GraphRag.PromptMiddleByType | lib/graphRag.ts:6-19 | between question and trailer there is the number suffix iff the type is number and both threshold and comparator are set, the boolean suffix iff the type is boolean, the lookup suffix iff the type is lookup, and nothing for enum or other types |
| GraphRag.NumberSuffixNames | lib/graphRag.ts:8 | the number suffix names the comparator and ends with the threshold's text and "?" |
| GraphRag.MatchAt | lib/graphRag.ts:113 | a metadata match at a position starts with "```metadata", at least one whitespace character, a non-empty capture, and ends with a fence |
| GraphRag.NextMatch | lib/graphRag.ts:113-116 | `exec` from a position finds a match starting at or after it, and it is the match at that start |
| GraphRag.NextMatchIsEarliest | lib/graphRag.ts:113-116 | no match starts between the position and the match found, and none at all when nothing is found |
| GraphRag.NoMatchBeforeNext | lib/graphRag.ts:113-116 | a position at or after the start holds no match unless the match found starts at or before it |
| GraphRag.RemoveBlocksFrom | lib/graphRag.ts:144 | removing the blocks never lengthens the text |
| GraphRag.CollapseNewlines | lib/graphRag.ts:144 | after the collapse no three newlines follow each other, the text is no longer, and it is empty iff the input is |
| GraphRag.CollapseNewlinesIdentity | lib/graphRag.ts:144 | text without three newlines in a row is left as it is |
| GraphRag.KeyHere | lib/graphRag.ts:120-124 | the alternation takes the first of its keys that sits at the position, case-insensitively, and none when no key sits there |
| GraphRag.FirstKey | lib/graphRag.ts:120-124 | the key occurrence found lies at or after the start, with its end inside the message |
| GraphRag.FirstKeyIsEarliest | lib/graphRag.ts:120-124 | the field expression's key match is a key occurrence, with its end just after the colon, and no key sits before it; with no match, no key sits anywhere after the start |
| GraphRag.ValueAfter | lib/graphRag.ts:120-124 | the trimmed capture after a key never starts with whitespace and never holds a newline |
| GraphRag.FieldValue | lib/graphRag.ts:120-124 | a field value never starts with whitespace and stays on one line |
| GraphRag.StripExtension | lib/graphRag.ts:62 | dropping the extension never lengthens the name |
| GraphRag.SpaceOut | lib/graphRag.ts:89-90 | after the underscore and whitespace rules the name has no underscore, only plain spaces, and no two spaces in a row |
| GraphRag.TitleCase | lib/graphRag.ts:99-103 | each word's first letter is upper-cased and the others lower-cased, length kept |
| GraphRag.MakeHumanReadable | lib/graphRag.ts:58-106 | an empty name gives "Unknown Document"; the result is never empty; a result other than the input has no underscore |
| GraphRag.SourceOf | lib/graphRag.ts:117-134 | a block's source always has a non-empty filename and a non-empty human-readable name |
| SourceBlocks.SourceOfBlock | lib/graphRag.ts:117-134 | a block of lines `filename: F`, `human_readable: H`, `page_num: N`, `sheet_number: S` and `section: X`, each value non-empty, trimmed, on one line and without a colon, reads back as the source with filename F, name H, section X, and the page and sheet numbers `parseInt` reads from N and S (0 when it reads none) |
| SourceBlocks.FieldFromLine | lib/graphRag.ts:120-124 | in a block of `key: value` lines with such values, the field expression whose first key is line j's key captures exactly line j's value, when none of its keys ends the key of an earlier line |
| SourceBlocks.ValueAfterLine | lib/graphRag.ts:120-124 | after a key's colon, a space, such a value and a newline, the trimmed capture is that value |
| GraphRag.ParseSources | lib/graphRag.ts:108-147 | the loop's sources are the kept block sources in block order, and the clean response is the text with the blocks removed, newline runs collapsed and trimmed |
| GraphRag.SourcesOf | lib/graphRag.ts:116-141 | one source per block |
| GraphRag.SourcesAreKeptBlocks | lib/graphRag.ts:116-141 | the parsed sources are exactly the sources of the matched blocks that name a file, in block order |
| GraphRag.SourcesNameFiles | lib/graphRag.ts:138-140 | every parsed source has a non-empty filename other than "Unknown Document" |
| GraphRag.NoBlocks | lib/graphRag.ts:113-146 | with no metadata block there are no sources and the clean response is the input collapsed and trimmed |
| GraphRag.NumberFieldMeaning | lib/graphRag.ts:131-132 | a page or sheet number is 0 when `parseInt` finds no leading integer, and that integer otherwise |
| GraphRag.SourceFallbacks | lib/graphRag.ts:127-130 | a missing human-readable name falls back to `makeHumanReadable` of the filename; a block without a filename is dropped; otherwise the filename is the field's value |
| GraphRag.FirstDigitRunFound | lib/graphRag.ts:155 | `match(/\d+/)` finds a non-empty all-digit run that starts at the first digit and is maximal, and nothing iff the text has no digit |
| GraphRag.FirstSentence | lib/graphRag.ts:167-168 | the first piece of the split on `.`, `!`, `?`: a prefix with no sentence end, followed by one unless it is the whole text |
| GraphRag.Prefix | lib/graphRag.ts:170-171 | `substring(0, n)`: a prefix of length at most n |
| GraphRag.ExtractNumber | lib/graphRag.ts:153-156 | for a number question the answer is a non-empty digit string, and "0" when the clean text has no digit |
| GraphRag.ExtractBoolean | lib/graphRag.ts:158-161 | for a boolean question the answer is the clean text |
| GraphRag.ExtractSentence | lib/graphRag.ts:163-171 | otherwise the answer is the trimmed first sentence, cut to 200 characters plus "..." when longer, or the first 200 characters of the clean text when that sentence is empty |
| TestRunner.ResultForFields | app/run/page.tsx:49-96 | each result carries its question's id, text, `critical` and `weight`; a failed query gives answer "Error", not passed, no sources and a raw response starting "Error: "; an answered one gives the extracted answer, its evaluation, the clean text and the parsed sources |
| TestRunner.RunResults | app/run/page.tsx:49-97 | one result per question |
| TestRunner.RunResultsAt | app/run/page.tsx:49-97 | result i is the result for question i and its own query's outcome, so results come in question order |
| TestRunner.RunOf | app/run/page.tsx:100-110 | the produced run holds the results, `score` = the final score and `passed` iff the verdict is "Bid" |
| TestRunner.SelectedPack | app/run/page.tsx:28 | no pack is selected for an empty id; otherwise it is the pack found by that id |
| TestRunner.AllFailedRunScoresZero | app/run/page.tsx:78-110 | when every query fails the run scores 0 and is not passed |
| TestRunner.NothingPassedEarnsZero | app/run/page.tsx:78-100 | results none of which passed earn nothing |
| TestRunner.ZeroPercent | app/run/page.tsx:100 | earning nothing of a positive total rounds to 0 |
| TestRunner.JudgeQuestion | app/run/page.tsx:53-96 | one iteration's try/catch yields the result for that question and outcome |
| TestRunner.TestRunnerPage.constructor | app/run/page.tsx:20-25 | the pack id comes from the `pack` parameter; nothing runs, no run and no error |
| TestRunner.TestRunnerPage.RunTest | app/run/page.tsx:39-121 | without a selected pack nothing changes; otherwise the run holds one result per question in order, progress showed 1..n, and afterwards nothing runs, the current question is 0 and there is no error |
| TestRunner.TestRunnerPage.AskQuestions | app/run/page.tsx:49-97 | the loop over the questions yields the run's results in question order and shows question numbers 1 to n in turn |
| TestHistory.ResultKey | lib/useTestHistory.ts:52 | the key is the pack id, "-", then the project id |
| TestHistory.KeyCollision | lib/useTestHistory.ts:52 | two different (pack, project) pairs can share a key |
| TestHistory.FindResult | lib/useTestHistory.ts:80 | `find` returns a stored record with that id, and nothing iff no record has it |
| TestHistory.AfterSave | lib/useTestHistory.ts:64-69 | the new record comes first, followed only by old records with other ids |
| TestHistory.FilterKeepsUniqueIds | lib/useTestHistory.ts:66 | filtering keeps ids unique |
| TestHistory.SaveKeepsUniqueIds | lib/useTestHistory.ts:64-69 | saving keeps at most one record per id |
| TestHistory.SaveKeepsOthersInOrder | lib/useTestHistory.ts:64-69 | the records with other ids are unchanged and in their order after a save |
| TestHistory.SaveThenGet | lib/useTestHistory.ts:52-81 | after saving, looking up the same pack and project returns the record just saved |
| TestHistory.DeleteRemovesOnly | lib/useTestHistory.ts:74-76 | after a delete no record has that id and the lookup of every other id is unchanged |
| TestHistory.TestHistoryStore.constructor | lib/useTestHistory.ts:10-11 | an empty list, still loading |
| TestHistory.TestHistoryStore.Load | lib/useTestHistory.ts:13-31 | a parsed stored list replaces the list, anything else leaves it; loading ends |
| TestHistory.TestHistoryStore.SaveTestResult | lib/useTestHistory.ts:47-72 | the saved record has id `packId-projectId` and the pack's and run's fields, and the list becomes that record followed by the old list without its id |
| TestHistory.TestHistoryStore.DeleteTestResult | lib/useTestHistory.ts:74-76 | the list loses exactly the records with that id |
| TestHistory.TestHistoryStore.GetTestResult | lib/useTestHistory.ts:78-81 | the lookup by the joined key |
| TestHistory.TestHistoryStore.GetAllResultsForPack | lib/useTestHistory.ts:83-85 | exactly the stored records of that pack |
| TestHistory.TestHistoryStore.GetAllResultsForProject | lib/useTestHistory.ts:87-89 | exactly the stored records of that project |
| TestHistory.TestHistoryStore.ClearAllResults | lib/useTestHistory.ts:91-93 | the list is empty |
| TestHistoryView.FilteredResults | components/TestHistory.tsx:47-51 | a record is kept iff the lower-cased term occurs in its lower-cased pack name, project name or verdict |
| TestHistoryView.EmptyTermKeepsAll | components/TestHistory.tsx:47-51 | the empty term keeps the whole list |
| TestHistoryView.NotAfterTotalPreorder | components/TestHistory.tsx:54-67 | each of the four comparators is a total preorder, so the sort is well defined |
| TestHistoryView.SortedResults | components/TestHistory.tsx:54-67 | the sorted list is a permutation of the filtered list, sorted by the chosen comparator |
| TestHistoryView.SortedResultsOrder | components/TestHistory.tsx:54-67 | date puts the newest first, score the highest first, pack and project sort ascending by name, and the list holds exactly the matching records |
| TestHistoryView.VerdictBadge | components/TestHistory.tsx:69-76 | "Pass", "Bid" and "Fail (critical)" get their fixed classes, anything else the gray ones |
| TestHistoryView.SummaryOf | components/TestHistory.tsx:280-301 | the total is the number shown; the passed, bid and failed counts are the numbers of shown results whose verdict is "Pass", "Bid" and "Fail (critical)", and together never exceed the total |
| TestHistoryView.CountsDisjoint | components/TestHistory.tsx:286-301 | the three verdict counts together never exceed the list length |
| ChatHistory.Lookup | lib/useChatHistory.ts:208 | looking a conversation up by id gives a stored conversation with that id, and nothing iff none has it |
| ChatHistory.LookupUnique | lib/useChatHistory.ts:208 | with unique ids, looking up a stored conversation's id finds that conversation at its own position |
| ChatHistory.RemoveIdFacts | lib/useChatHistory.ts:167-170 | `delete conversations[id]` keeps ids unique, keeps exactly the conversations with other ids, and shortens the record by one iff the id was there |
| ChatHistory.RemoveAllFacts | lib/useChatHistory.ts:136-137 | deleting a list of distinct stored ids keeps ids unique, keeps exactly the other conversations, and shortens the record by the list's length |
| ChatHistory.UpdatedOrders | lib/useChatHistory.ts:132-133 | ordering by `updatedAt`, ascending or descending, is a total preorder |
| ChatHistory.Evicted | lib/useChatHistory.ts:131-136 | the slice to remove holds as many conversations as the record exceeds the limit by |
| ChatHistory.EvictedIds | lib/useChatHistory.ts:132-137 | the removed ids are the ids of the first conversations in oldest-first order, distinct and all stored |
| ChatHistory.EnforcedBound | lib/useChatHistory.ts:131-138 | after enforcing the limit ids stay unique, at most the limit (when set) remain, and exactly the conversations not chosen for eviction are kept |
| ChatHistory.EnforcedKeepsNewest | lib/useChatHistory.ts:131-138 | every evicted conversation was updated no later than every kept one |
| ChatHistory.EvictOldest | lib/useChatHistory.ts:135-137 | deleting the oldest conversations one by one leaves exactly the record the limit allows |
| ChatHistory.EvictedBeforeKept | lib/useChatHistory.ts:132-137 | an evicted conversation was updated no later than a kept one |
| ChatHistory.MergeMessage | lib/useChatHistory.ts:247-252 | a partial update sets the fields it carries and keeps the others; an empty update keeps the message |
| ChatHistory.Capped | lib/useChatHistory.ts:212-217 | the message list loses its oldest messages until it has at most the cap, and is kept whole when within the cap or when no cap is set |
| ChatHistory.AppendedIsLast | lib/useChatHistory.ts:212-217 | after appending and capping, the new message is the last one |
| ChatHistory.FindMessage | lib/useChatHistory.ts:244-245 | `findIndex` gives the first message with that id, and none when no message has it |
| ChatHistory.MessageTotalAtMost | lib/useChatHistory.ts:343-346 | when every conversation is within the cap, the total is at most the number of conversations times the cap |
| ChatHistory.MessageTotalReplace | lib/useChatHistory.ts:343-346 | replacing one conversation changes the total by the difference of their message counts |
| ChatHistory.NewConversation | lib/useChatHistory.ts:114-122 | a new conversation has the given id, no messages, equal created and updated times, and a title starting with the project names joined by ", " and " - " |
| ChatHistory.FirstKeyOrNull | lib/useChatHistory.ts:172-173 | the first stored id, or null when there is none or it is empty |
| ChatHistory.Put | lib/useChatHistory.ts:128 | `conversations[id] = c` keeps ids unique, keeps the key order for a known id and appends the id otherwise |
| ChatHistory.PutLookup | lib/useChatHistory.ts:128 | after `conversations[id] = c` the id finds c and every other id finds what it found before |
| ChatHistory.Imported | lib/useChatHistory.ts:355-367 | the record built from an imported list has unique ids |
| ChatHistory.LastWithId | lib/useChatHistory.ts:357-358 | the last conversation of the list with that id, and none iff there is none |
| ChatHistory.ImportLastWins | lib/useChatHistory.ts:355-367 | after an import each id finds the last conversation in the list with that id |
| ChatHistory.NewestFirst | lib/useChatHistory.ts:350-351 | a permutation of the conversations ordered by `updatedAt`, newest first |
| ChatHistory.ChatHistoryStore.constructor | lib/useChatHistory.ts:48-63 | no conversations, no active id, not loading, no error; the limits are the options or 50 and 500 |
| ChatHistory.ChatHistoryStore.ActiveId | lib/useChatHistory.ts:190 | the active id when it is set and not empty |
| ChatHistory.ChatHistoryStore.ActiveConversation | lib/useChatHistory.ts:387-389 | the stored conversation with the active id, and none when there is no active id or no such conversation |
| ChatHistory.ChatHistoryStore.CreateConversation | lib/useChatHistory.ts:110-149 | the new empty conversation is added and becomes active, the error is cleared, the limit is enforced by dropping the least recently updated, and at most the limit remain |
| ChatHistory.ChatHistoryStore.SwitchConversation | lib/useChatHistory.ts:152-163 | an unknown id changes nothing; a known id becomes active and clears the error |
| ChatHistory.ChatHistoryStore.DeleteConversation | lib/useChatHistory.ts:167-181 | the id is removed; if it was active the first remaining id (or null) becomes active, otherwise the active id is kept |
| ChatHistory.ChatHistoryStore.AddMessage | lib/useChatHistory.ts:185-232 | with no active id it fails with "No active conversation to add message to" and changes nothing; with an active conversation the message is appended, the oldest dropped down to the cap, and `updatedAt` set |
| ChatHistory.ChatHistoryStore.UpdateMessage | lib/useChatHistory.ts:235-264 | the update is merged into the first message of the active conversation with that id; with no active conversation or no such message nothing changes |
| ChatHistory.ChatHistoryStore.AddSourcesToLastMessage | lib/useChatHistory.ts:267-298 | the sources are appended to the last message only when it is an assistant message; otherwise the messages are unchanged |
| ChatHistory.ChatHistoryStore.SetLoading | lib/useChatHistory.ts:300-303 | sets the loading flag only |
| ChatHistory.ChatHistoryStore.SetError | lib/useChatHistory.ts:305-308 | sets the error only |
| ChatHistory.ChatHistoryStore.ClearError | lib/useChatHistory.ts:310-313 | clears the error only |
| ChatHistory.ChatHistoryStore.GetTotalMessageCount | lib/useChatHistory.ts:343-347 | the sum of the conversations' message counts, at most conversations times the cap when each is within it |
| ChatHistory.ChatHistoryStore.UpdateConversationTitle | lib/useChatHistory.ts:315-334 | a known conversation gets the title and a new `updatedAt`; an unknown id changes nothing |
| ChatHistory.ChatHistoryStore.GetConversationsByProject | lib/useChatHistory.ts:336-340 | exactly the conversations that include the project, each as often as the filter keeps it (a permutation of the filtered list), newest first |
| ChatHistory.ChatHistoryStore.ExportConversations | lib/useChatHistory.ts:349-352 | all conversations, newest first |
| ChatHistory.ChatHistoryStore.ImportConversations | lib/useChatHistory.ts:355-374 | the record is rebuilt from the list (the last of each id wins) and its first id becomes active |
| ChatHistory.ChatHistoryStore.ClearAllConversations | lib/useChatHistory.ts:377-384 | no conversations, no active id and no error |
| ChatExport.Quoted | lib/chatExport.ts:33-53 | a field is its text between two double quotes |
| ChatExport.EscapeQuotes | lib/chatExport.ts:37 | escaping never shortens the content |
| ChatExport.UnescapeEscape | lib/chatExport.ts:37 | undoing the doubling of quotes gives back the original content, so no content is lost |
| ChatExport.EscapeDoublesQuotes | lib/chatExport.ts:37 | every embedded `"` is doubled: the escaped content has twice as many quotes and is longer by their number |
| ChatExport.HeaderFields | lib/chatExport.ts:14-26 | the header has 8 columns plus 3 with metadata, 2 with sources and 2 with timestamps, starting with the six base columns and ending with the project columns |
| ChatExport.Filenames | lib/chatExport.ts:46 | one filename per source, in order |
| ChatExport.MetadataFields | lib/chatExport.ts:39-43 | three metadata fields |
| ChatExport.BaseFields | lib/chatExport.ts:33-38 | exactly six fields, in this order: the quoted conversation id, title, message id, type name, escaped content and ISO timestamp |
| ChatExport.OptionalFields | lib/chatExport.ts:39-51 | as many optional fields as the optional header columns |
| ChatExport.ProjectFields | lib/chatExport.ts:52-53 | the two project fields |
| ChatExport.RowFields | lib/chatExport.ts:32-54 | every row has exactly as many fields as the header |
| ChatExport.RowFieldsColumns | lib/chatExport.ts:32-41 | the conversation id, the message id and the content with its quotes doubled sit, quoted, in their columns |
| ChatExport.ConversationRows | lib/chatExport.ts:31-57 | one row per message of the conversation |
| ChatExport.ConversationRowsAt | lib/chatExport.ts:31-57 | row j is the row of message j |
| ChatExport.MessageRowsConcat | lib/chatExport.ts:30-58 | the rows of two lists of conversations are the rows of the first followed by those of the second, so rows come in conversation order and then message order |
| ChatExport.MessageRowsCount | lib/chatExport.ts:30-58 | there is one row per message over all conversations |
| ChatExport.ExportToCSV | lib/chatExport.ts:10-61 | the CSV is the header line and then one line per message, in conversation and message order, joined by newlines |
| ChatExport.PushRows | lib/chatExport.ts:30-58 | the nested loops append exactly the message rows to the rows built so far |
| ChatExport.ExportMessage | lib/chatExport.ts:153-160 | an exported message keeps id, type, content and timestamp, carries sources iff sources are included, and carries the message's own metadata when metadata is included and none otherwise |
| ChatExport.ExportMessages | lib/chatExport.ts:153-160 | one exported message per message, in order |
| ChatExport.ExportConversationList | lib/chatExport.ts:149-164 | one exported conversation per conversation, in order |
| Seqs.DistinctOrder | lib/chatExport.ts:167 | `Array.from(new Set(s))` keeps the order of first appearance: an earlier element of the result occurs in `s` before any occurrence of a later one |
| Seqs.DistinctAfterOrder | lib/chatExport.ts:167 | the same order fact for the set-skipping walk behind it, with the position where the earlier element occurs |
| ChatExport.AllProjectIdsMembers | lib/chatExport.ts:167 | a project id is in the flattened list iff some conversation includes it |
| ChatExport.ExportDataOf | lib/chatExport.ts:145-168 | the JSON payload is the exported conversation list (one entry per conversation, in order, with its id and all its messages), stamped with the export time, with the total message count, and each included project id once, in order of first appearance across the conversations |
| ChatExport.ValidateExportOptions | lib/chatExport.ts:261-269 | no error exactly when the format is csv, txt or json; otherwise the single error "Invalid format. Must be csv, txt, or json." |
| ChatExport.CreateDefaultExportOptions | lib/chatExport.ts:274-281 | all three include flags are on and the format is the given one, json by default |
| ChatExport.DefaultOptionsValid | lib/chatExport.ts:261-281 | default options with a supported format pass validation |
| ChatExport.ExportConversations | lib/chatExport.ts:176-190 | csv, txt and json go to their renderers; any other format fails with "Unsupported export format: " and the format, exactly when validation reports an error |
| ChatExport.Dashify | lib/chatExport.ts:209-210 | every character that is not an ASCII letter or digit becomes "-", length kept |
| ChatExport.Take | lib/chatExport.ts:209-210 | `substring(0, n)` is the prefix of length n, or the whole text when shorter |
| ChatExport.TitlePart | lib/chatExport.ts:208-210 | the title part is the title, or the project names joined by "-" when the title is empty, cut to its first 30 characters, with each character that is not an ASCII letter or digit replaced by "-" |
| ChatExport.BaseName | lib/chatExport.ts:203-214 | with a conversation id and exactly one conversation the base is "chat-" and the title part; otherwise "chat-export-" with the conversation and message counts |
| ChatExport.GenerateExportFilename | lib/chatExport.ts:195-217 | the name is exactly the base name, "-", the date, "." and the format: it starts with the base name, ends with the rest, and is no longer than the two together |
| ChatExport.TypesPartitionMessages | lib/chatExport.ts:288-314 | every message is a user, assistant or system message, so the three counts add up to the total |
| ChatExport.TypesPartitionConversations | lib/chatExport.ts:287-314 | over conversations too, total minus user minus assistant messages is the number of system messages |
| ChatExport.EarliestCreated | lib/chatExport.ts:305 | the earliest creation time is one of the conversations' and no later than any |
| ChatExport.LatestUpdated | lib/chatExport.ts:306 | the latest update time is one of the conversations' and no earlier than any |
| ChatExport.GetExportStatistics | lib/chatExport.ts:286-320 | counts of conversations, messages, user, assistant and system messages and sources; the distinct project ids in order of first appearance; the date range is absent iff there are no conversations and otherwise runs from the earliest creation time to the latest update time, both attained by some conversation (`Math.min`/`Math.max`) |
| ParseCatalog.LongBlankHasBlank | lib/parseCatalog.ts:44-74 | the `____` test is subsumed by the `___` test |
| ParseCatalog.InferQuestionType | lib/parseCatalog.ts:71-87 | any text with `___` is a number question whatever else it says; otherwise it is enum iff the lower-cased text has "what", "which" or "list" |
| ParseCatalog.InferLookupOrBoolean | lib/parseCatalog.ts:82-86 | past those rules, "where", "locate" or "address" make it lookup, and anything else boolean |
| ParseCatalog.WorkbookType | lib/parseCatalog.ts:44-53 | the workbook typing says number exactly when the text has a blank |
| ParseCatalog.TypingsAgree | lib/parseCatalog.ts:44-87 | the workbook typing and `inferQuestionType` agree on every text without "list" and "address" |
| ParseCatalog.TypingsDifferOnList | lib/parseCatalog.ts:49-78 | on "list" the two typings differ: enum against boolean |
| ParseCatalog.RowItem | lib/parseCatalog.ts:35-63 | a row yields an item iff it is not row 0 and column C is a string longer than ten characters once trimmed; the item holds the trimmed text, the sheet as trade, id `slugify(sheet)-index`, the workbook typing of its text (number iff it holds a `___` blank), and needs a threshold iff the text holds a blank |
| ParseCatalog.RowItems | lib/parseCatalog.ts:35-65 | every item of a sheet is well formed and from that sheet, and there are fewer items than rows |
| ParseCatalog.SheetItems | lib/parseCatalog.ts:24-28 | "ALL DIVISIONS" and names shorter than two characters contribute nothing |
| ParseCatalog.CatalogOf | lib/parseCatalog.ts:18-69 | every item of the catalog is well formed |
| ParseCatalog.CatalogItemTrade | lib/parseCatalog.ts:55-63 | item k of the catalog has the name of one of the sheets as its trade |
| ParseCatalog.CatalogTradesAreSheets | lib/parseCatalog.ts:55-63 | every item's trade is the name of one of the sheets |
| ParseCatalog.ParseCatalogFromWorkbook | lib/parseCatalog.ts:18-69 | the loop over the sheets builds the items of every sheet in sheet order |
| ParseCatalog.PushSheetRows | lib/parseCatalog.ts:35-65 | the loop over one sheet's rows appends its items in row order |
| PacksStore.Merge | store/packs.ts:51 | `{ ...pack, ...updates }`: the fields the update carries are set, the others kept, and an empty update keeps the pack |
| PacksStore.FindPack | store/packs.ts:66-68 | `find` gives the first pack with the id, and nothing iff no pack has it |
| PacksStore.UpdateWhere | store/packs.ts:48-56 | the list keeps its length; every pack with the id is merged with the update and every other pack is unchanged |
| PacksStore.FindAfterAppend | store/packs.ts:40-68 | after an append an id still finds its earlier pack; a new id finds the appended pack |
| PacksStore.FindAfterDelete | store/packs.ts:58-68 | after a delete the id finds nothing and every other id finds what it found before |
| PacksStore.FindAfterUpdate | store/packs.ts:48-68 | after an update that keeps the id, the id finds its old pack merged with the update |
| PacksStore.LoadedPacks | store/packs.ts:18-26 | no window, nothing stored or a parse failure give the empty list; a parsed list is used as it is |
| PacksStore.PacksStore.constructor | store/packs.ts:38 | no packs |
| PacksStore.PacksStore.AddPack | store/packs.ts:40-46 | the pack is appended at the end, the others unchanged |
| PacksStore.PacksStore.UpdatePack | store/packs.ts:48-56 | the list becomes the list with every pack of that id merged |
| PacksStore.PacksStore.DeletePack | store/packs.ts:58-64 | the list loses exactly the packs with that id, the rest in order |
| PacksStore.PacksStore.GetPackById | store/packs.ts:66-68 | the first pack with the id |
| PacksStore.PacksStore.GetAllPacks | store/packs.ts:70-72 | the packs |
| PacksStore.PacksStore.LoadFromStorage | store/packs.ts:74-77 | the list becomes what loading gives |
| CatalogStore.TradesOf | store/catalog.ts:70 | the trade of each item, in order |
| CatalogStore.LexLeTotalPreorder | store/catalog.ts:71 | the default string order of `sort` is a total preorder |
| CatalogStore.ItemsOfTrade | store/catalog.ts:65-67 | exactly the items of that trade, each taken from the catalog |
| CatalogStore.ItemsOfTradeConcat | store/catalog.ts:65-67 | the filter keeps order: filtering two lists one after the other is filtering each |
| CatalogStore.SortedTrades | store/catalog.ts:69-72 | the distinct trades of the catalog, every trade present, in strictly ascending order |
| CatalogStore.CatalogStore.constructor | store/catalog.ts:20-23 | an empty catalog, never updated, not loading, no error |
| CatalogStore.CatalogStore.LoadCatalog | store/catalog.ts:25-59 | a successful load replaces the catalog, stamps it and clears the error; a failed one keeps the catalog and records the message or "Failed to load catalog"; loading ends either way |
| CatalogStore.CatalogStore.SetCatalog | store/catalog.ts:61-63 | the catalog is replaced wholesale and stamped |
| CatalogStore.CatalogStore.GetCatalogByTrade | store/catalog.ts:65-67 | the items of the trade in catalog order |
| CatalogStore.CatalogStore.GetAllTrades | store/catalog.ts:69-72 | the distinct trades sorted ascending |
| PackWizard.MergeConfig | app/pack/new/page.tsx:92-101 | a partial update keeps the catalog item, replaces exactly the fields it supplies, and the empty update changes nothing |
| PackWizard.DefaultConfig | app/pack/new/page.tsx:119-127 | a newly selected question starts as a non-critical boolean of weight 5 and is not yet valid, because no expected answer is set |
| PackWizard.ThresholdInput | app/pack/new/page.tsx:624-628 | the threshold field keeps a parsed number only when it is non-zero; any non-zero parse is kept |
| PackWizard.ZeroThresholdDropped | app/pack/new/page.tsx:624-628 | typing 0 as a threshold leaves the threshold unset |
| PackWizard.SplitOnComma | app/pack/new/page.tsx:641 | splitting on commas gives at least one part and no part contains a comma |
| PackWizard.TrimAll | app/pack/new/page.tsx:641 | each part is replaced by its trimmed form, one for one |
| PackWizard.EnumValuesInput | app/pack/new/page.tsx:641-642 | every allowed value kept is non-empty, trimmed and free of commas |
| PackWizard.ValidIds | app/pack/new/page.tsx:175-177 | the kept ids are exactly the selected ids whose configuration exists and is valid |
| PackWizard.KeyFor | app/pack/new/page.tsx:180 | custom questions are saved under the key "custom", catalog questions under their catalog id |
| PackWizard.SavedQuestions | app/pack/new/page.tsx:178-189 | one question per kept id, in order, built from that id's configuration |
| PackWizard.SavedQuestionsComplete | app/pack/new/page.tsx:62-75 | every saved question carries what its type needs to be judged (expected boolean, threshold and comparator, or expected value), with the key, text and weight of its configuration |
| PackWizard.PackWizard.constructor | app/pack/new/page.tsx:46-53 | the wizard starts on step 0 with an empty name and no trades, questions or filters |
| PackWizard.PackWizard.QuestionStepGate | app/pack/new/page.tsx:81-86 | the questions step can be left exactly when some selected question is validly configured |
| PackWizard.PackWizard.NextStep | app/pack/new/page.tsx:204-208 | the step advances by one only when it is not the last and its gate allows it; nothing else changes |
| PackWizard.PackWizard.PrevStep | app/pack/new/page.tsx:210-214 | the step goes back by one, never below 0; nothing else changes |
| PackWizard.PackWizard.ToggleTrade | app/pack/new/page.tsx:296-301 | a selected trade is removed, an unselected one appended, so its membership flips |
| PackWizard.PackWizard.UpdateQuestionConfig | app/pack/new/page.tsx:92-101 | only an existing configuration is merged with the update; an unknown id changes nothing |
| PackWizard.PackWizard.ToggleQuestion | app/pack/new/page.tsx:103-130 | deselecting drops the id and its configuration; selecting appends it with the default configuration; selection and configurations stay in step |
| PackWizard.PackWizard.AddCustomQuestion | app/pack/new/page.tsx:132-156 | a missing or invalid draft changes nothing; a valid one gets the id "custom-" and the time, which is appended to the selection unless already there (set semantics), its config is set with the item rebuilt as a Custom item, and the draft and dialog are cleared |
| PackWizard.PackWizard.AddFilterChip | app/pack/new/page.tsx:158-165 | a blank value changes nothing; otherwise its trimmed form is appended to the chosen filter list only |
| PackWizard.PackWizard.RemoveFilterChip | app/pack/new/page.tsx:167-172 | every occurrence of the value leaves the chosen filter list; the other list is kept |
| PackWizard.PackWizard.SavePack | app/pack/new/page.tsx:174-200 | one pack is appended to the store with the name, trades, filters and the saved questions of the valid selections |
| ChatInterface.ResponseFor | components/ChatInterface.tsx:87-103 | an answered query gives the cleaned text and the parsed sources; a failed one gives "Error querying project", the project's display name, and no sources |
| ChatInterface.Responses | components/ChatInterface.tsx:84-104 | one entry per selected project, in order |
| ChatInterface.ResponsesAt | components/ChatInterface.tsx:86-104 | entry i is the response built from project i's own query outcome |
| ChatInterface.QueryProjects | components/ChatInterface.tsx:84-104 | the loop over the selected projects builds exactly the per-project entries |
| ChatInterface.QueryProject | components/ChatInterface.tsx:86-102 | one query becomes the cleaned text and parsed sources of its answer, or an error entry naming the project with no sources |
| ChatInterface.Labelled | components/ChatInterface.tsx:120-123 | each project's part starts with its bold display name and a newline and ends with its response |
| ChatInterface.SeveralProjectsNeverEmpty | components/ChatInterface.tsx:117-124 | with more than one project the combined text is never empty, so the fallback text is never used there |
| ChatInterface.DedupedBy | components/ChatInterface.tsx:126-136 | the kept sources have distinct keys, come from the input, and cover every key of the input |
| ChatInterface.DedupedFirstWins | components/ChatInterface.tsx:130-133 | each kept source is the first one with its key, and the kept sources follow the order of first appearance |
| ChatInterface.DedupedDistinct | components/ChatInterface.tsx:126-136 | sources whose keys are already distinct are kept unchanged |
| ChatInterface.DedupedIdempotent | components/ChatInterface.tsx:126-136 | de-duplicating twice is the same as once |
| ChatInterface.ReplyOf | components/ChatInterface.tsx:109-142 | the reply text is the combined text, or the fallback sentence when that is empty, so it is never empty |
| ChatInterface.SingleProjectVerbatim | components/ChatInterface.tsx:113-116 | with one project its response and sources are used as they are |
| ChatInterface.SeveralProjectsCombined | components/ChatInterface.tsx:117-137 | with several projects the text is the labelled join and the sources are the de-duplicated union, keyed by file, page and section |
| ChatInterface.PutAll | components/ChatInterface.tsx:127-135 | filling the map source by source keeps exactly the first source for each key, in insertion order |
| ChatInterface.PutIfAbsent | components/ChatInterface.tsx:129-132 | setting one more source under its key unless the key is taken extends the first-source-per-key map by exactly that source |
| ChatInterface.CombineResponses | components/ChatInterface.tsx:109-137 | the imperative combination equals the reply specification |
| ChatInterface.ReplyFillsPlaceholder | components/ChatInterface.tsx:140-149 | merging the reply update into the empty placeholder gives the answer message with content, sources and GraphRAG metadata |
| ChatInterface.ReplyInPlaceholder | components/ChatInterface.tsx:73-149 | the reply is the one built from every project's response; with no active conversation the conversations are unchanged; when the active conversation has no message with the placeholder's id, the new conversations are the old ones with that conversation's messages extended by the answer message (capped) and `updatedAt` set to the reply time, so the answer is its last message; loading is cleared and the active id and error are kept |
| ChatInterface.AddUserMessage | components/ChatInterface.tsx:67-70 | adding the user message fails only without an active id; with no active conversation the conversations are unchanged; otherwise the new conversations are the old ones with the active conversation's messages extended by the user message (the user role, the text, the selected projects as metadata, no sources), capped, and `updatedAt` set, and that conversation stays active; a user message with another id leaves it without a message carrying the placeholder's id |
| ChatInterface.AddPlaceholder | components/ChatInterface.tsx:75-79 | with no active conversation the conversations are unchanged; otherwise the new conversations are the old ones with the active conversation's messages extended by the empty assistant placeholder, capped, and `updatedAt` set; with a fresh id the placeholder is its last message and the one its id finds |
| ChatInterface.WriteReply | components/ChatInterface.tsx:139-149 | with no active conversation or no message with the placeholder's id the conversations are unchanged; otherwise the new conversations are the old ones with the reply update merged into the message found by that id and `updatedAt` set; when the placeholder is that last message it becomes the answer message carrying the reply's text and sources |
| ChatInterface.ReportSendFailure | components/ChatInterface.tsx:151-168 | with no active conversation the conversations are unchanged, the error reads "Failed to send message: " and the reason, and loading is cleared |
| ChatInterface.ChatInput.constructor | components/ChatInterface.tsx:41 | the input starts empty |
| ChatInterface.ChatInput.HandleSendMessage | components/ChatInterface.tsx:55-169 | a blank input, a pending request or no selected project sends nothing and changes nothing; otherwise the input is cleared, and either the failure is reported or the reply is written into the new assistant message; with an active id but no active conversation the conversations are unchanged; with an active conversation and two distinct fresh ids the new conversations are the old ones with that conversation's messages extended by the trimmed user message and then by the answer message, each capped, and `updatedAt` set to the reply time |
| SourceReference.CutAt | components/SourceReference.tsx:17-25 | cutting at a marker leaves a trimmed piece of the name that no longer holds the marker, and a name without the marker is kept whole |
| SourceReference.CleanFilename | components/SourceReference.tsx:14-25 | the cleaned name holds none of the three metadata markers, and a name without them is kept as it is |
| SourceReference.CleanFilenameIdempotent | components/SourceReference.tsx:14-25 | cleaning an already cleaned name changes nothing |
| SourceReference.CleanOneLineFilename | components/SourceReference.tsx:17-19 | a trimmed name followed by " human_readable:" and anything cleans back to the name |
| SourceReference.CleanPageText | components/SourceReference.tsx:35-43 | the marker cuts never change the decimal text of a page number |
| SourceReference.CleanPageNumber | components/SourceReference.tsx:82-92 | the label is empty exactly for page 0 and is otherwise the number's decimal text |
| SourceReference.CleanSheetNumber | components/SourceReference.tsx:94-101 | the label is empty exactly for sheet 0 and is otherwise the number's decimal text |
| SourceReference.Bucket | components/SourceReference.tsx:28 | the configured bucket when it is set, otherwise the non-empty default "itb-store-dev" |
| SourceReference.BuildPdfUrl | components/SourceReference.tsx:10-49 | no link exactly when the file name or the ITB id is missing; otherwise exactly the bucket URL, the project folder and the cleaned name, followed by "#page=" and the decimal page number when, and only when, the page is non-zero |
| SourceReference.OneLineSourceUrl | components/SourceReference.tsx:10-49 | a source whose name carries inline metadata links to the bare file name |
| SourceReference.DisplayName | components/SourceReference.tsx:69-71 | the readable name, else the file name, else "Unknown source"; never empty |
| SourceReference.SourceIcon | components/SourceReference.tsx:73-80 | the icon follows the lower-cased extension: drawing for .dwg, document for .doc and .docx, sheet for .xls and .xlsx, page otherwise |
| SourceReference.DistinctEndings | components/SourceReference.tsx:75-78 | the extensions checked are mutually exclusive, so the order of the checks decides nothing |
| ProjectsStore.Ids | lib/useProjects.ts:41 | one id per project, in order |
| ProjectsStore.Removed | lib/useProjects.ts:51-54 | no project with the id is left, every other project is kept, and nothing new appears |
| ProjectsStore.RemovedIds | lib/useProjects.ts:51-54 | the ids after removal are the old ids with that id filtered out, in order |
| ProjectsStore.RemovedKeepsUnique | lib/useProjects.ts:51-54 | removal keeps the ids distinct |
| ProjectsStore.AppendedUnique | lib/useProjects.ts:43-48 | appending keeps the ids distinct exactly when they were distinct and the new id was absent |
| ProjectsStore.LoadedProjects | lib/useProjects.ts:12-28 | the stored list when it parses, otherwise the bundled default list |
| ProjectsStore.ProjectsStore.constructor | lib/useProjects.ts:8-9 | the store starts empty and not loaded |
| ProjectsStore.ProjectsStore.Load | lib/useProjects.ts:12-28 | after mounting the list is the loaded one and the store is marked loaded |
| ProjectsStore.ProjectsStore.UpdateProjects | lib/useProjects.ts:31-38 | the new list replaces the old one |
| ProjectsStore.ProjectsStore.GetProjectIds | lib/useProjects.ts:41 | the ids of the projects, in order |
| ProjectsStore.ProjectsStore.AddProject | lib/useProjects.ts:44-48 | the new project is appended at the end |
| ProjectsStore.ProjectsStore.RemoveProject | lib/useProjects.ts:51-54 | the list becomes the removal of that id |
| ProjectManager.UuidIsTrimmed | components/ProjectManager.tsx:28-32 | an id that passes the UUID test is never blank and has nothing to trim |
| ProjectManager.AlertExampleIsUuid | components/ProjectManager.tsx:31-33 | the example shown in the alert passes the UUID test |
| ProjectManager.AddOutcomeOf | components/ProjectManager.tsx:27-48 | a blank id is ignored, a non-UUID alerts the format message, a UUID already present alerts the duplicate message, and only a new UUID is added |
| ProjectManager.AddKeepsUnique | components/ProjectManager.tsx:37-44 | an accepted project keeps the ids distinct |
| ProjectManager.Edited | components/ProjectManager.tsx:65-67 | the project being edited is replaced by the form and every other project is kept, position by position |
| ProjectManager.EditKeepsIds | components/ProjectManager.tsx:57-67 | an edit started from a project keeps the list's ids, and with no edit in progress the list is unchanged |
| ProjectManager.ProjectManager.constructor | components/ProjectManager.tsx:21-25 | no form is open and both forms are empty |
| ProjectManager.ProjectManager.OpenAddForm | components/ProjectManager.tsx:85 | the add form opens and nothing else changes |
| ProjectManager.ProjectManager.CancelAddForm | components/ProjectManager.tsx:134-138 | the add form closes and its fields are cleared; the list and the edit state are unchanged |
| ProjectManager.ProjectManager.SetNewProject | components/ProjectManager.tsx:109-125 | the add form holds the typed fields and nothing else changes |
| ProjectManager.ProjectManager.HandleAddProject | components/ProjectManager.tsx:27-48 | the outcome is the add decision; an accepted project is appended and the form is reset and closed; otherwise nothing changes; distinct ids stay distinct |
| ProjectManager.ProjectManager.HandleDeleteProject | components/ProjectManager.tsx:50-55 | a confirmed delete removes the id; a refused one changes nothing |
| ProjectManager.ProjectManager.HandleStartEdit | components/ProjectManager.tsx:57-60 | the edit form holds a copy of the project and the edit is keyed by its id |
| ProjectManager.ProjectManager.SetEditFields | components/ProjectManager.tsx:57-77 | only the name and description of the edit form change |
| ProjectManager.ProjectManager.HandleSaveEdit | components/ProjectManager.tsx:62-72 | a blank name saves nothing; otherwise the edited project replaces its entry, the ids are kept and the edit form is reset |
| ProjectManager.ProjectManager.HandleCancelEdit | components/ProjectManager.tsx:74-77 | the edit is dropped and its form reset; the list is unchanged |
| ProjectSelector.DocumentCount | components/ProjectSelector.tsx:61 | the number of included documents, or 0 when the list is absent |
| ProjectSelector.ManualList | components/ProjectSelector.tsx:49-54 | one manual-source entry per stored project, in order |
| ProjectSelector.ApiList | components/ProjectSelector.tsx:57-63 | one API-source entry per fetched project, in order |
| ProjectSelector.FilteredProjects | components/ProjectSelector.tsx:66-75 | an empty search shows the active tab's whole list; otherwise exactly the projects whose lower-cased name or id contains the lower-cased term |
| ProjectSelector.EveryProjectMatchesEmpty | components/ProjectSelector.tsx:69-74 | the empty term matches every project, so filtering by it changes nothing |
| ProjectSelector.SelectDisabledIff | components/ProjectSelector.tsx:325-369 | a project's select button is disabled exactly when it is not selected and the selection is full |
| ProjectSelector.ProjectSelector.constructor | components/ProjectSelector.tsx:26-32 | the selector opens on the API tab with no search and no manual form |
| ProjectSelector.ProjectSelector.GetFilteredProjects | components/ProjectSelector.tsx:66-75 | with no search term the active tab's list is shown whole; otherwise exactly the projects of the active tab whose lower-cased name or id contains the lower-cased term (`FilteredProjects` on the component's state) |
| ProjectSelector.ProjectSelector.SetActiveTab | components/ProjectSelector.tsx:130 | only the tab changes |
| ProjectSelector.ProjectSelector.SetSearchTerm | components/ProjectSelector.tsx:78-92 | only the search term changes |
| ProjectSelector.ProjectSelector.OpenManualForm | components/ProjectSelector.tsx:207 | the manual form opens and nothing else changes |
| ProjectSelector.ProjectSelector.CancelManualForm | components/ProjectSelector.tsx:227-230 | the manual form closes and the typed id is cleared; the saved list, the tab and the search are unchanged |
| ProjectSelector.ProjectSelector.SetNewProjectId | components/ProjectSelector.tsx:29 | only the typed manual id changes |
| ProjectSelector.ProjectSelector.HandleAddManualProject | components/ProjectSelector.tsx:95-101 | a blank id changes nothing; otherwise the trimmed id is appended as "Project" and the id, and the form is cleared and closed |
| ProjectSelector.ProjectSelector.HandleRemoveManualProject | components/ProjectSelector.tsx:104-110 | the project is removed from the manual list and it is deselected exactly when it was selected |
| ChatPage.Toggled | app/chat/page.tsx:82-88 | a selected project is removed and no other changes membership; an unselected one is appended |
| ChatPage.ToggleTwice | app/chat/page.tsx:82-88 | selecting and then deselecting a project restores the selection |
| ChatPage.ToggleKeepsDistinct | app/chat/page.tsx:82-88 | toggling keeps the selection free of duplicates |
| ChatPage.ToggleWithinCap | components/ProjectSelector.tsx:325-369 | a toggle the selector allows never takes the selection past the maximum |
| ChatPage.FirstIndex | app/chat/page.tsx:96-100 | the position of the first project with the id, or none when no project has it |
| ChatPage.Prefix8 | app/chat/page.tsx:104 | the first eight characters of the id, or the whole id when it is shorter |
| ChatPage.ResolveName | app/chat/page.tsx:94-105 | the first saved project's name, else the first API project's name, else "Project", the shortened id and "..." |
| ChatPage.ResolveNames | app/chat/page.tsx:94-105 | one resolved name per selected project, in order |
| ChatPage.LastIndex | app/chat/page.tsx:120-127 | the position of the last project with the id, or none when no project has it |
| ChatPage.Assigned | app/chat/page.tsx:120-127 | assigning names in list order leaves each id with the name of its last project and keeps earlier entries for other ids |
| ChatPage.ProjectNames | app/chat/page.tsx:116-127 | the map holds every known id; an API project's name wins over a saved one, and among equal ids the last one wins |
| ChatPage.BuildProjectNames | app/chat/page.tsx:116-127 | the two loops build exactly that map |
| ChatPage.FirstIsLast | app/chat/page.tsx:94-127 | with distinct ids the first and the last project with an id coincide |
| ChatPage.NamesAgreeWhenUnambiguous | app/chat/page.tsx:94-127 | an id known to only one list gets the same name in a new conversation as in the chat view |
| ChatPage.NamesDifferWhenBothKnown | app/chat/page.tsx:94-127 | an id known to both lists is named after the saved project in a new conversation but after the API project in the chat view |
| ChatPage.CloseLeavesOne | app/chat/page.tsx:249-259 | the close control is shown only with more than one conversation, so closing one always leaves one |
| ChatPage.ChatPage.constructor | app/chat/page.tsx:18 | no project is selected at first |
| ChatPage.ChatPage.HandleProjectToggle | app/chat/page.tsx:82-88 | the selection becomes its toggle |
| ChatPage.ChatPage.HandleCreateNewConversation | app/chat/page.tsx:90-108 | with no selection nothing happens; otherwise a conversation over the selection, named as resolved, is added, made active and the limit enforced |
| ChatPage.ChatPage.ConversationList | app/chat/page.tsx:130-132 | the tabs show every conversation once, most recently updated first |
| ChatPage.ChatPage.HandleCloseConversation | app/chat/page.tsx:110-112 | the conversation is deleted; when the close control was visible at least one remains |
| ChatPage.ChatPage.RemoveManualProject | components/ProjectSelector.tsx:104-110 | removing a saved project also takes it out of the page's selection and leaves every other selection as it was |
| ApiProjects.LoadFromCache | lib/useApiProjects.ts:52-65 | the stored entry exactly when it parses and is at most five minutes old; otherwise nothing |
| ApiProjects.HasMoreMeansUnseen | lib/useApiProjects.ts:104 | when full pages were loaded and more is reported, the projects shown are fewer than the total |
| ApiProjects.WithDocuments | lib/useApiProjects.ts:190-193 | with the filter off the list is kept; with it on exactly the projects with documents remain |
| ApiProjects.WithDocumentsIdempotent | lib/useApiProjects.ts:190-193 | applying the document filter twice is the same as once |
| ApiProjects.ApiProjectsHook.constructor | lib/useApiProjects.ts:36-49 | the hook starts loading, with no projects, more to load, page 0, the given or default page size, no search and the document filter on |
| ApiProjects.ApiProjectsHook.FilteredProjects | lib/useApiProjects.ts:196-201 | the list handed out is the document-filtered list |
| ApiProjects.ApiProjectsHook.FilteredCount | lib/useApiProjects.ts:197 | the count handed out is the size of the filtered list and never exceeds the full list |
| ApiProjects.ApiProjectsHook.FetchProjects | lib/useApiProjects.ts:82-120 | success appends or replaces the list, takes the search result count or the server total, recomputes whether more is left (never after a short page) and clears the error; failure keeps the list and records the message or "Failed to fetch projects" |
| ApiProjects.ApiProjectsHook.LoadInitialData | lib/useApiProjects.ts:123-143 | a fresh cache entry is shown as it is (list, total, whether more is left) when no search is active; otherwise the first page is fetched with `fetchProjects`'s whole effect: on success the list, the search count or server total, whether more is left and a cleared error; on failure the list, total and hasMore kept and the message or "Failed to fetch projects" recorded; page, search and filter fields are kept |
| ApiProjects.ApiProjectsHook.Refetch | lib/useApiProjects.ts:146-149 | back to page 0, then the first page with `fetchProjects`'s whole effect on list, total, hasMore and error, for success and failure; search and filter fields are kept |
| ApiProjects.ApiProjectsHook.LoadMore | lib/useApiProjects.ts:152-158 | nothing at all changes while loading or with nothing left; otherwise the page counter advances and the next page is appended with its total, hasMore and cleared error, or on failure the list, total and hasMore are kept and the error recorded, the counter advancing even then; search and filter fields are kept |
| ApiProjects.ApiProjectsHook.LoadMoreRetrying | lib/useApiProjects.ts:152-158 | as loadMore, with the same whole new state, except that the counter advances only when the page arrives |
| ApiProjects.ApiProjectsHook.Search | lib/useApiProjects.ts:161-174 | the term is recorded, a non-empty term turns searching on, paging restarts and the first page replaces the list, with the match count (or server total for an empty term), hasMore and a cleared error; a search result never offers more to load; failure keeps list, total and hasMore and records the error |
| ApiProjects.ApiProjectsHook.ClearSearch | lib/useApiProjects.ts:177-182 | the search is cleared, paging restarts and the first page replaces the list with the server total, hasMore and a cleared error; failure keeps list, total and hasMore and records the error |
| ApiProjects.ApiProjectsHook.ToggleDocumentFilter | lib/useApiProjects.ts:185-187 | only the document filter flips; every other field is kept |
| ApiProjects.RetryingKeepsPages | lib/useApiProjects.ts:152-158 | with the retrying version the list always holds exactly the pages up to the current one, whether the next page arrives or fails |
| ApiProjects.FailedPageIsSkipped | lib/useApiProjects.ts:152-158 | as written, a failed load followed by a successful one shows page 0 then page 2, so page 1 is never shown |
| Breadcrumb.Segments | components/Breadcrumb.tsx:23 | the segments are the non-empty parts of the path, none holding a "/" |
| Breadcrumb.SegmentsOfPath | components/Breadcrumb.tsx:23 | a path written as "/" and non-empty segments splits back into exactly those segments |
| Breadcrumb.Capitalized | components/Breadcrumb.tsx:33 | the segment with its first character upper-cased and the rest kept |
| Breadcrumb.CrumbAt | components/Breadcrumb.tsx:30-39 | an item links to the path up to its segment and is named by the page-name table, else by the capitalised segment |
| Breadcrumb.Crumbs | components/Breadcrumb.tsx:30-39 | one item per segment, in order |
| Breadcrumb.Trail | components/Breadcrumb.tsx:19-39 | no trail on "/"; otherwise the dashboard followed by one item per segment |
| Breadcrumb.BuildTrail | components/Breadcrumb.tsx:15-39 | the loop that grows the current path builds exactly that trail |
| Breadcrumb.BuildItems | components/Breadcrumb.tsx:26-39 | the loop over the segments gives the dashboard and one item per segment |
| Breadcrumb.NextPath | components/Breadcrumb.tsx:30-32 | appending "/" and a segment to the current path gives that segment's link |
| Breadcrumb.LinksNest | components/Breadcrumb.tsx:30-32 | each item's link extends the previous one by "/" and one segment |
| Breadcrumb.LastItemIsCurrentPage | components/Breadcrumb.tsx:45-67 | the last item links to the path itself, which is why it is shown as the current page |
| Navigation.AtMostOneActive | components/Navigation.tsx:13-48 | for any path at most one top-level item is active |
| Navigation.AdminInactiveOnItsProjectsPage | components/Navigation.tsx:29-47 | the Admin item is active under "/admin/catalog" but not on "/admin/projects", although its Projects entry is highlighted there |
| Navigation.HighlightedEntryHasActiveParent | components/Navigation.tsx:64-87 | with the parent also active on its entries' paths, a highlighted entry always has an active parent |
| Navigation.PlainItemActiveAsBefore | components/Navigation.tsx:64-87 | with that rule, an item without a dropdown is active exactly when `isActive` holds for its own link |
| Navigation.AtMostOneItemActive | components/Navigation.tsx:13-48 | with that rule still at most one top-level item is active |

## Left out

- Rendering is not modelled. This covers the JSX markup, styling, icons, focus and scroll effects, and the chat's markdown-to-HTML formatting. None of it changes state that the logic reads.
- The network calls are not modelled: `queryGraphRAG`, the chat's per-project query, and the API project list and search calls. Each becomes an outcome passed in, either a response or a failure with an optional message.
- Writes to browser storage are not modelled. This covers saving packs, projects, test history, chat history and the API project cache. Loads receive what a read found, as `Storage.Stored`.
- Loading the chat history from browser storage on mount (lib/useChatHistory.ts:64-96) is not modelled. The store starts empty.
- `Date.now()`, `new Date()` and `Math.random()` are parameters. So are the ids built from them and the conversation and message ids.
- React's asynchronous state updates are modelled as one atomic step per handler. An `await` is modelled as the outcome being there when the step runs.
- Binary floating point is not modelled. Numbers are exact decimals, and `Math.round(100 * earned / total)` is computed exactly on integers. Inputs whose float result would differ from the exact one are not captured.
- `toLowerCase` and `toUpperCase` are modelled on ASCII letters only. `localeCompare` in the history sort is modelled as code-point order, with no locale collation. The default `sort()` of the trade list compares UTF-16 code units; the model compares code points, which orders the same way for text inside the Basic Multilingual Plane.
- JavaScript string lengths, indices and slices count UTF-16 code units, while a Dafny `char` is a Unicode scalar value. For text outside the Basic Multilingual Plane, the model's lengths and cuts differ from the source's. This affects the 200-character answer cut in `GraphRag.ExtractAnswer` (proved in `GraphRag.ExtractSentence`), the title cuts `ChatExport.Take` and `ChatExport.TitlePart`, `ChatPage.Prefix8`, and the length tests of `ParseCatalog`.
- Reading the spreadsheet file (`XLSX.read`, `sheet_to_json`) is not modelled. A workbook is its sheets and rows, and `slugify` is a parameter.
- GraphRag.MakeHumanReadable: the document-specific rename rules and the revision-date removal of `makeHumanReadable` (lib/graphRag.ts:65-86) are left out. The model keeps only the extension drop, the spacing, the title case and the empty-name fallback.
- ChatExport.ExportConversations: the text and JSON serialisers and the date rendering are parameters. The CSV text, the JSON record passed to the serialiser, the dispatch and the error for an unknown format are modelled.
- TestHistoryView.VerdictBadge: the lookup in a plain object would also find inherited keys such as "constructor". The model maps every verdict outside the three named ones to grey.
- TestRunner.TestRunnerPage.AskQuestions: the loop does not build the prompt itself. Its service oracle takes the question and stands for the service applied to the prompt `GraphRag.BuildPrompt` makes, which is modelled and proved on its own. The oracle is therefore at least as general as the source's call for distinct questions. Being a function, it gives the same outcome each time for the same question, while the service may answer two identical calls differently. A pack that lists a question twice is therefore not fully captured.
- TestRunner.TestRunnerPage.RunTest: the outer `catch` (app/run/page.tsx:114-116) is not modelled. Every per-question failure is caught inside the loop, and scoring does not throw. The PDF download is not modelled either.
- ApiProjects.ApiProjectsHook.Search: the fetch is modelled with the new search term in force. In the source, `fetchProjects` is the callback from the render before the term was set. The first search after a change may still use the previous term.
- ApiProjects.ApiProjectsHook.FetchProjects: writing the cache (`saveToCache`) is not modelled. In the source, that write stores only the page just fetched.
- ProjectSelector.ProjectSelector.SetSearchTerm: the API search that `handleSearch` triggers on the API tab is the separate `ApiProjects.ApiProjectsHook.Search`.
- ProjectSelector.ProjectSelector.HandleAddManualProject: as in the source, no UUID or duplicate check is made here, unlike the project manager.
- ChatPage.ChatPage.HandleCreateNewConversation: the page's error screen and its error boundary are not modelled.
- ChatInterface.ChatInput.HandleSendMessage: the conversation's own project list is what the page passes as the selected projects, and the model takes it as a parameter.
- SourceReference: `handleClick` only opens a window or reports an error, so it is not modelled. The null-URL case is `BuildPdfUrl` returning nothing.
- ChatHistory.ChatHistoryStore: the conversations record is a plain JavaScript object keyed by id, and the model keeps its values as a list in insertion order. JavaScript lists integer-like keys such as "42" first, in numeric order, so with such ids the source's order differs. A lookup in the object would also find inherited keys such as "constructor", while the model finds only stored ids.
- TestHistoryView.SortedResults, ChatHistory.NewestFirst, ChatPage.ChatPage.ConversationList, ChatHistory.ChatHistoryStore.ExportConversations and ChatHistory.ChatHistoryStore.GetConversationsByProject: the contracts leave the order of entries that tie under the comparator open. `Array.prototype.sort` is stable, so in the source tied entries keep their stored order.
- JsNumber.NumToString: only the positional form is modelled. JavaScript writes numbers from 1e21 up, and below 1e-6, in exponent form (for example "1e+21"); the model does not.
- SourceBlocks.SourceOfBlock: the round trip is stated for values without a colon. Such values cannot themselves hold a key followed by its colon. A value that does may be found by an earlier field expression, so the field reads back something else.
- Breadcrumb: the last item being shown as text rather than as a link is a rendering choice. `Breadcrumb.LastItemIsCurrentPage` states why the last item is the current page.
- PackWizard.PackWizard.SavePack: the navigation back to the dashboard after saving is not modelled. Neither are the mount effect and the trade list shown in step 1, which comes from `CatalogStore`.

## Findings

| source | as written | input that shows it | evidently intended | confidence | as-written member | corrected member |
|---|---|---|---|---|---|---|
| lib/useApiProjects.ts:152-158 | `loadMore` advances the page counter before fetching and does not move it back when the fetch fails | a first page of 50 of 1000 projects, then a failed `loadMore`, then a successful one: pages 0 and 2 are shown and page 1 never is | a failed page is asked for again by the next `loadMore` | not executed | ApiProjects.FailedPageIsSkipped | ApiProjects.RetryingKeepsPages |
| components/Navigation.tsx:29-47 | the Admin item's link is "/admin/catalog" and `isActive` is a prefix test | the path "/admin/projects": the Admin item is not active, although its own Projects entry is highlighted | the Admin item is active on every page of its dropdown | not executed | Navigation.AdminInactiveOnItsProjectsPage | Navigation.HighlightedEntryHasActiveParent |
