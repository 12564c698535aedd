# Pocket Board: the debate event protocol, verified

Pocket Board is an "AI board of directors". A user asks a question on the chat page. The backend runs a short debate between model-driven debaters and a moderator, holds a vote, and streams every step to the page as Server-Sent-Events-style frames. This project models, in Dafny, the deterministic logic on both ends of that stream and proves what it promises:

- **The chat page** (`frontend/app/page.tsx`):
  - the page state (messages, votes, conversation id, phase, `isLoading`, input and context panel), as the class `Board.Session` over the pure step `Board.Apply`;
  - `handleSubmit`: blank-input rejection, the `[EK BAĞLAM: …]` augmentation, the optimistic typing placeholder and its removal, and the read loop with its line decoder (`StreamDecoder`);
  - the history effect (`Board.Reconcile`);
  - the vote summary bar (`VoteSummary`).
- **The chat API** (`backend/app/api/chat.py`), module `ChatApi`:
  - the history transform;
  - the conversation id and title rule;
  - the `data: <json>\n\n` framing, with `json.dumps` written out as an encoder (`Json.Encode`).
- **The debate service** (`backend/app/services/ai_service.py`):
  - the tag parsers: `parse_clarification`, the confidence tag and `<think>` stripping (`Tags`);
  - the Gemini and Anthropic message conversions and the scraped-text cleaner (`Prompts`);
  - the turn loop: speak counts, the cyclic search, the next-speaker rule and the moderator cadence (`Scheduler`);
  - the voting options, one vote per debater with retries, the tally and final decision, and the fixed tail of the event stream (`Voting`, `Tally`).
- **The interface language** (`frontend/lib/LanguageContext.tsx`), module `Language`: the `LanguageProvider` state, the saved preference, the switcher, and `t`, the nested-key lookup with its fallback to the key.

`Protocol` ties the two ends together:
- a sequence of events framed by the server and delivered one frame group per read decodes back to the same events;
- a submission that receives a debate's frames adopts the announced conversation id and appends exactly the messages the events carry.

Model replies, `JSON.parse` / `json.loads` and the fuzzy matcher are parameters (functions the caller supplies). `random.choice` is a nondeterministic pick. Exceptions the code raises are modelled as values (`Voting.Outcome`) carrying the message CPython would give.

### Behaviour of the code worth knowing

- **No partial line is carried from one read to the next.** Each read is split on `'\n'` by itself, so a frame split across two reads is lost (`Protocol.SplitPrefixLosesFrame`).
- **`meta` overwrites the conversation id every time.** This includes overwriting it with `null`; the last writer wins (`Board.MetaLastWriterWins`).
- **A transport failure only clears `isLoading`.** It appends no message to the transcript.
- **Events after `end` are still applied** (`Board.EventsAfterEndStillApplied`).
- **`isLoading` can stay true.** This happens when the stream closes without `end` or an error field (`Board.StuckWithoutEnd`), and after the no-token and no-body returns (`Board.SubmitWithoutBody`).
- **The last event is not always `end`.** When a voting option is not a string, `", ".join` raises. When a vote reply parses to something that is not an object, or its decision is not a string, reading the vote raises. In either case `chat.py` ends the stream with an error frame instead (`Voting.TailShape`, `Voting.LastFrame`).
- **With a single debater, the turn loop stops after that debater's first counted reply.** `random.choice` of the empty candidate list raises (`Scheduler.End.NoOpponent`).

## Model

| member | source | states |
|---|---|---|
| StreamDecoder.DecodeLine | frontend/app/page.tsx:288-290 | a line yields a payload only if it starts with `data: `; any other line yields nothing |
| StreamDecoder.PayloadsComeFromLines | frontend/app/page.tsx:285-317 | a read yields at most one payload per line, and every payload is the parse of one of its lines |
| StreamDecoder.DecodeLinesAppend | frontend/app/page.tsx:287-317 | lines are decoded independently: decoding two runs of lines is decoding each and concatenating |
| StreamDecoder.SkippedLine | frontend/app/page.tsx:313-315 | a line that does not parse is dropped alone; the lines around it decode as if it were absent |
| StreamDecoder.DecodeReadsAppend | frontend/app/page.tsx:280-285 | reads are decoded independently and their payloads concatenate in arrival order |
| StreamDecoder.ReadAtLineFeed | frontend/app/page.tsx:284-285 | inside one read, a line feed separates two parts that decode independently |
| Protocol.EmptyReadDecodesToNothing | frontend/app/page.tsx:284-288 | an empty read yields no payload |
| Protocol.DataLineDecodes | backend/app/api/chat.py:183 | the `data: ` line of an encoded event decodes back to that event when `parse` inverts `json.dumps` |
| Protocol.FrameThenRest | backend/app/api/chat.py:183 | a frame followed by anything decodes to its event followed by whatever the rest decodes to |
| Protocol.FramesRoundTrip | backend/app/api/chat.py:179-183 | the concatenated frames of a list of events, read at once, decode back to exactly that list |
| Protocol.AlignedReadsRoundTrip | frontend/app/page.tsx:280-290 | when every read carries whole frames, the reads decode back to all the events in order |
| Protocol.SplitPrefixLosesFrame | frontend/app/page.tsx:284-285 | a frame split across two reads after its second character (`da` | `ta: …`) yields nothing from either read |
| Protocol.NotDataLine | frontend/app/page.tsx:288 | a single line without the `data: ` prefix yields nothing |
| Protocol.ServerErrorShown | frontend/app/page.tsx:307-309 | the error frame appends the system message `Error: <message>` and clears `isLoading` |
| Protocol.EmptyServerErrorIgnored | frontend/app/page.tsx:307 | an error member that is the empty string is falsy and changes nothing |
| Protocol.MetaIsWire | backend/app/api/chat.py:179 | the meta event has the shape the encoder and `parse` round-trip when its id does |
| Protocol.OneReadStream | backend/app/api/chat.py:179-183 | a whole debate stream delivered in one read decodes to the meta event followed by the debate's events |
| Protocol.SubmitAdoptsAnnouncedId | frontend/app/page.tsx:278-311 | after a submission receives a debate's frames, the id is the announced one and the transcript is the old one without typing entries, plus the user message, plus what the events append |
| Protocol.MetaAddsNothing | frontend/app/page.tsx:299-300 | the meta event appends no message |
| Protocol.AnnouncedStream | frontend/app/page.tsx:278-311 | the same for any reads that decode to the meta event followed by events without another meta |
| Protocol.MetaCarriesId | backend/app/api/chat.py:179 | the meta event is classified as `meta` and carries the conversation id |
| Protocol.MetaAdopted | frontend/app/page.tsx:299-300 | a stream that starts with the meta event and has no other ends with the announced id |
| Board.MessageOf | frontend/app/page.tsx:292-298 | a `message` event's entry copies role, content and confidence; `agentName` is the payload's for the assistant role and the role otherwise; it is not a typing entry |
| Board.Apply | frontend/app/page.tsx:292-312 | one event appends at most one message and never changes earlier ones, input or context; it can clear `isLoading` but never set it |
| Board.TranscriptIsAppended | frontend/app/page.tsx:287-312 | after any events, the transcript is the old one followed by exactly the entries the `message` and error events contribute, in order |
| Board.LoadingClearedIff | frontend/app/page.tsx:307-312 | `isLoading` is still set after a run of events iff it was set and no event was an error or `end` |
| Board.LoadingStep | frontend/app/page.tsx:307-312 | one payload leaves `isLoading` set iff it was set and the payload is neither an error nor `end` |
| Board.EventsAfterEndStillApplied | frontend/app/page.tsx:280-312 | `end` does not stop processing: the events after it are applied as if `end` were absent, and only `isLoading` differs |
| Board.NoMetaKeepsId | frontend/app/page.tsx:299-300 | events without `meta` leave the conversation id alone |
| Board.MetaLastWriterWins | frontend/app/page.tsx:299-300 | the id after a run of events is the one carried by the last `meta` event, `null` included |
| Board.ApplyVotesAndPhase | frontend/app/page.tsx:301-306 | one payload: `vote_results` replaces the votes with its `votes` member, `phase` overwrites the label with its `phase` member, any other payload keeps both; `typing` leaves the whole state unchanged |
| Board.NoVotesKeepsVotes | frontend/app/page.tsx:303-304 | events without `vote_results` leave the votes alone |
| Board.VotesLastWriterWins | frontend/app/page.tsx:303-304 | the votes after a run of events are the `votes` member of the last `vote_results` event, replaced wholesale |
| Board.NoPhaseKeepsPhase | frontend/app/page.tsx:305-306 | events without `phase` leave the phase label alone |
| Board.PhaseLastWriterWins | frontend/app/page.tsx:305-306 | the phase label after a run of events is the one carried by the last `phase` event |
| Board.TypingIgnored | frontend/app/page.tsx:301-302 | removing a `typing` event from anywhere in a run leaves the final state the same |
| Board.ContextParts | frontend/app/page.tsx:221-224 | at most three parts, each `Bütçe: `, `Süre: ` or `Kısıtlar: `; none exactly when every field is empty |
| Board.AugmentKeepsInput | frontend/app/page.tsx:220-228 | the message starts with the input; it is the input alone iff the context is empty, else the input followed by `\n\n[EK BAĞLAM: ` + the parts joined by a vertical bar between spaces, then `]` |
| Board.BudgetPartFirst | frontend/app/page.tsx:222-227 | a non-empty budget is the first part of the annotation |
| Board.WithoutTyping | frontend/app/page.tsx:278 | the filter keeps exactly the entries that are not typing entries |
| Board.BlankInputIsNoOp | frontend/app/page.tsx:217 | a submission whose input is all white space changes nothing, whatever the response |
| Board.SubmitWithBody | frontend/app/page.tsx:230-278 | once a body exists, the list is the old list without typing entries plus the user message; input and context are cleared |
| Board.ReceiveWithBody | frontend/app/page.tsx:272-318 | a streamed response drops the typing entries, then appends what the decoded events contribute; no typing entry is left |
| Board.PlaceholderDropped | frontend/app/page.tsx:241-278 | the placeholder added after the user message is removed and the user message stays |
| Board.SubmitWithoutBody | frontend/app/page.tsx:241-272 | without a body, the user message and the placeholder stay, votes are null, and `isLoading` stays set unless the fetch threw |
| Board.StuckWithoutEnd | frontend/app/page.tsx:280-318 | a stream that closes without an error or `end` event leaves `isLoading` set |
| Board.FindVoteResults | frontend/app/page.tsx:174 | `find` returns exactly the first `vote_results` entry, found iff one comes before any `null` entry; it reports nothing exactly when no entry is `null` or `vote_results` |
| Board.StoredAll | frontend/app/page.tsx:170 | the fetched entries become the list one for one, in order |
| Board.Reconcile | frontend/app/page.tsx:144-189 | a new chat resets to the welcome message with null id and votes; an unavailable fetch, an empty history without an id parameter and a `messages` member that is not an array change nothing; the list changes only for an array; `isLoading`, input, context and phase are never touched |
| Board.HistoryReplacesWholesale | frontend/app/page.tsx:168-177 | a non-empty history replaces the whole list in order and adopts the returned id; the votes become those of the first `vote_results` entry when they are truthy, and stay otherwise or when there is no such entry |
| Board.EmptyHistoryAdoptsParam | frontend/app/page.tsx:178-182 | an empty history with an id parameter gives one `Yeni Tartışma Başlatıldı.` entry and that id |
| Board.Session.constructor | frontend/app/page.tsx:113-141 | the first render: the welcome message, no votes, no id, phase `Hazır`, not loading |
| Board.Session.SetInput | frontend/app/page.tsx:697 | typing changes the input and nothing else |
| Board.Session.SetContext | frontend/app/page.tsx:654-674 | the context panel changes the context and nothing else |
| Board.Session.Dispatch | frontend/app/page.tsx:292-312 | the handler's if-chain updates the fields exactly as `Apply` does |
| Board.Session.HandleSubmit | frontend/app/page.tsx:215-323 | the new state is `Submit` of the old one; a request carrying the augmented input and the current id is sent iff the input is not blank and a token exists |
| Board.Session.Consume | frontend/app/page.tsx:272-322 | with a body, the new state is `Receive` of the old one: typing entries dropped, the events applied, the flag cleared when a read throws |
| Board.Session.Begin | frontend/app/page.tsx:217-241 | the optimistic update: the user message and the placeholder are appended, fields cleared, votes null, loading; it returns the augmented input |
| Board.Session.ReadAll | frontend/app/page.tsx:280-318 | the read loop leaves the state `ApplyAll` of the decoded reads |
| Board.Session.ReadChunk | frontend/app/page.tsx:284-317 | the line loop of one read applies that read's payloads in order |
| Board.Session.LoadHistory | frontend/app/page.tsx:144-189 | the history effect leaves the state `Reconcile` of the old one |
| VoteSummary.Summary | frontend/app/page.tsx:575-590 | one tile per distinct decision, in first-appearance order; each tile carries the number of votes for its decision and that decision's colour; every decision has a tile and every tile a decision with at least one vote |
| VoteSummary.CountsAddUpToVotes | frontend/app/page.tsx:575-577 | the tiles' counts add up to the number of votes |
| VoteSummary.TilesDistinctAndOrdered | frontend/app/page.tsx:575 | no two tiles share a decision, and tiles follow first appearance |
| VoteSummary.BucketRule | frontend/app/page.tsx:581-584 | accept iff the decision contains `KABUL` or `EVET`; reject iff not accept and it contains `RED` or `HAYIR`; neutral otherwise |
| VoteSummary.AcceptWordsWin | frontend/app/page.tsx:582-583 | a decision with an accept word is accept-coloured even if it also has a reject word |
| Tally.Distinct | frontend/app/page.tsx:575 | the distinct decisions have no repeats and are exactly the decisions that occur |
| Tally.DistinctInFirstAppearanceOrder | backend/app/services/ai_service.py:886-889 | the keys of the count dictionary follow first appearance, as Python dictionaries keep insertion order |
| Tally.CountsSumToTotal | backend/app/services/ai_service.py:886-889 | the per-decision counts sum to the number of votes |
| ChatApi.FormatRow | backend/app/api/chat.py:58-76 | a `vote_results` row becomes `{type, votes}` with the parsed content; any other row becomes `{role, content, agentName, type: "message"}` in that order |
| ChatApi.AgentNameRule | backend/app/api/chat.py:60-73 | `agentName` is the row's metadata `agent_name` when present, else the role; null metadata counts as empty |
| ChatApi.FormatRows | backend/app/api/chat.py:56-76 | one entry per row in row order; the loop fails iff some row's content does not parse |
| ChatApi.GetHistory | backend/app/api/chat.py:30-83 | no target conversation or a failing row gives `{"messages": []}`; otherwise every row transformed in order together with the target id |
| ChatApi.Title | backend/app/api/chat.py:157 | the first 50 characters of the message, or `New Debate` for an empty message |
| ChatApi.ResolveConversation | backend/app/api/chat.py:115-168 | a supplied id is used as is; a failed creation gives `null` |
| ChatApi.Frame | backend/app/api/chat.py:183 | a frame starts with `data: `, ends with a blank line, and has no other line feed |
| ChatApi.Frames | backend/app/api/chat.py:170-187 | the meta frame first, one frame per event in order, and an error frame last exactly when the generator raised |
| ChatApi.Generate | backend/app/api/chat.py:170-187 | the generator yields exactly those frames |
| Json.EncodeNoLineFeed | backend/app/api/chat.py:183 | `json.dumps` output never holds a raw line feed, so a frame is one line |
| Tags.ClarAt | backend/app/services/ai_service.py:124 | `[CLARIFICATION:\s*(.+?)\]` at a position: the lazy group's first possible end, after the longest run of spaces that still leaves a match |
| Tags.ParseClarification | backend/app/services/ai_service.py:122-134 | with a tag: the first tag's question stripped, and the response with every tag removed, stripped; without: no question and the response unchanged |
| Tags.QuestionIsOneLine | backend/app/services/ai_service.py:124-126 | the question is taken from the first tag and spans no line feed |
| Tags.ClarificationRemoved | backend/app/services/ai_service.py:128 | with a tag, the clean response is strictly shorter than the response |
| Tags.SubAllUnchangedIff | backend/app/services/ai_service.py:246 | `re.sub` leaves the text unchanged iff the pattern does not occur |
| Tags.ConfAt | backend/app/services/ai_service.py:651 | a match is `[` then `GÜVEN` or `CONFIDENCE` (any case), an optional `:`, spaces, digits, `%]` |
| Tags.ExtractConfidence | backend/app/services/ai_service.py:648-654 | no tag: confidence 50 and the reply unchanged; else the first tag's number and the reply with every tag and its trailing space removed, stripped |
| Tags.ConfidenceOfFirstTag | backend/app/services/ai_service.py:651-654 | the confidence is the value of the first tag's digits, with no clamp |
| Tags.ConfidenceTagRemoved | backend/app/services/ai_service.py:654 | with a tag, the shown text is strictly shorter than the reply |
| Tags.ThinkAt | backend/app/services/ai_service.py:246 | `<think>.*?</think>` with DOTALL ends at the first `</think>` after the opening tag |
| Tags.StripThinkIff | backend/app/services/ai_service.py:246 | with no block, the reply is only stripped; with one, removing the blocks shortens it |
| Prompts.BuildGeminiPrompt | backend/app/services/ai_service.py:208-214 | the loop builds `GeminiPrompt` of the messages |
| Prompts.LineOf | backend/app/services/ai_service.py:210-214 | the text appended for one message is its `GeminiLine`: an instruction line and a blank line for `system`, `User`/`Model` otherwise |
| Prompts.GeminiPromptSnoc | backend/app/services/ai_service.py:209-214 | each message adds its own line to the end of the prompt |
| Prompts.GeminiPromptLines | backend/app/services/ai_service.py:208-214 | for single-line contents, the prompt's lines are the messages' lines in order, with a blank line after each system instruction |
| Prompts.AnthropicSplit | backend/app/services/ai_service.py:229-235 | the system prompt is the last system message's content, and the rest are the non-system messages in order |
| Prompts.LastSystemIsLast | backend/app/services/ai_service.py:231-233 | the system prompt is empty without system messages, else the content of the last one |
| Prompts.NonSystem | backend/app/services/ai_service.py:234-235 | the messages kept are exactly those whose role is not `system` |
| Prompts.NonSystemAppend | backend/app/services/ai_service.py:231-235 | the conversion keeps order: converting two runs is converting each and concatenating |
| Prompts.NonSystemCount | backend/app/services/ai_service.py:234-235 | no kept message is a system message, and a list without system messages is kept whole |
| Prompts.NormalizeUrl | backend/app/services/ai_service.py:57-58 | the URL starts with `http`: unchanged when it already does, `https://` put in front otherwise |
| Prompts.NormalizeIdempotent | backend/app/services/ai_service.py:57-58 | normalising twice is normalising once, and an `http` URL is kept as is |
| Prompts.NonEmpty | backend/app/services/ai_service.py:77 | the chunks kept are exactly the non-empty ones |
| Prompts.NonEmptyAppend | backend/app/services/ai_service.py:77 | filtering keeps the order: the non-empty chunks of two runs are those of each, concatenated |
| Prompts.CleanScrapedText | backend/app/services/ai_service.py:73-79 | a prefix of the joined chunks: all of them when they fit in 4000 characters, exactly the first 4000 otherwise |
| Prompts.CleanTextChunks | backend/app/services/ai_service.py:73-77 | every chunk is non-empty, stripped, without line breaks or double spaces; a page that fits the limit splits back into exactly its chunks |
| Scheduler.Candidate | backend/app/services/ai_service.py:543 | the cyclic search's candidate is a valid index |
| Scheduler.CandidateIsModulo | backend/app/services/ai_service.py:543 | the candidate is `(current + i + 1) % n`, the index the code computes |
| Scheduler.CandidateCovers | backend/app/services/ai_service.py:542-543 | the cyclic search visits every debater |
| Scheduler.FirstUnder | backend/app/services/ai_service.py:542-548 | a debater the cyclic search returns is under the limit |
| Scheduler.FindAvailable | backend/app/services/ai_service.py:539-552 | the first debater under the limit, searching cyclically from the next index, and exactly `FirstUnder` from the first candidate; none iff all are at the limit |
| Scheduler.Chosen | backend/app/services/ai_service.py:536-552 | the debater picked for a proposed index is always under the limit |
| Scheduler.NextSpeaker | backend/app/services/ai_service.py:757-768 | never the current speaker; the first other debater named in the reply; else some other index; none iff there is no other debater |
| Scheduler.ModeratorTurn | backend/app/services/ai_service.py:717 | within five turns, the moderator steps in only after turn index 2 |
| Scheduler.PlayTurn | backend/app/services/ai_service.py:570-768 | one turn by the rules: a failed reply is a notice, uncounted, and passes to the next index; otherwise the confidence tag, the moderator and the next speaker |
| Scheduler.ChooseSpeaker | backend/app/services/ai_service.py:536-552 | exactly `Chosen`: the proposed debater when under the limit, else the first debater under the limit in cyclic order after it; none iff all spoke twice |
| Scheduler.CountsFollow | backend/app/services/ai_service.py:664 | counting only non-failed replies keeps every count equal to the debater's counted replies, within the limit |
| Scheduler.Step | backend/app/services/ai_service.py:536-768 | one pass of the loop body: nobody chosen only when all spoke twice; otherwise the chosen debater plays, and the record stays consistent and in sequence |
| Scheduler.InSequenceEach | backend/app/services/ai_service.py:536-768 | in a record built turn by turn, every turn after the first went to the debater `Chosen` for the index its predecessor proposed, under the counts of the turns before it |
| Scheduler.RunDebate | backend/app/services/ai_service.py:516-768 | at most five turns, the first by debater 0, every later turn by the debater `Chosen` for the index the previous turn proposed under the counts so far (`InSequence`), every turn played by the rules, counts exact and at most 2, and the reason the loop stopped |
| Scheduler.ModeratorOnlyAfterThirdTurn | backend/app/services/ai_service.py:717-753 | the moderator is asked only after turn index 2, and only if that reply counted |
| Scheduler.ThreeDebatersPlayAllTurns | backend/app/services/ai_service.py:523-552 | with at least three debaters whose first three names differ (the board seats five), the loop always plays all five turns |
| Voting.VotingOptions | backend/app/services/ai_service.py:799-807 | the parsed list when it has two items or more, else `KABUL` and `RED`; never fewer than two |
| Voting.OptionTexts | backend/app/services/ai_service.py:809 | the join succeeds iff every option is a string; otherwise it raises at the first non-string |
| Voting.VoteDataIsFirstParsed | backend/app/services/ai_service.py:834-849 | the vote data is the first of two replies that parses, else the default `ÇEKİMSER` vote |
| Voting.ReadVote | backend/app/services/ai_service.py:835-849 | the retry loop computes that vote data |
| Voting.DecisionShape | backend/app/services/ai_service.py:851 | reading succeeds iff the data is an object whose decision is missing or a string; the result is the upper case of that string, `ÇEKİMSER` when missing; a non-object raises the `.get` attribute error |
| Voting.PersonaTitle | backend/app/services/ai_service.py:880 | a prefix of the persona without `:`, ending exactly where the first `:` stands; the whole persona without one |
| Text.SplitFirstEndsAtSeparator | backend/app/services/ai_service.py:880 | the first piece of a split ends just before the first separator |
| Voting.Normalize | backend/app/services/ai_service.py:857-876 | the decision becomes an option or stays as it was, and stays when nothing matches |
| Voting.VoteOfShape | backend/app/services/ai_service.py:851-883 | a vote names its debater and persona title; its decision is the fuzzy normalization of the upper-cased decision, so an option or upper case; its reason is the reply's, `...` when missing; it raises iff the decision does, with the same message |
| Voting.VotesOnePerDebater | backend/app/services/ai_service.py:816-883 | exactly one vote per debater, in debater order, when none raises; otherwise the exception of a debater's vote |
| Voting.VotesIffDecided | backend/app/services/ai_service.py:816-883 | the round completes iff every debater's decision can be read |
| Voting.RaiseStops | backend/app/services/ai_service.py:816-851 | the first exception ends the round; later debaters change nothing |
| Voting.ReadBallot | backend/app/services/ai_service.py:817-883 | the loop body computes debater `d`'s vote |
| Voting.CollectVotes | backend/app/services/ai_service.py:814-883 | the loop computes all votes, or stops at the first exception |
| Voting.CountVotes | backend/app/services/ai_service.py:886-889 | the keys are the distinct decisions in first-appearance order, each with its number of votes |
| Voting.MaxKey | backend/app/services/ai_service.py:891 | a key of maximal count, the first such in key order |
| Voting.FinalHasMostVotes | backend/app/services/ai_service.py:886-891 | `ÇEKİMSER` without votes; otherwise a decision that was cast and has the most votes |
| Voting.TailShape | backend/app/services/ai_service.py:770-951 | the tail raises iff some option is not a string or some decision cannot be read; otherwise `vote_results` comes before the report and `end` is last |
| Voting.LastFrame | backend/app/services/ai_service.py:951 | on the wire the stream ends with the `end` frame, or with the error frame when the tail raised |
| Language.CodeRoundTrip | frontend/lib/LanguageContext.tsx:29-37 | a saved code reads back as the language saved, and only `tr` and `en` read back |
| Language.InitialLanguage | frontend/lib/LanguageContext.tsx:29-31 | the saved preference when it is exactly `tr` or `en`, else the current language |
| Language.InitialLanguageAdopts | frontend/lib/LanguageContext.tsx:29-31 | the language changes only to the stored one, and a saved language is restored |
| Language.ToggleInvolution | frontend/lib/LanguageContext.tsx:78 | the switcher always changes the language, and switching twice restores it |
| Language.WalkAppend | frontend/lib/LanguageContext.tsx:45-52 | following a path in two parts is following the first part, then the second from where it ended |
| Language.TranslateOutcomes | frontend/lib/LanguageContext.tsx:41-54 | the string at the end of the path; the key when a segment is missing or a step meets a non-object; the key when the path ends at a non-string |
| Language.NestedKeyFound | frontend/lib/LanguageContext.tsx:41-54 | `group.name` finds the string stored under `name` inside `group` |
| Language.MissingKeyFallsBack | frontend/lib/LanguageContext.tsx:46-50 | a key whose first segment is missing comes back unchanged |
| Language.LanguageProvider.constructor | frontend/lib/LanguageContext.tsx:25 | the provider starts in Turkish |
| Language.LanguageProvider.Mount | frontend/lib/LanguageContext.tsx:27-33 | the mount effect adopts a valid stored preference and nothing else |
| Language.LanguageProvider.SetLanguage | frontend/lib/LanguageContext.tsx:35-38 | the language is set and its code stored |
| Language.LanguageProvider.Switch | frontend/lib/LanguageContext.tsx:78 | the switcher sets the other language and stores it |
| Language.LanguageProvider.T | frontend/lib/LanguageContext.tsx:41-55 | the segment loop returns `Translate` of the current dictionary |
| Language.PreferenceSurvivesReload | frontend/lib/LanguageContext.tsx:25-38 | a language set before a reload is the one the next provider starts in |

## Left out

- Calls to models, search, scraping, the database and the vector memory are left out. These include `generate_response`, the DuckDuckGo search, `requests` and BeautifulSoup, Supabase, `save_to_db`, `search_memory_vector` and `save_memory_vector`. Their results are parameters: `reply`, `moderator`, `ask`, `report`, `loads` and the history store.
- The side prompts of the turn loop are left out: contradiction detection and the one-sentence argument summary, both catching their own exceptions. The summary only feeds later prompts. A contradiction check that starts with `ÇELİŞKİ:` also sends and saves a visible `Sistem` message event (`🔍 **Çelişki Tespit Edildi!** <name>: <text>`) after the debater's message and before the moderator step; that event is not modelled, so the turn events of the model lack it.
- The events before the turn loop are left out: the vision, search, website and memory messages. So are each turn's `typing` event and the contents of prompts.
- `asyncio.sleep`, the async generator, the `ReadableStream` reader and `TextDecoder` are left out. Reads are modelled as already-decoded strings, so a multibyte character split across two reads is not modelled.
- The `difflib` similarity ratio and the 0.4 threshold are the abstract `fuzzy`, because they rest on floating-point ratios. The unused `Math.round` percentage is left out.
- `random.choice` is modelled as a nondeterministic pick of another index. `datetime.now()` and `random.randint` are left out.
- `Text.Upper` maps ASCII, Latin-1, Latin Extended-A, basic Greek and basic Cyrillic letters as Python's `str.upper()` does, one character to one. Letters of other scripts are kept as they are, and special casing, where one character becomes several (`ß` → `SS`, `ŉ`, `ΐ`), is not modelled.
- `\d` in the tag patterns is modelled over the ASCII digits only; Python's `re` also matches the other Unicode decimal digits. `\s` is the full set of characters `str.isspace` accepts.
- JSON numbers are integers only (`Json.JNum`). Floating-point values, and the `float found` message `", ".join` would give for one, are not modelled.
- `Board.Reconcile`: a `messages` member that is not an array is treated as absent. In the browser, a value with a truthy `length` (a non-empty string, or an object with such a member) is stored as the message list and `conversation_id` is adopted before `.find` throws; an object whose `length` is `0` takes the empty-history branch, so with an id parameter the list becomes the single `Yeni Tartışma Başlatıldı.` entry and the parameter's id is adopted. Neither case is modelled.
- The regular expressions are modelled for the three patterns used, not as a general engine.
- `localStorage` is the field `saved`, and `console.warn` / `console.error` are left out.
- `t` models the own members of objects and the indices of arrays. Inherited JavaScript properties (`toString`, `length`, …) are left out: following one never ends at a string, so `t` still returns the key.
- JIT organisation provisioning and the profile and latest-conversation queries are modelled by their outcome, `ChatApi.Store`, and not by their queries.
- Two branches are left out because they are dead:
  - the turn loop's `turn >= 5` early exit, because `turn` never reaches 5 in `range(5)`;
  - the report's `except` branch, because the model call catches its own exceptions.
- The persona list (`get_debaters`), React rendering, the modal, image upload, the sidebar and the other pages are UI or configuration and are not part of this model.
