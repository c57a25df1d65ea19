# Lattice runtime: a verified model

This project models the parts of the `lattice` agent runtime whose behaviour is hardest to see from
one function at a time, and proves what the parts promise together. One Dafny module stands for each
source component; objects that the source mutates are classes, loops are loops, and every method is
proved against a specification function about which the lemmas speak. For every operation there are lemmas
that tell its meaning in other terms than that function, case by case or for whole inputs.

* **Streaming** (`SseFraming`, `SseWire`, `SseFields`, `SseStream`, `SseChunking`, `OpenAiParser`,
  `AnthropicParser`, `GeminiParser`, `StreamEvents`, `IndexMap`, `ChatComplete`, `StreamContents`,
  `ToolCallReassembly`, `OpenAiReassembly`, `AnthropicReassembly`, `GeminiReassembly`). A carry-over buffer is cut at blank lines and feeds a stateful
  provider parser. `ChunkingDoesNotMatter` says that chunk boundaries, even between a carriage return and its
  line feed, change neither the events nor the state of the parser, and `BodyErrorsOnlyInterleave` that errors
  of the response body do not either. For each provider a last theorem goes from response text of any length
  in arbitrary chunks to the text and the whole tool calls of the collected response, and `StreamedContents`
  to its reasoning, finish reason and usage. `BlockIsRead` says what the lines of an event mean.
* **Pipelines** (`HandoffTarget`, `HandoffPath`, `HandoffRules`, `AgentGraph`, `CycleSearch`, `DryRun`,
  `ForkJoin`, `PipelineRun`, `PipelineTurns`). The static check of the handoff graph is proved exact, and
  `ValidDryRunProtectsEveryRun` says what a valid check guarantees about every later run, whatever the
  agents answer and whatever fails. `RunIsItsTurns` and the lemmas beside it say what each turn does.
* **Conversations** (`Conversation`, `AgentState`, `AgentLoop`, `AgentTurns`, `AnsweredCalls`, `AnthropicTransport`).
  Trimming, snapshots, retries and tool calls, with the invariant that every tool result directly follows the
  call it answers, kept by every run and by the translation to the Anthropic wire shape, and exactly when,
  the other way round, every call is answered. `TurnAnswersCalls` says with what.
* **Prompt budget** (`PromptBudget`). Conservation and monotonicity of the three-pass allocator, and the
  stable sort in front of it.
* **Globs and routing** (`SensitivePaths`, `Credentials`, `Router`). A greedy matcher against the meaning
  of a glob, and provider selection with its credential cache against a declarative choice.

`Text` holds the string operations borrowed from Rust's standard library.

Where the code and its comments differ, the model follows the code:

* `can_reach_self` is described as finding agents that can reach themselves. It answers whether some cycle
  can be reached, or some agent from which two targets lead to the same unregistered agent
  (`SearchFindsCycles` says so exactly, `DanglingLooksCircular` shows a wrong answer). The verdict `valid` is
  exact all the same.
* `trim_messages` can leave fewer than two non-system messages, because results are removed with their call
  (`NothingIsLeft`); `TrimLeavesFewerThanTwo` says exactly when. It then makes up a source when nothing at all
  is left; `TrimLosesSources` says exactly when.
* A fork goes where its first branch *with a next target* says, not where its first result says
  (`SecondResultDecides`); `FirstResultDecides` says exactly when that is the same.
* A call that a stream starts after its last `Done` is recorded but neither executed nor answered, and the loop
  goes on (`LateCallIsNotAnswered`); `TurnAnswersAll` says exactly when all calls are answered.
* A fragment of a tool call that comes after a finish reason is lost (`LateFragmentIsLost`);
  `NoFragmentIsLost` says exactly when none is.
* Multiple data lines are joined, but leading empty ones are lost (`LeadingEmptyLineIsLost`), and the size
  limit does not count the last separator. `WireCarries` says exactly which events survive the wire format.
* The credential cache is keyed by the sorted and joined variable names. That confuses names that are empty or
  contain commas (`EmptyNamesCollide`, `CommasCollide`), and entries that list the same names in different
  orders (`OrdersCollide`). `SharingTellsPresence` says exactly when two entries that share a key agree on
  whether there is a credential, `SharingIsSafe` exactly when they have the same one.
* The pattern matcher is used as a glob but lets neighbouring parts overlap (`OverlapIsAccepted`,
  `MiddleOverlapIsAccepted`); `MatchesWithRoom` says exactly when what is accepted matches.
* The framing differs from sections 9.2.5 and 9.2.6 of the WHATWG HTML Living Standard on purpose: values are
  trimmed on both sides, and events without data are reported.

## Model

| member | source | states |
|---|---|---|
| SseFraming.ParseRawSse | lattice/src/core/streaming/mod.rs:112-169 | The line loop yields the first 10000 events of the text's complete scan, with the size limit on data and the id rules of the code |
| SseFraming.LinesAppend | lattice/src/core/streaming/mod.rs:118 | Splitting into lines distributes over a line feed |
| SseFraming.CrBeforeLf | lattice/src/core/streaming/mod.rs:197-198 | Dropping a carriage return in front of a line feed anywhere leaves the scan from any state unchanged |
| SseFraming.NormaliseAnywhere | lattice/src/core/streaming/mod.rs:197-198 | Normalising CRLF in any piece of a text, wherever cut, leaves the events of the text unchanged |
| SseFraming.SplitAtBlankLine | lattice/src/core/streaming/mod.rs:118-138 | A blank line cuts a text into two parts whose frames, parsed separately, concatenate to the frames of the whole |
| SseFraming.OnLineIgnoresCr | lattice/src/core/streaming/mod.rs:119-156 | No use of a line depends on a carriage return at its end |
| SseWire.ParsePrinted | lattice/src/core/streaming/mod.rs:94-108 | Parsing what the documented wire format prints gives back all printable events, in order, ids included |
| SseWire.ParsedIsPrintable | lattice/src/core/streaming/mod.rs:112-169 | Whatever the text, every event parsed from it is printable |
| SseWire.WireCarries | lattice/src/core/streaming/mod.rs:94-169 | Printing and parsing gives events back if and only if all of them are printable |
| SseWire.LeadingEmptyLineIsLost | lattice/src/core/streaming/mod.rs:151-154 | An empty line in front of the data is lost, and nothing else of the event |
| SseWire.ScanAllData | lattice/src/core/streaming/mod.rs:139-154 | The data lines of an event are joined back to the data they were printed from |
| SseFields.BlockIsRead | lattice/src/core/streaming/mod.rs:118-158 | Lines up to a blank one, in any order and with anything in between: the event has the last type, all data joined, and the last id, all without the white space around them, or there is no event and the id is kept; what follows is read as if it came first |
| SseFields.LastBlockIsRead | lattice/src/core/streaming/mod.rs:160-167 | The end of the text ends a block as well |
| SseFields.OversizedDataIsDropped | lattice/src/core/streaming/mod.rs:139-150 | A data line that exceeds the limit takes type and data with it and leaves the id |
| SseFields.IgnoredLineChangesNothing | lattice/src/core/streaming/mod.rs:119-158 | A line that is no field, a comment or `retry:`, changes no event wherever it stands |
| SseFields.FieldsAreRead | lattice/src/core/streaming/mod.rs:137-156 | Each field alone, with or without white space after the colon |
| SseStream.FindsFirst | lattice/src/core/streaming/mod.rs:218-233 | The position found is a blank line and no blank line comes before it; nothing is found only if there is none |
| SseStream.Cut | lattice/src/core/streaming/mod.rs:233-246 | What remains after cutting contains no blank-line delimiter |
| SseStream.SseStream.constructor | lattice/src/core/streaming/mod.rs:185-186 | A fresh stream has an empty, valid buffer |
| SseStream.SseStream.FeedParser | lattice/src/core/streaming/mod.rs:237-244 | Feeding a piece drives the provider parser through the frames of its one-shot parse, errors as events |
| SseStream.SseStream.FeedSegments | lattice/src/core/streaming/mod.rs:233-246 | The delimiter loop drives the parser through every complete segment in order and keeps the rest |
| SseStream.SseStream.Feed | lattice/src/core/streaming/mod.rs:188-278 | For every item: the buffer stays free of delimiters and within its size limit, and state and events are those of the specification, including both overflow branches, body errors and the end flush |
| SseStream.DriveAppend | lattice/src/core/streaming/mod.rs:237-244 | Driving a parser through two lists of frames one after the other is driving it through their concatenation |
| SseChunking.CutAppend | lattice/src/core/streaming/mod.rs:198-246 | Cutting commutes with appending more text to what was left |
| SseChunking.RunIsDrive | lattice/src/core/streaming/mod.rs:188-246 | After any chunks the buffer is the unfinished rest of everything received and the parser has seen exactly the finished part |
| SseChunking.RunToEndIsDrive | lattice/src/core/streaming/mod.rs:188-275 | With the end flush the parser has seen all of it and the buffer is empty |
| SseChunking.PiecesKeepFrames | lattice/src/core/streaming/mod.rs:112-169 | The frames of the pieces and the rest are the frames of the whole text |
| SseChunking.DeliveredFrames | lattice/src/core/streaming/mod.rs:112-278 | For any chunks, the delivered frames equal the one-shot parse of the whole text if and only if they are no more than one parse may report |
| SseChunking.WholeTextArrives | lattice/src/core/streaming/mod.rs:112-278 | However many events there are, exactly the frames of the whole text are delivered if and only if no piece between two blank lines has more events than one parse may report |
| SseChunking.ChunkingDoesNotMatter | lattice/src/core/streaming/mod.rs:112-278 | For every text, split and provider parser: events and final parser state are those of feeding all events of the whole text at once, and of its one-shot parse as long as that may report them all |
| SseChunking.BodyErrorsOnlyInterleave | lattice/src/core/streaming/mod.rs:188-201 | Errors of the response body between chunks add their own error events in their places and change neither the events of the chunks nor the parser nor the buffer |
| SseChunking.BodyErrorsLoseNothing | lattice/src/core/streaming/mod.rs:188-275 | With any body errors in between, the events of chunks and flush and the final parser state are those of the whole text |
| SseChunking.ParsersAreGivenTheSame | lattice/src/core/streaming/mod.rs:188-275 | For any chunks, overflowing or not, every parser is driven through the same frames and the buffer ends empty |
| SseChunking.OverflowShows | lattice/src/core/streaming/mod.rs:203-260 | For a parser that reports no overflow itself, a run outgrows the buffer if and only if one of the two overflow errors is among its events |
| SseChunking.OversizedEventIsForced | lattice/src/core/streaming/mod.rs:218-231 | An unfinished event that outgrows the buffer is parsed as it is, and the error and an empty buffer are left |
| SseChunking.OversizedRestIsDiscarded | lattice/src/core/streaming/mod.rs:233-256 | Complete events are handled even when what follows them outgrows the buffer; only that is discarded |
| SseChunking.ChunkingMattersBeyondLimits | lattice/src/core/streaming/mod.rs:112-278 | For a parser that remembers its frames chunking does not matter if and only if nothing overflows and the event limit is kept: both conditions are needed |
| StreamEvents.StateOfId | lattice/src/core/streaming/mod.rs:47-71 | In a bracketed stream with fresh starts an id is open at most once, was started, and has not ended while open |
| StreamEvents.OneLifePerId | lattice/src/core/streaming/mod.rs:47-71 | Nothing about a call precedes its start and nothing follows its end |
| IndexMap.InsertHeld | lattice/src/core/streaming/openai.rs:85 | Inserting adds the new id; a key in use loses its old one |
| IndexMap.KeysStayDistinct | lattice/src/core/streaming/anthropic.rs:83 | Insertion and removal keep one entry per key |
| OpenAiParser.OpenAiSseParser.ParseToolCalls | lattice/src/core/streaming/openai.rs:79-103 | The loop over tool-call deltas leaves the ids and events of the specification |
| OpenAiParser.OpenAiSseParser.ParseChoice | lattice/src/core/streaming/openai.rs:57-122 | One choice: text, tool calls, then on a finish reason an end for every remembered call and a Done |
| OpenAiParser.OpenAiSseParser.ParseChunk | lattice/src/core/streaming/openai.rs:34-127 | One message: sentinel, malformed JSON, API error or choices, with the ids left behind |
| OpenAiParser.LifecycleHolds | lattice/src/core/streaming/openai.rs:79-109 | Over any frames every fragment and end names an open call; the open calls are those remembered plus those displaced by reopening an index |
| OpenAiParser.CallsLiveOnce | lattice/src/core/streaming/openai.rs:79-109 | With fresh ids each call sees its start, then fragments, then at most one end |
| OpenAiParser.FinishClosesCalls | lattice/src/core/streaming/openai.rs:105-122 | After a finish nothing is remembered and no call is open but those displaced by reopening an index |
| AnthropicParser.AnthropicSseParser.ParseChunk | lattice/src/core/streaming/anthropic.rs:58-163 | One event of each kind: state and events of the specification, with one entry per block index kept |
| AnthropicParser.LifecycleHolds | lattice/src/core/streaming/anthropic.rs:76-135 | Over any frames fragments and ends name open calls; the open calls are those remembered plus those displaced |
| AnthropicParser.CallsLiveOnce | lattice/src/core/streaming/anthropic.rs:76-135 | With fresh ids each call sees its start, then fragments, then at most one end |
| AnthropicParser.StopClosesCall | lattice/src/core/streaming/anthropic.rs:128-135 | A block stop ends the call of its block, if any: it is no longer open and its index is free |
| GeminiParser.GeminiSseParser.ParseParts | lattice/src/core/streaming/gemini.rs:96-139 | The loop over parts yields thoughts, text and whole calls under generated ids |
| GeminiParser.GeminiSseParser.ParseChunk | lattice/src/core/streaming/gemini.rs:58-204 | One chunk: parts, drain and Done on a finish reason, or a fallback Done on usage alone |
| GeminiParser.CallIdsDiffer | lattice/src/core/streaming/gemini.rs:121-124 | Generated ids are equal only for equal counters, whatever the function names |
| GeminiParser.RunsAreWellBehaved | lattice/src/core/streaming/gemini.rs:58-204 | Over any chunks ids are distinct, a call's arguments follow its start, calls end in the order they started, and none ends without a start |
| GeminiParser.OneDonePerResponse | lattice/src/core/streaming/gemini.rs:142-201 | A response yields exactly one Done if it has a finish reason or usage and none otherwise; a finish reason leaves no call waiting |
| GeminiParser.EndsAtNextFinish | lattice/src/core/streaming/gemini.rs:58-204 | A call started in some chunk is ended exactly once, in the next chunk with a finish reason, and in no other chunk |
| ChatComplete.ChatComplete | lattice/src/core/invocation.rs:254-360 | The event loop computes the specified outcome, including what is kept when a stream breaks |
| ChatComplete.ResponseIsComplete | lattice/src/core/invocation.rs:260-360 | Without errors the response holds all text and reasoning in order, exactly the calls built, and the reason and usage of the last Done |
| ChatComplete.ErrorEndsCollecting | lattice/src/core/invocation.rs:293-326 | An error ends the loop with exactly what the events before it brought, whatever would have followed |
| ChatComplete.FailsIffNothingWasCollected | lattice/src/core/invocation.rs:293-326 | The request fails if and only if an error arrives before any text and any tool call |
| ChatComplete.BrokenStreamIsKept | lattice/src/core/invocation.rs:293-313 | What breaks after some text or call is a response with all text, reasoning, calls and the last usage before the error; its reason is the last one, or "stream_lost" where there was none and the message does not say that the stream ended |
| ChatComplete.BrokenStreamFails | lattice/src/core/invocation.rs:293-326 | What breaks before is an unreachable provider exactly for the five phrases, else a failed stream |
| StreamContents.ContentsDecide | lattice/src/core/invocation.rs:260-291 | The events that are not about single calls decide text, reasoning, finish reason, usage and failure |
| StreamContents.OpenAiContents | lattice/src/core/streaming/openai.rs:34-127 | They are, frame by frame: reasoning, text and the end of each choice with the usage of its chunk, and an error for each that is one or cannot be read |
| StreamContents.AnthropicContents | lattice/src/core/streaming/anthropic.rs:58-163 | The same for Anthropic: text and thinking deltas, mapped stop reason, usage with the input tokens told at the start of the message and a total modulo 2^32 |
| StreamContents.StopReasons | lattice/src/core/streaming/anthropic.rs:17-24 | The four reasons that are mapped; others stay |
| StreamContents.GeminiContents | lattice/src/core/streaming/gemini.rs:58-204 | The same for Gemini: one end per response with a finish reason or usage, told as tool calls where calls came since the last finish reason |
| StreamContents.PartInOrder | lattice/src/core/streaming/gemini.rs:96-136 | A part tells its text before its call |
| StreamContents.FinishReasons | lattice/src/core/streaming/gemini.rs:40-48 | The four reasons that are mapped, in any case; others are unknown |
| StreamContents.StreamedContents | lattice/src/core/invocation.rs:247-360 | From response text in any chunks to the text, reasoning, finish reason and usage of the collected response |
| ToolCallReassembly.DeltasReassemble | lattice/src/core/streaming/openai.rs:79-103 | For any interleaving, each call gets its id, name and the in-order concatenation of its own fragments |
| OpenAiReassembly.FramesCalls | lattice/src/core/streaming/openai.rs:34-127 | For the calls only the tool-call deltas of a stream matter, wherever they sit, and the finish reasons between them: what starts and extends calls is what each stretch between two of them gives alone |
| OpenAiReassembly.StretchesReassemble | lattice/src/core/streaming/openai.rs:79-109 | Stretches that open each index once and share no id build together, for each opener, its name and the fragments of its index in its stretch, and nothing else |
| OpenAiReassembly.NoFragmentIsLost | lattice/src/core/streaming/openai.rs:79-109 | In any stream of completion chunks no argument text is lost if and only if every fragment follows the opener of its index with no finish reason in between |
| OpenAiReassembly.LateFragmentIsLost | lattice/src/core/streaming/openai.rs:93-109 | A fragment after a finish reason is lost, although its call was opened before |
| OpenAiReassembly.ChoiceInOrder | lattice/src/core/streaming/openai.rs:57-122 | A choice tells reasoning and text, then its calls, then an end for each open call in the order of their opening, then Done |
| OpenAiReassembly.FramesText | lattice/src/core/streaming/openai.rs:57-78 | The tokens of a stream are the content fields of its choices in order |
| OpenAiReassembly.FramesReassemble | lattice/src/core/invocation.rs:247-360 | A well-formed stream, with calls opened before or after a finish reason, is collected to exactly the text and the tool calls it describes |
| OpenAiReassembly.StreamedToolCallsReassemble | lattice/src/core/invocation.rs:247-360 | The same from response text of any length in any chunks, through the SSE stream and the parser, to the collected response |
| AnthropicReassembly.FramesCalls | lattice/src/core/streaming/anthropic.rs:76-135 | Until a stopped block is mentioned again, the calls built are those the same deltas build with the OpenAI parser |
| AnthropicReassembly.StreamedToolCallsReassemble | lattice/src/core/invocation.rs:247-360 | A well-formed Anthropic stream in any chunks is collected to exactly its text and its calls with their fragments in order |
| GeminiReassembly.NumberedIsCollected | lattice/src/core/streaming/gemini.rs:113-136 | Calls numbered in order keep distinct ids, and each keeps its name and arguments |
| GeminiReassembly.StreamedCallsReassemble | lattice/src/core/invocation.rs:247-360 | A clean Gemini stream in any chunks is collected to exactly the text and the function calls of its parts |
| HandoffTarget.ParseFork | lattice/src/core/handoff.rs:26-46 | Printed names are read back in order, the first ten of them |
| HandoffTarget.ParseIsCanonical | lattice/src/core/handoff.rs:26-46 | Parsing yields trimmed, non-empty, comma-free names, at most ten |
| HandoffTarget.ParseDisplay | lattice/src/core/handoff.rs:15-46 | Every target parsing can produce is read back from its own text |
| HandoffTarget.ParsePrintParse | lattice/src/core/handoff.rs:15-46 | Parse, print, parse equals parse, for every string |
| HandoffPath.ParsePath | lattice/src/core/handoff.rs:224-257 | The character loop computes the segments of the recursive scan |
| HandoffPath.ScanIsExpressible | lattice/src/core/handoff.rs:224-257 | Parsed keys are non-empty and free of separators, indices fit in 64 bits |
| HandoffPath.ParseRebuild | lattice/src/core/handoff.rs:270-284 | Printing expressible segments and parsing them gives them back |
| HandoffPath.ParseRebuildParse | lattice/src/core/handoff.rs:224-284 | Parse, print, parse equals parse, for every string |
| HandoffPath.BracketsAreRead | lattice/src/core/handoff.rs:224-257 | A bracket with a position or the wildcard is that segment, any other is dropped, and what is around it stays |
| HandoffPath.PositionsAreNumbers | lattice/src/core/handoff.rs:238-246 | A position is a decimal number within 64 bits, with or without a plus sign |
| HandoffRules.ResolveField | lattice/src/core/handoff.rs:198-216 | Following a path stops at a wildcard, at a missing child and at depth 50 |
| HandoffRules.FirstAnyIs | lattice/src/core/handoff.rs:259-264 | The position found holds the first wildcard |
| HandoffRules.FirstRuleDecides | lattice/src/core/handoff.rs:113-118 | The target of the first applying rule, or none |
| HandoffRules.FirstApplyingIs | lattice/src/core/handoff.rs:113-118 | That rule applies and no rule before it does |
| HandoffRules.PlainConditionHolds | lattice/src/core/handoff.rs:132 | Without a wildcard a condition holds if and only if the path, within 50 segments, leads to a value that satisfies the operator |
| HandoffRules.ListsOfConditions | lattice/src/core/handoff.rs:103-108 | One condition more makes `all` hold less and `any` more often; lists of one are that condition, empty ones never hold |
| HandoffRules.RuleOfPrecedence | lattice/src/core/handoff.rs:96-110 | Default, then the condition, then all, then any decides; a rule with none never applies |
| HandoffRules.WalkIsFollow | lattice/src/core/handoff.rs:198-216 | The depth limit makes paths that are too deep resolve to nothing, and changes nothing else |
| HandoffRules.ResolveWithIndex | lattice/src/core/handoff.rs:198-284 | A printed path with a position in place of the wildcard resolves as the printed rest does below that element |
| HandoffRules.AnyMeansSomeIndex | lattice/src/core/handoff.rs:120-133 | A wildcard condition holds if and only if the prefix is an array and some concrete position makes the same path satisfy the operator |
| HandoffRules.AnyMeansSomeIndexIff | lattice/src/core/handoff.rs:120-133 | For paths of any depth that equivalence holds for all operators and outputs if and only if the path with a position is within the depth limit or one of its parts is too deep alone |
| AgentGraph.ReachesTransitive | lattice/src/bus/pipeline.rs:732-822 | Reachability in the handoff graph composes |
| CycleSearch.CanReachSelf | lattice/src/bus/pipeline.rs:825-850 | The recursion with one shared, mutated set computes the specified search and terminates |
| CycleSearch.SearchIsExact | lattice/src/bus/pipeline.rs:825-850 | For any registry, agent and path: the search succeeds if and only if a walk comes back to itself or the path, or two targets meet at an unregistered agent; failed, it adds exactly the unregistered agents to the path |
| CycleSearch.SearchFindsCycles | lattice/src/bus/pipeline.rs:825-850 | Started on its own it answers whether a cycle, or two ways to an unregistered agent, can be reached |
| CycleSearch.DanglingLooksCircular | lattice/src/bus/pipeline.rs:829-833 | With a dangling target named twice it reports a cycle where there is none |
| DryRun.EnqueueTargets | lattice/src/bus/pipeline.rs:759-787 | Registered targets are queued unless visited; an issue is added if and only if one is missing |
| DryRun.Visit | lattice/src/bus/pipeline.rs:757-787 | The same for all rules and the fallback of an agent, with one kind of issue for each place |
| DryRun.Traverse | lattice/src/bus/pipeline.rs:732-801 | The breadth-first traversal lists exactly the reachable registered agents once, reports exactly the targets and the start that are not registered, and an end if and only if one is reachable |
| DryRun.Run | lattice/src/bus/pipeline.rs:732-822 | The report is valid if and only if nothing reachable dangles, no cycle is reachable, an end is, and fewer than 100 agents are; `circular` is set if and only if a cycle or two ways to an unregistered agent can be reached; the issues are exactly the unregistered start, the unregistered targets with their places, the agents that reach a cycle or such two ways, and the chain that is too long |
| DryRun.EndMeans | lattice/src/bus/pipeline.rs:789-799 | An end is an agent without a fallback of which no rule has a target |
| ForkJoin.RunFork | lattice/src/bus/pipeline.rs:624-667 | The join loop computes the specified results, errors and skips |
| ForkJoin.JoinAccounts | lattice/src/bus/pipeline.rs:624-667 | Up to the first hard failure each branch is in exactly one of results or skipped, in target order; errors are those of the skipped branches and, last, the hard one |
| ForkJoin.ResultsFollowTargets | lattice/src/bus/pipeline.rs:624-667 | The names of the results are a subsequence of the targets, in target order |
| ForkJoin.MergeForkOutputs | lattice/src/bus/pipeline.rs:670-676 | The loop builds the merged object |
| ForkJoin.MergedByName | lattice/src/bus/pipeline.rs:670-676 | Its keys are exactly the result names, and distinct names keep their outputs |
| ForkJoin.ForkMergesWithoutLoss | lattice/src/bus/pipeline.rs:624-676 | With distinct targets the merged object has one key per result, exactly the result names, and every output |
| PipelineTurns.FailureIsHandled | lattice/src/bus/pipeline.rs:349-384 | After a failed call or resolution the run advances, with the same input, if and only if the agent may be skipped and the first agent of its fallback is registered, and halts otherwise; one error, and a skip exactly for agents that may be skipped |
| PipelineTurns.MissingPartsHalt | lattice/src/bus/pipeline.rs:148-200 | An unregistered agent, or plugins without a registry, halt the run with one error |
| PipelineTurns.AnswerIsRouted | lattice/src/bus/pipeline.rs:388-440 | An answer is recorded with its target; without one the chain ends, and a single target gets the output |
| PipelineTurns.EndsEndTheChain | lattice/src/bus/pipeline.rs:388-495 | Such an agent does end the chain, whatever it answers |
| PipelineTurns.ForkIsRouted | lattice/src/bus/pipeline.rs:441-495 | A fork records what its branches bring; the merged outputs go where the first result with a target says, else to the fallback; without results the chain ends with an error |
| PipelineTurns.BranchTells | lattice/src/bus/pipeline.rs:540-660 | What becomes of one branch, and that only a failing call of a skippable agent may be skipped |
| PipelineTurns.MergedKeepsTheLast | lattice/src/bus/pipeline.rs:670-676 | Of several outputs under one name the merged object has the last |
| PipelineTurns.RunIsItsTurns | lattice/src/bus/pipeline.rs:138-319 | A run is its turns, each starting where the one before went; the log is theirs in order, and the last turn decides how the run ends |
| PipelineRun.Pipeline.OnError | lattice/src/bus/pipeline.rs:349-384 | After an error: skip to a registered fallback or halt, with the errors and skips recorded |
| PipelineRun.Pipeline.AfterSuccess | lattice/src/bus/pipeline.rs:388-495 | After an answer: the next agent by rules, fallback or joined fork, with everything recorded |
| PipelineRun.Pipeline.TakeTurn | lattice/src/bus/pipeline.rs:147-298 | One iteration: registry lookup, resolution, plugin check, call and routing |
| PipelineRun.Pipeline.Run | lattice/src/bus/pipeline.rs:138-319 | The loop computes the specified run, for every world of outcomes |
| PipelineRun.AdvanceFollowsEdges | lattice/src/bus/pipeline.rs:349-495 | Every step follows one edge of the handoff graph, or two through a fork branch |
| PipelineRun.FirstResultDecides | lattice/src/bus/pipeline.rs:463-483 | A fork goes where its first result says if and only if that has a next target or no result has one |
| PipelineRun.SecondResultDecides | lattice/src/bus/pipeline.rs:463-483 | Two successful branches, the first without a next target: the fork goes where the second says |
| PipelineRun.TurnMissesNoAgent | lattice/src/bus/pipeline.rs:148-158 | Where nothing dangles no turn reports a missing agent, in the main chain or in a fork |
| PipelineRun.RunMissesNoAgent | lattice/src/bus/pipeline.rs:147-302 | Where nothing dangles no run reports a missing agent, cycles or not |
| PipelineRun.ChainIsDistinct | lattice/src/bus/pipeline.rs:147-302 | Where no cycle is reachable no agent of the main chain comes twice, whether or not something dangles |
| PipelineRun.ExhaustedMeansFull | lattice/src/bus/pipeline.rs:147-302 | Running out of iterations takes one agent for each of them and one more |
| PipelineRun.CalledAreReached | lattice/src/bus/pipeline.rs:147-302 | Every agent a run calls, in the main chain or in a fork, is reachable |
| PipelineRun.ValidDryRunProtectsEveryRun | lattice/src/bus/pipeline.rs:138-882 | After a valid dry run, in every world: no agent is missing, none of the main chain runs twice, only reported agents are called, fork branches included, and with enough iterations the run never runs out of them |
| PipelineRun.OnlyReportedNamesAppear | lattice/src/bus/pipeline.rs:138-882 | And every name in the results, errors and skips is a reported one, but for that of panicked branches |
| Conversation.WellPairedMeans | lattice/src/agent/state.rs:155-185 | Paired means: each tool message follows, with only tool messages in between, an assistant whose calls contain its id under its name |
| Conversation.WithoutSystemIsPaired | lattice/src/agent/state.rs:222-227 | Dropping system messages keeps results paired |
| AgentState.FirstWithRole | lattice/src/agent/state.rs:41-63 | The first message with a role at or after a position |
| AgentState.AgentState.PushSystemMessage | lattice/src/agent/state.rs:41-63 | Replaces the first system message's content or inserts one in front; all else unchanged |
| AgentState.AgentState.PushUserMessage | lattice/src/agent/state.rs:65-75 | Appends a user message and its source |
| AgentState.AgentState.UpsertUserMessageFrom | lattice/src/agent/state.rs:115-126 | Replaces the first user message from a position on, or appends one |
| AgentState.AgentState.PushAssistantMessage | lattice/src/agent/state.rs:128-153 | Appends the message and records the names of its calls |
| AgentState.AgentState.PushToolResultMessage | lattice/src/agent/state.rs:155-185 | Appends the shortened, wrapped result under the recorded name |
| AgentState.AgentState.AddTokenUsage | lattice/src/agent/state.rs:202-204 | Adds to the usage and changes nothing else |
| AgentState.Utf8PrefixIsLongest | lattice/src/agent/state.rs:155-170 | A shortened result is the longest prefix of whole characters within the byte limit |
| AgentState.AgentState.TakeSnapshot | lattice/src/agent/state.rs:85-92 | Captures everything that changes |
| AgentState.AgentState.Restore | lattice/src/agent/state.rs:94-99 | Puts all of it back |
| AgentState.AgentState.DropOldest | lattice/src/agent/state.rs:242-272 | The loops with the running total stop at the earliest allowed cut that leaves little enough; the total always equals the recomputed sum, so no subtraction saturates |
| AgentState.AgentState.TrimMessages | lattice/src/agent/state.rs:210-294 | The new state is that of the trim specification, sources included |
| AgentState.EarliestCutIs | lattice/src/agent/state.rs:238-272 | The cut is allowed, leaves at most two messages or a total within budget, and no earlier cut does |
| AgentState.AllowedCutMeans | lattice/src/agent/state.rs:229-272 | A cut is allowed if and only if it leaves no orphaned result at the start and parts no result from its calls |
| AgentState.TrimKeepsTheRecent | lattice/src/agent/state.rs:210-278 | Every system message stays, in front, followed by a suffix of the others that fits or is at most two long |
| AgentState.TrimKeepsPaired | lattice/src/agent/state.rs:210-278 | Trimming keeps tool results paired |
| AgentState.TrimIsIdempotent | lattice/src/agent/state.rs:210-294 | Trimming a well-paired history twice is trimming it once |
| AgentState.TrimLeavesFewerThanTwo | lattice/src/agent/state.rs:253-272 | Of a well-paired history with more than two messages besides the system ones, fewer than two are left if and only if the last but one is a result and what starts at any earlier message that is no result is over budget |
| AgentState.NothingIsLeft | lattice/src/agent/state.rs:253-293 | Two calls and their results with no budget: no message is left, and one source |
| AgentState.TrimLosesSources | lattice/src/agent/state.rs:210-293 | From a well-paired history with one source per message the sources come apart if and only if there is no system message, the last two of more than two messages are results, and what starts at any message that is no result is over budget |
| AgentState.TrimRewritesSources | lattice/src/agent/state.rs:280-293 | A trim that removes anything keeps the first source and makes all others the user's |
| AgentState.LastNameWins | lattice/src/agent/state.rs:140-152 | Of several calls with one id the last name is recorded |
| AgentLoop.Agent.HandleEvent | lattice/src/agent/mod.rs:479-540 | What one stream event adds to buffers, builders, usage and the observer |
| AgentLoop.Agent.RunChat | lattice/src/agent/mod.rs:456-565 | One streamed answer: state, token usage and reported events as folds over the stream; the provider is sent the current history |
| AgentLoop.Agent.RunChatWithRetries | lattice/src/agent/mod.rs:388-408 | Retries leave exactly the state and events the final attempt alone would have left, and every attempt sends the same history |
| AgentLoop.FinalAttemptIs | lattice/src/agent/mod.rs:391-408 | The final attempt is the first unbroken one or the last allowed |
| AgentLoop.Agent.RunTurn | lattice/src/agent/mod.rs:342-446 | One turn: inject the prompt, trim, answer with retries, execute the tools; what it sends is the trimmed history |
| AgentLoop.Agent.Run | lattice/src/agent/mod.rs:328-449 | The turn loop computes the specified run and sends the specified histories |
| AgentLoop.TryKeepsPaired | lattice/src/agent/mod.rs:456-565 | After any stream the history is paired and every required call can be answered under its name |
| AgentLoop.TurnKeepsPaired | lattice/src/agent/mod.rs:342-446 | One turn keeps results paired, for any prompt, streams and tool outputs |
| AgentLoop.RunsKeepPaired | lattice/src/agent/mod.rs:328-449 | From a well-paired history every run of any length leaves a well-paired history |
| AgentLoop.RunsPassPaired | lattice/src/agent/mod.rs:328-449 | Every history a run passes through, after each injected message, trim, attempt and tool result, is well-paired |
| AgentLoop.SentIsWellFormed | lattice/src/agent/mod.rs:388-408 | Every history the provider is sent in a run is well-paired, and on the wire every tool result answers a tool use of the message right before it |
| AgentLoop.RunsStayWellFormedOnTheWire | lattice/src/agent/mod.rs:328-449 | So is the history a run leaves |
| AgentTurns.SystemIsSet | lattice/src/agent/state.rs:41-63 | The system text replaces the first system message's or becomes one in front; nothing else changes |
| AgentTurns.UserIsSet | lattice/src/agent/state.rs:115-126 | The user text replaces that of the first user message from a position on, or is appended |
| AgentTurns.InjectionIsInOrder | lattice/src/agent/mod.rs:350-376 | Rendered messages are injected one after the other, only system and user texts |
| AgentTurns.AnswerIsAppended | lattice/src/agent/mod.rs:456-565 | An answer appends one assistant message with all text, all reasoning and every call of the stream once, and adds all token totals |
| AgentTurns.ExecutionPushesResults | lattice/src/agent/mod.rs:432-446 | The i-th call is answered with the i-th output, wrapped and shortened, under its id, and the observer hears the same |
| AgentTurns.TurnAnswersCalls | lattice/src/agent/mod.rs:412-446 | The loop goes on if and only if calls are required and there is an executor; then every required call, in order, has its own output behind the answer, else the answer alone is left |
| AgentTurns.OnlyDonesAreDropped | lattice/src/agent/mod.rs:426-431 | Of the events of a turn that goes on only the Dones are dropped |
| AgentTurns.SendsAtMostThreeTimes | lattice/src/agent/mod.rs:388-408 | A turn sends the same history until an attempt is not worth retrying, at most three times with retries and once without |
| AgentTurns.BrokenMeans | lattice/src/agent/mod.rs:391-408 | An attempt is retried if and only if it does not connect for a retryable reason or its stream has a retryable error |
| AgentTurns.ObserverHearsTheStream | lattice/src/agent/mod.rs:479-540 | Besides required calls the observer hears every token, reasoning, Done and error of the stream in order |
| AgentTurns.DoneRequiresCalls | lattice/src/agent/mod.rs:512-533 | A Done requires all calls built so far, once each, and is then told |
| AgentTurns.UsageIsSummed | lattice/src/agent/mod.rs:512-515 | The usage grows by the total of each Done that tells one |
| AgentTurns.RunIsItsTurns | lattice/src/agent/mod.rs:328-449 | A run is its turns, each starting from what the one before left; all but the last go on, and the last only if no turn is left |
| AnsweredCalls.AllAnsweredMeans | lattice/src/agent/mod.rs:410-440 | Answered means: after an assistant message, with only tool messages in between, there is a result for each of its calls |
| AnsweredCalls.TrimKeepsAnswers | lattice/src/agent/state.rs:210-278 | Trimming never separates a kept call from its results, in any history |
| AnsweredCalls.TurnAnswersAll | lattice/src/agent/mod.rs:342-446 | A turn after which the loop goes on leaves every call answered if and only if what it sent had every call answered and its final stream starts no call without a later Done |
| AnsweredCalls.LateCallIsNotAnswered | lattice/src/agent/mod.rs:514-560 | With a call that starts after the only Done the loop goes on and leaves that call unanswered |
| AnsweredCalls.SentIsAnswered | lattice/src/agent/mod.rs:328-449 | In a run whose continued turns have no such stream every history the provider is sent has every call answered |
| AnthropicTransport.NormalizeMessages | lattice/src/core/transport/anthropic.rs:161-243 | The loop computes the specified translation |
| AnthropicTransport.AppendResult | lattice/src/core/transport/anthropic.rs:206-232 | A result joins the last message if that holds results, else starts one |
| AnthropicTransport.BlocksArePreserved | lattice/src/core/transport/anthropic.rs:161-243 | The output's blocks, with their roles, are the translations of the messages in order: nothing is lost or reordered |
| AnthropicTransport.SystemIsJoined | lattice/src/core/transport/anthropic.rs:161-180 | The system field depends on the system messages alone, the rest on the others alone |
| AnthropicTransport.SystemIsParagraphs | lattice/src/core/transport/anthropic.rs:161-180 | The system field is all system texts with an empty line between them |
| AnthropicTransport.BlocksSay | lattice/src/core/transport/anthropic.rs:181-232 | User texts and results are unchanged, empty ones say so |
| AnthropicTransport.AssistantSays | lattice/src/core/transport/anthropic.rs:183-205 | An assistant's blocks are its text, if any, and then its calls in order |
| AnthropicTransport.ResultsAreMerged | lattice/src/core/transport/anthropic.rs:206-232 | No two adjacent output messages hold tool results |
| AnthropicTransport.PairingSurvivesTranslation | lattice/src/core/transport/anthropic.rs:161-243 | From a well-paired history every tool result's id is among the tool uses of the message immediately before |
| PromptBudget.RunPass | lattice/src/agent/prompt/compiler.rs:94-123 | A pass writes the grants of its kind, leaves the others, and returns what is left |
| PromptBudget.AllocateBudgets | lattice/src/agent/prompt/compiler.rs:90-126 | The three passes compute the specified grants |
| PromptBudget.GrantMeans | lattice/src/agent/prompt/compiler.rs:94-123 | Fixed claims, sizes and exact shares rounded down, clamped, and no more than is left |
| PromptBudget.GrantedFromWhatIsLeft | lattice/src/agent/prompt/compiler.rs:90-126 | Every section is granted from what those served before it have left: fixed before ratios before dynamic ones, equals in order |
| PromptBudget.GrantsConserveBudget | lattice/src/agent/prompt/compiler.rs:90-126 | Grants and remainder make up the effective budget exactly |
| PromptBudget.GrantIsMonotone | lattice/src/agent/prompt/compiler.rs:94-123 | A larger remainder is granted no less and leaves no less |
| PromptBudget.GrantsAreMonotone | lattice/src/agent/prompt/compiler.rs:90-126 | Every grant is nondecreasing in the budget through all passes |
| PromptBudget.SortSorts | lattice/src/agent/prompt/compiler.rs:47-52 | Sections are ordered by layer, then priority |
| PromptBudget.LayersInOrder | lattice/src/agent/prompt/compiler.rs:47-52 | The six layers in order, then priorities |
| PromptBudget.InputIsLast | lattice/src/agent/prompt/compiler.rs:36-52 | With byte-sized priorities the user input comes last |
| PromptBudget.SortPermutes | lattice/src/agent/prompt/compiler.rs:47-52 | The sort keeps every section |
| PromptBudget.SortIsStable | lattice/src/agent/prompt/compiler.rs:47-52 | Sections with equal keys keep their order |
| PromptBudget.Compile | lattice/src/agent/prompt/compiler.rs:17-84 | What is kept is exactly what is funded, with the total; a length mismatch is an error |
| PromptBudget.KeptIsSubsequence | lattice/src/agent/prompt/compiler.rs:57-73 | What is kept is a subsequence of the sorted sections |
| PromptBudget.InputIsKept | lattice/src/agent/prompt/compiler.rs:65-68 | The user input always survives |
| PromptBudget.KeptFitsBudget | lattice/src/agent/prompt/compiler.rs:55-73 | Surviving sections other than input cost at most the budget less what input was granted |
| PromptBudget.AmpleContextKeepsAll | lattice/src/agent/prompt/compiler.rs:54-84 | Without ratios, a context that exceeds all claims by 4096 tokens keeps every section |
| PromptBudget.NoContextFundsNothing | lattice/src/agent/prompt/compiler.rs:54-84 | A context of at most 4096 tokens funds nothing |
| PromptBudget.LargerContextKeepsMore | lattice/src/agent/prompt/compiler.rs:55-73 | What a smaller budget keeps is a subsequence of what a larger one keeps |
| PromptBudget.LongerContextLosesNothing | lattice/src/agent/prompt/compiler.rs:17-84 | The same for compiled prompts and context lengths |
| SensitivePaths.FindFrom | lattice/src/tools/sandbox.rs:542-545 | The first occurrence from a position on |
| SensitivePaths.ComponentMatchesPattern | lattice/src/tools/sandbox.rs:513-548 | The greedy search accepts if and only if prefix, suffix and middle parts can be placed in order |
| SensitivePaths.NoFalseNegatives | lattice/src/tools/sandbox.rs:513-548 | Every component that truly matches a pattern, with any number of stars, is accepted |
| SensitivePaths.MatchesWithRoom | lattice/src/tools/sandbox.rs:513-548 | With any number of stars a component matches if and only if it is accepted, is at least as long as prefix and suffix together, and has the middle parts in order between them |
| SensitivePaths.OneStarIsExact | lattice/src/tools/sandbox.rs:513-548 | With one star the length alone decides |
| SensitivePaths.OverlapIsAccepted | lattice/src/tools/sandbox.rs:527-537 | A component whose prefix and suffix overlap is accepted without matching |
| SensitivePaths.MiddleOverlapIsAccepted | lattice/src/tools/sandbox.rs:539-546 | So is one that is long enough but whose middle part overlaps the prefix |
| SensitivePaths.SensitivePathsAreFlagged | lattice/src/tools/sandbox.rs:481-507 | A path with neighbouring components that truly match the pattern's parts is flagged |
| SensitivePaths.FlaggedMeans | lattice/src/tools/sandbox.rs:481-507 | A path is flagged if and only if the parts of the pattern are accepted for neighbouring components somewhere in it |
| SensitivePaths.WindowsMatchWithRoom | lattice/src/tools/sandbox.rs:481-548 | Where the parts have room, that means that all those components truly match |
| Credentials.KeyDeterminesNames | lattice/src/core/router.rs:360-369 | For plain variable names equal cache keys mean the same provider and the same variables |
| Credentials.OrderDoesNotMatterForKeys | lattice/src/core/router.rs:360-369 | Entries of one provider with the same variables, each as often, share a key in whatever order they list them |
| Credentials.SharedKeyWithPlain | lattice/src/core/router.rs:360-369 | Among entries that share a key with one of plain names, exactly those of plain names have the same variables |
| Credentials.SharingTellsPresence | lattice/src/core/router.rs:355-369 | Two entries that share a key agree in every environment on whether there is a credential if and only if they have the same variables |
| Credentials.SharingIsSafe | lattice/src/core/router.rs:355-440 | Two entries that share a key have the same credential in every environment if and only if they first mention their variables in the same order |
| Credentials.ExactIfAgreeing | lattice/src/core/router.rs:355-440 | For a set of entries, remembering any answer is right for all of them in every environment if and only if all that share a key mention their variables in the same order |
| Credentials.CommasCollide | lattice/src/core/router.rs:360-369 | With a comma in a name two different sets of variables share one cache entry |
| Credentials.EmptyNamesCollide | lattice/src/core/router.rs:360-369 | So they do with an empty name |
| Credentials.OrdersCollide | lattice/src/core/router.rs:360-412 | The same two names in two orders share one cache entry, and one of them is answered with the other's credential |
| Credentials.ResolveCredentials | lattice/src/core/router.rs:398-471 | Answers from the cache or from the lookup and remembers the answer. For plain names and a sound cache there is an answer exactly when the lookup has one; for entries that agree and an exact cache it is the credential the lookup finds. Soundness and exactness are kept |
| Credentials.LookUp | lattice/src/core/router.rs:413-440 | The first non-blank value in order, external credentials before environment variables |
| Credentials.CredentialIs | lattice/src/core/router.rs:412-462 | The credential is the value of the first variable that has one, the entry's own before those known for its provider, external before environment, blanks not counted |
| Router.OrderIsStable | lattice/src/core/router.rs:213-214 | The sorted providers are all catalog entries once, by priority, stably |
| Router.PreferenceMeans | lattice/src/core/router.rs:213-289 | Priority, then providers with credentials before those that need none, then catalog order |
| Router.ChoiceIsUnique | lattice/src/core/router.rs:213-289 | There is only one choice |
| Router.LookedUpAgain | lattice/src/core/router.rs:398-411 | Looking up again what has been looked up changes nothing |
| Router.ChoiceIsRight | lattice/src/core/router.rs:213-289 | For plain variable names and a sound cache the choice by cached answers is the best usable provider, or none if none is usable |
| Router.ChoiceIsExact | lattice/src/core/router.rs:213-289 | For entries that agree and an exact cache the choice is the best usable provider as well, and the credential held for it is the one its own lookup finds |
| Router.ModelRouter.SelectProvider | lattice/src/core/router.rs:216-289 | For any catalog and cache the loop commits to the best provider that is credentialless or answered with a credential (priority, credentialed first, catalog order), or to none if and only if there is none |
| Router.ModelRouter.Resolve | lattice/src/core/router.rs:213-322 | The model of that provider, refused only for its URL; missing credentials if and only if there are providers and none is answered; with plain names and a sound cache all of it about usable providers; with agreeing entries and an exact cache with the chosen provider's own credential |
| Router.ModelRouter.InspectModel | lattice/src/core/router.rs:590-680 | The same choice without the rejections, and the first by priority when none is usable |
| Router.ResolvedMeans | lattice/src/core/router.rs:230-270 | The resolved model has the provider's own names, URL and the credential; its status and what its URL is refused for |
| Router.ModelRouter.ResolveThenInspect | lattice/src/core/router.rs:128-680 | Whenever resolving succeeds, inspecting the same entry gives the same model, credential included, for any catalog and cache |

## Left out

- HTTP clients, headers, WebSocket, file watchers, the audit log, SQLite and blob stores: input and output only.
- JSON and TOML parsing: provider parsers take a decoding function as a parameter and see its result as a datatype.
- UTF-8 decoding of chunks: a chunk is a sequence of characters.
- The wording put around parser errors ("SSE parse error", "SSE flush parse error"): an error event carries the parser's own message, which is what makes chunked and one-shot events comparable.
- Event ids in the chunking theorem: an id can outlive a blank line that reports nothing, and no provider parser sees ids. `SseWire.ParsePrinted` covers them for printed events.
- `f64` rounding: ratios are exact fractions and the token budget of a trim is given as a number.
- The comparison operators of conditions: an arbitrary function of value and condition.
- Overflow of `u32` and `usize` sums (token totals, the call counter): unbounded, except the Anthropic token total, which is a sum modulo 2^32, and `as u32` casts, which are modelled.
- The order in which hash maps are listed: an arbitrary order that lists every key once.
- Wall-clock time, backoff, timeouts and panics: a call or a fork branch has an arbitrary outcome, and branches have no timing.
- Error texts, tracing, the event bus, saved memory entries and durations.
- Rendering a prompt to message text, and the collection of its sections.
- The provider override, aliases, `normalize_model_id`, custom models and the table of default URLs: the router starts from a catalog entry with resolved URLs.
- Path parsing in the sandbox, its commands, URLs and Landlock rules: a path is its list of components.
- `seed_messages`, `pop_last_assistant_message` and `replace_first_user_message`: easy members; the first two do not keep sources parallel.
- `parse_sse_text`: a convenience over `parse_raw_sse`.
- The order of the agents in a dry run's report and how often an issue is listed: the report is told as the sets of its agents and issues.
- HandoffRules.AnyMeansSomeIndex: stated for paths within the depth limit and arrays whose positions fit in 64 bits, as those of every array in memory do; `AnyMeansSomeIndexIff` covers all other depths.
- Credentials.ResolveCredentials: whether there is a credential is right for non-empty variable names without commas, and which one it is for entries that mention their variables in the same order whenever they share a key; `SharingTellsPresence`, `SharingIsSafe` and `ExactIfAgreeing` show that neither holds beyond that.
- SseChunking.ChunkingDoesNotMatter: requires that no unfinished event outgrows the buffer, and speaks of the whole text when each piece between blank lines is within the limit on events; `ChunkingMattersBeyondLimits` and `WholeTextArrives` show that this is needed, `OverflowShows` how a caller notices an overflow, `ParsersAreGivenTheSame` and `SseStream.SseStream.Feed` what holds even then.
