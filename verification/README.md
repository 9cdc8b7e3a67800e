# Verified model of the agent engines

The server runs LLM agents. Most of it moves data between a database, providers and a user interface; the parts modelled
here are the engines in between that decide something: they split and filter streamed text, retry and switch models,
keep a file index in step with a disk, cut documents into chunks, stop runaway loops, shorten old messages, and limit
how often events fire. Each engine is one Dafny module, in the form its Python code has: classes with the same fields,
loops with the same branches, and for each loop a specification whose properties are proved for all inputs.

- `Wrappers`, `Text` – shared types and string operations.
- `ThinkTags` – the streaming `<think>` parser, its independence of how the stream is cut, and its agreement with the
  one-shot removal.
- `ToolCallXml` – the streaming filter for tool-call XML. Every piece of the input is logged with the reason for what
  became of it; the log, in order, is the input.
- `ToolCallTags`, `ToolCallSkim` – what the filter keeps off, by the names and endings of the tags: one block however
  the stream is cut, and every text without a namespaced tool call.
- `Accumulator` – both of them together, as one streamed reply goes through them.
- `JsonScan` – the brace scanner, against a grammar of brace groups, and cutting the objects out.
- `FoldMessages` – folding system messages for providers that reject them.
- `FallbackChain` – retry, fallback models and the circuit breaker, over any outcome of each API attempt, any clock and
  any jitter.
- `FileIndex` – the incremental index. Per-file jobs are state machines that stop at their suspension points; a run
  interleaves them in any order a schedule asks for, with any fault in any of them.
- `SlidingWindow`, `Markdown` – the chunkers; `MarkdownRuns` – the chunks of a markdown body as runs of paragraphs under
  the path of their headers.
- `Cycles`, `AgentLoop` – detection of repeating tool calls, and what it guarantees for a whole run.
- `Pruning` – in-place shortening of old tool results and arguments, and why it composes; `PruningTerms` – the same by
  position.
- `ContextBudget` – token accounting while a prompt is put together.
- `EventCooldown` – the cooldown table with eviction.
- `RankFusion` – reciprocal rank fusion.

Parameters stand for what lies outside: the character classes of the host language (`str.isspace`, `str.isalpha`, the
regex classes), JSON parsing, hashing (injective where stated), the chunker and models behind the index, marker texts,
outcomes of API attempts, clock readings, jitter draws, schedules and faults.

Places where the code does not do what its comments or its purpose suggest, each with the exact condition:

- A streamed delta equal to all content so far is taken for a repetition and dropped. The kept text is the whole text
  exactly when no chunk equals the content shown before it (`Accumulator.KeptWhole`); for text without a `<`, when no
  chunk repeats all the text before it (`Accumulator.AccumulateStream`). So `haha` sent as two halves loses one
  (`Accumulator.HalvesRepeat`), and a closing tag can be dropped and leave its block open
  (`Accumulator.ClosingTagDropped`).
- The parser and the one-shot removal differ exactly when the text leaves a block open: the removal keeps it
  (`ThinkTags.StreamAgreesWithStrip`, with an input in `ThinkTags.UnclosedBlockDiffers`).
- What the tool-call filter keeps off can depend on where the stream is cut, but not for text without `:tool_call` that
  does not end as one might begin (`ToolCallSkim.CutsDoNotMatter`, with inputs where it does in
  `ToolCallSkim.CutMatters`). A closing tag that closes nothing opens a block and takes the text behind it along
  (`ToolCallTags.StrayCloseKeepsOff`).
- A file that now chunks to nothing keeps its old rows, and legacy rows without a recorded model can count as current
  (`FileIndex.CandidateAgreesExactly`, with inputs in `FileIndex.EmptiedFileKeepsRows` and `FileIndex.LegacyRowsStay`).
- With boundary snapping, chunk ends strictly increase on every source exactly when the overlap is at most
  `window - window/5 + 1` or at least `window` (`SlidingWindow.EndsIncreaseExactlyWhenSafe`, with a source for every
  other overlap in `SlidingWindow.UnsafeEndsRepeat`).
- Pruning is documented as safe to repeat; that holds exactly when each marker is shorter than the limit or exactly as
  long as what it replaces (`Pruning.CodeRepeatsExactly`, with an input in `Pruning.RepeatChangesMarker`).
- A comment says that a markdown section ends at the next header of the same or a higher level. It does exactly when no
  deeper header follows directly (`Markdown.SectionEndsByLevel`, with an input in `Markdown.SubsectionCutOff`).
- The brace scan stops for good at the first `{` that starts no brace group once all groups before it are passed over
  (`JsonScan.GroupsAreExact`, with an input in `JsonScan.UnclosedHidesObject`).
- Folding is documented to give strict role alternation. It does exactly when adjacent messages of one role can all be
  merged (`FoldMessages.FoldIsStrict`, with an input in `FoldMessages.ResultsStayAdjacent`).
- The recorded fallback is documented to be used until the cooldown expires. The model is indeed not started until then
  unless the entry is cleared (`FallbackChain.BreakerSkipsModel`), but the fallback stays the same exactly when every
  further recording names it again (`FallbackChain.ReplacementStays`), and where calls do not overlap exactly when no
  call for the model records (`FallbackChain.ReplacementStaysUnlessRecorded`); an input where it changes is in
  `FallbackChain.ReplacementMoves`.
- A negative retry count, and no other, gives no attempt and no result instead of an error (`FallbackChain.Used`,
  `FallbackChain.ResultAt`, with an input in `FallbackChain.NegativeRetriesGiveNothing`), and an effective maximum of
  zero or less, and no other, leaves the loop without an iteration number (`AgentLoop.AgentLoop.Run`, with an input in
  `AgentLoop.ZeroLimitLeavesNone`).
- The reduced number of search results is documented to go down to 1; it is 0 exactly below 500 remaining tokens or when
  none is asked for (`ContextBudget.ContextBudget.DynamicTopK`).

## Model

| member | source | states |
|---|---|---|
| `ThinkTags.ThinkTagParser.Feed` | app/agent/llm.py:41-77 | one chunk: what is emitted on each side, the side the parser is on and what it holds back are those of the tag-by-tag reading of buffer plus chunk |
| `ThinkTags.ThinkTagParser.Flush` | app/agent/llm.py:79-85 | at the end of the stream the held text goes to the side the parser is on, and the buffer is empty |
| `ThinkTags.SplitAtPotentialTag` | app/agent/llm.py:87-99 | the text is cut before its longest suffix that is a proper prefix of the tag |
| `ThinkTags.HeldLength` | app/agent/llm.py:94-99 | the held suffix is a proper prefix of the tag, and no longer suffix is |
| `ThinkTags.HeldSuffices` | app/agent/llm.py:41-77 | when a text holds no tag, its held suffix is all that later text needs: the next tag and the next held suffix are found at the same places |
| `ThinkTags.FeedCompose` | app/agent/llm.py:41-77 | feeding `x` and then `y` gives the outputs and the state of feeding `x + y` |
| `ThinkTags.ChunkIndependence` | app/agent/llm.py:41-99 | two ways of cutting one text give the same content, thinking text and final state, those of one feed of the whole |
| `ThinkTags.SplitStream` | app/agent/llm.py:41-85 | one parser fed chunk by chunk and then flushed yields the content and thinking text of the specification of whole streams |
| `ThinkTags.StripSkips` | app/agent/llm.py:235-237 | the one-shot removal keeps all text before the leftmost match |
| `ThinkTags.StripIsContent` | app/agent/llm.py:235-237 | the one-shot removal gives the parser's content followed by the block left open, and there is such a block exactly when the parser ends inside one |
| `ThinkTags.StreamAgreesWithStrip` | app/agent/llm.py:41-85 | for every chunking, streamed content equals the one-shot removal if and only if the text leaves no block open, which is when the stream does not end inside one |
| `ThinkTags.UnclosedBlockDiffers` | app/agent/llm.py:235-237 | for an opening tag and one letter the stream shows no content, while the removal keeps the text as it is |
| `ThinkTags.StreamInPlainTerms` | app/agent/llm.py:41-85 | for every chunking: text before the first `<think>` is content, text from there to the next `</think>` thinking, the rest is read in the same way; a block left open is thinking to the end, and all text is content without an opening tag |
| `ToolCallXml.ToolCallXmlFilter.Feed` | app/agent/llm.py:122-213 | after a chunk the emitted text, the new blocks and the state are those of the filter as a function of state and text; all input is accounted for by the log, the open block and the buffer, the log grows only by pieces decided while streaming, and nothing that could be decided is held back |
| `ToolCallXml.ToolCallXmlFilter.ConsumeSegment` | app/agent/llm.py:128-154 | inside a block the text up to and including the next `>` leaves the buffer and joins the block, which closes and goes to the blocks and the log exactly when that text ends the suppression; nothing is emitted |
| `ToolCallXml.ToolCallXmlFilter.PassOrOpen` | app/agent/llm.py:155-165 | outside a block the text before the first `<` is emitted, and what is buffered from there on decides as for that `<`; without a `<` the whole buffer is emitted |
| `ToolCallXml.ToolCallXmlFilter.JudgeAngle` | app/agent/llm.py:167-211 | what is buffered after a `<` decides: a block opens, the filter waits, or only the `<` passes |
| `ToolCallXml.ToolCallXmlFilter.Flush` | app/agent/llm.py:215-227 | at the end an open block is closed with the buffer and nothing is emitted, or else the held text is emitted; the log grows by just that piece and is then the whole input with every piece justified |
| `ToolCallXml.SegmentEnds` | app/agent/llm.py:137-153 | closing a block moves it, opening `<` and all segments, from the open state to the log and emits nothing |
| `ToolCallXml.ChunkJoins` | app/agent/llm.py:124-124 | appending a chunk to the buffer keeps every earlier piece justified |
| `ToolCallXml.FilterStream` | app/agent/llm.py:122-227 | for every chunking, emitted text and blocks are those of the filter as a function; put back in order they are the whole input, only the last piece is decided by the end of the stream, and input without `<` passes with no block |
| `ToolCallXml.BlocksStartWithAngle` | app/agent/llm.py:201-205 | every suppressed block starts with `<` |
| `ToolCallXml.NoAngleNoBlock` | app/agent/llm.py:156-160 | a justified log of input without `<` has no block and emits everything |
| `ToolCallTags.EndsInPlainTerms` | app/agent/llm.py:137-149 | a piece up to a `>` ends a block exactly when it ends in `/>`, `</invoke>`, `</tool_call>` or `</name:tool_call>` |
| `ToolCallTags.BlockKeptOff` | app/agent/llm.py:122-227 | wherever the stream is cut: a text that opens behind its `<` with `invoke`, `tool_call`, `/invoke`, `/tool_call` or a namespace of letters and `:tool_call`, and reaches to the first tag that closes it, is the one block; the text around it, without a `<`, is emitted |
| `ToolCallTags.OpenBlockKeptOff` | app/agent/llm.py:215-223 | the same for a block that nothing closes: it is recorded when the stream ends |
| `ToolCallTags.StrayCloseKeepsOff` | app/agent/llm.py:112-112 | a closing tag with no block open opens one: the text behind it, up to the end when no `>` follows, is not emitted |
| `ToolCallTags.OpeningJudged` | app/agent/llm.py:179-205 | text behind a `<` that starts with one of these names opens a tool call |
| `ToolCallTags.BeginJudged` | app/agent/llm.py:183-199 | the beginning of such a name never lets the `<` pass |
| `ToolCallTags.ToolStays` | app/agent/llm.py:167-205 | what is recognised as a tool call stays one when more text comes |
| `ToolCallSkim.FilterIsSkim` | app/agent/llm.py:122-227 | for every text without `:tool_call` and every way of cutting it, emitted text and blocks are those of a reading of the whole text; a text with one of the four names must not end in `:` or a longer beginning of `:tool_call` |
| `ToolCallSkim.SkimInPlainTerms` | app/agent/llm.py:122-227 | that reading: the text in front of the leftmost opening tag is emitted, the block reaches to the first tag that closes it or to the end, and the text behind it is read in the same way |
| `ToolCallSkim.PassesUnchanged` | app/agent/llm.py:156-211 | a text that holds none of `<invoke`, `<tool_call`, `</invoke`, `</tool_call` and `:tool_call` is emitted as it is, wherever it is cut |
| `ToolCallSkim.BlocksExactly` | app/agent/llm.py:167-211 | a text without `:tool_call` that does not end as one might begin gives a block if and only if one of the four opening tags stands in it |
| `ToolCallSkim.CutsDoNotMatter` | app/agent/llm.py:122-227 | two ways of cutting such a text give the same emitted text and blocks |
| `ToolCallSkim.CutMatters` | app/agent/llm.py:188-205 | for every short tag without a colon: with `:tool_call` right behind it, it opens a block when both come at once and passes when the cut lies between them |
| `ToolCallSkim.HeldNameEmitted` | app/agent/llm.py:195-211 | in `<a<invoke:` the first `<` is undecided to the end of the stream, and the name behind it is emitted |
| `Accumulator.StreamAccumulator.FeedText` | app/agent/llm.py:999-1015 | a delta equal to the content so far is dropped, any other is kept, parsed and filtered: the new state is the specified one |
| `Accumulator.StreamAccumulator.Finish` | app/agent/llm.py:1061-1080 | both flushes together: content and blocks are the specified ones, and with the thinking side they are what the parser makes of the kept text |
| `Accumulator.AccumulateStream` | app/agent/llm.py:964-1080 | content and blocks are the specified function of the chunks; the kept text is the whole text exactly when no chunk equals the content shown before it, and then content with the blocks put back is the reply without its think blocks if and only if none is left open; text without `<` comes out whole exactly when no chunk repeats all the text before it |
| `Accumulator.KeptWhole` | app/agent/llm.py:1000-1006 | for every reply, the text that is not dropped is the whole text if and only if no chunk but an empty one equals the content shown before it |
| `Accumulator.ClosingTagDropped` | app/agent/llm.py:1000-1006 | for the chunks `</think>`, `<think>abc`, `</think>`, `rest` the third equals the content shown, is dropped, and `rest` becomes thinking text |
| `Accumulator.PlainKept` | app/agent/llm.py:1000-1006 | of a reply without `<` all text is kept exactly when no chunk repeats all the text before it |
| `Accumulator.HalvesRepeat` | app/agent/llm.py:1000-1006 | a nonempty text sent twice in a row is such a repetition |
| `JsonScan.ScanGroup` | app/agent/llm.py:325-354 | the inner loop stops at the `}` where the string-aware depth first returns to zero, or at the end of the text |
| `JsonScan.FindTopLevelJsonObjects` | app/agent/llm.py:316-357 | the result is the parsable ones of the top-level groups, which are nonempty, ordered and disjoint |
| `JsonScan.GroupsOrdered` | app/agent/llm.py:322-357 | groups are nonempty, in order and without overlap |
| `JsonScan.CloseIsMatchingBrace` | app/agent/llm.py:325-350 | the scan from a `{` closes at `e` if and only if the text up to `e` is a brace group of the grammar, with strings as in section 7 of RFC 8259 |
| `JsonScan.GroupsAreExact` | app/agent/llm.py:322-357 | each span is a brace group, and a `{` stands outside all spans if and only if it is, or comes after, a `{` that starts no brace group and is preceded by nothing but brace groups and characters other than `{` |
| `JsonScan.UnclosedHidesObject` | app/agent/llm.py:354-354 | in `{ {}` the first brace never closes and the object after it is not found |
| `JsonScan.StringBraceSkipped` | app/agent/llm.py:337-341 | a brace inside a string neither opens nor hides an object |
| `JsonScan.StripSpans` | app/agent/llm.py:295-302 | cutting chosen spans from last to first leaves exactly the characters outside them |
| `JsonScan.ParsedOrdered` | app/agent/llm.py:322-357 | the parsed objects' spans are ordered and disjoint |
| `JsonScan.StripJsonToolCallFragments` | app/agent/llm.py:285-302 | the text loses exactly the objects that look like tool calls |
| `FoldMessages.FoldSystemMessages` | app/agent/llm.py:1670-1730 | both loops together compute the fold: system text first as one user message, then all other messages merged where allowed |
| `FoldMessages.SplitSystem` | app/agent/llm.py:1680-1697 | the texts of system messages and the other messages, each in order |
| `FoldMessages.MergeAdjacent` | app/agent/llm.py:1704-1730 | adjacent messages of one role are merged unless they are tool results or one content is no string |
| `FoldMessages.FoldAlternates` | app/agent/llm.py:1670-1730 | no system message is left, and equal adjacent roles remain only for tool messages or next to a content that is no string |
| `FoldMessages.FoldIsStrict` | app/agent/llm.py:1676-1678 | no two adjacent messages of the result have the same role if and only if all adjacent ones with the same role could be merged |
| `FoldMessages.ResultsStayAdjacent` | app/agent/llm.py:1711-1714 | two tool results in a row are left as they are |
| `FoldMessages.FoldKeepsEvents` | app/agent/llm.py:1704-1730 | the sequence of tool calls and tool results is unchanged |
| `FoldMessages.FoldKeepsPairing` | app/agent/llm.py:1704-1730 | every result follows its call after folding if and only if it did before |
| `FoldMessages.FoldKeepsText` | app/agent/llm.py:1704-1730 | merging changes no text: the contents read as before, with the same gaps |
| `FoldMessages.FoldIdempotent` | app/agent/llm.py:1670-1730 | folding twice is folding once |
| `FoldMessages.FoldInPlainTerms` | app/agent/llm.py:1680-1702 | by index: merging starts from one user message with the texts of all system messages that have one, joined by the separator in order, and then all messages that are not system messages, once and in order |
| `FoldMessages.SystemTextStaysInFront` | app/agent/llm.py:1680-1701 | the first message of the result is a user message that begins with these texts, one after the other with only the separator between them |
| `FoldMessages.SingleSystemMovesToFront` | app/agent/llm.py:1680-1702 | one system message with a text between other messages: the result is that of merging the text as a user message, the messages before and those after |
| `FoldMessages.MergeInPlainTerms` | app/agent/llm.py:1704-1730 | merging cuts the messages into runs of one role with string contents; each gives its first message with all contents, a blank line between them, and all tool calls; a run ends only where two neighbours differ in role, are tool results, or have a content that is no string |
| `FallbackChain.LlmCaller.SetModelCooldown` | app/agent/llm.py:548-556 | the replacement is recorded until now plus the cooldown; a cooldown of zero or less records nothing |
| `FallbackChain.LlmCaller.GetModelCooldown` | app/agent/llm.py:559-568 | the replacement while it lasts; an expired entry is dropped |
| `FallbackChain.LlmCaller.ClearModelCooldown` | app/agent/llm.py:604-606 | the entry goes, and the answer tells whether there was one |
| `FallbackChain.ComputeBackoff` | app/agent/llm.py:651-659 | the wait is at least half the base, and at most the cap or the doubled base unless half the base is more |
| `FallbackChain.Retries` | app/agent/llm.py:757-808 | the number of further full attempts: each followed a retryable error, and the last one did not or was the last allowed |
| `FallbackChain.Used` | app/agent/llm.py:757-808 | one model gets at most `max_retries + 2` attempts, and none exactly when `max_retries` is negative |
| `FallbackChain.ResultAt` | app/agent/llm.py:757-808 | one model gives no result if and only if the retry count is negative |
| `FallbackChain.NegativeRetriesGiveNothing` | app/agent/llm.py:757-757 | with a count of -1 no attempt is made and the caller gets nothing |
| `FallbackChain.LlmCaller.RetrySingleModel` | app/agent/llm.py:728-808 | the last attempt decides the result; what is sent in each attempt, their number, and each wait, which honours the upstream hint or the backoff bounds |
| `FallbackChain.LlmCaller.Conclude` | app/agent/llm.py:758-793 | after the last full attempt: its reply, one attempt without tools or without images where the error asks for that, or its error |
| `FallbackChain.PlanIsSound` | app/agent/llm.py:838-929 | no model is started twice, there is at most one start more than distinct fallbacks, and a model in cooldown is not started |
| `FallbackChain.AttemptsBound` | app/agent/llm.py:757-939 | a call makes at most `(max_retries + 2) * (1 + distinct fallbacks)` API attempts |
| `FallbackChain.LlmCaller.RunFallbacks` | app/agent/llm.py:885-939 | fallbacks are started in order, skipping unnamed and tried ones, until one answers, fails for good, or none is left; the last error surfaces |
| `FallbackChain.LlmCaller.Record` | app/agent/llm.py:920-926 | a fallback that answered is reported and remembered for the model; one that raised leaves both alone |
| `FallbackChain.LlmCaller.RunWithFallbackChain` | app/agent/llm.py:811-939 | breaker, primary model and fallbacks together: which models are started, what each is sent, which start settles the call, what is reported, and how the call changes the cooldown table, in which no model is ever mapped to itself |
| `FallbackChain.ReportEmptyIffPrimary` | app/agent/llm.py:838-939 | a call that returns leaves the fallback report empty if and only if the start that settled it was that of the primary model |
| `FallbackChain.BreakerSkipsModel` | app/agent/llm.py:548-606 | from the recording of a fallback for a model until that entry would expire, unless an operator clears it, every call that looks the model up has a replacement and never starts the model, however the steps of calls for any models interleave |
| `FallbackChain.StepKeepsCover` | app/agent/llm.py:548-606 | every lookup, every recording and every clearing for another model leaves an unexpired entry in place or makes it last at least as long; only a recording for the model changes the replacement |
| `FallbackChain.CallIsSteps` | app/agent/llm.py:838-926 | a call changes the table by its lookup and, exactly if a fallback answered after a failure, by one recording |
| `FallbackChain.CallMovesReplacement` | app/agent/llm.py:846-926 | when a call meets a replacement, the entry keeps it if and only if the call records nothing |
| `FallbackChain.ReplacementStays` | app/agent/llm.py:548-606 | until the entry would expire the model keeps the recorded replacement if and only if every further recording for it names that one again |
| `FallbackChain.ReplacementStaysUnlessRecorded` | app/agent/llm.py:548-606 | when recordings come only from calls that met the replacement in force, as with calls that do not overlap, it stays if and only if no call for the model records |
| `FallbackChain.ReplacementMoves` | app/agent/llm.py:846-926 | an input where the replacement changes: the recorded fallback times out, another one answers, and the call settles with that |
| `FallbackChain.ReplyAfterRetries` | app/agent/llm.py:757-808 | up to `max_retries` rate limits, timeouts, lost connections, empty answers or passing server errors and then a reply give that reply |
| `FallbackChain.RetriesExhausted` | app/agent/llm.py:757-808 | one such error more than there are retries is raised |
| `FallbackChain.RaisedAtOnce` | app/agent/llm.py:702-725 | an unexpected error, a lasting server error, and a refusal that no reduced request can answer are raised without a further attempt |
| `FallbackChain.ReducedDecides` | app/agent/llm.py:763-793 | a refusal of tools, or else of images, is followed by one attempt without them, which decides |
| `FallbackChain.WaitsInPlainTerms` | app/agent/llm.py:651-699 | a wait is the upstream hint between 1 and 120 seconds, or else lies between half the base and the doubled base, at most 300 seconds |
| `FallbackChain.RaisedMeansExhausted` | app/agent/llm.py:838-939 | a call raises only an unexpected error or after every model of its plan was started |
| `FallbackChain.FirstReplyWins` | app/agent/llm.py:617-626 | when the starts before it end in rate limits, timeouts, lost connections, empty answers, server errors or refused requests, the first start that replies settles the call |
| `FallbackChain.PlanInPlainTerms` | app/agent/llm.py:838-905 | the plan by position: the replacement in force or the model asked for, then of the fallbacks each that names a model not named before |
| `FileIndex.MatchSegment` | app/agent/fs_indexer.py:336-349 | the first of the matching segments with the longest prefix, or none if none matches |
| `FileIndex.Indexer.Step` | app/agent/fs_indexer.py:364-505 | one job up to its next suspension point: permits are respected, each job stays on course to its verdict, the database holds exactly what finished jobs wrote |
| `FileIndex.SomeEnabled` | app/agent/fs_indexer.py:382-382 | with at least one permit, some job can step as long as one is not done |
| `FileIndex.StepKeepsPermits` | app/agent/fs_indexer.py:382-382 | a step never takes the number of running jobs over the permits, and leaves fewer steps to go |
| `FileIndex.CommitStep` | app/agent/fs_indexer.py:448-480 | the commit of a job replaces the rows of its file and of no other |
| `FileIndex.Indexer.RunJobs` | app/agent/fs_indexer.py:647-667 | under every schedule all jobs end |
| `FileIndex.AllDone` | app/agent/fs_indexer.py:658-667 | with all jobs done, a file was written exactly when a job for it is to end as indexed |
| `FileIndex.CleanUp` | app/agent/fs_indexer.py:681-709 | removing the stale files completes the run: every key is settled on its own |
| `FileIndex.VerdictsAddUp` | app/agent/fs_indexer.py:669-679 | every candidate is counted once, as indexed, skipped or failed |
| `FileIndex.Indexer.Tally` | app/agent/fs_indexer.py:669-679 | the counters are the numbers of verdicts |
| `FileIndex.Indexer.IndexDirectory` | app/agent/fs_indexer.py:604-709 | whatever the schedule and the faults, the database afterwards and the statistics depend only on the contents, the configuration and the state before |
| `FileIndex.RunKeepsConsistent` | app/agent/fs_indexer.py:364-505 | whatever fails, each file's rows come from a single writing |
| `FileIndex.CandidateAgreesExactly` | app/agent/fs_indexer.py:383-408 | after a run without faults a candidate is stored as a rebuild would store it, if and only if it has chunks and no legacy rows that count as current, or has no chunks and had no rows |
| `FileIndex.EmptiedFileKeepsRows` | app/agent/fs_indexer.py:383-385 | a file that was emptied keeps its rows, where a rebuild would store none |
| `FileIndex.LegacyRowsStay` | app/agent/fs_indexer.py:400-408 | rows without a recorded model stay, where a rebuild would record the base model |
| `FileIndex.FullRunRebuilds` | app/agent/fs_indexer.py:604-709 | a full run without segments and faults from a consistent database: candidates with chunks have exactly the rows of a rebuild, other files none, other scopes are untouched |
| `FileIndex.SecondRunIsIdle` | app/agent/fs_indexer.py:604-709 | running again over the same disk changes nothing, even with faults |
| `FileIndex.StoredRows` | app/agent/fs_indexer.py:445-480 | after a run without faults from a consistent database a candidate with chunks has one row for each, in order: the chunk, its position and detail, the hash of the content, the version, and the model of the most specific segment or the base model |
| `FileIndex.VerdictInPlainTerms` | app/agent/fs_indexer.py:383-505 | indexed, skipped or failed by what the stored first row, the chunks and the fault say |
| `FileIndex.FaultKeepsRows` | app/agent/fs_indexer.py:486-505 | a candidate whose jobs all meet a fault keeps its rows as they were |
| `FileIndex.SegmentRunRemoves` | app/agent/fs_indexer.py:681-709 | a full run over segments removes the rows of each file that is no candidate, unless it is a memory file |
| `FileIndex.SecondRunSkips` | app/agent/fs_indexer.py:400-408 | a second run over the same disk counts every candidate as skipped |
| `SlidingWindow.ChunkSlidingWindow` | app/agent/chunking.py:184-237 | nothing for an empty source, one chunk without line numbers for a short one, else one chunk per window with its line range |
| `SlidingWindow.ChooseEnd` | app/agent/chunking.py:198-206 | the end of a window lies behind its start and inside the source |
| `SlidingWindow.ChooseStart` | app/agent/chunking.py:223-235 | the next window starts strictly later: the overlap back, snapped to a paragraph |
| `SlidingWindow.BreakAtLastBoundary` | app/agent/chunking.py:240-260 | a window breaks at the last paragraph boundary in its last fifth, else at the last sentence boundary there, else at full length |
| `SlidingWindow.WindowEndBounds` | app/agent/chunking.py:198-206 | a window is nonempty and at most `window` long, and falls short of that only at a boundary in its last fifth or at the end of the source |
| `SlidingWindow.WindowsWindowed` | app/agent/chunking.py:197-237 | every window is nonempty, inside the source and at most `window` long |
| `SlidingWindow.WindowsCover` | app/agent/chunking.py:197-237 | windows run from the start to the end of the source, always forward and without a gap |
| `SlidingWindow.ChunksRebuildSource` | app/agent/chunking.py:197-237 | dropping the overlaps and joining the chunks gives back the source |
| `SlidingWindow.EndsIncreaseExactlyWhenSafe` | app/agent/chunking.py:197-260 | chunk ends strictly increase on every source if and only if there is no snapping, or the overlap is at most `window - window/5 + 1` or at least `window` |
| `SlidingWindow.SafeEndsIncrease` | app/agent/chunking.py:197-260 | for such settings no chunk lies inside the one before it |
| `SlidingWindow.UnsafeEndsRepeat` | app/agent/chunking.py:197-260 | for all others there is a source whose second chunk lies inside the first |
| `SlidingWindow.ChunkCount` | app/agent/chunking.py:197-237 | with an overlap under `window - window/5` the number of chunks is at most linear in the length, with that difference as the step |
| `SlidingWindow.WindowsInPlainTerms` | app/agent/chunking.py:197-260 | each window ends with the source, at its full length, or behind the last blank line or else full stop in its last fifth; the next starts the overlap back, or behind the first blank line from there, or at the end when that would not move forward; the last ends with the source, or the next would start behind it |
| `SlidingWindow.ChunkInPlainTerms` | app/agent/chunking.py:208-218 | a chunk is the text of its window, and its lines are one more than the line breaks in front of its start and of its end |
| `Markdown.SplitOversized` | app/agent/chunking.py:112-142 | the paragraph packing of a text, under the given prefix |
| `Markdown.SplitOversizedKeepsVisible` | app/agent/chunking.py:112-142 | packing loses, adds or moves no visible character |
| `Markdown.OversizedFits` | app/agent/chunking.py:119-142 | only a chunk that is a single paragraph can be over the limit |
| `Markdown.PackFits` | app/agent/chunking.py:126-142 | the same while a chunk is being filled |
| `Markdown.PushHeader` | app/agent/chunking.py:81-84 | the loop pops every header of the same or a deeper level and pushes the new one |
| `Markdown.PushKeepsOpen` | app/agent/chunking.py:81-84 | that keeps on the stack exactly the headers that all later ones are strictly deeper than |
| `Markdown.OpenLevelsIncrease` | app/agent/chunking.py:77-84 | levels on the stack strictly increase, and its top is the present header |
| `Markdown.PrefixExtendsParent` | app/agent/chunking.py:80-94 | the prefix of a section is that of its parent, the last shallower header before it, extended by its own header; without a parent it starts with that header |
| `Markdown.SectionsPartition` | app/agent/chunking.py:96-103 | the sections from any header on are the rest of the body |
| `Markdown.SectionEndsByLevel` | app/agent/chunking.py:96-101 | a section ends at the next header of the same or a higher level if and only if it is the last or no deeper header follows directly |
| `Markdown.SubsectionCutOff` | app/agent/chunking.py:96-101 | a header with a subsection: its section ends before the subsection, where the comment puts the end of the body |
| `Markdown.ChunkMarkdown` | app/agent/chunking.py:56-109 | preamble, then each section under the prefix of its enclosing headers, each packed; nothing for a blank body |
| `Markdown.MarkdownKeepsVisible` | app/agent/chunking.py:56-109 | every visible character of the body is in the chunks, once and in order |
| `MarkdownRuns.OversizedInPlainTerms` | app/agent/chunking.py:112-142 | a text over the limit is cut at its blank lines; the paragraphs fall into consecutive runs, each chunk is one run joined with blank lines and stripped, and a run ends only where the next paragraph and a blank line would exceed the limit; a blank last run gives no chunk |
| `MarkdownRuns.SplitInPlainTerms` | app/agent/chunking.py:122-122 | joining the paragraphs with blank lines gives the text, and no cut could have been made further left |
| `MarkdownRuns.StripInPlainTerms` | app/agent/chunking.py:130-140 | stripping removes the whitespace at both ends and nothing else |
| `MarkdownRuns.PathOfPrefix` | app/agent/chunking.py:80-94 | the prefix is the label and the lines of the headers that enclose the present one, itself last, with ` > ` between them, or only its own line |
| `MarkdownRuns.MarkdownInPlainTerms` | app/agent/chunking.py:56-109 | the chunks are those of the text before the first header, without a prefix, and then those of each section, from its header to the next, under its path; a stretch gives none when blank, one when it fits, else its runs |
| `Cycles.DetectCycle` | app/agent/loop_cycle_detection.py:27-65 | the least length up to half the trace whose repetition requirement the tail meets, or none when there is none |
| `Cycles.TailRepeats` | app/agent/loop_cycle_detection.py:51-63 | block by block, the tail is a power of its first block exactly when the trace ends in that power of its last one |
| `Cycles.DetectsLeast` | app/agent/loop_cycle_detection.py:40-65 | for two or more repetitions the limit of half the trace excludes nothing: the result is the least of all lengths that meet the requirement |
| `Cycles.DetectedIsPrimitive` | app/agent/loop_cycle_detection.py:46-65 | the reported pattern is not a proper power of a shorter word |
| `Cycles.PeriodicMeets` | app/agent/loop_cycle_detection.py:46-65 | a periodic stretch of enough calls at the end of the trace meets the requirement of its period |
| `Cycles.MeetsByIndex` | app/agent/loop_cycle_detection.py:46-63 | a length meets its requirement if and only if the last calls, one more than demanded for a single call, else the demanded number of cycles, each equal the one a cycle later |
| `Cycles.DetectsInPlainTerms` | app/agent/loop_cycle_detection.py:40-65 | the result is the least length up to half the trace with such a tail, and none exactly when no length has one |
| `AgentLoop.EffectiveMax` | app/agent/loop.py:136-140 | a hard limit on model calls is never exceeded by the effective maximum |
| `AgentLoop.ZeroLimitLeavesNone` | app/agent/loop.py:136-140 | a configured maximum of zero iterations stays zero |
| `AgentLoop.AgentLoop.Iterate` | app/agent/loop.py:212-325 | one iteration does what the turn, the pressure rule and the tokens so far lead to, or says why the loop is left |
| `AgentLoop.AgentLoop.CallModel` | app/agent/loop.py:440-806 | a model call: its tool calls join the trace up to a cancellation, and the loop is left on an answer, a failure, a cancellation or a cycle |
| `AgentLoop.AgentLoop.Run` | app/agent/loop.py:212-806 | model calls never exceed the effective maximum; the pressure step comes at most once and costs a model call; every iteration but the last leaves a trace without a loop; the exit reason is that of the last iteration |
| `AgentLoop.FollowsGrows` | app/agent/loop.py:212-325 | each further step keeps the log what the world's turns lead to |
| `AgentLoop.CallsBesidePressure` | app/agent/loop.py:237-325 | a run with a pressure step makes fewer model calls than iterations |
| `AgentLoop.QuietTraceHasNoLoop` | app/agent/loop.py:797-806 | a trace the detector lets pass has no periodic tail of `2p` calls, or 3 for `p` = 1 |
| `AgentLoop.PeriodicRunBreaks` | app/agent/loop.py:797-806 | once the recorded calls end in such a periodic stretch at an iteration boundary, that iteration was the last |
| `AgentLoop.StepInPlainTerms` | app/agent/loop.py:212-325 | what each iteration of a run did, by what was cancelled, blocked, failed or called in it and by the soft limits; and that the run went on only after a pressure step or after tool calls that were all dispatched |
| `AgentLoop.ExitInPlainTerms` | app/agent/loop.py:440-806 | the reason a run was left for, by the events of its last iteration; a cycle break names the least repeating length |
| `AgentLoop.RecordedInPlainTerms` | app/agent/loop.py:797-806 | the trace is the recorded calls of the iterations, one after the other |
| `Pruning.CompactToolCallArguments` | app/agent/context_pruning.py:125-174 | long arguments that carry no marker are replaced by one; number of replacements and characters saved |
| `Pruning.BuildToolNameMap` | app/agent/context_pruning.py:474-485 | the tool name of every call id, a later call with the same id winning |
| `Pruning.FindBoundary` | app/agent/context_pruning.py:321-338 | the index of the last but `keep` iteration, if there are enough |
| `Pruning.PruneInLoopToolResults` | app/agent/context_pruning.py:282-411 | the messages are rewritten in place to their pruned form, and the statistics are those of the pruned prefix |
| `Pruning.PruneKeeps` | app/agent/context_pruning.py:321-411 | nothing changes from the boundary on; roles, ids, order, sticky results and call names never change |
| `Pruning.RepeatExactly` | app/agent/context_pruning.py:300-302 | pruning again with the same setting changes nothing if and only if every marker written is short or replaces itself |
| `Pruning.CodeRepeatsExactly` | app/agent/context_pruning.py:371-397 | with the marker texts of the code, pruning again changes nothing if and only if each marker is shorter than the limit or exactly as long as what it replaces |
| `Pruning.ResultTextTells` | app/agent/context_pruning.py:386-394 | two markers for one tool and record agree if and only if they name the same length |
| `Pruning.RepeatChangesMarker` | app/agent/context_pruning.py:371-397 | with the marker text of the code, a limit of 40 and a result of 100 characters, the second run replaces the marker of the first |
| `Pruning.SavedAddsUp` | app/agent/context_pruning.py:344-411 | the characters saved are exactly those by which the contents became shorter, plus those counted for arguments |
| `Pruning.PruningComposes` | app/agent/context_pruning.py:321-411 | keeping `k` iterations and later `j <= k` gives the messages and the summed statistics of keeping `j` at once |
| `Pruning.ComposeMessages` | app/agent/context_pruning.py:356-398 | pruning a prefix and then a longer one is pruning the longer one |
| `Pruning.CountAfter` | app/agent/context_pruning.py:356-403 | past the first boundary the single run stays ahead of the second run by what the first counted |
| `PruningTerms.PruneInPlainTerms` | app/agent/context_pruning.py:321-398 | nothing changes from the start of the `keep`-th iteration from the end on, or when there are fewer; before it long arguments and long results that may be pruned become markers, and all else stays |
| `PruningTerms.NameInPlainTerms` | app/agent/context_pruning.py:474-485 | a result is labelled with the tool of the last call with its id, or as unknown when no call has it |
| `PruningTerms.BoundaryInPlainTerms` | app/agent/context_pruning.py:321-338 | the boundary is the `keep`-th from the end of all positions where an iteration starts |
| `PruningTerms.StatsInPlainTerms` | app/agent/context_pruning.py:344-411 | the counters by position: the results and arguments replaced, what the arguments save, and the iterations in which something was replaced |
| `EventCooldown.SortedByTime` | integrations/utils.py:253-253 | all keys of the table, each once, oldest first |
| `EventCooldown.EventGate.Emit` | integrations/utils.py:238-255 | an event is held back exactly when the table has its key within the cooldown; otherwise it is entered and the table, when too large, keeps its 250 newest keys; a firing within the cooldown of the last one of its key had at least 250 other keys in between |
| `EventCooldown.EventGate.Evict` | integrations/utils.py:251-255 | the newest 250 keys stay, the one just fired among them |
| `EventCooldown.FiringTracked` | integrations/utils.py:249-249 | a recorded firing keeps the table in step with the history |
| `EventCooldown.EvictionTracked` | integrations/utils.py:251-255 | so does dropping the oldest keys while 250 newer ones stay |
| `EventCooldown.NewerKept` | integrations/utils.py:251-255 | all keys that stay fired after every key that goes |
| `EventCooldown.LastIsNewest` | integrations/utils.py:251-255 | the key just fired survives eviction |
| `EventCooldown.NotEarly` | integrations/utils.py:245-248 | an event let through is either late enough or its key was overtaken by 250 others |
| `EventCooldown.CooldownInPlainTerms` | integrations/utils.py:238-248 | the event's own cooldown, or else 300, 60 or 30 seconds for messages, polls and devices and none for others |
| `RankFusion.ReciprocalRankFusion` | app/agent/hybrid_search.py:13-43 | an error exactly for a constant that is not positive; else every listed item once with its score, in descending order |
| `RankFusion.TallyList` | app/agent/hybrid_search.py:36-39 | one more list adds to each item the reciprocal of each of its ranks |
| `RankFusion.SortByScore` | app/agent/hybrid_search.py:41-43 | all keys, each once, with descending scores |
| `RankFusion.ScorePermuted` | app/agent/hybrid_search.py:36-39 | the order of the lists does not matter to any score |
| `RankFusion.DominantComesFirst` | app/agent/hybrid_search.py:36-43 | in lists without repeats, an item ranked better than another wherever that one is listed comes out before it |
| `RankFusion.ListScoreInPlainTerms` | app/agent/hybrid_search.py:36-39 | each place of an item at rank `i` of a list, counted from zero, adds `1 / (k + i + 1)` to its score |
| `RankFusion.ScoreInPlainTerms` | app/agent/hybrid_search.py:36-39 | the score is the sum over the lists |
| `ContextBudget.ContextBudget.Consume` | app/agent/context_budget.py:168-171 | consumed tokens, the entry of the category and the history of consumptions grow together; the entries stay the totals of their categories and the consumed tokens their sum |
| `ContextBudget.ContextBudget.Accounts` | app/agent/context_budget.py:140-218 | after any run of nonnegative consumptions the base, live, tool and static parts make up what was consumed, that is the sum of the breakdown, and it exceeds the available budget by no more than what was consumed without a check |
| `ContextBudget.PartsWithin` | app/agent/context_budget.py:192-218 | the named categories together are at most the whole |
| `ContextBudget.OverspendBound` | app/agent/context_budget.py:150-175 | over a run, only unchecked consumptions can exceed the budget |
| `ContextBudget.SumUpdate` | app/agent/context_budget.py:168-171 | setting one entry changes the sum over a map by the difference, whatever the order of summation |
| `ContextBudget.ContextBudget.DynamicTopK` | app/agent/context_budget.py:177-187 | the results granted fit the remaining budget at 500 tokens each and are at most those asked for; none exactly below 500 tokens or when none is asked for |
| `ContextBudget.ContextBudget.PartsInPlainTerms` | app/agent/context_budget.py:150-218 | the base, live and tool parts are what was consumed in their categories and the static part is the rest; tokens are affordable exactly when they fit what is left |

## Left out

- RankFusion.ReciprocalRankFusion: scores are real numbers, so rounding, and with it ties that only rounding makes, is not modelled; the order among equal scores is not stated.
- FileIndex.Indexer.IndexDirectory: the per-root cooldown, progress reports, the full-text column and the touched timestamps are left out; the commit of a file is one atomic step; descriptions and embeddings of a chunk are functions of file, content, version and model, and come in the number asked for.
- FileIndex.FullRunRebuilds: agreement is for runs without segments and without faults; with segments, memory files outside the candidates are kept, as `FileIndex.Indexer.IndexDirectory` states.
- FallbackChain.LlmCaller.RetrySingleModel: cancellation of a call from outside, status events and log lines are left out; the jitter is any draw between the bounds.
- AgentLoop.AgentLoop.Run: the forced response after the loop, hooks, skill nudges, image handling and the prompt texts are left out; what the model and the tools do in a turn is any value.
- Cycles.DetectCycle: the digest that stands for a call's arguments in its signature is any value; two calls with one digest count as equal.
- Markdown.ChunkMarkdown: the header pattern is not interpreted; headers are a parameter, in the order of their positions.
- SlidingWindow.ChunkSlidingWindow: windows of at least one character; `int(window * 0.2)` is `window / 5`; label and language, equal in all chunks, are left out.
- JsonScan.FindTopLevelJsonObjects: JSON parsing is a parameter, told only whether a piece parses to an object.
- Pruning.PruneInLoopToolResults: messages are values in an array, so two entries sharing one message object are not captured; the marker texts are parameters.
- ToolCallXml.FilterStream: independence of the chunking is claimed for the texts that `ToolCallSkim.CutsDoNotMatter` and `ToolCallTags.BlockKeptOff` name; elsewhere a `<` is judged by what happens to be buffered.
- Accumulator.AccumulateStream: reasoning deltas, tool-call deltas, usage, and the final clean-up of the content are left out.
- The turn-boundary form of pruning and the estimate of its savings: the same replacement with another boundary.
- Extraction of JSON tool calls beyond cutting its spans: its code-block pattern and whitespace clean-up are regular expressions.
- ContextBudget.ContextBudget.Consume: whether a caller checked before consuming is a ghost parameter; model windows, token estimates and the utilization ratios are left out.
- Routes, database access, provider clients, embeddings, configuration, user interface and log or trace events.
