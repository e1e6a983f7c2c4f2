# Verified model of conversation compaction, line reading, segment storage, agent discovery and model sync

This project models five parts of the repository in Dafny and proves what they
promise, for all inputs and all runs.

- **Tool pairing** (`Conversation`, `Turns`, `Pairing`, `RunRepair`,
  `DedupResults`, `BackfillCalls`, `HistoryRepair`, `SanitizeHistory`). A
  conversation is cut into turns: an item that is not a tool result, and the run
  of results right behind it. The scans that the sources run over indices, id
  sets and splice lists are methods; each is proved equal to one rewriting of
  the runs, and what the repair promises is proved about that rewriting.
- **Budget fitting** (`Utf8`, `TextCut`, `BudgetFit`, `TokenEstimate`, `TokenCensus`,
  `TruncationCost`, `TailShares`, `BudgetOutcome`). The suffix scan, the tail-unit recovery and
  the UTF-8-safe cut, for any cost function, and then for the repository's own
  estimator.
- **Text cleaning** (`Text`, `UserQuery`, `QueryText`, `CompactSummary`, `CleanSummary`,
  `SummaryText`, `UntaggedScratchpad`, `CompactedHistory`, `UserTurns`). Query wrapping and extraction,
  the summary rewriter, and the compacted history built from them.
- **The line reader** (`LineReader`, `LineStream`, `LineGuarantees`, `LineSuspension`,
  `LineFailures`, `LineAnswers`). The capped line read over a chunked source, `poll_read`
  over its fields, and the producer, channel and consumer as interleaved steps.
- **Segments, agents, sync** (`SegmentNames`, `SegmentBudget`, `AgentDiscovery`,
  `AgentEntries`, `AgentVisibility`, `TomlBlocks`, `TomlSync`, `TomlFields`, `TomlEdits`,
  `TomlAppend`, `TomlPushed`, `TomlFixpoint`, `TomlPlacement`, `TomlReport`).

Verify everything with `dafny verify dfyconfig.toml`.

## Where the code and its documentation disagree

The model follows the code. Each disagreement is a theorem: when the documented
claim holds, and an input on which it fails.

- `repair_history` is called idempotent and pairing. Both hold exactly when no
  Assistant declares twice an id that its run leaves unanswered
  (`HistoryRepair.RepairPairs`, `RepairIdempotence`); the second repair always
  pairs. A double declaration gets two stand-ins, and the next repair removes one.
- `fit_conversation_to_budget` is to shrink a conversation to `max_tokens`.
  `BudgetOutcome.KeepsBudgetIff` is the exact condition, for every conversation. Besides
  a System head over the budget there are two ways out. The exit that truncates one last
  item gives each of its texts the whole budget, leaves calls and images alone, and does
  not cut System, Reasoning and BackendToolCall items at all: a user item with two texts
  comes back unchanged at twice the budget (`TruncationCost.TwoTextsNotShrunk`). The exit
  that recovers trailing results keeps their owner in full: an answered call with long
  arguments comes back unchanged, however small the budget
  (`BudgetOutcome.LongCallNotShrunk`). How far each exit can exceed it is bounded.
- `truncate_text_to_bytes` is documented to stay within `max_bytes`. It does exactly
  under `TextCut.SmallBudgetFits` up to the 64-byte reserve of its marker, and under
  `TextCut.LargeBudgetFits` from there on. It makes a text longer exactly when the text
  has fewer than 58 bytes (`TextCut.CutTextGrowsIff`).
- `strip_system_tags`, which is to remove every tagged stretch, and so
  `extract_user_query` are not idempotent: cutting out a pair of a later tag can
  complete a pair of an earlier one (`UserQuery.StripNotIdempotent`). On texts in which
  no system tag is begun and broken off by a system opener they are, and no pair is left
  (`ClearStripped`, `ClearQueryRoundTrips`); this holds of every text without a system
  opener and of every text with a `>` between any two `<` (`TaglessIsClear`,
  `FlatIsClear`). The condition is sufficient, not necessary.
- `LineBufferedRead` is to let a consumer's `read_line` complete without an intermediate
  pending poll. Some run has a poll wait while the consumer holds part of a line exactly
  when the source ends without a newline, no line of it is oversized, and it does not
  break (`LineSuspension.WaitsInLineIff`): the reader hands the last line out before it
  knows that the source has ended. One byte that is no newline is the input
  (`OneByteWaits`).
- `render_segment_md` says the document stays under the cap. The newlines that
  join the turns are not charged to the budget; the cap is kept by all documents
  of a given size exactly under `SegmentBudget.CapHoldsIff`.
- `merge_subagents` claims that visible is callable. There are two ways out. It screens
  three built-in names where the lookup screens twelve; and it lists an agent under the
  name its file declares, where the lookup goes by the stem of the file, and nothing
  compares the two. `AgentVisibility.EntryAgreesIff` is the exact condition for one entry
  in any set of files, `ListAgreesIff` for the whole list; `UnscreenedNameDisagrees` and
  `StemDisagrees` are the inputs.
- An image-only prompt is a real user turn, but its empty query, wrapped into the
  compacted history, is not one any more (`CompactedHistory.ImageOnlyQueryIsLost`).
- `upsert_config` says that it inserts before the `[ui]` block. A plain `[ui]` header
  names no key; a new block goes before a block exactly when some header is read as the
  key `ui`, as `[model.ui]` is, and else to the end (`TomlAppend.InsertedBeforeUiIff`,
  `PlainUiIsPassedOver`).
- `sync_config` is meant to be repeatable. On any text and any list of models it is exactly
  when models of one id agree, and: what stands behind the last newline is blank, or some
  block is keyed `ui`, or every model has its block already or comes behind one that
  updates the last block, or else every model comes again behind the first that has no
  block, or has one that is not the last (`TomlPlacement.QuietIff`). A text of one unended
  line is the input (`UnendedIsNotQuiet`), and `TomlAppend.AppendFindsKeyIff` the reason:
  the new header joins that line.

## Model

| member | source | states |
|---|---|---|
| Turns.SplitCanonical | crates/codegen/cf-chat-state/src/compaction_utils.rs:987-1022 | the cut into turns loses nothing: joining the turns gives the conversation back |
| Turns.TurnsOfRewrite | crates/codegen/cf-chat-state/src/compaction_utils.rs:970-986 | a rewriting of runs leaves every leader alone and shows up turn by turn |
| Pairing.WellPairedByTurn | crates/codegen/cf-chat-state/src/compaction_utils.rs:956-969 | the position-wise provider rule (no displaced result, each call answered exactly once in its run) is the turn-wise one |
| Pairing.LaxFilterIsLaxlyPaired | crates/codegen/cf-chat-state/src/compaction_utils.rs:902-944 | dropping the results the lax rule rejects leaves a history on which it rejects none |
| DedupResults.DedupDuplicateToolResults | crates/codegen/cf-sampling-types/src/conversation.rs:2911-2960 | the index scan with its removals is the rewriting that keeps the last result of each call in each calling Assistant's run, and counts what it removed |
| DedupResults.FindDuplicates | crates/codegen/cf-sampling-types/src/conversation.rs:2911-2960 | the forward scan with a last-seen map marks exactly the results that a later one of the same call supersedes |
| BackfillCalls.RepairDanglingToolCalls | crates/codegen/cf-sampling-types/src/conversation.rs:2784-2844 | recording splices front to back and applying them back to front appends to each run one stand-in per unanswered call, in call order, and counts them |
| BackfillCalls.UnansweredStandIns | crates/codegen/cf-sampling-types/src/conversation.rs:2784-2844 | the stand-ins of one run: one per call that no recorded result answers, in call order |
| BackfillCalls.ApplySplices | crates/codegen/cf-sampling-types/src/conversation.rs:2840-2844 | splices applied from the last to the first land where they were recorded |
| RunRepair.RepairedCount | crates/codegen/cf-chat-state/src/compaction_utils.rs:970-986 | how often each id is answered in a repaired run: once if it was answered, once per declaration if not, never if undeclared |
| RunRepair.RepairedRunIs | crates/codegen/cf-chat-state/src/compaction_utils.rs:970-986 | a repaired run to the letter: the results that stay, in their order, and behind them one stand-in per call the run leaves unanswered, in call order, with that call's id and the text for its name |
| RunRepair.RepairTurnPairs | crates/codegen/cf-chat-state/src/compaction_utils.rs:970-986 | one repair pairs a turn exactly when no unanswered id is declared twice |
| RunRepair.PairedTurnIsFixpoint | crates/codegen/cf-chat-state/src/compaction_utils.rs:956-986 | a turn is paired exactly when none of the three passes changes it |
| HistoryRepair.StripDisplacedToolResults | crates/codegen/cf-chat-state/src/compaction_utils.rs:996-1022 | the scan keeps a result exactly when the nearest earlier item that is not a result declares its id, keeps everything else in order, and reports the stripped ids in order |
| HistoryRepair.StripIsRewrite | crates/codegen/cf-chat-state/src/compaction_utils.rs:987-1022 | filtering positions by that rule is dropping, run by run, what the leader does not own |
| HistoryRepair.RepairHistory | crates/codegen/cf-chat-state/src/compaction_utils.rs:945-986 | the three passes compose to one rewriting. The report, read off the input: how many results a later one of the same call in the same run supersedes; the ids of the other results outside an own run, in order; how many declared calls no result of their run answers. `changed()` is false exactly on well-paired input, which comes back as it was |
| HistoryRepair.RepairPairs | crates/codegen/cf-chat-state/src/compaction_utils.rs:956-986 | the repaired history is well paired exactly when no unanswered id is declared twice |
| HistoryRepair.RepairTwicePairs | crates/codegen/cf-chat-state/src/compaction_utils.rs:956-986 | two repairs always pair |
| HistoryRepair.WellPairedUntouched | crates/codegen/cf-chat-state/src/compaction_utils.rs:956-986 | a well-paired history is left as it is |
| HistoryRepair.RepairIdempotence | crates/codegen/cf-chat-state/src/compaction_utils.rs:956-969 | the second repair changes nothing exactly under the same condition, and the third never changes anything |
| HistoryRepair.RepairNotIdempotent | crates/codegen/cf-chat-state/src/compaction_utils.rs:956-969 | a history on which the second repair still changes something |
| HistoryRepair.RepairPreserves | crates/codegen/cf-chat-state/src/compaction_utils.rs:956-986 | all non-results stay in order, the last result of each declared call stays, and only stand-ins for unanswered calls are added |
| SanitizeHistory.ValidateCompactedHistory | crates/codegen/cf-chat-state/src/compaction_utils.rs:881-900 | the scan over a growing id set reports, in order, exactly the results with no earlier declaration |
| SanitizeHistory.SanitizeCompactedHistory | crates/codegen/cf-chat-state/src/compaction_utils.rs:917-944 | sanitizing strips exactly the ids that validation reports and keeps the rest in order |
| SanitizeHistory.ReportedAre | crates/codegen/cf-chat-state/src/compaction_utils.rs:881-900 | the report is the call ids of the results with no earlier declaration, all of them, in the order of their positions |
| SanitizeHistory.KeptAre | crates/codegen/cf-chat-state/src/compaction_utils.rs:917-944 | what is kept is every other item, in order |
| SanitizeHistory.ValidIffLaxlyPaired | crates/codegen/cf-chat-state/src/compaction_utils.rs:870-900 | validation is empty exactly when every result has an earlier declaration |
| SanitizeHistory.SanitizedIsValid | crates/codegen/cf-chat-state/src/compaction_utils.rs:902-944 | sanitized output validates, and sanitizing it again removes nothing |
| SanitizeHistory.StrictKeepsSubset | crates/codegen/cf-chat-state/src/compaction_utils.rs:987-1022 | the strict rule keeps no result that the lax one drops |
| SanitizeHistory.LaxKeepsDisplaced | crates/codegen/cf-chat-state/src/compaction_utils.rs:987-995 | the two rules differ: a user item may split a pair under the lax one |
| TextCut.TruncateTextToBytes | crates/codegen/cf-chat-state/src/compaction_utils.rs:225-241 | the backward boundary search cuts between characters, at the longest prefix that fits the kept bytes, and adds the marker with the true count of dropped bytes |
| TextCut.CutTextShape | crates/codegen/cf-chat-state/src/compaction_utils.rs:225-241 | the exact shape and byte length of a cut text, for every text and limit; at most three bytes of room go unused |
| TextCut.CutTextBound | crates/codegen/cf-chat-state/src/compaction_utils.rs:219-241 | at most max(`max_bytes`, 64) bytes, plus the digits beyond eight; so max(`max_bytes`, 64) below 10^8 bytes |
| TextCut.SmallBudgetFits | crates/codegen/cf-chat-state/src/compaction_utils.rs:219-241 | below the reserve the result keeps the limit exactly when the bare marker does |
| TextCut.LargeBudgetFits | crates/codegen/cf-chat-state/src/compaction_utils.rs:219-241 | from the reserve on the result keeps the limit exactly when the count's digits beyond eight fit the room that the boundary search left |
| TextCut.CutTextGrowsIff | crates/codegen/cf-chat-state/src/compaction_utils.rs:225-241 | truncation makes a text longer exactly when it has fewer than 58 bytes |
| TextCut.TruncateItemToTokens | crates/codegen/cf-chat-state/src/compaction_utils.rs:196-218 | only the text of results, Assistants and user parts is cut, each to four bytes a token, saturating |
| BudgetFit.SuffixStart | crates/codegen/cf-chat-state/src/compaction_utils.rs:132-152 | the backward scan stops at the longest suffix whose cost fits |
| BudgetFit.PopResults | crates/codegen/cf-chat-state/src/compaction_utils.rs:163-180 | popping from the back takes off exactly the trailing results, in order |
| BudgetFit.RecoverTruncatedTailUnit | crates/codegen/cf-chat-state/src/compaction_utils.rs:163-195 | popping the trailing results and their owner yields the last unit, each result cut to an equal share of what the owner leaves |
| TailShares.CutItemKeeps | crates/codegen/cf-chat-state/src/compaction_utils.rs:196-241 | cutting an item to a number of tokens keeps each text of at most four bytes a token as it is, and of a longer one all but at most three of those bytes less 64; calls, images and ids stay |
| TailShares.TailUnitKeeps | crates/codegen/cf-chat-state/src/compaction_utils.rs:163-195 | each trailing result keeps, in that sense, its even share of what the owner leaves of the budget, one token at least; the owner is kept in full |
| BudgetFit.FitConversationToBudget | crates/codegen/cf-chat-state/src/compaction_utils.rs:128-160 | both exits together compute the fitted conversation, for any cost function |
| BudgetFit.FittedIsSuffix | crates/codegen/cf-chat-state/src/compaction_utils.rs:128-195 | the outcome is the System head and a suffix of the rest, item for item, up to cut text |
| BudgetFit.FittingSuffixKept | crates/codegen/cf-chat-state/src/compaction_utils.rs:126-162 | every suffix that starts at no result and fits with the System head comes back as it was, behind the head |
| BudgetFit.FittedKeepsPairing | crates/codegen/cf-chat-state/src/compaction_utils.rs:128-195 | strict pairing in gives strict pairing out through both exits; well-paired in gives well-paired out, so runs are kept whole or dropped whole |
| BudgetFit.FittedKeepsEnds | crates/codegen/cf-chat-state/src/compaction_utils.rs:128-195 | the most recent item is never lost and a leading System stays |
| BudgetFit.SuffixExitCost | crates/codegen/cf-chat-state/src/compaction_utils.rs:132-160 | through the suffix exit the outcome costs at most the budget, or the head alone |
| TokenEstimate.EstimateNearBytes | crates/codegen/cf-token-estimation/src/lib.rs:85-108 | the CJK-aware estimate of a text is at most a quarter of its UTF-8 bytes plus one |
| TokenCensus.EstimateTextIs | crates/codegen/cf-token-estimation/src/lib.rs:85-108 | the one scan charges a text by its characters of three classes, wherever they stand: a quarter token per ASCII character, three fifths per CJK one, rounded up, a quarter per byte of the rest |
| TokenCensus.EstimateCovers | crates/codegen/cf-token-estimation/src/lib.rs:85-108 | the other side: a text has at most five bytes per token it is charged, and six more |
| TokenCensus.EstimateItemIs | crates/codegen/cf-chat-state/src/actor/state.rs:67-107 | an item is charged for its texts, a call for its arguments, 765 for each image of a user item, a quarter token per byte of encrypted reasoning, and for nothing else |
| TokenEstimate.TailUnitBytes | crates/codegen/cf-chat-state/src/compaction_utils.rs:163-195 | with 16 tokens or more for each result and contents below 10^8 bytes, the cut results hold at most four bytes per token that the owner leaves, for any cost function |
| TokenEstimate.TailUnitTokens | crates/codegen/cf-chat-state/src/actor/state.rs:67-107 | then, under the repository's own estimator, the recovered unit overruns the budget by at most one token a result |
| TruncationCost.TailBytesBound | crates/codegen/cf-chat-state/src/compaction_utils.rs:163-195 | for every budget, owner, result and cost function: how many bytes the recovered results hold at most, from the share that each gets |
| TruncationCost.TailUnitBound | crates/codegen/cf-chat-state/src/compaction_utils.rs:163-195 | what the recovered unit costs at most, from that share |
| BudgetOutcome.RecoveredCost | crates/codegen/cf-chat-state/src/compaction_utils.rs:163-195 | what the exit that recovers trailing results costs: the head, the owner in full, and each result cut to its share |
| BudgetOutcome.RecoveryKeepsBudgetIff | crates/codegen/cf-chat-state/src/compaction_utils.rs:126-195 | that exit keeps the budget exactly when these fit it |
| BudgetOutcome.KeepsBudgetIff | crates/codegen/cf-chat-state/src/compaction_utils.rs:126-195 | every conversation and budget: the outcome is within the budget exactly when the conversation fits, or its head does, together with what is left of a last item or of last results and their owner that alone are too long |
| BudgetOutcome.LongCallNotShrunk | crates/codegen/cf-chat-state/src/compaction_utils.rs:126-195 | an answered call comes back unchanged, at the cost of its arguments, for every budget below them |
| TruncationCost.TruncatedCost | crates/codegen/cf-chat-state/src/compaction_utils.rs:171-175 | what the exit that truncates one item costs, from the texts that are kept |
| TruncationCost.TruncationKeepsBudgetIff | crates/codegen/cf-chat-state/src/compaction_utils.rs:126-175 | that exit keeps the budget exactly when the head fits, the item is of a kind that is cut, and its texts, each cut to the whole budget, still fit with calls and images |
| TruncationCost.UserBound | crates/codegen/cf-chat-state/src/compaction_utils.rs:196-218 | a user item of k texts and j images costs at most k * (max(budget, 16) + 4) + 765 * j |
| TruncationCost.ModestUserBound | crates/codegen/cf-chat-state/src/compaction_utils.rs:196-218 | at most k * (budget + 1) + 765 * j for texts below 10^8 bytes and a budget of 16 or more |
| TruncationCost.AssistantBound | crates/codegen/cf-chat-state/src/compaction_utils.rs:196-218 | an Assistant costs its cut content and its call arguments in full |
| TruncationCost.TwoTextsNotShrunk | crates/codegen/cf-chat-state/src/compaction_utils.rs:126-175 | a conversation that comes back unchanged at twice the budget |
| UserQuery.StripSystemTagsLoop | crates/codegen/cf-chat-state/src/compaction_utils.rs:259-275 | the nested loops terminate and compute the tag-by-tag stripping |
| UserQuery.StripTagLeavesNoPair | crates/codegen/cf-chat-state/src/compaction_utils.rs:259-275 | stripping a tag leaves no complete pair of it, and shortens the text exactly when there was one |
| QueryText.StretchRemoved | crates/codegen/cf-chat-state/src/compaction_utils.rs:259-275 | the first complete stretch of a tag goes, content included, and what stands around it stays |
| QueryText.BlockRemoved | crates/codegen/cf-chat-state/src/compaction_utils.rs:255-275 | one system block in a text with no other pair: exactly the block goes, and the outer blanks |
| UserQuery.StripSystemTagsFixed | crates/codegen/cf-chat-state/src/compaction_utils.rs:259-275 | a text passes unchanged exactly when it is trimmed and holds no complete pair |
| UserQuery.QueryRoundTrip | crates/codegen/cf-chat-state/src/compaction_utils.rs:280-291 | wrapping and extracting returns the query exactly when it is trimmed, holds no closing query tag and no complete pair |
| QueryText.SurroundingsDropped | crates/codegen/cf-chat-state/src/compaction_utils.rs:280-291 | the query is what stands between the first opening tag and the next closing one, whatever surrounds them, trimmed and stripped |
| QueryText.PlainIsItsQuery | crates/codegen/cf-chat-state/src/compaction_utils.rs:280-291 | a prompt with no query in tags is its own query exactly when it is trimmed and holds no complete system pair; with no pair its query is the prompt, trimmed |
| UserQuery.StripNotIdempotent | crates/codegen/cf-chat-state/src/compaction_utils.rs:255-275 | one tag nested in the opener of another: stripping leaves a complete pair, and stripping again changes the text |
| UserQuery.ClearStripped | crates/codegen/cf-chat-state/src/compaction_utils.rs:255-275 | on every text in which no system tag is begun and broken off by a system opener, every complete pair is removed and stripping is idempotent; a tag it does not break off is not created |
| UserQuery.ClearQueryRoundTrips | crates/codegen/cf-chat-state/src/compaction_utils.rs:280-291 | a query extracted from such a text round-trips, if the closing query tag is not broken off and the query was found between its tags or the text has no closing tag |
| UserQuery.TaglessIsClear | crates/codegen/cf-chat-state/src/compaction_utils.rs:255-275 | a text without a system opener meets the condition |
| UserQuery.FlatIsClear | crates/codegen/cf-chat-state/src/compaction_utils.rs:255-275 | a text with a `>` between any two `<` meets the condition |
| CompactSummary.FormatCompactSummary | crates/codegen/cf-chat-state/src/compaction_utils.rs:625-663 | the peeling loop, the unwrapping and the collapsing loop terminate, index safely and compute the cleaned text |
| CompactSummary.PeelLoop | crates/codegen/cf-chat-state/src/compaction_utils.rs:627-650 | the loop that peels leading scratchpad blocks terminates and computes the peeled text |
| CompactSummary.CollapseLoop | crates/codegen/cf-chat-state/src/compaction_utils.rs:659-661 | replacing triples until none is left cuts each newline run to two and changes nothing else |
| SummaryText.NoBlockKept | crates/codegen/cf-chat-state/src/compaction_utils.rs:625-663 | a text with no leading scratchpad and no complete block, whether a tag is missing or the closer stands first, loses nothing: it is defused, squeezed and trimmed |
| SummaryText.UnclosedVerbatim | crates/codegen/cf-chat-state/src/compaction_utils.rs:625-663 | a summary that was never closed comes back behind the defused opener, to the letter but for blanks at its end |
| SummaryText.NumberedBlock | crates/codegen/cf-chat-state/src/compaction_utils.rs:648-686 | what stands before and behind a complete block is kept around the heading and the numbered body |
| SummaryText.PlainBlock | crates/codegen/cf-chat-state/src/compaction_utils.rs:648-686 | so is it around a body with no scratchpad closer, less a wrapper that it starts with |
| SummaryText.HeaderedBlock | crates/codegen/cf-chat-state/src/compaction_utils.rs:648-686 | so is it around an unnumbered body with notes, which go up to their last closer |
| SummaryText.ClosedScratchpadDropped | crates/codegen/cf-chat-state/src/compaction_utils.rs:627-642 | a leading scratchpad that is closed goes, and what stands around it is cleaned as if it had never been there |
| SummaryText.OpenScratchpadCut | crates/codegen/cf-chat-state/src/compaction_utils.rs:642-647 | one that is not closed goes up to the next summary opener, or to the end |
| SummaryText.OpenScratchpadBlock | crates/codegen/cf-chat-state/src/compaction_utils.rs:642-663 | and a complete block behind it is unwrapped as ever |
| SummaryText.NeutralizedPlain | crates/codegen/cf-chat-state/src/compaction_utils.rs:687-700 | but for the zero-width spaces it puts in, defusing leaves a text as it was |
| CleanSummary.FormattedIsClean | crates/codegen/cf-chat-state/src/compaction_utils.rs:614-663 | for every input, none of the six control tokens, no triple newline, nothing to trim |
| CleanSummary.DefusingCreatesNone | crates/codegen/cf-chat-state/src/compaction_utils.rs:687-700 | defusing one token brings no other to life, and leaves none of its own |
| CleanSummary.NeutralizedHasNone | crates/codegen/cf-chat-state/src/compaction_utils.rs:687-700 | the six replacements in turn leave none of the tokens |
| CleanSummary.CleanIsFixpoint | crates/codegen/cf-chat-state/src/compaction_utils.rs:625-663 | the clean texts are exactly those that pass unchanged |
| CleanSummary.FormatIdempotent | crates/codegen/cf-chat-state/src/compaction_utils.rs:709-717 | cleaning twice is cleaning once; the degenerate verdict is the same on raw and cleaned text |
| CleanSummary.NumberedBodyKept | crates/codegen/cf-chat-state/src/compaction_utils.rs:664-686 | a body that starts with a number behind decoration is never cut, whatever tags it echoes |
| CleanSummary.NumberedBodyVerbatim | crates/codegen/cf-chat-state/src/compaction_utils.rs:620-686 | and without echoed tokens and blank-line runs it is kept to the letter |
| CleanSummary.LeadingScratchpadDropped | crates/codegen/cf-chat-state/src/compaction_utils.rs:614-650 | a leading scratchpad block vanishes, whatever it quotes besides its own closer and whatever follows |
| UntaggedScratchpad.UntaggedScratchpadDropped | crates/codegen/cf-chat-state/src/compaction_utils.rs:664-686 | in a block that starts with neither a number nor an opener the notes before the last closer are dropped whole, closers they quote included, and what follows is kept, but for a wrapper |
| UntaggedScratchpad.UntaggedScratchpadVerbatim | crates/codegen/cf-chat-state/src/compaction_utils.rs:620-686 | and without echoed tokens and blank-line runs it is kept to the letter |
| CompactedHistory.BuildCompactedHistory | crates/codegen/cf-chat-state/src/compaction_utils.rs:828-863 | the pushes yield metadata, the wrapped query, the recent messages, the summary and the reminder, in this order |
| CompactedHistory.CompactedItems | crates/codegen/cf-chat-state/src/compaction_utils.rs:702-863 | the history item by item with its texts: system message, prefix, project reminder, wrapped query, recent messages, preamble with the cleaned summary and the hint, system reminder |
| CompactedHistory.SummaryStands | crates/codegen/cf-chat-state/src/compaction_utils.rs:702-863 | a clean summary stands to the letter in the one item right behind the recent messages |
| CompactedHistory.RecentMessagesAre | crates/codegen/cf-chat-state/src/compaction_utils.rs:428-464 | the recent messages are the Assistants, as they are, and the results, with a placeholder, that stand behind the last real user turn, in order |
| UserTurns.PlainTurnIff | crates/codegen/cf-chat-state/src/compaction_utils.rs:328-368 | a prompt without query tags and system pairs is a real turn exactly when it is not marked synthetic and has an image, or a text that is none of the three automatic ones; its query is its text, trimmed |
| UserTurns.TaggedTurnIff | crates/codegen/cf-chat-state/src/compaction_utils.rs:328-368 | a prompt with a query in tags goes by that query alone |
| UserTurns.TextContentCons | crates/codegen/cf-sampling-types/src/conversation.rs:1138-1152 | the text of a prompt is its text parts, in order, a newline between any two, its images passed over |
| CompactedHistory.CompactionValidIff | crates/codegen/cf-chat-state/src/compaction_utils.rs:428-464 | for any system message: the compacted history validates exactly when each result after the last real user turn is declared after it, or by that message |
| CompactedHistory.CompactionValid | crates/codegen/cf-chat-state/src/compaction_utils.rs:428-464 | so it validates when every result has an earlier declaring Assistant with no real user turn between, synthetic user items allowed |
| CompactedHistory.RecentMessagesSurvive | crates/codegen/cf-chat-state/src/compaction_utils.rs:444-464 | extracting again from the compacted history returns the same recent messages, exactly when the system message is no call or result or the wrapped query stands behind it |
| CompactedHistory.LastQuerySurvivesIff | crates/codegen/cf-chat-state/src/compaction_utils.rs:391-398 | for any system message: the last real query is found again exactly when it round-trips and is not a synthetic text, or the system message stands in for it |
| CompactedHistory.ContextSurvivesIff | crates/codegen/cf-chat-state/src/compaction_utils.rs:570-582 | a second compaction sees the same context exactly when there is no real query and the system message is inert, or one with no closing tag, no complete pair and no synthetic text, or one the system message stands in for |
| CompactedHistory.ImageOnlyQueryIsLost | crates/codegen/cf-chat-state/src/compaction_utils.rs:339-368 | an image-only prompt has no real query left after compaction, unless the system message is a real turn |
| LineReader.ReadLineCapped | crates/codegen/cf-acp-lib/src/line_reader.rs:140-177 | over any chunking, exactly the first line and the source right behind it; too long exactly when that line exceeds the limit; an I/O error exactly when the source breaks inside a line that fits |
| LineStream.LineBufferedRead.PollRead | crates/codegen/cf-acp-lib/src/line_reader.rs:95-133 | one poll on the fields and the destination buffer is one serving step |
| LineStream.LineBufferedRead.constructor | crates/codegen/cf-acp-lib/src/line_reader.rs:88-92 | a new reader has nothing buffered |
| LineStream.LineBufferedRead.ServeBuffered | crates/codegen/cf-acp-lib/src/line_reader.rs:103-113 | the rest of the current line goes out as far as it fits, and the buffer is cleared once it is out |
| LineStream.LineBufferedRead.ServeLine | crates/codegen/cf-acp-lib/src/line_reader.rs:117-127 | the front of a received line goes out and its remainder is stashed |
| LineStream.Copy | crates/codegen/cf-acp-lib/src/line_reader.rs:104-108 | copying fills the front of the destination and leaves the rest |
| LineStream.FillInv | crates/codegen/cf-acp-lib/src/line_reader.rs:69-86 | a reading step of the producer keeps the stream invariant, also when it fails |
| LineStream.PollInv | crates/codegen/cf-acp-lib/src/line_reader.rs:95-133 | a poll with any destination size keeps it |
| LineFailures.FinishedReports | crates/codegen/cf-acp-lib/src/line_reader.rs:62-133 | over the answers of a whole run to its end: one error, the failure of the source, when it has one, and the whole lines ahead of it; else none and the whole source |
| LineFailures.FailureComesFirst | crates/codegen/cf-acp-lib/src/line_reader.rs:69-86 | on a source that breaks or holds an oversized line, no poll with room answers `Ok(0)` before one has answered the failure |
| LineFailures.AnsweredIsFailure | crates/codegen/cf-acp-lib/src/line_reader.rs:69-86 | an answered error is the failure of the source, and there is never a second one |
| LineFailures.FailureUnique | crates/codegen/cf-acp-lib/src/line_reader.rs:135-177 | a source has one failure at most: the error, its byte count, and the lines ahead of it are fixed |
| LineFailures.FailureKind | crates/codegen/cf-acp-lib/src/line_reader.rs:135-177 | it is an oversized line exactly when the source holds one, and else the break |
| LineAnswers.EofIff | crates/codegen/cf-acp-lib/src/line_reader.rs:116-131 | a poll with room answers `Ok(0)` exactly when the producer has stopped and all is served, and nothing changes from then on |
| LineAnswers.AnswersAddUp | crates/codegen/cf-acp-lib/src/line_reader.rs:95-133 | the byte counts that a run is answered add up to what it has delivered, and over a sound source served to its end to the whole source |
| LineGuarantees.BytesConserved | crates/codegen/cf-acp-lib/src/line_reader.rs:62-133 | in every state of every interleaving: delivered, buffered, queued, held, lost and unread bytes together are the source; delivered bytes are a prefix |
| LineGuarantees.NeverPendingInsideLine | crates/codegen/cf-acp-lib/src/line_reader.rs:11-14 | a poll is pending only between two lines, or when the whole source is out |
| LineSuspension.WaitsInLineIff | crates/codegen/cf-acp-lib/src/line_reader.rs:34-40 | for any chunking and capacity: a poll can be pending while the consumer holds part of a line exactly when the source ends without a newline, all its lines fit, and it does not break |
| LineSuspension.OneByteWaits | crates/codegen/cf-acp-lib/src/line_reader.rs:34-40 | a source of one byte that is no newline: the byte is out, and the next poll is pending |
| LineGuarantees.InsideLineIsReady | crates/codegen/cf-acp-lib/src/line_reader.rs:34-40 | once part of a line is out, every poll with room delivers at least one more byte of it |
| LineGuarantees.SendsFirstLine | crates/codegen/cf-acp-lib/src/line_reader.rs:69-86 | what the producer sends is the first line of what it had left to read, or the failure that line ends in |
| LineGuarantees.EofMeansAll | crates/codegen/cf-acp-lib/src/line_reader.rs:129 | with no oversized line and no I/O error, `Ok(0)` on a buffer with room means the whole source is out, and no poll fails |
| LineGuarantees.FailureAfterLines | crates/codegen/cf-acp-lib/src/line_reader.rs:81-84 | a failure arrives after every whole line before it, between two lines |
| LineGuarantees.SomeActionMoves | crates/codegen/cf-acp-lib/src/line_reader.rs:62-133 | no deadlock: until all is served some step is enabled, for any channel capacity |
| LineGuarantees.EveryMoveWorks | crates/codegen/cf-acp-lib/src/line_reader.rs:62-133 | no livelock: every step that changes the state leaves less to do |
| LineGuarantees.CanFinish | crates/codegen/cf-acp-lib/src/line_reader.rs:62-133 | from every reachable state the stream can be served to its end |
| SegmentNames.SegmentRoundTrip | crates/codegen/cf-chat-state/src/compaction_transcript.rs:80-97 | every u64 index names a file that parses back to it, and no larger index does |
| SegmentNames.SegmentFilenameIs | crates/codegen/cf-chat-state/src/compaction_transcript.rs:80-97 | the name of a segment, in its pieces: at least three digits, and only as many as it takes |
| SegmentNames.ParseSegmentIndexIff | crates/codegen/cf-chat-state/src/compaction_transcript.rs:80-97 | a name is parsed exactly when digits, behind a plus sign or none, stand between prefix and suffix and are a 64-bit number |
| SegmentNames.SegmentPathIff | crates/codegen/cf-chat-state/src/compaction_transcript.rs:117-141 | a path is a segment exactly when it is some prefix, `compaction/` and a parsable name, further occurrences of `compaction` in the prefix included |
| SegmentNames.IndexPathIff | crates/codegen/cf-chat-state/src/compaction_transcript.rs:117-141 | a path is the index exactly when it ends in `compaction/INDEX.md` |
| SegmentNames.DirPathIff | crates/codegen/cf-chat-state/src/compaction_transcript.rs:117-141 | a path is the directory exactly when it ends in a component `compaction`, slashes behind it or none |
| SegmentNames.SegmentFileRecognised | crates/codegen/cf-chat-state/src/compaction_transcript.rs:86-141 | every segment file is recognised under every prefix |
| SegmentBudget.RenderSegmentMd | crates/codegen/cf-chat-state/src/compaction_transcript.rs:476-506 | the loop shows a prefix of the turns and accounts for all others in the notice |
| SegmentBudget.ShowsLongest | crates/codegen/cf-chat-state/src/compaction_transcript.rs:485-494 | that prefix is the longest one within the budget |
| SegmentBudget.ShownWithin | crates/codegen/cf-chat-state/src/compaction_transcript.rs:476-494 | how many turns are shown, in numbers: as many of the first ones as fit with the preamble and 128 bytes to spare into 512 KiB |
| SegmentBudget.DocumentText | crates/codegen/cf-chat-state/src/compaction_transcript.rs:476-506 | the document text by text: preamble, shown turns, and the notice with the count of the rest |
| Text.JoinLinesCons | crates/codegen/cf-chat-state/src/compaction_transcript.rs:497-497 | joined pieces stand in their order, a newline between any two |
| SegmentBudget.DocumentBound | crates/codegen/cf-chat-state/src/compaction_transcript.rs:476-506 | for every preamble: at most the cap, or the preamble and 128 bytes if that is more, + max(n, 1) - 75 + the digits of the omitted count; with none omitted, + max(n, 1) - 129 |
| SegmentBudget.SmallDocumentFits | crates/codegen/cf-chat-state/src/compaction_transcript.rs:476-506 | at most the cap + max(n, 1) - 55 bytes for n rendered turns, so up to 55 turns stay under the cap |
| SegmentBudget.CapHoldsIff | crates/codegen/cf-chat-state/src/compaction_transcript.rs:315-506 | over turns of the shape the renderers give them, and preambles of at least a given length: when every document of n rendered and m omitted turns keeps the cap, and when there is none |
| AgentDiscovery.DiscoverWithHome | crates/codegen/cf-agent/src/discovery.rs:231-248 | loading directories in order over a growing name set keeps the first definition of each name |
| AgentDiscovery.LoadDefinitionsFromDir | crates/codegen/cf-agent/src/discovery.rs:625-660 | one directory adds, in order, the first definition of each name that was not seen, and all its names to the seen ones |
| AgentEntries.DiscoveredAre | crates/codegen/cf-agent/src/discovery.rs:231-248 | discovery keeps exactly the definitions that are the first of their name, in order |
| AgentDiscovery.MergeSubagents | crates/codegen/cf-agent/src/discovery.rs:92-181 | the in-place merge leaves one entry per name, each what the definitions of its name make of the built-in entry, built-ins first and then in the order of discovery, less what is toggled off |
| AgentEntries.MergedIsBest | crates/codegen/cf-agent/src/discovery.rs:107-170 | the entry of a name says what the best of its definitions says, the first of the highest rank, and which built-in it shadows; with no definition that counts it is the seed |
| AgentEntries.NamesAre | crates/codegen/cf-agent/src/discovery.rs:107-170 | the order of the list: the three built-ins, then, in the order of discovery, each name where a definition that counts first has it |
| AgentEntries.SeedsAre | crates/codegen/cf-agent/src/discovery.rs:92-106 | the seeds: one entry for each built-in subagent, with its own description and source |
| AgentEntries.FilteredAre | crates/codegen/cf-agent/src/discovery.rs:176-180 | the toggles leave, in order, exactly the entries whose name they do not set to false; a name they omit stays |
| AgentDiscovery.MergedFromUnique | crates/codegen/cf-agent/src/discovery.rs:107-170 | entries and order together leave one possible list |
| AgentVisibility.LookupIs | crates/codegen/cf-agent/src/discovery.rs:256-305 | the lookup, in terms of the first file of the stem |
| AgentVisibility.EntryAgreesIff | crates/codegen/cf-agent/src/discovery.rs:117-181 | in any set of files: an entry describes what its name resolves to exactly when it does not clash with a built-in name and the first file of its stem is the first file of its name; a built-in's, when no project file has its stem |
| AgentVisibility.EntryAgreesWhenNamed | crates/codegen/cf-agent/src/discovery.rs:117-181 | where just the entry's own name is a stem exactly where it is declared, only the clash is left |
| AgentVisibility.ListAgreesIff | crates/codegen/cf-agent/src/discovery.rs:64-73 | in any set of files: the exact condition for the whole list to agree with the lookup |
| AgentVisibility.CallableVisibleIff | crates/codegen/cf-agent/src/discovery.rs:64-73 | in any set of files: what the lookup finds is listed exactly when the toggles allow it and it is an unshadowed subagent or the first file that declares its name |
| AgentVisibility.AllSubagents | crates/codegen/cf-agent/src/discovery.rs:79-87 | both equivalences, for the list that discovery and merge together return |
| AgentVisibility.UnscreenedNameDisagrees | crates/codegen/cf-agent/src/discovery.rs:134-144 | a user-level agent named `codex` is listed but not callable |
| AgentVisibility.StemDisagrees | crates/codegen/cf-agent/src/discovery.rs:574-660 | an agent of a file `foo.md` that declares the name `reviewer` is listed, but its name calls nothing |
| TomlBlocks.SplitBlocks | tools/sync_codely_222.py:112-128 | the loop over lines yields the header-delimited blocks |
| TomlBlocks.SplitIsProper | tools/sync_codely_222.py:112-128 | splitting loses nothing and yields well-formed blocks |
| TomlBlocks.SplitJoin | tools/sync_codely_222.py:112-155 | joining well-formed blocks and splitting again gives them back |
| TomlSync.UpsertConfig | tools/sync_codely_222.py:131-150 | every block of the key replaced; else one inserted before the last `model.ui` block; else one appended |
| TomlFields.BlockSays | tools/sync_codely_222.py:75-85 | the six fields of the block, read back by key: id, endpoint without its trailing slashes, title, backend, scheme and context window |
| TomlSync.SyncConfig | tools/sync_codely_222.py:158-200 | the loops over models and stale keys compute the run that the theorems below are about |
| TomlEdits.HeaderKey | tools/sync_codely_222.py:75-109 | a printed header is read back as the key it was printed for exactly when the key has no outer space and no closing bracket |
| TomlEdits.ConfigBlockWritable | tools/sync_codely_222.py:75-85 | the block printed for a well-formed model is one block under its own header, and ends its line |
| TomlEdits.UpsertSplits | tools/sync_codely_222.py:131-150 | an edit of the text is the edit of its block list and nothing else, exactly when the text ends its last line, holds the key, or holds a block keyed `ui` |
| TomlEdits.RemoveSplits | tools/sync_codely_222.py:153-155 | removing a key from any text takes its blocks out of the block list and does nothing else |
| TomlAppend.AppendFindsKeyIff | tools/sync_codely_222.py:143-150 | the plain append is found again exactly when nothing but blanks stands on the unended last line; else the second run adds the block again |
| TomlAppend.BlankAppend | tools/sync_codely_222.py:143-150 | appended behind a blank unended line, the block is found under its key, and every other key leads to the block it led to, but for that blank |
| TomlAppend.InsertedBeforeUiIff | tools/sync_codely_222.py:131-150 | a new key goes before the last block that is keyed `ui`, exactly when some header of the text is read as that key, and else behind the text |
| TomlAppend.PlainUiIsPassedOver | tools/sync_codely_222.py:131-150 | a text that holds a plain `[ui]` table: every new block is appended behind it |
| TomlAppend.KeyedBlockIsModel | tools/sync_codely_222.py:107-128 | every block with a key, `ui` included, starts with a `[model.` header |
| TomlFixpoint.SyncResult | tools/sync_codely_222.py:158-200 | a run whose blocks land settles every model; with removal the `-222` keys are then exactly the wanted ones |
| TomlFixpoint.SyncKeepsOthers | tools/sync_codely_222.py:158-200 | a run that has room for each of its blocks keeps all other blocks byte for byte and in order |
| TomlReport.ModelsReportIs | tools/sync_codely_222.py:158-183 | what is reported of the models, in order, read off the text before the run: added when no block has the key, updated when the first one says something else, nothing when it says the same; for an id that comes again, whether the model differs from its last one |
| TomlReport.ReportIs | tools/sync_codely_222.py:158-200 | and behind that, of a run with removal, one removal for each block of a `-222` key of no model, in order |
| TomlFixpoint.QuietIffSettled | tools/sync_codely_222.py:158-215 | a second run changes and reports nothing exactly when the first settles every model |
| TomlFixpoint.SyncTwice | tools/sync_codely_222.py:158-215 | a run whose blocks land is followed by one that changes and reports nothing |
| TomlFixpoint.SyncTwiceIff | tools/sync_codely_222.py:158-215 | and this exactly when models of one id agree |
| TomlPushed.PushedAppend | tools/sync_codely_222.py:143-150 | appended behind an unended line that is not blank, the new block spoils the last block of the text, and no other |
| TomlPlacement.LandsIff | tools/sync_codely_222.py:169-183 | which runs land, read off the text before the run: nothing but blanks hangs behind the last newline, or a block is keyed `ui`, or every model has its block or comes behind an update of the last block |
| TomlPlacement.FitsIff | tools/sync_codely_222.py:169-183 | which runs have room for each of their blocks: the same, with nothing at all behind the last newline |
| TomlPlacement.SurvivesIff | tools/sync_codely_222.py:169-183 | when a block does not land: which models are settled all the same, read off the text before the run |
| TomlPlacement.QuietIff | tools/sync_codely_222.py:158-215 | any text, any list of models: a second run changes and reports nothing exactly when models of one id agree, and the blocks land or every model survives the first that has no block |
| TomlPlacement.UnendedIsNotQuiet | tools/sync_codely_222.py:143-183 | on a text of one unended line the run on any model is not repeatable, and the run that is given it twice is |

## Left out

- The overflow of `u64` cost sums in `fit_conversation_to_budget`: sums are unbounded; only the saturating operations saturate.
- Item metadata that no modelled operation reads (model ids, stop reasons, prompt indices) and the text of reasoning items beyond their estimate.
- The alternate summary carrier and the bootstrap reminder, which this build compiles to constants.
- BudgetFit.FitConversationToBudget: takes the cost of an item as a parameter; TokenEstimate instantiates it with the repository's estimator.
- TokenEstimate.TailUnitBytes: the sharper bound, for tails whose results get 16 tokens or more each and hold less than 10^8 bytes; `TruncationCost.TailBytesBound` has no such condition.
- TokenEstimate.TailUnitTokens: the same; `TruncationCost.TailUnitBound` bounds every tail, and `BudgetOutcome.RecoveredCost` is its exact cost.
- `strip_reasoning_blocks`, verbatim and segment preparation, keyword extraction, turn statistics and the markdown of a single turn: single filters or layout.
- SegmentBudget.RenderSegmentMd: takes the preamble and the rendered turns as strings; the `none` detail level, which renders no turns, is not modelled.
- Tasks, wakers and channel internals: the channel is a FIFO of any positive capacity, and the drop of the receiver, after which nobody polls, is not a step.
- A source that reports an I/O error and could go on: the producer stops at the first error, so nothing behind it is modelled.
- File system access and YAML parsing in agent discovery: directories are ordered lists of files that parse or do not. Plugin variants are not modelled.
- TomlBlocks.SplitBlocks: splits at newlines only, not at the other line separators that Python's `splitlines` knows.
- TomlFixpoint.SyncTwice: asks for one-line ids that do not start with a blank or hold a closing bracket (others are not read back, by `HeaderKey`) and for one-line titles and endpoint; so do the other theorems on runs.
- UserQuery.ClearStripped: gives a sufficient condition for idempotence; which of the other texts strip to a fixpoint is not characterised.
- AgentVisibility.EntryAgreesIff: compares name, description, level and reported source; two bundled files that differ in their path alone count as the same.
- The model fetch, the backups, the dry-run switch and the JSON half of the sync.
