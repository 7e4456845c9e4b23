# Verified model of a terminal LLM assistant

The program is a command-line assistant: it keeps conversations in SQLite, sends them to Gemini or
OpenAI, runs the tools that the model calls on a thread pool, and renders Markdown tables. This
project models its protocol and data-handling cores in Dafny and proves what they keep over every
interleaving, every run and every input.

**Tool pool and cancellation.** Workers, callers of Dispatch, the destructor and cancellers are one
state machine whose actions are the program's critical sections (`ToolDispatcher`, `Cancellation`).
The results hold in every reachable state, for any number of workers, callers and batches:
each call is in exactly one place, a returned batch answers its calls in order, executors run at
most once per call, nothing is stuck, and no schedule runs for ever. `DispatcherObject` and
`CancellationRequest` are the classes with their fields; each method is proved to be one action.

**Ledger and prompt.** `Ledger` holds the tables as values with the statements that write them and
the queries that read them, and `Database` the connection object. `Conversation` says what a user turn
does, `InteractionEngine` is the turn loop itself, proved to do that. `LedgerRuns` lets any list of
turns, auto-fix drops, undo, group removal, cloning, deletion and settings run from the empty
database, with any provider in each turn. The invariant (`Brackets`) is that every live tool row follows, inside its
turn, the live call it answers, with only assistant and tool rows of that turn between; `Pairing` adds
that calls and answers of a turn belong together by position, and `Unanswered` counts what is left
without an answer. `EndToEnd`
carries it through window, provider filter, truncation and role merging: the Gemini orphan filter
drops nothing unless the answer of an enabled tool stands right after a suppressed one.

**Table layout.** Cells are bytes: UTF-8 (sections 3 and 4 of RFC 3629) with CSI sequences (section
5.4 of ECMA-48). `WrapCell`, `ColumnShrink` and `RenderTable` contain the program's loops; the proofs
cover width, loss-free wrapping, fewest lines, fair shrinking and the width of every rendered line, and
`TableMeaning` reads the whole output back: its borders, its rows from top to bottom and every cell.

**Codecs.** Multi-patch editing and its inverse, shell quoting read back under sections 2.2.1, 2.2.2
and 2.3 of the Shell Command Language (IEEE Std 1003.1-2017), skills as Markdown, call ids, and UTF-8-safe truncation.

Conventions: a file is one module; the pure functions say what an operation means, methods named after
the program's own are its loops and are proved equal to those functions, and lemmas state what
the functions mean. The modules whose names end in `Meaning` say it of a whole area without those
functions: `TurnMeaning` of what a turn stores, `PromptMeaning` and `PayloadMeaning` of what a request
holds, `WrapMeaning` and `TableMeaning` of what is printed. The empty string stands for SQL's NULL in the group and strategy columns, as the
program itself treats it.

Where the code does not do what one would expect, the exact condition is proved, with an input
that meets it:

- Cancelling a batch does not stop a call that is past its look-up: the executor is called with no
  lock held (`DispatcherSafety.StartsAfterCancel`, `DispatcherSafety.LateStart`).
- The auto-fix drops the newest answer first, so the first one that fires leaves a live call without its
  answer; a later one may drop the call too (`Unanswered.LiveCallsAreAnswered`,
  `Unanswered.TurnLeavesCallsAnswered`, `Counterexamples.CallIsLeftUnanswered`).
- A failing COMMIT in CloneSession is returned without ROLLBACK (core/database.cpp:848), so the copies
  stay visible in an open transaction and later clones fail at BEGIN (`Database.Connection.CloneSession`,
  `Counterexamples.CommitLeavesTheCopy`).
- Undo restores all rows after a turn if and only if the turn met no auto-fix: the drop and its notice
  belong to no group (`UndoProofs.UndoTakesTurnBack`, `Counterexamples.UndoLeavesTheFix`).
- An answer of a disabled tool becomes a user entry, and an enabled answer right behind it is then
  dropped as an orphan (`EndToEnd.EveryRunFilterIsExact`, `Counterexamples.FilterDropsAnAnswer`).
- A call id that contains a bar is not decoded to its id and name (`MessageParser.CombinedIdDecodes`,
  `Counterexamples.BarredIdIsLost`).
- A rule before a later header stays in the extracted state, and extracting again cuts there
  (`StateBlock.ExtractingTwice`, `Counterexamples.RuleIsCutLater`).
- SmarterTruncate can exceed limits of 3 and below (`Truncation.SizeWithinLimit`,
  `Counterexamples.TinyLimitIsPassed`).
- CONTEXT_MANAGEMENT.md:64-65 gives truncation limits of 1000 and 300 characters; the code has 400 and
  120 (core/orchestrator.h:23-29), and the model follows the code.

## Model

| member | source | states |
|---|---|---|
| Cancellation.EveryRunIsSafe | core/cancellation.cpp:5-36 | Over every interleaving no callback runs before cancellation or twice, the stored list is empty once cancelled, and at quiescence after Cancel each registered callback has run exactly once |
| Cancellation.CancelRunsInRegistrationOrder | core/cancellation.cpp:11-15 | The list taken by the winning Cancel runs in registration order |
| Cancellation.CancelledIsForever | core/cancellation.cpp:9-11 | No later step clears the flag or stores another callback |
| Cancellation.CancellationRequest.RegisterCallback | core/cancellation.cpp:23-36 | The locked section is one step of the machine; it reports whether the caller must run its callback itself |
| Cancellation.CancellationRequest.Cancel | core/cancellation.cpp:5-12 | The locked section is one step: only the first Cancel swaps the list out |
| Cancellation.CancellationRequest.RunNextTaken | core/cancellation.cpp:13-15 | Running the next taken callback is one step |
| Cancellation.CancellationRequest.RunOwn | core/cancellation.cpp:33-35 | A late registration running its own callback is one step |
| Cancellation.CancellationRequest.IsCancelled | core/cancellation.cpp:18-21 | Reads the flag |
| DispatcherSafety.EveryCallIsInOnePlace | core/tool_dispatcher.cpp:28-75 | In every reachable state a call is in exactly one of: not queued, queued, held by one worker, published; `remaining` counts the unpublished slots; executors start at most once per call |
| DispatcherSafety.ReturnedBatchIsRight | core/tool_dispatcher.cpp:44-74 | Slot i of a returned batch answers call i under its id and name with what its executor returned; a cancellation only if the executor was never entered and the batch's own object was cancelled |
| DispatcherSafety.FirstInFirstOut | core/tool_dispatcher.cpp:59-89 | Workers take tasks in the order they were queued, over all batches |
| DispatcherSafety.StartsAfterCancel | core/tool_dispatcher.cpp:51-55 | Look-up and executor call are separate sections: from the moment a batch is cancelled, one of its calls starts, and then once, if and only if it was past its look-up at that moment and is not there any more; no call passes its look-up later |
| DispatcherSafety.LateStart | core/tool_dispatcher.cpp:51-55 | A run in which it does: look-up, cancellation, executor |
| DispatcherSafety.StepKeepsInv | core/tool_dispatcher.cpp:16-92 | Every atomic section keeps the pool's invariant |
| DispatcherProgress.StepDecreasesMeasure | core/tool_dispatcher.cpp:46-92 | Every enqueue, take, look-up, executor entry and return, publish, return and exit step lowers the remaining work |
| DispatcherProgress.RunsAreBounded | core/tool_dispatcher.cpp:46-92 | No schedule of internal steps is longer than the work at its start |
| DispatcherProgress.WorkIsNeverCreated | core/tool_dispatcher.cpp:16-92 | Also with new batches, Stop and cancellations in between: internal steps and work left are at most the work at the start and six units a call and one a batch brought |
| DispatcherProgress.NeverStuck | core/tool_dispatcher.cpp:66-92 | With a worker, nothing is enabled exactly when every batch has returned, the queue is empty and, after Stop, every worker has left |
| DispatcherProgress.EveryMaximalRunCompletes | core/tool_dispatcher.cpp:16-92 | Every run that cannot go on has returned every batch and, after Stop, let every worker go |
| DispatcherProgress.NoWorkerLeavesEarly | core/tool_dispatcher.cpp:83-85 | A worker has left only after Stop, with the queue empty and every batch fully queued |
| DispatcherObject.Dispatcher.constructor | core/tool_dispatcher.cpp:9-14 | Starts in the initial state, with the invariant |
| DispatcherObject.Dispatcher.BeginDispatch | core/tool_dispatcher.cpp:28-42 | Setting up a batch is one step |
| DispatcherObject.Dispatcher.EnqueueNext | core/tool_dispatcher.cpp:44-64 | Queuing the next closure is one step |
| DispatcherObject.Dispatcher.WakeUp | core/tool_dispatcher.cpp:79-89 | A woken worker takes the front task or leaves; it leaves only on Stop with an empty queue |
| DispatcherObject.Dispatcher.CheckCancellation | core/tool_dispatcher.cpp:51-52 | The task looks at its cancellation object, under that object's lock only, and builds the cancelled result or is cleared to run |
| DispatcherObject.Dispatcher.EnterExecutor | core/tool_dispatcher.cpp:54 | The executor is entered in a section of its own, so a cancellation can come in between |
| DispatcherObject.Dispatcher.ExecutorReturns | core/tool_dispatcher.cpp:54-55 | The executor's outcome becomes the result |
| DispatcherObject.Dispatcher.PublishResult | core/tool_dispatcher.cpp:57-60 | The result goes to its slot and `remaining` falls by one |
| DispatcherObject.Dispatcher.ReturnResults | core/tool_dispatcher.cpp:66-75 | The slots are handed to the caller once `remaining` is 0 |
| DispatcherObject.Dispatcher.RaiseStop | core/tool_dispatcher.cpp:16-20 | Raising the flag is one step |
| DispatcherObject.Dispatcher.CancelRequest | core/cancellation.cpp:5-12 | Cancelling an object is one step of the pool's machine |
| Database.Connection.AppendMessage | core/database.cpp:421-454 | The session row exists, and the new row is last under the next id |
| Database.Connection.UpdateMessageStatus | core/database.cpp:456-458 | Only the row with the id changes, and only its status |
| Database.Connection.GetConversationHistory | core/database.cpp:471-524 | Returns the windowed history that the window, clone and request results are about |
| Database.Connection.GetMessagesByGroup | core/database.cpp:526-566 | Returns the group's rows of every session, dropped or not; within each session in order |
| Database.Connection.GetLastGroupId | core/database.cpp:568-580 | Returns the group of the session's newest grouped row |
| Statements.LastGroupIsNewest | core/database.cpp:568-580 | It is the group of a row of the session behind which the session has no grouped row, dropped or not; none exactly when no row has a group |
| Database.Connection.RecordUsage | core/database.cpp:582-590 | Adds one usage row, and the session row when missing |
| Database.Connection.SetSessionState | core/database.cpp:745-751 | Replaces the session's state |
| Statements.AppendedRow | core/database.cpp:421-454 | An appended row is last under the next id; its session keeps its settings or starts with window 5; nothing else changes |
| Statements.SettingsAreStored | core/database.cpp:700-745 | Window, scratchpad and skills are each stored alone; other settings and sessions stay; the window read without a session is 5 |
| Deletion.StateIsReplaced | core/database.cpp:745-775 | The next read of the state gives the text written; every other read of every session is as before |
| Database.Connection.DropSession | core/database.cpp:777-783 | Removes the session's rows from all four tables |
| Deletion.DeletedSessionIsGone | core/database.cpp:777-783 | Every read of a deleted session is empty, whatever window and dropped flag |
| Deletion.DeletionLeavesOthersAlone | core/database.cpp:777-783 | Every read of every other session is as before |
| Database.Connection.RemoveGroup | interface/command_handler.cpp:184-194 | Removes the group's rows in every session; an empty group removes nothing |
| Deletion.RemovedGroupIsGone | interface/command_handler.cpp:184-194 | In every session exactly the rows of a non-empty group are gone, the others keep their order |
| Deletion.RemovedGroupLeavesGroups | interface/command_handler.cpp:184-194 | The groups that the windows count are the ones before without the removed one, in the same order |
| Database.Connection.CloneSession | core/database.cpp:785-849 | Success, NotFound and AlreadyExists exactly when their conditions hold; every failure leaves the tables as they were, except a failing COMMIT, which leaves the copies in an open transaction |
| Counterexamples.CommitLeavesTheCopy | core/database.cpp:848 | After a failing COMMIT the copy can be read in an open transaction, and the next clone fails |
| Database.Connection.Rollback | core/database.cpp:814-819 | Restores the tables of BEGIN |
| CloneSession.CloneReadsTheSameHistory | core/database.cpp:829-835 | For every window size and dropped flag the clone's history is the source's, up to ids and session |
| CloneSession.CloneReadsTheSameUsage | core/database.cpp:837-841 | The clone's usage rows and totals are the source's |
| CloneSession.CloneReadsTheSameSettings | core/database.cpp:821-846 | Window, scratchpad, skills and state are the source's, and the state insert cannot conflict |
| CloneSession.CloneLeavesOthersAlone | core/database.cpp:785-849 | Every read of every other session is unchanged |
| CloneSession.OrphanedStateBlocksClone | core/database.cpp:843-846 | Without the no-orphans invariant a clone can fail although both checks pass |
| WindowProofs.WindowHoldsWholeGroups | core/database.cpp:460-495 | For N > 0 the history is, in order, all ungrouped rows and all rows of exactly the last min(N, groups) groups |
| WindowProofs.NoWindowHoldsAll | core/database.cpp:488-495 | For N <= 0 the history is, in order, all rows of the session |
| WindowProofs.WindowGrowsByOneGroup | core/database.cpp:476-489 | Window N+1 adds exactly one earlier whole group, or nothing |
| WindowProofs.RankingRowDoesNotMatter | core/database.cpp:484-488 | On contiguous groups the query selects the same groups whichever row of a group it ranks it by |
| LedgerRuns.EveryRunWindowIsTheQuerys | core/database.cpp:484-489 | After every run the window is what the query's own ranking selects |
| LedgerRuns.EveryRunIsContiguous | interface/interaction_engine.cpp:53-168 | After every run the rows of a group stand together in each session, apart from ungrouped rows |
| LedgerRuns.EveryRunKeepsLedger | interface/interaction_engine.cpp:53-182 | After every run: ids ascend, no orphans, every live tool row has its live call before it with only its turn's rows between, and groups do not mix |
| LedgerRuns.CloneKeepsLedger | core/database.cpp:785-849 | Cloning keeps that invariant |
| Brackets.DeleteGroupKeepsLedger | interface/command_handler.cpp:183-194 | Undo and group removal keep it |
| Brackets.DeleteSessionKeepsLedger | core/database.cpp:777-783 | Deleting a session keeps it |
| TurnProofs.TurnKeepsLedger | interface/interaction_engine.cpp:53-182 | A turn under a fresh group keeps it, at whatever event the turn stands |
| TurnProofs.FixTargetIsUnanswered | interface/interaction_engine.cpp:85-95 | The row that the auto-fix drops has no live answer |
| TurnProofs.AutoFixKeepsTurn | interface/interaction_engine.cpp:83-100 | Dropping it and appending the notice keeps the invariant |
| TurnProofs.ReplyKeepsTurn | interface/interaction_engine.cpp:114-173 | A reply with the answers to its calls keeps the invariant |
| InteractionEngine.Engine.Process | interface/interaction_engine.cpp:53-182 | The loop does to the database what the turn's specification says, for every list of events, and the first row it adds is a completed user row with the text that was typed |
| TurnMeaning.TurnStoresTheInput | interface/interaction_engine.cpp:53-182 | Whatever events the turn meets, the first row it adds is and stays the typed text as a completed user row of the turn's session, group and strategy, without call id or tokens |
| TurnMeaning.ReplyStoresItsParts | core/orchestrator_gemini.cpp:139-156 | The rows a reply adds hold its texts and calls one for one and in order, with the turn's names and the reply's tokens; OpenAI calls share one row under the first call's id and name |
| TurnMeaning.ReplyLeavesItsState | core/orchestrator_gemini.cpp:148-153 | After a reply the session's state is the block of the last of its texts that has one, or as before; no other session's state changes |
| TurnMeaning.ReplyAddsItsUsage | core/orchestrator_gemini.cpp:126-133 | A reply with token counts adds one usage row with them under the turn's session and model, any other none |
| TurnMeaning.AnswersKeepStateAndUsage | interface/interaction_engine.cpp:124-173 | The answers of a round change neither state nor usage |
| TurnMeaning.FailuresChangeNothing | interface/interaction_engine.cpp:57-104 | A prompt or request that fails ends the turn and changes nothing, and so does a bad request without a live call or answer in the last ten groups |
| TurnMeaning.RefusalDropsTheNewest | interface/interaction_engine.cpp:83-100 | Any other bad request drops exactly the newest live call or answer of the last ten groups, appends the notice outside any group, and the turn goes on |
| InteractionEngine.Engine.OneRound | interface/interaction_engine.cpp:57-181 | One pass of the loop, and whether it goes on |
| InteractionEngine.Engine.AutoFix | interface/interaction_engine.cpp:83-100 | Drops the newest tool-related row of the 10-group history and appends the notice, or does nothing |
| InteractionEngine.Engine.AnswerReply | interface/interaction_engine.cpp:114-173 | Finds the reply's rows by counting the group's rows and answers their calls |
| InteractionEngine.Engine.RunAllCalls | interface/interaction_engine.cpp:127-173 | Appends the answers of all messages, in order |
| InteractionEngine.Engine.RunCalls | interface/interaction_engine.cpp:132-172 | Appends one tool row per result |
| InteractionEngine.Engine.CollectCalls | interface/interaction_engine.cpp:135-142 | Batch entry k has the k-th stored call's name and arguments and its combined id |
| TurnMeaning.BatchHoldsTheCalls | interface/interaction_engine.cpp:135-142 | The same of the specification that the pool results are about |
| InteractionEngine.Engine.AppendResult | interface/interaction_engine.cpp:163-169 | Appends a row under the result's id: an output as it is and completed, a failure or cancellation as `Error: ` with its message and as an error |
| TurnMeaning.ResultsAreStored | interface/interaction_engine.cpp:163-169 | What is stored of each outcome: text, status, id, group and strategy |
| InteractionEngine.Engine.ProcessResponse | core/orchestrator_gemini.cpp:113-159 | Stores usage, calls, texts and state of a reply; succeeds exactly when a row was added |
| InteractionEngine.Engine.StoreParts | core/orchestrator_gemini.cpp:139-156 | Stores a candidate's parts in order; true exactly when a row was added |
| InteractionEngine.Engine.Store | core/orchestrator_gemini.cpp:140-155 | A call becomes a call row, a text a text row with its state saved, anything else nothing |
| ConversationProofs.ReplyRowsAreOfTheTurn | core/orchestrator_openai.cpp:139-148 | Every row a reply adds is an assistant row of the turn's session, group and strategy |
| ToolRounds.StoredCallsAreTheReplys | core/message_parser.cpp:9-59 | Extracting the calls from the stored rows gives back the reply's calls, in order, for each provider |
| ToolRounds.RoundAnswersTheReply | interface/interaction_engine.cpp:124-181 | After the reply's rows come, in order, one tool row for each of its calls; the loop goes on exactly when there were calls |
| ToolRounds.OneToolRowPerCall | interface/interaction_engine.cpp:128-171 | One tool row per extracted call, in order, under its combined id |
| ToolRounds.RoundStoresWhatThePoolReturns | interface/interaction_engine.cpp:148-169 | Under any interleaving of the pool, row k holds the outcome that the pool returned for call k |
| ToolRounds.EveryReplyIsCharged | core/orchestrator_gemini.cpp:126-133 | A reply's tokens are charged to its session and no other, even when the reply is unusable |
| Pairing.EveryRunPairsCalls | interface/interaction_engine.cpp:128-171 | After every run, in every session and turn, the n-th call and the n-th answer belong together: same id, the answer's row behind the call's, and a live answer only with a live call |
| Unanswered.LiveCallsAreAnswered | interface/interaction_engine.cpp:83-100 | After every run, in a session whose live calls are all answered, an event of a turn leaves them so if and only if it is not a bad request that finds a live call or answer in the last ten groups; other sessions keep theirs |
| Unanswered.TurnLeavesCallsAnswered | interface/interaction_engine.cpp:57-182 | A whole turn leaves every live call of its session answered exactly when the calls unanswered before it and the balance of its auto-fixes come to 0; without an auto-fix the balance is 0 |
| Unanswered.CommandsKeepAnswers | interface/command_handler.cpp:183-477 | No other command leaves a live call unanswered, and a clone is as its source |
| Unanswered.EveryRunWithoutFixAnswersAll | interface/interaction_engine.cpp:57-182 | After every run without an auto-fix every live call of every session is answered |
| Unanswered.AnsweredByCount | interface/interaction_engine.cpp:128-171 | In paired rows all live calls are answered, in order and turn by turn, exactly when there are as many live answers as live calls; there are never more |
| Unanswered.FixesAreBounded | interface/interaction_engine.cpp:83-100 | A request refused again and again ends: each auto-fix uses up one live tool-related row, even as older groups enter the window |
| Pairing.LostAnswersShow | interface/interaction_engine.cpp:87-99 | What a dropped answer of a live call means: the live answers of the turn are no longer those of its live calls |
| Pairing.FixTargetIsLastInTurn | interface/interaction_engine.cpp:85-95 | In every turn no live answer comes behind the row that the auto-fix drops |
| MessageParser.CombinedIdDecodes | core/orchestrator_openai.cpp:68-79 | A stored call id decodes to the call's id and name if and only if the id has no bar |
| MessageParser.BarSeparates | core/orchestrator_openai.cpp:68-79 | What stands before the first bar is the id and what stands behind it the name; an id without a bar is both |
| Counterexamples.BarredIdIsLost | interface/interaction_engine.cpp:137-140 | A run, with one reply whose call id has a bar, after which a stored answer has that id unchanged and it does not decode to the call's id and name |
| UndoProofs.UndoTakesTurnBack | interface/command_handler.cpp:190-199 | Undo right after a turn restores the rows of every session if and only if the turn met no auto-fix |
| UndoProofs.TurnWithFixLeavesRows | interface/interaction_engine.cpp:96-99 | Undo leaves exactly one ungrouped row for each auto-fix |
| Counterexamples.UndoLeavesTheFix | interface/interaction_engine.cpp:83-100 | A tool round and then a bad request: one auto-fix, and undo leaves rows behind |
| Counterexamples.CallIsLeftUnanswered | interface/interaction_engine.cpp:87-99 | The same events leave a live call whose answer is dropped |
| Counterexamples.SecondFixTakesTheCall | interface/interaction_engine.cpp:87-99 | After a tool round two refusals: the second auto-fix drops the call itself, so the balance is 0 again |
| CommandHandler.Handler.HandleUndo | interface/command_handler.cpp:190-209 | Removes the newest group exactly when the session has a grouped row, and then rebuilds the session's state from what is left |
| CommandHandler.Handler.HandleMessageRemove | interface/command_handler.cpp:183-186 | Removes the group |
| CommandHandler.Handler.HandleSessionRemove | interface/command_handler.cpp:452-458 | Deletes the session; the current one falls back to the default |
| CommandHandler.Handler.HandleSessionClone | interface/command_handler.cpp:463-477 | Switches to the clone and rebuilds its state exactly when the name is given and no check or statement fails; otherwise the tables are as before, unless the COMMIT failed |
| CommandHandler.RebuildIsAStateWrite | core/orchestrator.cpp:309-324 | A rebuild is one state write or nothing, so it is a step of a run and keeps the ledger |
| PromptAssembly.GetRelevantHistory | core/orchestrator.cpp:279-307 | Returns exactly the window's live rows without those calls and answers whose strategy is another provider's; the order is in RelevantMessages |
| PromptMeaning.RelevantMessages | core/orchestrator.cpp:279-307 | In the windowed history's order: every row that is no call or answer, and a call or answer exactly when it has no strategy, the current one, or both are of the Gemini family |
| PromptMeaning.EveryRunKeepsProvidersApart | core/orchestrator.cpp:291-303 | After every run a call or answer of the windowed history goes to the provider whose strategies published it and to no other |
| PromptAssembly.TruncateAnswers | core/orchestrator.cpp:136-160 | In place: an answer of the active group is cut at 5000 bytes when fewer than five of them follow it and at 400 otherwise, any other answer at 120; nothing else changes |
| PromptMeaning.AnswersAreCut | core/orchestrator.cpp:136-160 | An answer of the newest message's group is cut at 5000 bytes if fewer than five of them are behind it and at 400 if not, any other answer at 120; no other message changes |
| PromptAssembly.AssemblePrompt | core/orchestrator.cpp:115-160 | The contents of a Gemini request from window, provider filter, truncation and assembly; none when the window is -1 |
| PromptAssembly.RebuildContext | core/orchestrator.cpp:309-324 | The session's state is rebuilt as RebuildTakesTheNewestBlock says |
| PromptMeaning.RebuildTakesTheNewestBlock | core/orchestrator.cpp:309-324 | The state becomes the block of the relevant assistant message that has one and has no such message behind it; without one nothing changes, and no other table ever does |
| StateBlock.StateMeaning | core/orchestrator.cpp:402-420 | A state is found exactly when the text has the header; it starts with the header, is trimmed and holds no other header line |
| StateBlock.StateReaches | core/orchestrator.cpp:402-420 | The block runs from the first header to the first header line behind it, else to the first rule behind it, else to the end of the text, and is stripped |
| Stripping.StripTakesSpaceOff | core/orchestrator.cpp:419 | Stripping takes the whitespace off both ends, all of it and nothing else |
| StateBlock.ExtractingTwice | core/orchestrator.cpp:402-420 | Extracting again changes nothing if and only if no rule line stands in the text before the header line that ends the block |
| Counterexamples.RuleIsCutLater | core/orchestrator.cpp:408-411 | A text with a rule before a later header, whose state changes when it is extracted again |
| GeminiPayload.AssemblePayload | core/orchestrator_gemini.cpp:19-97 | The loops compute the contents that PartsBelongToMessages and MergeFlattens are about |
| GeminiPayload.Render | core/orchestrator_gemini.cpp:34-83 | Speaker and part of one message, which PartsBelongToMessages spells out |
| PayloadMeaning.PartsBelongToMessages | core/orchestrator_gemini.cpp:34-95 | Each part of a request, in order, belongs to a message: with that message's own content, calls of enabled tools as stored and others suppressed, answers of enabled tools under the name in their id, texts with the opening prefix exactly on message 0 and the request prefix exactly on a last user message that is not the first; only answers and system messages are left out |
| PayloadMeaning.RequestIsTheMergedMessages | core/orchestrator_gemini.cpp:34-95 | The whole request: one part for each message but system messages, in order, merged so that neighbours differ in role, without exactly the function contents that do not stand right behind a model content |
| PayloadMeaning.EveryRunSendsEveryMessage | core/orchestrator_gemini.cpp:34-95 | After every run, when all called tools are enabled, no message but system messages is left out |
| PayloadMeaning.AnswersGoUnderTheCallsName | core/orchestrator_gemini.cpp:66-76 | The name in the id of an answer is that of the call it answers, when the call's id has no bar |
| GeminiPayload.MergeHistory | core/orchestrator_gemini.cpp:34-89 | Extending the last content or opening a new one builds the merged list of the two results below |
| GeminiPayload.DropOrphans | core/orchestrator_gemini.cpp:91-95 | The running filter on the last content kept is the filter on the immediate predecessor |
| GeminiPayload.MergeFlattens | core/orchestrator_gemini.cpp:85-88 | The merged contents flatten to the messages' parts in order, and no two neighbours have the same role |
| GeminiPayload.MergeIsUnique | core/orchestrator_gemini.cpp:85-88 | There is only one such list of contents |
| GeminiPayload.OnlyEnabledToolsAreNamed | core/orchestrator_gemini.cpp:51-80 | No disabled tool is called or answered for in a request |
| EndToEnd.EveryRunFilterIsExact | core/orchestrator_gemini.cpp:91-95 | After every run, for every session, window and provider, the filter keeps everything if and only if no enabled answer stands right after a suppressed one |
| Counterexamples.FilterDropsAnAnswer | core/orchestrator_gemini.cpp:70-95 | A run, with one reply that calls a disabled tool and then an enabled one, after which the request loses an answer |
| EndToEnd.EveryRunGivesAWholeRequest | core/orchestrator_gemini.cpp:34-95 | When all called tools are enabled, the request has one part per message, in order, roles differ between neighbours and no function content is an orphan |
| EndToEnd.EveryRunGivesAWholePrompt | core/orchestrator.cpp:115-160 | The same for the prompt of the session's own window: one part per message, neighbours differ, no orphans |
| EndToEnd.RelevantIsHistory | core/orchestrator.cpp:291-303 | Window and provider filter never part an answer from its call |
| EndToEnd.FilterByMessage | core/orchestrator_gemini.cpp:85-95 | For any history: the filter drops nothing exactly when every function message follows a model or function message |
| Truncation.SmarterTruncate | core/orchestrator.cpp:356-400 | The loops step to the character boundaries around the cut and build what CutKeepsTheEnds describes |
| Truncation.CutKeepsTheEnds | core/orchestrator.cpp:374-399 | What is cut is a beginning of the content, the hint and an end of the content: the beginning up to the last character start within one fifth of the room, but at least one byte, the end from the first character start that leaves it within the rest; without room for the hint a beginning and three dots |
| Truncation.HintNamesItsSource | core/orchestrator.cpp:359-372 | The hint names the message id in decimal, or the size when there is no id |
| Truncation.CutWithHint | core/orchestrator.cpp:374-399 | The same for a given hint |
| Truncation.SizeWithinLimit | core/orchestrator.cpp:374-399 | The result is within the limit if and only if nothing is cut, the limit is above 3, or it is 3 and bytes 1 to 3 are all continuation bytes |
| Counterexamples.TinyLimitIsPassed | core/orchestrator.cpp:374-380 | Valid text of four bytes that comes out longer than its limit of 3 |
| Utf8.ContinuationIsMask | core/orchestrator.cpp:377-391 | The continuation range is the code's bit test, for every byte |
| Truncation.HeadBeforeTail | core/orchestrator.cpp:383-399 | Head and tail are disjoint |
| Truncation.SandwichSize | core/orchestrator.cpp:383-399 | In valid UTF-8 the sandwich is between limit - 6 and limit bytes |
| Truncation.TruncatedIsValid | core/orchestrator.cpp:376-397 | Cutting valid UTF-8 gives valid UTF-8 |
| Truncation.TruncatingTwice | core/orchestrator.cpp:356-399 | Above 3, truncating again changes nothing |
| VisibleText.VisibleLength | interface/color.h:107-125 | The index loop skips escape sequences, complete or not, and continuation bytes, and counts the rest |
| VisibleText.VisibleCountsGlyphs | interface/color.h:107-125 | On well-formed text it is the number of characters outside escape sequences |
| VisibleText.SequenceTakesNoColumn | interface/color.h:110-117 | ESC, `[`, any bytes outside 0x40 to 0x7E and one of these take no column, whatever follows |
| VisibleText.Concat | interface/color.h:107-125 | Well-formed texts concatenate piece by piece and visible lengths add up |
| WrapCell.WrapLines | markdown/renderer.cpp:249-314 | The word and byte loops are the greedy wrapping that the results below are about, for any bytes and width |
| WrapCell.BreakLongWord | markdown/renderer.cpp:269-299 | The inner loop moves whole characters and whole escape sequences, opening a line when one is full |
| WrapCell.LeadLenIsMasks | markdown/renderer.cpp:285-291 | The character lengths are the code's bit tests, for every byte |
| WrapCellProofs.WrapKeepsText | markdown/renderer.cpp:249-314 | For any bytes and width, the lines without whitespace are the text without whitespace |
| WrapCellProofs.WrapKeepsPiecesAndWidth | markdown/renderer.cpp:249-314 | Every line fits the width, and no character or escape sequence is split, lost or moved |
| WrapCellProofs.WrapLeavesOnlyBlanks | markdown/renderer.cpp:261-308 | A line has no whitespace but blanks |
| WrapCellProofs.WrapUsesFewestLines | markdown/renderer.cpp:261-313 | When every word fits, the lines are the words in order with one blank between them, no split that fits has fewer lines, and no line has room for the next line's first word; in a well-formed text a line's width in any split is its visible length |
| WrapMeaning.WordsStandInTheText | markdown/renderer.cpp:261-263 | The words are the maximal stretches without whitespace, in order |
| WrapMeaning.WordFillsItsLines | markdown/renderer.cpp:269-299 | A word of any length is cut into lines that together are the word: all but the last exactly as wide as the column, and each new line opened by a character |
| WrapMeaning.LongWordOpensALine | markdown/renderer.cpp:264-269 | A word longer than the width starts a line, and what stands before and from it on is wrapped apart |
| WrapMeaning.WordIsContinued | markdown/renderer.cpp:300-313 | What follows a word is wrapped as if only the word's last line stood before it |
| ColumnShrink.ShrinkColumns | markdown/renderer.cpp:389-403 | The in-place loop ends, and leaves the widths that the two results below are about with their total |
| ColumnShrink.FindWidest | markdown/renderer.cpp:395-398 | The leftmost widest column |
| ColumnShrink.ShrinkingIsGentle | markdown/renderer.cpp:392-403 | Without a limit, or within it, nothing changes; else the total is within the limit or every width at most 5; no column falls below min(original, 5); shrunk columns are within 1 of the widest; nothing is taken beyond need |
| ColumnShrink.ShrinkingIsFair | markdown/renderer.cpp:394-402 | No widths within the originals with at least that total have a smaller maximum |
| RenderTable.Render | markdown/renderer.cpp:385-472 | The border, row and wrapping loops output the text that TableReadsAsItsChildren describes |
| TableMeaning.TableReadsAsItsChildren | markdown/renderer.cpp:405-472 | For every table and limit, from top to bottom: the top border, the row children in their order with the separator below the first, the bottom border, a style reset. Each row is as high as its highest wrapped cell, only the first is in header style, its i-th line has at each column the i-th wrapped line of the cell placed as the column is aligned, and each column read down the row shows exactly the cell |
| TableMeaning.NoCellsNoText | markdown/renderer.cpp:385 | Without any cell nothing is printed |
| RenderTable.CollectColumns | markdown/renderer.cpp:319-383 | Builds the columns of the three results below, and the rows in the children's order |
| TableMeaning.LongestChildCounts | markdown/renderer.cpp:344-361 | There are as many columns as the longest row or delimiter row has cells |
| TableMeaning.ColumnIsItsWidestCell | markdown/renderer.cpp:344-349 | Before shrinking, column c is as wide as the widest c-th cell of the rows and no wider |
| TableMeaning.ColumnIsAlignedAsMarked | markdown/renderer.cpp:355-379 | It is aligned as the colons of the last delimiter row with a c-th cell ask, and left without one |
| TableMeaning.FinalColumnsKeepAlignments | markdown/renderer.cpp:392-403 | Shrinking changes widths only |
| RenderTable.AlignText | markdown/renderer.cpp:234-247 | Pads on the side or sides that AlignPads states, and never cuts |
| TableWidth.AlignPads | markdown/renderer.cpp:234-247 | The text stays whole between blanks that fill the width on the side or sides asked for |
| TableWidth.EveryLineHasTheTableWidth | markdown/renderer.cpp:389-471 | Every line of the output is 1 + sum(width + 3) columns wide, which is within the limit unless all columns are at most 5 |
| TableContent.TableShowsEveryCell | markdown/renderer.cpp:418-446 | For every table, row and column: the row's lines in the output, read at the column's positions without blanks, show exactly the cell's visible characters without whitespace, in order |
| ApplyPatch.ToolExecutor.ApplyPatch | core/tool_executor.cpp:198-221 | The file is written once with every patch applied, or not at all, with the first failing patch's error |
| ApplyPatch.PatchMeaning | core/tool_executor.cpp:207-215 | A patch succeeds exactly when its non-empty `find` occurs once, overlaps counted, and fails apart for none and several |
| ApplyPatch.PatchEffect | core/tool_executor.cpp:217 | It replaces that occurrence and nothing else |
| ApplyPatch.PatchesApplyInOrder | core/tool_executor.cpp:206-218 | Each patch of a list applies to what those before it left, and the first that fails gives the result |
| ApplyPatch.UndoRestores | core/tool_executor.cpp:206-218 | The swapped list in reverse order, when it succeeds, gives the original back |
| ApplyPatch.UndoSucceedsWhen | core/tool_executor.cpp:207-217 | It succeeds for one patch exactly when the replacement is non-empty and occurs once in the result |
| ShellQuote.EscapeShellArg | core/shell_util.cpp:193-204 | The loop builds the quoted form that QuotingRoundTrips reads back |
| ShellQuote.PlainIsQuoted | core/shell_util.cpp:193-204 | An argument without quotes stands as it is between two |
| ShellQuote.QuotingRoundTrips | core/shell_util.cpp:193-204 | Joined quoted arguments are read back by the shell's rules as exactly the list, if and only if none has a NUL |
| SkillMarkdown.ParseSkill | interface/command_handler.cpp:1171-1191 | The line loop, with its patch flag, is the parser of the round trips below |
| SkillMarkdown.ParsedSkillMeans | interface/command_handler.cpp:1171-1191 | For every text: name and description are the stripped rests of the last such lines before the first patch header, the patch is the stripped text behind it |
| SkillMarkdown.PrintedText | interface/command_handler.cpp:1166-1169 | The printed text is the name's line, the description's line, an empty line, the patch header and the patch |
| SkillMarkdown.PrintThenParse | interface/command_handler.cpp:1166-1191 | Printing then parsing is the identity exactly on skills with trimmed one-line name and description and a trimmed patch |
| SkillMarkdown.EditingIsStable | interface/command_handler.cpp:1166-1191 | For every text, parse, print and parse again equals parse |
| SkillMarkdown.ParsedIsCanonical | interface/command_handler.cpp:1171-1191 | Every parsed skill is such a skill |

## Left out

- Process control, pipes, terminal modes, readline, editors, printing, HTTP, OAuth and project discovery: input and output without a hard property.
- What executors, models and HTTP answer: arbitrary inputs of the model. Tools that write the conversation tables while they run (raw `query_db`) are not modelled.
- JSON encoding and SQL text: rows, calls and parts are datatypes, and tables are values; only the intended query results are modelled. Replies whose JSON lacks a field that the code reads unguarded are not modelled.
- PromptAssembly.AssemblePrompt: covers the contents of a Gemini request; the system instruction with its memos and the OpenAI message list are not part of this model.
- Database.Connection.GetMessagesByGroup: promises no order between sessions, because a clone copies creation times.
- `created_at`: rows are ordered by id, which is the same while time does not run backwards within a session.
- Failing database writes outside CloneSession, and a failing ROLLBACK.
- Endless turns: a turn takes a finite list of events, and an exhausted list is a turn still going on.
- Two engines writing to the same database inside each other's turns: turns of a run follow one another. Commands between turns may come from any session.
- The OpenAI message list (core/orchestrator_openai.cpp:16-114), beyond decoding call ids.
- RebuildContext after switching or clearing a session, and the JSON text in which it looks for a state block in stored calls: that text is a parameter.
- The list of last selected groups, tool and skill tables, memos and their Markdown.
- Starting Dispatch after Stop, and Stop while a batch is still being queued: callers of the destructor must not do either.
- The mutexes themselves: each locked section is one atomic step; a pool without workers never finishes a batch.
- Rounding of `available_content * 0.2`: the product is taken over the reals and rounded down.
- Tree-sitter: tables start from cells, given as trimmed strings, and from the colons of each delimiter cell.
