# Verification of the agent thread and its companions

This project models the agent-session state machine of `crates/acp_thread` and a few smaller
programs of the repository, and proves what they promise.

**The thread.** `ThreadModel` is one state machine: the thread's fields, the far ends of its
one-shot channels, and the tasks of its turns. Its events are everything that can interleave:
sending, cancelling, a turn's body answering or being dropped, the finishing closure of any turn,
message and thought chunks, timer ticks, tool-call updates, permission prompts and answers,
elicitations, compactions, plans, rewinding and terminal events. A turn's answer and its finishing
closure are separate events, so anything may happen between them. `AcpThread` is the same thread as
an object whose methods work in place with the program's loops, each proved against the machine's
function; `Elicitations`, `ToolCalls` and `Terminals` hold the parts with objects of their own.
`TurnEffects`, `CallEffects` and `TimelineEffects` tell what each event does by the
entries, statuses and texts before and after, without the machine's own functions. The other
`Thread...` modules, `Streaming` and `ChunkMerging` prove properties over all runs:

- turns: ids, pre-emption and late completions (`ThreadTurns`, `ThreadCancel`);
- smooth streaming refines appending at once, within thirteen ticks and at character boundaries
  (`Streaming`, `ThreadDocuments`, `ThreadText`, `Utf8`);
- answer channels are used or dropped once (`Elicitations`, `ThreadPermissions`, `ThreadInvariants`);
- updating in place equals rebuilding (`ToolCalls`, `AcpThread.UpdatePlan`);
- terminal events commute with creation (`Terminals`).

**The companions.** `FencedCode` (fenced code blocks read back), `RangeMerge` (excerpts of a diff),
`Frontmatter` and `Slug` (skill files), `DuplicateMagnets` with `MagnetsReadBack` and `BotComment`
(two printer and reader pairs split across scripts), and `GuildBoard` (the timed nudge and clear
protocol). `TextLines` holds lines, numbers, searches and a stable sort for the scripts.

Where the code does not do what one would expect, the exact condition is proved, with a witness: a
late refusal takes back a newer turn's prompt and sets its error flag (`ThreadCancel`), a late grant
reopens a finished call and an unrecognised content kind lets old content show through
(`ToolCalls`), a title before creation is lost (`Terminals`), empty ranges are excerpts of their own
(`RangeMerge`), a reply in the second of the check-in is missed and a second, active assignee is
cleared with the first (`GuildBoard`), an address that contains "/issues/" too early hides numbers
(`MagnetsReadBack`), and a continuation line may look like a suggestion (`BotComment`).

`dafny verify dfyconfig.toml` checks the whole project.

## Model

| member | source | states |
|---|---|---|
| ThreadTurns.TurnIdsCountSends | crates/acp_thread/src/acp_thread.rs:3764-3768 | in every run the newest turn's id counts the prompts sent, at the counter's width, and a running turn is the newest one |
| ThreadTurns.TurnIdsIncrease | crates/acp_thread/src/acp_thread.rs:3764-3768 | below 2^32 prompts ids strictly increase along every run, by one per prompt |
| ThreadTurns.SameTurnExactlyWhen | crates/acp_thread/src/acp_thread.rs:3785-3788 | a completion counts as the running turn's exactly when a turn runs and a multiple of 2^32 turns started since: for fewer turns, exactly when it is its own |
| ThreadTurns.GeneratingExactlyWhileLive | crates/acp_thread/src/acp_thread.rs:2436-2443 | in every interleaving a turn is running exactly while the newest one is started, not cancelled and not finished by its own completion |
| ThreadInvariants.FinishLeavesOrEnds | crates/acp_thread/src/acp_thread.rs:3809-3816 | a completion either is its own turn's and ends it, or leaves the running turn as it is |
| ThreadCancel.CancelQuiets | crates/acp_thread/src/acp_thread.rs:3941-3954 | cancelling a running turn leaves no call pending, waiting or in progress, no compaction in progress and no shown elicitation outstanding; every open prompt is dropped and all else is unchanged, in order |
| ThreadCancel.BadEndQuiets | crates/acp_thread/src/acp_thread.rs:3843-3889 | the running turn's own completion by error, token limit, request limit or cancellation leaves the same quiet timeline, with exactly the expected error flag |
| ThreadCancel.EveryRunFallsQuiet | crates/acp_thread/src/acp_thread.rs:3956-3999 | both hold at the end of every run of the machine, whatever came before |
| ThreadCancel.IdleCancelTouchesOnlyElicitations | crates/acp_thread/src/acp_thread.rs:3941-3948 | a cancel while idle flushes the text and cancels the outstanding elicitations that the timeline shows, and changes no entry |
| ThreadCancel.StaleFinishLeavesNewTurnAlone | crates/acp_thread/src/acp_thread.rs:3784-3816 | an older turn's completion never ends the newer one nor changes a surviving entry, elicitation or prompt; it sets the error flag exactly when it is an error, a token limit or a refusal; a late request limit or a dropped sender changes nothing at all |
| ThreadCancel.StaleRefusalCutsExactlyWhen | crates/acp_thread/src/acp_thread.rs:3869-3903 | a late refusal cuts the timeline exactly when a prompt exists that no completed call with output follows, and then at the newest prompt |
| ThreadCancel.LateRefusalRemovesNewerPrompt | crates/acp_thread/src/acp_thread.rs:3869-3903 | a run in which a first turn's late refusal takes back the second turn's prompt and sets the error flag while the second turn is running |
| TurnEffects.SendStartsNextTurn | crates/acp_thread/src/acp_thread.rs:3753-3775 | sending starts the next turn with a clear error flag and exactly the plan entries that are not completed, in order; a running turn falls quiet first, and when none runs no entry changes |
| TurnEffects.EndOfTurnShowsPlan | crates/acp_thread/src/acp_thread.rs:3863-3867 | when any turn ends well exactly a non-empty plan with nothing pending or in progress moves to the end of the timeline; all else stays |
| TurnEffects.RefusalTakesBackPrompt | crates/acp_thread/src/acp_thread.rs:3869-3903 | a refusal of any turn, running or late, sets the error flag and takes back the newest prompt and what follows it, unless a call completed with output since; then, or without a prompt, the timeline stays, plus the plan if it is done |
| TurnEffects.OwnBadEnd | crates/acp_thread/src/acp_thread.rs:3831-3889 | the running turn's error, limit or cancellation ends it and leaves nothing pending, waiting or in progress, and nothing else changed |
| TurnEffects.LateBadEnd | crates/acp_thread/src/acp_thread.rs:3831-3854 | an older turn's error, token limit or cancellation shows the pending text, the first two set the error flag, and nothing else changes |
| TurnEffects.SilentEnds | crates/acp_thread/src/acp_thread.rs:3788-3825 | a dropped sender only ends its own turn, and a request limit reported late does nothing |
| TurnEffects.TaskGoesOn | crates/acp_thread/src/acp_thread.rs:3770-3784 | a body's answer or loss counts once, its closure runs once after it, and a caller may give up before; no other event touches a turn's task |
| Streaming.StreamingRefinesAppending | crates/acp_thread/src/acp_thread.rs:2763-2951 | after every run of the whole machine, flushing the buffer gives exactly the state of a thread that appends every chunk at once |
| Streaming.VisiblePlusPending | crates/acp_thread/src/acp_thread.rs:2859-2951 | document by document, visible text plus the text pending for it is what appending at once shows, and every other part of the thread is equal |
| Streaming.NewEntryLeavesNothingPending | crates/acp_thread/src/acp_thread.rs:2993-2997 | a step that adds a timeline entry leaves nothing pending |
| Streaming.FinishFlushes | crates/acp_thread/src/acp_thread.rs:3789-3825 | an answered completion leaves nothing pending, except the ignored late request limit; a dropped sender leaves the buffer as it is |
| Streaming.CancelAndSendFlush | crates/acp_thread/src/acp_thread.rs:3941-3943 | cancelling and starting a turn leave nothing pending |
| Streaming.TickShowsRate | crates/acp_thread/src/acp_thread.rs:2953-2991 | each tick shows the first pending bytes, as many as the rate says and on to the next character, at the end of their document, and keeps the rest pending |
| Streaming.ThirteenTicksRevealAll | crates/acp_thread/src/acp_thread.rs:2130-2136 | from every reachable state thirteen ticks without new text reveal everything that was pending, in its place |
| Streaming.TwelveTicksAreNotEnough | crates/acp_thread/src/acp_thread.rs:2903-2935 | the bound is sharp: twenty-five single-byte letters are not all shown after twelve ticks |
| ThreadDocuments.RateCoversPending | crates/acp_thread/src/acp_thread.rs:2913-2927 | the rate is the least that shows all pending text in 200 ms at a tick every 16 ms |
| ThreadDocuments.StepKeepsDocuments | crates/acp_thread/src/acp_thread.rs:2763-2951 | every step keeps documents owned by one chunk or summary, the buffer aimed at an existing document, and the rate high enough for what is pending |
| ThreadText.RunShowsValidText | crates/acp_thread/src/acp_thread.rs:2953-2991 | in every run fed with well-formed strings, all visible and all pending text is well-formed UTF-8 |
| ThreadText.TicksCutAtBoundaries | crates/acp_thread/src/acp_thread.rs:2970-2982 | each tick of such a run cuts at a character boundary, so both halves are well-formed |
| Utf8.CeilCharBoundary | crates/acp_thread/src/acp_thread.rs:2970-2974 | looking at most four bytes ahead finds the least character boundary at or after the index |
| Utf8.ValidSplit | crates/acp_thread/src/acp_thread.rs:2970-2982 | cutting well-formed text at a boundary leaves two well-formed texts |
| TimelineEffects.AbsorbingAppends | crates/acp_thread/src/acp_thread.rs:1403-1451 | a block that takes in content reads as before with the content's reading after it, on a new line unless it was Markdown; a lone link or decodable picture stays what it is |
| TimelineEffects.PromptIsShown | crates/acp_thread/src/acp_thread.rs:3683-3700 | a prompt becomes one new message with its client id that reads as all its blocks in order |
| TimelineEffects.UserTextTakesInOrStarts | crates/acp_thread/src/acp_thread.rs:2685-2742 | after any run the user's text goes into the newest message exactly if that is the user's, at the same indent, with ids that agree; its ids, its chunks and its text after that |
| TimelineEffects.AgentsCopyTakesInOrStarts | crates/acp_thread/src/acp_thread.rs:2548-2577 | so does the agent's copy that echoes nothing, except that it never claims an optimistic message without an id |
| TimelineEffects.EchoAddsOnlyId | crates/acp_thread/src/acp_thread.rs:2548-2577 | content that an optimistic newest message already holds adds nothing but an id, and that only to a message without one |
| TimelineEffects.AgentStartsMessage | crates/acp_thread/src/acp_thread.rs:2763-2857 | unless the newest entry is an assistant message at the same indent, content from the agent starts one, with its kind, id and text |
| TimelineEffects.AgentAddsChunk | crates/acp_thread/src/acp_thread.rs:2788-2836 | if it is one, content of another kind or under a conflicting id is a chunk of its own |
| TimelineEffects.AgentContinuesChunk | crates/acp_thread/src/acp_thread.rs:2788-2836 | and other content goes into the last chunk, which takes over an id only if it had none |
| TimelineEffects.TextIsHeldBack | crates/acp_thread/src/acp_thread.rs:2859-2935 | text that goes on in a shown Markdown chunk is not shown at once but joins what is pending for that chunk, at the least rate that shows all in 200 ms at a tick every 16 ms |
| TimelineEffects.CompactionIsShown | crates/acp_thread/src/acp_thread.rs:2999-3019 | a compaction takes the place of the newest one with its id or is added last, with its status and summary |
| TimelineEffects.SummaryGoesOn | crates/acp_thread/src/acp_thread.rs:3021-3062 | more of a summary goes to its end or starts it, a new status replaces the old, and an unknown id changes nothing |
| TimelineEffects.RewindRemovesRest | crates/acp_thread/src/acp_thread.rs:4055-4071 | rewinding removes the first prompt with the client id and all after it, and exactly the terminals that the removed calls showed; an unknown id changes nothing |
| TimelineEffects.RewindShowsPending | crates/acp_thread/src/acp_thread.rs:4037-4053 | before it waits for the agent, a rewind only shows the pending text |
| TimelineEffects.TerminalsAreSeparate | crates/acp_thread/src/acp_thread.rs:4689-4694 | terminal events reach the terminals and nothing else of the thread |
| TimelineEffects.RequestIsShown | crates/acp_thread/src/acp_thread.rs:3508-3525 | a valid request waits in the store under a new id and is the timeline's last entry; an invalid one changes nothing |
| TimelineEffects.ShownElicitationsAreReached | crates/acp_thread/src/acp_thread.rs:3527-3573 | answers and cancellations reach the store exactly when the timeline shows the elicitation |
| TimelineEffects.ShownLinksAreReached | crates/acp_thread/src/acp_thread.rs:3543-3562 | a completed link reaches the newest elicitation of its url exactly when the timeline shows that one |
| ChunkMerging.SegmentationIsUnique | crates/acp_thread/src/acp_thread.rs:373-381 | there is only one division of a stream into uniform blocks with a kind change or id conflict between neighbours, and it is the one the merging gives |
| ChunkMerging.GroupsAreSegmentation | crates/acp_thread/src/acp_thread.rs:2803-2836 | the blocks flatten to the stream in order, all known ids in a block agree, and splits occur only at a kind change or an id conflict |
| ChunkMerging.MergePathsAgree | crates/acp_thread/src/acp_thread.rs:2763-2899 | for any stream of message and thought chunks the buffering path, once flushed, ends in the same state as the appending path |
| ChunkMerging.ChunksAreGroups | crates/acp_thread/src/acp_thread.rs:2788-2857 | the thread gains one assistant message whose chunks carry the groups' kinds, known ids and contents in order, each in a document of its own |
| ChunkMerging.StreamedChunksAreGroups | crates/acp_thread/src/acp_thread.rs:2763-2899 | the same for the thread that streams, flushed afterwards |
| ChunkMerging.TextBlocksConcatenate | crates/acp_thread/src/acp_thread.rs:1403-1451 | a block of text chunks is exactly the texts one after the other |
| Elicitations.AnsweredAtMostOnce | crates/acp_thread/src/acp_thread.rs:487-577 | over any run each elicitation is answered at most once; Pending exactly while unanswered; Accepted or Completed means Accept was delivered, Declined means Decline, a Canceled form was never accepted |
| Elicitations.AtMostTwoChanges | crates/acp_thread/src/acp_thread.rs:645-745 | over any run the status of an elicitation changes at most twice |
| Elicitations.ReportedChangesLowerRank | crates/acp_thread/src/acp_thread.rs:487-577 | an operation that reports a change of an entry strictly lowers its rank, and an entry it does not report is unchanged |
| Elicitations.AnswersAreFinal | crates/acp_thread/src/acp_thread.rs:487-577 | a delivered answer is never retracted or replaced by any later operation |
| Elicitations.ClearAnswersEverything | crates/acp_thread/src/acp_thread.rs:653-660 | after a clear every receiver has been answered exactly once |
| Elicitations.IdsStay | crates/acp_thread/src/acp_thread.rs:550-577 | only dismissals remove entries; all other operations keep every id and mode in its place |
| Elicitations.ResponseReachesPending | crates/acp_thread/src/acp_thread.rs:487-502 | a response to a pending entry is its new status and its one answer, and is reported; any other entry, and every other channel, is left alone |
| Elicitations.CompletionReachesNewest | crates/acp_thread/src/acp_thread.rs:620-634 | a completed link completes the newest entry of its url if that is pending, accepting it, or accepted; nothing else changes |
| Elicitations.CancelReachesUnresolved | crates/acp_thread/src/acp_thread.rs:524-548 | canceling an entry reaches it exactly while it is pending, telling its receiver, or an accepted link; nothing else changes |
| Elicitations.CancelsSelected | crates/acp_thread/src/acp_thread.rs:732-745 | canceling all or one request's entries does so for exactly those, and reports exactly those |
| Elicitations.UnknownIsIgnored | crates/acp_thread/src/acp_thread.rs:487-502 | operations on an id or url that the store does not have change and report nothing |
| Elicitations.DismissalKeepsWaiting | crates/acp_thread/src/acp_thread.rs:662-684 | a dismissal keeps exactly the pending entries and accepted links, in order, and reports exactly the other ids, in order |
| Elicitations.ElicitationStore.InsertPending | crates/acp_thread/src/acp_thread.rs:451-463 | adds one pending entry with an open channel and changes nothing else |
| Elicitations.ElicitationStore.Find | crates/acp_thread/src/acp_thread.rs:735-743 | finds the last entry with the id, or none if there is none |
| Elicitations.ElicitationStore.FindUrl | crates/acp_thread/src/acp_thread.rs:709-723 | finds the last entry with the url id, or none if there is none |
| Elicitations.ElicitationStore.RespondById | crates/acp_thread/src/acp_thread.rs:487-502 | moves a pending entry to the response's status, delivers the response once, reports exactly that, and otherwise changes nothing |
| Elicitations.ElicitationStore.CompleteById | crates/acp_thread/src/acp_thread.rs:504-522 | a pending or accepted entry becomes Completed, delivering Accept only if pending; declined and canceled entries keep their status |
| Elicitations.ElicitationStore.CompleteUrlElicitation | crates/acp_thread/src/acp_thread.rs:620-634 | does so for the entry of a url id, and reports exactly the entry that changed |
| Elicitations.ElicitationStore.CancelById | crates/acp_thread/src/acp_thread.rs:568-577 | cancels one entry and tells its receiver, and reports whether it changed |
| Elicitations.ElicitationStore.CancelAt | crates/acp_thread/src/acp_thread.rs:524-548 | a pending entry or an accepted url is canceled, every other status is restored |
| Elicitations.ElicitationStore.CancelPending | crates/acp_thread/src/acp_thread.rs:732-745 | the loop cancels exactly the selected entries, each as if alone, and lists those that changed in order |
| Elicitations.ElicitationStore.CancelAll | crates/acp_thread/src/acp_thread.rs:645-651 | cancels every entry that can be, and reports exactly those |
| Elicitations.ElicitationStore.CancelRequest | crates/acp_thread/src/acp_thread.rs:686-697 | cancels exactly the entries of one request |
| Elicitations.ElicitationStore.Clear | crates/acp_thread/src/acp_thread.rs:653-660 | cancels everything that waits, then empties the store |
| Elicitations.ElicitationStore.ClearResolved | crates/acp_thread/src/acp_thread.rs:662-684 | keeps exactly pending entries and accepted urls, and returns the other ids in order |
| ToolCalls.GrantIsTransparent | crates/acp_thread/src/acp_thread.rs:1064-1087 | a prompt left open under any updates ends, when granted, in what the updates alone would give, pending raised to in progress; it is left open exactly when all updates were pending or in progress |
| ToolCalls.GrantAgreesExactlyWhen | crates/acp_thread/src/acp_thread.rs:3464-3487 | an answer agrees with the agent's own status exactly when the prompt is still open or that status is pending or in progress; a late grant takes a completed call back to in progress |
| ToolCalls.ChoiceDecides | crates/acp_thread/src/acp_thread.rs:3464-3487 | for every status and choice: an action goes on, both kinds of rejection reject, waiting or not, and a grant goes on unless the agent completed or failed the call meanwhile |
| ToolCalls.AgentUpdateShows | crates/acp_thread/src/acp_thread.rs:1076-1087 | an open prompt stays and remembers exactly pending and in progress; any other update of the agent's is shown, status by status |
| ToolCalls.PromptIsTransparent | crates/acp_thread/src/acp_thread.rs:1064-1087 | one update with or without a prompt in front leaves the same status behind the prompt |
| ToolCalls.InPlaceMatchesRebuild | crates/acp_thread/src/acp_thread.rs:1013-1039 | with all terminals registered, updating in place gives item for item what a rebuild gives for every old content, exactly when unrecognised items do no harm; always when every kind is recognised |
| ToolCalls.HarmWitness | crates/acp_thread/src/acp_thread.rs:1018-1024 | an unrecognised item in the overlap before a recognised one lets some old content show through |
| ToolCalls.FailedUpdateStops | crates/acp_thread/src/acp_thread.rs:1013-1039 | an update that names an unregistered terminal stops there: items before it are updated, items from there on stay |
| ToolCalls.UpdateChanges | crates/acp_thread/src/acp_thread.rs:947-1062 | an update succeeds exactly when its terminals are registered; status comes first in any case, and output that comes while no content is shown is shown |
| ToolCalls.NewCallShows | crates/acp_thread/src/acp_thread.rs:871-930 | a new call needs a title and registered terminals, and shows the content's conversion |
| ToolCalls.ConversionShows | crates/acp_thread/src/acp_thread.rs:1808-1840 | what each kind of content is converted to, for calls |
| ToolCalls.UnchangedDiffStays | crates/acp_thread/src/acp_thread.rs:1842-1880 | a diff with the same texts stays as it is, and every other recognised item becomes its conversion |
| ToolCalls.UpdatedMatchesConversion | crates/acp_thread/src/acp_thread.rs:1842-1880 | one item updated in place shows what a fresh conversion shows, through suffix append, reset, diff reuse and replacement |
| ToolCalls.ToolCall.UpdateAcpStatus | crates/acp_thread/src/acp_thread.rs:1076-1087 | a pending or in-progress update is remembered behind an open prompt, any other closes it |
| ToolCalls.ToolCall.UpdateStatus | crates/acp_thread/src/acp_thread.rs:1064-1074 | agent statuses go through the prompt, the others replace the status |
| ToolCalls.ToolCall.UpdateItem | crates/acp_thread/src/acp_thread.rs:1842-1880 | changes one item only, and only if the new item can be converted |
| ToolCalls.ToolCall.UpdateContent | crates/acp_thread/src/acp_thread.rs:1013-1039 | reuse, extend and truncate leave exactly the overlaid content; an unregistered terminal stops the update where it stands |
| ToolCalls.ToolCall.UpdateFields | crates/acp_thread/src/acp_thread.rs:947-1062 | status, then content, then output; a failing content update leaves the earlier changes in place |
| CallEffects.RequestOpensPrompt | crates/acp_thread/src/acp_thread.rs:3401-3439 | a request for a known call makes it wait on a new channel that is open, remembering its own status or its open prompt's, else the request's, else pending; it fails, and the channel is dropped, exactly when a terminal is unregistered |
| CallEffects.RequestAddsPrompt | crates/acp_thread/src/acp_thread.rs:3401-3439 | for a new call it adds the waiting call last, exactly when that has a title and registered terminals; otherwise the channel is dropped |
| CallEffects.ChoiceReachesCall | crates/acp_thread/src/acp_thread.rs:3454-3497 | a choice decides its own call's status, case by case, and is sent exactly if the call was waiting; no other entry changes |
| CallEffects.WithdrawalReachesCall | crates/acp_thread/src/acp_thread.rs:3441-3452 | taking a request back cancels a waiting call and drops its prompt, and changes no other call |
| CallEffects.AnnouncementReachesCall | crates/acp_thread/src/acp_thread.rs:3218-3276 | a call announced again is updated where it stands and takes the status as it takes an update's |
| CallEffects.AnnouncementAddsCall | crates/acp_thread/src/acp_thread.rs:3218-3276 | a new call is added last with the announced status, exactly when it has a title and registered terminals |
| CallEffects.UpdateReachesCall | crates/acp_thread/src/acp_thread.rs:3108-3180 | an update changes its call alone; one to an unknown call adds a failed call that says so |
| CallEffects.ReplacementReachesCall | crates/acp_thread/src/acp_thread.rs:3163-3172 | a new diff or terminal takes the place of its call's content, and of nothing else |
| CallEffects.TextReachesCall | crates/acp_thread/src/acp_thread.rs:3182-3206 | text for a call is added to it as a block of its own, and is lost for an unknown call |
| CallEffects.UnknownCallIsIgnored | crates/acp_thread/src/acp_thread.rs:3441-3462 | choices and withdrawals for unknown calls do nothing |
| ThreadPermissions.SendersAreLinear | crates/acp_thread/src/acp_thread.rs:3401-3439 | in every run each permission channel got at most one answer, has at most one owner, and is owned only while nothing was sent |
| ThreadPermissions.FateIsSealed | crates/acp_thread/src/acp_thread.rs:3420-3438 | a sent choice or a dropped sender stays so under every step; an open prompt is answered only by the user's answer to its own call |
| ThreadPermissions.AnswerSendsOnce | crates/acp_thread/src/acp_thread.rs:3489-3494 | an answer sends the choice to the prompt its call waits on, if any, and touches no other prompt |
| ThreadPermissions.CallIdsAreUnique | crates/acp_thread/src/acp_thread.rs:3218-3276 | in every run tool-call ids are unique in the timeline, so the search finds the only entry |
| ThreadPermissions.PromptsAreTransparent | crates/acp_thread/src/acp_thread.rs:3108-3276 | any run of agent updates gives, prompts erased, what it gives on the thread without prompts |
| ThreadPermissions.AnswerAfterUpdates | crates/acp_thread/src/acp_thread.rs:3454-3497 | granting after any agent updates leaves their own status with pending raised to in progress; rejecting leaves Rejected |
| ThreadInvariants.StepKeepsCalls | crates/acp_thread/src/acp_thread.rs:3208-3497 | every step keeps call ids unique and each open channel owned by one waiting call |
| ThreadInvariants.RunKeepsElicitations | crates/acp_thread/src/acp_thread.rs:3499-3573 | in every run the store keeps its protocol and the timeline refers only to elicitations that exist |
| Terminals.CreatedTerminalHasEverything | crates/acp_thread/src/acp_thread.rs:4689-4768 | wherever its one creation falls, a terminal was written exactly its output in arrival order, is shrunk exactly when it exited, and nothing stays buffered for it |
| Terminals.CreationCommutes | crates/acp_thread/src/acp_thread.rs:4650-4677 | two runs that differ only in where the terminal is created leave it with the same output and exit |
| Terminals.TitleCommutesExactlyWhen | crates/acp_thread/src/acp_thread.rs:4743-4752 | titles commute with creation exactly when none came before it or one came after |
| Terminals.EarlyTitleIsLost | crates/acp_thread/src/acp_thread.rs:4743-4752 | a run in which a title that comes before its terminal is not shown once the terminal is there |
| Terminals.OthersDoNotInterfere | crates/acp_thread/src/acp_thread.rs:4689-4768 | what a run leaves of one terminal depends only on that terminal's own events |
| Terminals.ReleaseForgets | crates/acp_thread/src/acp_thread.rs:4608-4621 | releasing a terminal removes it alone, and creating one again starts afresh |
| Terminals.BufferedUntilCreated | crates/acp_thread/src/acp_thread.rs:4735-4742 | before creation all output is kept in order, and an exit is remembered exactly if there was one |
| Terminals.RunKeepsSeparate | crates/acp_thread/src/acp_thread.rs:4695-4768 | no id is both live and buffered, over any run |
| Terminals.TerminalTable.OnProviderEvent | crates/acp_thread/src/acp_thread.rs:4689-4768 | one event changes the table exactly as the step says, draining buffered chunks in order on creation |
| Terminals.TerminalTable.ReleaseTerminal | crates/acp_thread/src/acp_thread.rs:4608-4621 | removes a live terminal, reports whether there was one, and changes nothing else |
| AcpThreads.AcpThread.FlushStreamingText | crates/acp_thread/src/acp_thread.rs:2937-2948 | all pending text goes to the end of its own document and the buffer is gone |
| AcpThreads.AcpThread.BufferStreamingText | crates/acp_thread/src/acp_thread.rs:2903-2935 | text for the same document joins what is pending with the rate recomputed; another target flushes first |
| AcpThreads.AcpThread.Reveal | crates/acp_thread/src/acp_thread.rs:2953-2991 | moves a prefix of the pending text, cut at the least boundary at or after the rate, to the document's end |
| AcpThreads.AcpThread.PushNewEntry | crates/acp_thread/src/acp_thread.rs:2993-2997 | flushes, then adds the entry last |
| AcpThreads.AcpThread.StreamingMarkdownTarget | crates/acp_thread/src/acp_thread.rs:2859-2899 | finds the document that the text joins, and records the message id only if there is one |
| AcpThreads.AcpThread.PushAssistantContentBlock | crates/acp_thread/src/acp_thread.rs:2763-2857 | buffers text for an existing Markdown chunk, otherwise flushes and appends to the last chunk, a new chunk or a new message |
| AcpThreads.AcpThread.PushUserContentBlock | crates/acp_thread/src/acp_thread.rs:2685-2742 | joins the last user message under exactly the source's conditions, otherwise adds a message |
| AcpThreads.AcpThread.HandleUserMessageChunk | crates/acp_thread/src/acp_thread.rs:2548-2577 | an echo of the user's own prompt adds nothing but its message id |
| AcpThreads.AcpThread.PushPromptMessage | crates/acp_thread/src/acp_thread.rs:3683-3700 | shows the prompt as one optimistic message with all its blocks folded in order |
| AcpThreads.AcpThread.MarkPendingEntriesAsCanceled | crates/acp_thread/src/acp_thread.rs:3961-3985 | exactly the pending, waiting and running calls and the running compactions become Canceled |
| AcpThreads.AcpThread.CancelOutstandingElicitations | crates/acp_thread/src/acp_thread.rs:3987-3999 | cancelling one by one along the timeline cancels exactly the outstanding elicitations it shows, and no others |
| AcpThreads.AcpThread.CancelTurn | crates/acp_thread/src/acp_thread.rs:3941-3954 | flushes, cancels elicitations, and marks entries only if a turn was running |
| AcpThreads.AcpThread.StartTurn | crates/acp_thread/src/acp_thread.rs:3753-3775 | clears completed plan entries, cancels what runs, and starts the next turn |
| AcpThreads.AcpThread.FinishTurn | crates/acp_thread/src/acp_thread.rs:3784-3937 | the finishing closure of any turn, running or stale, for each stop reason, error and dropped sender |
| AcpThreads.AcpThread.RefuseTurn | crates/acp_thread/src/acp_thread.rs:3869-3903 | takes back the newest prompt unless a completed call with output follows it |
| AcpThreads.AcpThread.UpdatePlan | crates/acp_thread/src/acp_thread.rs:3596-3619 | whatever the plan held, exactly the requested entries remain, in order |
| AcpThreads.AcpThread.ClearCompletedPlanEntries | crates/acp_thread/src/acp_thread.rs:3628-3633 | keeps exactly the entries that are not completed, in order |
| AcpThreads.AcpThread.SnapshotPlan | crates/acp_thread/src/acp_thread.rs:3621-3626 | moves the plan to the timeline exactly when it is non-empty and nothing in it is pending or in progress |
| AcpThreads.AcpThread.IndexForToolCall | crates/acp_thread/src/acp_thread.rs:3278-3292 | finds the last call with the id, or none if there is none |
| AcpThreads.AcpThread.UpsertToolCall | crates/acp_thread/src/acp_thread.rs:3218-3276 | updates the call with the id where it stands or adds one, and reports failures with exactly the changes made before them |
| AcpThreads.AcpThread.UpdateToolCall | crates/acp_thread/src/acp_thread.rs:3108-3180 | as above for an update; an unknown id adds a failed call |
| AcpThreads.AcpThread.RequestToolCallAuthorization | crates/acp_thread/src/acp_thread.rs:3401-3439 | opens a prompt on a fresh channel that remembers the call's own status, else the request's, else pending |
| AcpThreads.AcpThread.CancelToolCallAuthorization | crates/acp_thread/src/acp_thread.rs:3441-3452 | cancels the call only while it waits |
| AcpThreads.AcpThread.AuthorizeToolCall | crates/acp_thread/src/acp_thread.rs:3454-3497 | sets the status for the choice and uses up the sender only if the call was waiting |
| AcpThreads.AcpThread.OpenElicitation | crates/acp_thread/src/acp_thread.rs:3508-3525 | adds a pending elicitation and shows it as the newest entry |
| AcpThreads.AcpThread.RespondToElicitation | crates/acp_thread/src/acp_thread.rs:3527-3541 | reaches an elicitation only through the timeline |
| AcpThreads.AcpThread.CompleteUrlElicitation | crates/acp_thread/src/acp_thread.rs:3543-3562 | completes the newest entry of a url id, if the timeline shows it |
| AcpThreads.AcpThread.CancelOneElicitation | crates/acp_thread/src/acp_thread.rs:3564-3573 | cancels an elicitation only if the timeline shows it |
| AcpThreads.AcpThread.PushContextCompaction | crates/acp_thread/src/acp_thread.rs:2999-3019 | replaces the compaction with the id or adds one |
| AcpThreads.AcpThread.UpdateContextCompaction | crates/acp_thread/src/acp_thread.rs:3021-3062 | extends or creates the summary and sets the status; an unknown id changes nothing |
| AcpThreads.AcpThread.RewindTo | crates/acp_thread/src/acp_thread.rs:4055-4071 | cuts the timeline before the first message with the client id and removes exactly the terminals shown after it |
| AcpThreads.AcpThread.Handle | crates/acp_thread/src/acp_thread.rs:2542-2648 | each event of the machine, given to the object, changes it exactly as one step changes the machine |
| AcpThreads.Replay | crates/acp_thread/src/acp_thread.rs:2542-2648 | a new object fed with any events ends in the state of the machine's run, so what is proved of runs holds of the object |
| FencedCode.FenceIsLongEnough | crates/acp_thread/src/acp_thread.rs:1596-1604 | the fence has at least three backticks, is longer than every row of backticks in the text, and no longer than needed |
| FencedCode.FencedReadsBack | crates/acp_thread/src/acp_thread.rs:1606-1619 | a reader following section 4.5 of CommonMark recovers the language and the text with a final newline, for every text |
| FencedCode.NoLineCloses | crates/acp_thread/src/acp_thread.rs:1596-1619 | no line of a text without so long a row of backticks is a closing fence |
| FencedCode.FencedCodeBlock | crates/acp_thread/src/acp_thread.rs:1596-1619 | the built string is fence, language, newline, text with a final newline, fence |
| RangeMerge.ExcerptsAreRight | crates/acp_thread/src/diff.rs:334-370 | for all ranges: strict gaps between neighbours, exactly the same points covered and touched, and each range within one excerpt |
| RangeMerge.ExcerptsAgreeExactlyWhen | crates/acp_thread/src/diff.rs:334-370 | two lists of ranges, empty ones included, give identical excerpts exactly when they cover the same points and touch the same points |
| RangeMerge.ExcerptsAreCanonical | crates/acp_thread/src/diff.rs:334-370 | so without empty ranges the same coverage alone gives identical excerpts |
| RangeMerge.OrderDoesNotMatter | crates/acp_thread/src/diff.rs:351-352 | for any ranges, also empty ones, the result depends only on which ranges there are |
| RangeMerge.EmptyRangesAreKept | crates/acp_thread/src/diff.rs:354-369 | a pure deletion's empty range is kept: two lists with the same coverage and different excerpts |
| RangeMerge.RowsComeFirst | crates/acp_thread/src/diff.rs:351-352 | positions are ordered by row and then by column, in what a range covers and touches |
| RangeMerge.MergeRanges | crates/acp_thread/src/diff.rs:346-369 | the nested loops give the sorted and merged list of hunks and revealed ranges |
| Frontmatter.ExtractsAtLeastDelimiter | crates/agent_skills/agent_skills.rs:343-413 | the result uses the least closing line at which the YAML reader is satisfied, prefix plus body is the trimmed content, and each failure occurs exactly when its cause does |
| Frontmatter.ScanIsRight | crates/agent_skills/agent_skills.rs:357-385 | the byte scan finds exactly the ends of the delimiter lines after the first line, in order |
| Frontmatter.ClosingEndsAscend | crates/agent_skills/agent_skills.rs:357-385 | the candidates ascend strictly and are exactly the ends of lines that are three dashes ended by a newline, carriage return and newline, or the end of the text |
| Frontmatter.DelimiterIsThreeDashes | crates/agent_skills/agent_skills.rs:357-385 | such a line starts after a newline, is "---", and ends with a newline, a carriage return and newline, or the text |
| Frontmatter.LastErrorIs | crates/agent_skills/agent_skills.rs:393-408 | the reported error is that of the last candidate that gave one, and none if none did |
| Frontmatter.BlanksInFrontAreIgnored | crates/agent_skills/agent_skills.rs:343-345 | blanks and line breaks in front of the content make no difference |
| Frontmatter.Candidates | crates/agent_skills/agent_skills.rs:358-385 | the loop collects exactly those ends |
| Frontmatter.ExtractFrontmatter | crates/agent_skills/agent_skills.rs:343-413 | the two loops together give that result, with the last error when nothing is accepted |
| Slug.SlugIsValid | crates/agent_skills/agent_skills.rs:450-492 | a slug always passes the name rules, also when the cut lands on a dash, and has no two dashes in a row |
| Slug.SlugExistsExactlyWhen | crates/agent_skills/agent_skills.rs:450-492 | there is a slug exactly when the input has an ASCII letter or digit or an ampersand |
| Slug.SlugifyIsIdempotent | crates/agent_skills/agent_skills.rs:450-492 | slugifying a slug changes nothing |
| Slug.FixedExactlyWhen | crates/agent_skills/agent_skills.rs:510-527 | a string is its own slug exactly when it passes the name rules and has no two dashes in a row |
| Slug.EachCharacterGives | crates/agent_skills/agent_skills.rs:450-470 | what each character becomes: the lower-case letter, the digit, a separator, the word "and" between separators, or nothing |
| Slug.CharactersAreIndependent | crates/agent_skills/agent_skills.rs:450-470 | and that does not depend on its neighbours |
| Slug.OnlyTheEndIsCut | crates/agent_skills/agent_skills.rs:480-492 | up to 64 characters are kept as they are, and the cut loses only dashes before the sixty-fifth |
| Slug.ValidExactlyWhen | crates/agent_skills/agent_skills.rs:510-527 | a name is valid exactly with 1 to 64 lower-case letters, digits and dashes and no dash at an end |
| Slug.SqueezedIsJoined | crates/agent_skills/agent_skills.rs:456-479 | the loop's string is the words joined by single dashes, with a dash more only after an unfinished separator |
| Slug.SlugifySkillName | crates/agent_skills/agent_skills.rs:450-492 | the loops compute the lowercase words joined by single dashes, cut to 64 and trimmed |
| MagnetsReadBack.BodyReadsBack | script/github-find-top-duplicated-bugs.py:148-178 | for every list with distinct numbers and urls that read back, whatever its areas: reading the printed body gives one magnet for each issue that has an area with a name, and no other, each with its count and its areas, trimmed, as often as they are listed, greatest count first |
| MagnetsReadBack.AddressReadsBackExactlyWhen | script/github-check-new-issue-for-duplicates.py:383-391 | every number reads back from urls at an address exactly when "/issues/" does not occur too early in it |
| MagnetsReadBack.RepositoryCalledIssues | script/github-check-new-issue-for-duplicates.py:386-391 | when a repository is called "issues" no number at all can be read from its urls |
| MagnetsReadBack.EntryReadsBack | script/github-check-new-issue-for-duplicates.py:379-391 | an entry line is taken for an entry and gives back its count and number |
| MagnetsReadBack.PrintedAsNamed | script/github-find-top-duplicated-bugs.py:154-176 | sorted and grouped by area, the printed entries put each issue under each name exactly as often as its areas have that name |
| MagnetsReadBack.FactIsGiven | script/github-find-top-duplicated-bugs.py:154-176 | and every printed entry is a listed issue, with its count, in one of its own areas |
| MagnetsReadBack.MostDuplicatesFirst | script/github-find-top-duplicated-bugs.py:165-171 | each area has one section, the area with most duplicates together comes first, and in it the issue with most |
| MagnetsReadBack.FirstListedFirst | script/github-find-top-duplicated-bugs.py:153-165 | areas are ranked in the order in which they are first listed, which decides among equals |
| MagnetsReadBack.SectionPrints | script/github-find-top-duplicated-bugs.py:169-176 | a section's blank lines, header and padded entry, as text |
| MagnetsReadBack.OtherLinesAreSkipped | script/github-check-new-issue-for-duplicates.py:380-391 | lines that are no header and no readable entry under a named area teach nothing |
| MagnetsReadBack.ParenthesisIsIgnored | script/github-check-new-issue-for-duplicates.py:386-389 | a parenthesis after the address does not change the number |
| MagnetsReadBack.LearnedSummarizes | script/github-check-new-issue-for-duplicates.py:393-406 | regrouping keeps one magnet per number with all its areas in order and a count that was printed |
| TextLines.DecimalReadsBack | script/github-check-new-issue-for-duplicates.py:386-389 | printing a number and reading the digits back gives the number |
| TextLines.LinesOfJoin | script/github-check-new-issue-for-duplicates.py:373 | splitting joined one-line pieces gives the pieces back |
| TextLines.SortDescIsRight | script/github-check-new-issue-for-duplicates.py:408 | the sort gives a descending permutation |
| TextLines.SortKeepsTies | script/github-find-top-duplicated-bugs.py:165-167 | entries with the same count stay in their order |
| TextLines.StripDropsSpace | script/github-check-new-issue-for-duplicates.py:380-383 | white space around an area's name does not matter |
| DuplicateMagnets.ClosedDuplicatesAre | script/github-find-top-duplicated-bugs.py:81-88 | a number counts exactly when some event marks it as a closed duplicate |
| DuplicateMagnets.AreaLabelsGiveNames | script/github-find-top-duplicated-bugs.py:92-93 | each label that starts with "area:" gives its name, in order, and no other label does |
| DuplicateMagnets.ExtractDuplicateInfo | script/github-find-top-duplicated-bugs.py:79-101 | nothing below two distinct closed duplicates; otherwise their number, and the area names or the unlabeled mark |
| DuplicateMagnets.BuildMarkdownBody | script/github-find-top-duplicated-bugs.py:148-178 | the grouping loops and the printing loops give the body for the list |
| DuplicateMagnets.ParseDuplicateMagnets | script/github-check-new-issue-for-duplicates.py:361-410 | the reading loop gives the sorted magnets of a body, skipping lines that are no entries |
| BotComment.RecognisedExactlyWhenNotEmpty | script/github-track-duplicate-bot-effectiveness.py:123-125 | a comment is recognised exactly when it is not empty, and it is not empty exactly when there is something to say |
| BotComment.ReadsBackExactlyWhen | script/github-track-duplicate-bot-effectiveness.py:146-148 | the reader finds the likely, then the possible, then the closed issues, in order and nothing else, exactly when no continuation line of a text looks like a suggestion |
| BotComment.ExplanationReadAsSuggestion | script/github-track-duplicate-bot-effectiveness.py:146-148 | an explanation of two lines whose second line is read as a suggestion |
| BotComment.OneLineTextsReadBack | script/github-check-new-issue-for-duplicates.py:107-171 | with one-line texts the numbers always read back |
| BotComment.LikelyIsSaid | script/github-check-new-issue-for-duplicates.py:118-141 | each likely duplicate is listed by number and explained with its root cause |
| BotComment.PossibleIsSaid | script/github-check-new-issue-for-duplicates.py:143-151 | each possible duplicate is listed with its explanation and root cause |
| BotComment.ClosedIsSaid | script/github-check-new-issue-for-duplicates.py:152-161 | each closed issue is listed with its explanation, and marked exactly if it was closed as a duplicate |
| BotComment.MarkersAre | script/github-track-duplicate-bot-effectiveness.py:123-125 | what a comment is recognised by, as text |
| BotComment.CommentSuggests | script/github-check-new-issue-for-duplicates.py:107-171 | for any texts, all that the reader finds: the issues' numbers with what continuation lines add in between |
| GuildBoard.ClearsTheSilentExactlyWhen | script/github-guild-board.py:499-565 | after any run with any assignees, all whom a sweep takes off the issue have been silent for 21 days, whenever it comes, exactly when no check-in is unanswered or every assignee was silent for the 14 days before the latest one |
| GuildBoard.SecondAssigneeIsClearedToo | script/github-guild-board.py:530-568 | a run in which the second of two assignees, heard of a day ago, is cleared with the first |
| GuildBoard.ClearsAfterSilenceExactlyWhen | script/github-guild-board.py:527-565 | after any run in which nobody moves up, every clearing sweep comes at least 21 days after the last sign of life of the assignee it measures, exactly when that sign is not dated in the very second of the latest check-in |
| GuildBoard.ReplyInTheSameSecond | script/github-guild-board.py:543-565 | a run in which a reply in the second of the check-in does not stop the clearing seven days later |
| GuildBoard.OneCheckInPerSilence | script/github-guild-board.py:543-558 | between two check-ins the person asked the second time has been assigned or has commented |
| GuildBoard.ReplyRestartsTheWait | script/github-guild-board.py:536-565 | after a reply the assignment is cleared only 21 days later or more, and only after a new check-in at least 14 days after the reply |
| GuildBoard.RunKeepsWaited | script/github-guild-board.py:527-565 | as long as nobody moves up, a check-in later than the measured assignee's last sign of life waited at least 14 days for it |
| GuildBoard.SweepDecides | script/github-guild-board.py:503-565 | an item is left alone exactly when it is archived, no issue, not in progress, held, or without a guild member or with a pull request; otherwise the first member is asked after 1209600 seconds of silence, and all members are cleared 604800 seconds after an unanswered check-in |
| GuildBoard.ActivityIsLatest | script/github-guild-board.py:536-541 | the measured activity is the latest of the assignment and the assignee's own comments that are no check-ins |
| GuildBoard.Measure | script/github-guild-board.py:532-541 | one pass finds the latest check-in and the assignee's latest sign of life |
| GuildBoard.SweepItem | script/github-guild-board.py:503-565 | one item is skipped, waits, is checked in on, is cleared, or lacks an assignment event, as its comments and timeline say |
| GuildBoard.RunStale | script/github-guild-board.py:499-585 | the sweep decides item by item up to the first without an assignment event, and counts check-ins and clearings |

## Left out

- ThreadModel.IdOfTurn: turn ids count modulo 2^32, as an optimised build does; a build with overflow checks would stop instead.
- AcpThreads.AcpThread.UpsertToolCall: the timeline holds a call's fields as a value that is taken out, updated as an object and put back; aliasing between entries does not arise and is not modelled.
- AcpThreads.AcpThread.UpdateContextCompaction: summaries are documents like those of messages, but plan entries and the content of tool calls hold their text by value, since no buffer ever points at them.
- AcpThreads.AcpThread.RewindTo: the agent's own truncation, the rejection of edits and the stopping of processes are not modelled.
- ToolCalls.ToolCall.UpdateFields: title, kind, locations, raw input and metadata are not part of the model; rendered output is a parameter.
- ToolCalls.InPlaceMatchesRebuild: diffs are compared by old and new text only, because the source reuses a diff whose path differs.
- Terminals.CreatedTerminalHasEverything: a run with more than one creation of an id, or a release of it, is not covered.
- ThreadModel.RevealRate: the rounded-up quotient is exact where the source divides in single precision.
- ThreadModel.Absorb: link rendering, picture decoding and resource rendering are parameters of the content.
- Frontmatter.ExtractFrontmatter: positions count characters where the source counts bytes; all candidates follow ASCII, so both cut the same text. The YAML reader is a parameter.
- TextLines.ParseNumber: signs, underscores and digits beyond ASCII, which Python also accepts in a number, are not modelled; nor are digits beyond ASCII in the regular expression of the comment's reader.
- MagnetsReadBack.BodyReadsBack: the list must have distinct numbers, area names on one line, and urls in which "/issues/" first occurs before the number; AddressReadsBackExactlyWhen says when an address has that property.
- RangeMerge.ExcerptsAgreeExactlyWhen: ranges do not end before they start, as the program's own ranges never do.
- FencedCode.FencedReadsBack: the language must be one line without backticks or surrounding blanks, which holds of every name the program passes.
- GuildBoard.ClearsAfterSilenceExactlyWhen: check-in markers only in the bot's comments; without that, and when somebody moves up, ClearsTheSilentExactlyWhen still holds.
- GuildBoard.ClearsTheSilentExactlyWhen: the assignees over time are guild members throughout, and a sweep acts at one instant after reading its clock; Decide and SweepItem tell members from others.
- GuildBoard.RunStale: what a sweep posts or moves on the board, and its messages, are represented by its decisions.
- Token usage, titles, modes, commands, checkpoints, agent location, action log and emitted events of the thread: bookkeeping beside the protocol.
- `create_terminal`, sandboxing, file reading and writing, connections and rendering: operating system, editor buffers and display.
- HTTP, GraphQL and Slack calls of the scripts: their answers are inputs of the model.
- `enrich_magnets`, `areas_match` and the other board commands: short lookups and branch cascades.
