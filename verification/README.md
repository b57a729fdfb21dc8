# Proofs about the ATape adapters

ATape turns the append-only logs of seven coding agents into one canonical, ordered event history.
The hard logic sits in the adapters: state machines that replay a log, searches over families of
delegated threads, cursors that can be resumed, and exact-once numbering. This project models that
logic in Dafny and proves what it promises.

Each adapter is modelled on decoded rows: a check that looks at one row alone, and provider wording,
is a boolean or an option of the row; every check that looks at the state is spelled out. A file is
an immutable sequence of rows or bytes, the database a finite set of tables, and a hash stands for
its arguments. State machines appear twice: as functions, about which the properties are proved, and
as methods with loops or classes with fields, proved equal to the functions. Beside them stands a
second reading without state: what a machine knows is said by quantifiers over the rows it has taken, and
a row is accepted, shown or counted exactly if those rows say so (`ClaudeRows.RowAdmittedExactly`,
`KimiProtocol.RowAcceptedExactly`, `CodeBuddyProtocol.RowAcceptedExactly`, `GrokSession.ItemTakenExactly`).

| files | adapter part |
|---|---|
| `ClaudeRecords`, `ClaudeHistory`, `ClaudeIndexer` | classification and commit of records, branches and rewinds by replay, the indexing pass |
| `ClaudeCalls`, `ClaudeRows`, `ClaudeCopies`, `ClaudeMoves` | the same read off the rows: open calls, stages, replay copies, which lines are taken |
| `ClaudeProjection`, `ClaudePlan`, `ClaudeEmission`, `ClaudeView`, `ClaudeFrames`, `ClaudeReader`, `ClaudeLines` | planning along the predecessor chain, emission in file order, frames and pages, reading lines |
| `FamilyOrder`, `Orders` | interleaving of child turns at their parents' calls, shared by Kimi and CodeBuddy |
| `KimiRows`, `KimiThread`, `KimiTurns`, `KimiCounts`, `KimiProtocol`, `KimiDelegation`, `KimiDesk`, `KimiMatches`, `KimiCalls`, `KimiFamily`, `KimiSession`, `KimiAlignment`, `KimiPlacement`, `KimiOvertaking`, `KimiProject` | Kimi threads with undo and compaction, Agent calls and background tasks, the whole session, which turn stands at which call |
| `CodeBuddyRows`, `CodeBuddyRecords`, `CodeBuddyAdmits`, `CodeBuddyThread`, `CodeBuddyStates`, `CodeBuddyShows`, `CodeBuddyProtocol`, `CodeBuddyDelegation`, `CodeBuddyDesk`, `CodeBuddyChild`, `CodeBuddyChildren`, `CodeBuddyFamily`, `CodeBuddySession`, `CodeBuddyLimits`, `CodeBuddyAlignment`, `CodeBuddyPlacement`, `CodeBuddyOvertaking`, `CodeBuddyProject` | CodeBuddy histories with tool siblings, threads with compaction states, delegation, family search, the whole session, which turn stands at which call |
| `CodexRanks`, `CodexLines`, `CodexPages`, `CodexFull`, `CodexLimits`, `CodexOwnership`, `CodexNewest`, `CodexKeys`, `CodexRaw`, `CodexChunks`, `CodexSchedule`, `CodexChoice`, `CodexWaiting`, `CodexStarving`, `CodexBlocked` | the Codex collector |
| `OpenCodeSource`, `OpenCodeWalk`, `OpenCodeCoverage`, `OpenCodeRevert`, `OpenCodeView`, `OpenCodeCapture`, `OpenCodeShows` | the OpenCode source view and capture |
| `Grok`, `GrokFacts`, `GrokTurns`, `GrokSession` | the Grok projection |
| `CursorStart`, `CursorSettles`, `CursorCapture`, `CursorShows` | the Cursor start protocol and append-only captures |

Five promises turned out to hold only under a condition, and the project proves the exact one, beside
an input that fails.

- A Codex page drops repeated events, two pages do not (`CodexPages.RepeatShownTwice`). Paging equals
  a single pass exactly when no event key repeats ahead of the cursor (`CodexPages.PagingMatchesOnePage`),
  and that is so exactly when no two different entries own one key there, such as a completed item and a
  response item of one id (`CodexKeys.KeysRepeatExactly`, `CodexKeys.SessionPagesMatch`,
  `CodexKeys.ItemShownAsTwoKinds`).
- A Codex page charges usage samples before the event behind them, so an event that fits alone can fail
  every page (`CodexLimits.SampleBlocksEvent`), and a large sample can empty every page
  (`CodexLimits.LargeSampleStalls`). `CodexLimits.PageFailsExactly` and `CodexLimits.PageStallsExactly`
  say exactly when.
- A legacy Codex message in several files belongs to the last line that carries it, and is lost when that
  line's file shows completed items instead (`CodexOwnership.LegacyLost`). It is shown, and then once,
  exactly when that file completes no item (`CodexOwnership.LegacyOnce`).
- A Codex session that stays eligible for Raw work can wait, in runs of any length, behind an older one
  that is blocked: it has nothing to send and asks again all the same, because a file was cut short below
  its snapshot or its acknowledged offset (`CodexStarving.SessionCanStarve`), or because a file without a
  complete line is never acknowledged (`CodexBlocked.UnfinishedCanStarve`). Git recovery can go ahead of it
  too (`CodexStarving.RecoveryGoesFirst`). It is served exactly at a Raw slot that no session ahead of it
  takes (`CodexSchedule.RawServedExactly`), so it waits five turns, and five more for every slot it loses
  (`CodexSchedule.SessionServedInTime`). While none of the sessions that get Raw turns is blocked, these
  slots are bounded by what they have to send, what is added to it meanwhile, and the slots of Git recovery
  (`CodexWaiting.ServedUnlessBlocked`); from every state in which some session is blocked a run starves
  another (`CodexBlocked.BlockedStarves`). `CodexWaiting.BlockedExactly` says when a session is blocked.
- CodeBuddy and Kimi keep a child's turns in the order of receipts and show them in the order of calls.
  In accepted sessions a call can be followed by the turn of another call
  (`CodeBuddyOvertaking.OvertakenTurnsDiffer`, `KimiOvertaking.OvertakenTurnsDiffer`). All turns of a
  child stand at their own calls exactly when no call to it is answered after a later one
  (`CodeBuddyAlignment.TurnsMeetCalls`, `KimiAlignment.TurnsMeetCalls`). A single call is followed by its
  own turn exactly when as many calls to the child are answered before it as are made before it
  (`CodeBuddyPlacement.TurnsFollowTheirCalls`, `KimiPlacement.TurnsFollowTheirCalls`).

Several run-time checks are proved never to fire: Claude's "projection passes disagree", "no complete
source ancestry" and "new root has no explicit empty rewind", OpenCode's "repeated Session identity"
and its pass disagreement, and the missing child turn of Kimi and CodeBuddy.

## Model

| member | source | states |
|---|---|---|
| ClaudeHistory.ReplayRebuildsHistory | adapters/claude/src/claudeArchive.ts:1012-1070 | for every uuid ever admitted, restoring it at any later time succeeds and gives back the leaf, the record order and kinds, the calls, the open response and the continuation that held right after it was first committed, whatever branches, uuid-less rows and replay copies came between |
| ClaudeHistory.JumpsSucceed | adapters/claude/src/claudeArchive.ts:1033-1056 | an explicit selector or a branch that names a known node (or none) can always be followed, and lands exactly on it |
| ClaudeHistory.PathIncreases | adapters/claude/src/claudeArchive.ts:1012-1018 | physical positions strictly increase along a predecessor chain, so the walk ends and never meets a node twice |
| ClaudeHistory.ChainIsPath | adapters/claude/src/claudeArchive.ts:1012-1019 | the walk with its visited set finds the whole chain: the "no complete source ancestry" failure cannot occur for a known leaf |
| ClaudeHistory.EmptyLeafIsExplicit | adapters/claude/src/claudeArchive.ts:1057-1058 | the "new root has no explicit empty rewind" check cannot fire: beside known nodes an empty leaf only comes from an explicit empty selector |
| ClaudeHistory.TracksAdmit | adapters/claude/src/claudeArchive.ts:270-376 | a new record is classified and committed alike by the live history and by the replay of its path, even while the live history skips replay copies |
| ClaudeHistory.RunKeepsInv | adapters/claude/src/claudeArchive.ts:1027-1071 | invariant of the indexing loop: the nodes form a forest of readable lines whose every path replays, and the live history tracks the replay of its own leaf |
| ClaudeHistory.StepNodes | adapters/claude/src/claudeArchive.ts:1046-1070 | a line adds at most the node of its own uuid and never changes an older node |
| ClaudeRecords.Normalization.EnterRecord | adapters/claude/src/claudeArchive.ts:350-357 | listing a record in place equals the value-level step: order, kinds, first and latest position, leaf |
| ClaudeRecords.Normalization.RegisterCalls | adapters/claude/src/claudeArchive.ts:360-370 | an assistant record registers its calls as known and pending; fails exactly where the value-level step does |
| ClaudeRecords.Normalization.CloseResults | adapters/claude/src/claudeArchive.ts:371-374 | results take their calls out of the pending ones, which `ClaudeCalls.PendingAfter` says row by row, and leave the response otherwise as it was |
| ClaudeRecords.Normalization.CommitRecord | adapters/claude/src/claudeArchive.ts:350-376 | the in-place commit refines the commit on values, failures included |
| ClaudeCalls.PendingAfter | adapters/claude/src/claudeArchive.ts:358-375 | which calls are open after a record: what it makes, and what was open before unless the record carries its result, changes the response or ends it |
| ClaudeCalls.PendingExactly | adapters/claude/src/claudeArchive.ts:350-376 | over any replayed path the open calls are exactly the calls made on the path whose response nothing ended and that no record answered, and the known calls exactly those made on the path |
| ClaudeCalls.ResultAnswersOpenCall | adapters/claude/src/claudeArchive.ts:247-268 | on a replayed path every result answers a call that an earlier record of the path made in the response still open, unanswered in between and made by the record its source names |
| ClaudeCalls.StreamResultsAnswer | adapters/claude/src/claudeArchive.ts:1059-1070 | the same on the path of every admitted node of a stream, for every result that is shown |
| ClaudeCalls.AnsweredOnce | adapters/claude/src/claudeArchive.ts:247-250 | on a path a call is answered by one block at most, of one record or of several |
| ClaudeCalls.MadeOnce | adapters/claude/src/claudeArchive.ts:360-370 | a call id is used once on a path |
| ClaudeRows.StageIsRead | adapters/claude/src/claudeArchive.ts:270-357 | the compaction stage, the leaf and the listed records that the history carries are those that the rows of the path say |
| ClaudeRows.DecisionIs | adapters/claude/src/claudeArchive.ts:270-348 | the class of a row and whether it stays Raw follow from the rows before it on the path |
| ClaudeRows.RowAdmittedExactly | adapters/claude/src/claudeArchive.ts:224-348 | a row with a new identity is accepted behind a path exactly if it continues it: parent or open calls, boundary, summary and scaffolding, each said by the rows of the path |
| ClaudeRows.PathGrowsExactly | adapters/claude/src/claudeArchive.ts:270-376 | behind such a row the path replays exactly if the row continues it and, as conversation, repeats no call |
| ClaudeRows.StreamRowsContinue | adapters/claude/src/claudeArchive.ts:1059-1070 | every indexed record continues the path of its predecessor, and no record repeats on it |
| ClaudeRows.HangsUnderParent | adapters/claude/src/claudeArchive.ts:1059-1070 | a record without results hangs under the parent it names, a compaction boundary under its logical parent |
| ClaudeCopies.CopyTakenExactly | adapters/claude/src/claudeArchive.ts:1046-1051 | a line with a known identity is taken exactly if its record is on the current path, no summary is awaited and it repeats the latest copy there; then only that copy moves on |
| ClaudeCopies.CopiesRepeat | adapters/claude/src/claudeArchive.ts:285-294 | after any lines the latest copy of every indexed record repeats the line it was indexed from |
| ClaudeMoves.SelectorTakenExactly | adapters/claude/src/claudeArchive.ts:1033-1045 | which last-prompt lines are taken, and that only an explicit one moves the history, exactly to the record it names |
| ClaudeMoves.PlainLineTakenExactly | adapters/claude/src/claudeArchive.ts:1059-1060 | a line without an identity is taken exactly if nothing in it calls for one and, inside scaffolding, it is bookkeeping; it is counted and changes nothing else |
| ClaudeMoves.NewLineTakenExactly | adapters/claude/src/claudeArchive.ts:1052-1070 | a line with a new identity is taken exactly if the stream allows it and it joins the path of the record above it |
| ClaudeMoves.NewLineBecomesNode | adapters/claude/src/claudeArchive.ts:1059-1070 | a taken one becomes the leaf and a node below the record above it, of the class its path gives it; nothing else of the index changes |
| ClaudeMoves.LiveDecision | adapters/claude/src/claudeArchive.ts:281-300 | the live history decides as the replay of its path, except that while it skips copies it takes nothing but a compaction boundary |
| ClaudeMoves.ProjectsExactly | adapters/claude/src/claudeArchive.ts:1063-1065 | a conversation row whose calls are new can be projected exactly if it is stamped |
| ClaudeIndexer.WalkChain | adapters/claude/src/claudeArchive.ts:1012-1018 | the loop over predecessors with its visited set gives the chain oldest first |
| ClaudeIndexer.RestoreContext | adapters/claude/src/claudeArchive.ts:1019-1025 | replaying a chain record by record into a new object gives the restored history |
| ClaudeIndexer.Indexer.SelectLeaf | adapters/claude/src/claudeArchive.ts:1033-1045 | a last-prompt row: only an explicit selector moves the history, an unknown leaf is refused |
| ClaudeIndexer.Indexer.AdmitReplayCopy | adapters/claude/src/claudeArchive.ts:1046-1051 | a known uuid: only a copy on the current path is admitted, and it moves the latest original |
| ClaudeIndexer.Indexer.BranchOff | adapters/claude/src/claudeArchive.ts:1052-1058 | a genuine user record away from the leaf restores its parent first |
| ClaudeIndexer.Indexer.AdmitFresh | adapters/claude/src/claudeArchive.ts:1059-1070 | a new uuid is projected, gets its node with the leaf as predecessor, and is committed |
| ClaudeIndexer.Indexer.Take | adapters/claude/src/claudeArchive.ts:1027-1071 | one physical record, all branches of the loop body |
| ClaudeIndexer.IndexStream | adapters/claude/src/claudeArchive.ts:1027-1071 | the indexing loop computes the state machine over the whole file and stops at its first failure |
| ClaudePlan.PassesAgree | adapters/claude/src/claudeArchive.ts:1072-1264 | on an unchanged file planning succeeds, emission succeeds, event numbers run on without a gap, both counters end where planning said, and each usage sample is emitted on exactly one line: "projection passes disagree" cannot fire |
| ClaudePlan.PlanFollowsReplay | adapters/claude/src/claudeArchive.ts:1073-1086 | planning along the predecessor chain succeeds for every known leaf and sees the calls that the replay of the leaf leaves |
| ClaudePlan.EmissionTracksPlan | adapters/claude/src/claudeArchive.ts:1187-1209 | emission in physical file order is, after every line, in step with planning in chain order up to the same record |
| ClaudePlan.UsageOnce | adapters/claude/src/claudeArchive.ts:1204-1208 | a usage sample is emitted exactly on the line that planning chose for it, once |
| ClaudePlan.EventsNumbered | adapters/claude/src/claudeArchive.ts:1199-1203 | emitted events carry consecutive numbers over the file |
| ClaudePlan.NodesProject | adapters/claude/src/claudeArchive.ts:1063-1069 | every indexed node can be projected again with the calls of its path, as it was when it was admitted |
| ClaudeEmission.PlanKeepsLast | adapters/claude/src/claudeArchive.ts:1084-1085 | planning keeps a sample exactly if some visible row of the path carries it, and keeps the last such row |
| ClaudeEmission.UsageOnLastRow | adapters/claude/src/claudeArchive.ts:1204-1208 | emission shows the sample of a response on the last selected row that carries it and on no other line |
| ClaudeEmission.StreamUsage | adapters/claude/src/claudeArchive.ts:1072-1208 | the same for every indexed stream, from the raw lines on |
| ClaudeEmission.EventsOfPath | adapters/claude/src/claudeArchive.ts:1195-1203 | lines off the path and Raw-only lines show no event; a visible line shows what its record projects to with the calls of the path before it |
| ClaudeEmission.RecordShows | adapters/claude/src/claudeArchive.ts:1196-1197 | a conversation record shows exactly its text pieces, thoughts, calls and results, each once and in block order; any other record shows nothing |
| ClaudeView.FramesConserve | adapters/claude/src/claudeArchive.ts:1210-1234 | cutting a record into frames loses, repeats and reorders no event and no sample, and shows the physical record in the first frame only |
| ClaudeView.FramesFit | adapters/claude/src/claudeArchive.ts:1222-1232 | every frame fits a page and names its record |
| ClaudeFrames.FramesFilled | adapters/claude/src/claudeArchive.ts:1210-1234 | the frames of a record are numbered, the first carries it, and each takes as many events and then samples as page and item limit allow |
| ClaudeFrames.RefusedIsMisfit | adapters/claude/src/claudeArchive.ts:1222-1232 | a record is refused only when some part of it fits no page even alone |
| ClaudeView.PlannedStreamAgrees | adapters/claude/src/claudeArchive.ts:1072-1090 | an indexed and planned stream delivers the counts that the header announces |
| ClaudeView.AbandonedStreamAgrees | adapters/claude/src/claudeArchive.ts:1154-1156 | a child of an abandoned receipt is replayed for its records only and adds no event and no sample |
| ClaudeView.CountersAgree | adapters/claude/src/claudeArchive.ts:1160-1161 | after any number of streams the running counters equal the announced sums |
| ClaudeView.CompleteView | adapters/claude/src/claudeArchive.ts:1236-1267 | over all streams each physical record is shown once and in order, and events are numbered 0, 1, 2, ... |
| ClaudeReader.PlanSelection | adapters/claude/src/claudeArchive.ts:1072-1086 | the planning loop computes the plan of the selected path, which `ClaudeEmission.PlanKeepsLast` says without the loop |
| ClaudeReader.FillFrame | adapters/claude/src/claudeArchive.ts:1216-1229 | one frame takes as many events and samples as fit |
| ClaudeReader.FillFrames | adapters/claude/src/claudeArchive.ts:1210-1234 | the do-while loop computes exactly that cut, or fails where a part cannot fit |
| ClaudeReader.View.Advance | adapters/claude/src/claudeArchive.ts:1243-1256 | moving to the next line or stream keeps what remains to be delivered |
| ClaudeReader.View.Deliver | adapters/claude/src/claudeArchive.ts:1257-1261 | handing out a pending frame moves it from the pending to the delivered ones |
| ClaudeReader.View.Read | adapters/claude/src/claudeArchive.ts:1237-1267 | pages extend the delivered frames by the next ones of one fixed list, keep both limits, make progress, and never fail because the passes disagree |
| ClaudeLines.ReadRecords | adapters/claude/src/claudeArchive.ts:537-558 | block-wise reading yields exactly the complete lines whatever the block size, and fails exactly when a line is too long, an unfinished one included |
| ClaudeLines.TakeRecords | adapters/claude/src/claudeArchive.ts:546-552 | the inner loop takes the complete lines of the pending bytes |
| FamilyOrder.DrainIsSplice | adapters/codebuddy/src/projection.ts:225-244 | the explicit stack computes the recursive pre-order splice on every input, failures included |
| FamilyOrder.FamilyComplete | adapters/kimi/src/projection.ts:254-271 | in a tree-shaped family whose calls and turns match in number the traversal succeeds, uses up every child turn, and shows every frame of every thread exactly once in its own order |
| FamilyOrder.NumbersMeetTarget | adapters/codebuddy/src/projection.ts:225-247 | the final event numbers are exactly 0 .. target.events - 1 |
| FamilyOrder.SpliceSucceeds | adapters/codebuddy/src/projection.ts:237-241 | while the calls still to come are covered by unused turns, no call is met without a turn |
| FamilyOrder.TurnFollowsCall | adapters/codebuddy/src/projection.ts:237-242 | each call is followed at once by the start of the turn whose number is the count of earlier calls to the same child |
| FamilyOrder.PushTurn | adapters/kimi/src/projection.ts:269 | pushing a turn backwards puts its first frame on top |
| FamilyOrder.Interleave | adapters/kimi/src/projection.ts:254-271 | the loop with its mutable stack, cursors and order counter computes the numbered traversal |
| KimiTurns.UndoRefinesStack | adapters/kimi/src/projection.ts:40-152 | after any accepted prefix the surviving events are those of the turns that a plain stack has not popped, `events` is their number, and they are numbered 0, 1, 2, ... |
| KimiTurns.StepRefines | adapters/kimi/src/projection.ts:84-152 | one accepted row is one step of that stack; an undo never pops more turns than there are |
| KimiTurns.UsageSurvives | adapters/kimi/src/projection.ts:66-71 | usage is never removed: later rows only clear events, and every sample stays on the frame that carried it |
| KimiCounts.UsageCounted | adapters/kimi/src/projection.ts:66-71 | after any accepted prefix the usage counter is the number of step ends with counters plus the counted usage rows inside compactions |
| KimiCounts.FrameSamples | adapters/kimi/src/projection.ts:117-184 | the frame of exactly these rows carries one sample, for good |
| KimiCounts.FrameEvents | adapters/kimi/src/projection.ts:52-218 | the frame of a row shows exactly the events of its row kind (non-empty user texts, shown content, calls, results), unless a later undo took it; then none |
| KimiCounts.StepClears | adapters/kimi/src/projection.ts:142-152 | an undo clears exactly the frames from its first removed turn on, any other row none |
| KimiProtocol.StateIsRead | adapters/kimi/src/projection.ts:52-218 | after any accepted prefix the open step with its model and calls, the compaction, prompts, messages, keys and marks are what the rows of the prefix say |
| KimiProtocol.RowAcceptedExactly | adapters/kimi/src/projection.ts:52-218 | a row is accepted behind an accepted prefix exactly if it follows those rows, its record key is new and its events and samples fit the budgets |
| KimiProtocol.LogAcceptedExactly | adapters/kimi/src/projection.ts:219-221 | such a log is accepted as a whole exactly if nothing is left open, every prompt has its message, there is one, and a fork has its marker |
| KimiTurns.CompactionProtects | adapters/kimi/src/projection.ts:129-152 | frames and turns up to an applied compaction are never changed again by any undo |
| KimiTurns.CompactionsTile | adapters/kimi/src/projection.ts:129-136 | the line ranges of applied compactions tile the log without gap or overlap |
| KimiDelegation.TaskProtocol | adapters/kimi/src/delegation.ts:20-42 | in an accepted log started and receipted task ids are the same, and each task has exactly one start, receipt, termination, notification and delivery, in this order, with clocks that do not go back up to the notification |
| KimiDelegation.TaskLife | adapters/kimi/src/delegation.ts:17-73 | what every prefix of the log keeps about every task: which of its rows came, where, and with which clocks |
| KimiDelegation.TurnsAreCalls | adapters/kimi/src/delegation.ts:77-109 | turn k of a child was asked for by the k-th answered call, ends in the answer that this receipt reports, and turns do not overlap |
| KimiDelegation.CallsCounted | adapters/kimi/src/delegation.ts:50-69 | a child has as many calls on record as links lead to it, and only its labelled parent links to it |
| KimiDelegation.LinksWereCalled | adapters/kimi/src/delegation.ts:45-69 | only Agent calls of the log are linked to children |
| KimiDelegation.NoEdits | adapters/kimi/src/delegation.ts:18-19 | in a session with children no log undoes, forks or compacts |
| KimiDesk.DeskIsRead | adapters/kimi/src/delegation.ts:12-71 | after any accepted prefix of a parent log the calls, links, tasks and notification rows on record are exactly those its rows say |
| KimiDesk.RowTakenExactly | adapters/kimi/src/delegation.ts:17-71 | a row of a parent log is accepted exactly if it follows the rows before it |
| KimiMatches.RowMatchedExactly | adapters/kimi/src/delegation.ts:81-108 | a row of a child is accepted exactly if it follows the rows before it: the prompt of the next call, the answer its receipt reports |
| KimiMatches.TurnsMatchExactly | adapters/kimi/src/delegation.ts:77-109 | a child log matches exactly if all its rows do and each call has its turn, which ended |
| KimiSession.ParentCompleteExactly | adapters/kimi/src/delegation.ts:72-73 | an accepted parent log is complete exactly if each Agent call has its receipt, each started task its launch receipt and each launched task its delivered notice |
| KimiSession.BackgroundsDoNotDelegate | adapters/kimi/src/delegation.ts:79 | a child that was launched in the background calls no agent itself |
| KimiCalls.TurnsAreFrames | adapters/kimi/src/projection.ts:50-88 | without undo the turns kept for calls are exactly the frames, cut at the prompts |
| KimiCalls.PromptsCounted | adapters/kimi/src/projection.ts:75-78 | a child admits one prompt per prompt row |
| KimiCalls.CallsAreSeen | adapters/kimi/src/projection.ts:40-50 | frames that call a child are as many as the calls to it on record so far |
| KimiCalls.CallsAreLinks | adapters/kimi/src/delegation.ts:69-72 | when every link was called, the frames calling a child are as many as the links to it |
| KimiCalls.FramesLink | adapters/kimi/src/projection.ts:62-64 | a frame links to children on record only |
| KimiFamily.ConnectParents | adapters/kimi/src/source.ts:90-99 | the parent walk succeeds exactly when the labels form a tree below the main agent |
| KimiFamily.CycleIsNoTree | adapters/kimi/src/source.ts:95 | a chain of labels that leads back to its start fits no tree |
| KimiFamily.ScansKnow | adapters/kimi/src/delegation.ts:12-74 | after any number of parents: calls known for a child equal the links of its scanned parent |
| KimiFamily.ChildrenCalled | adapters/kimi/src/delegation.ts:75-76 | in an accepted session every child was called, as often as its parent links to it |
| KimiFamily.SessionIsTree | adapters/kimi/src/projection.ts:237-253 | an accepted session is a tree in the sense of the traversal |
| KimiFamily.SessionIsBalanced | adapters/kimi/src/projection.ts:237-253 | in an accepted session calls and turns match in number for every child |
| KimiFamily.SessionInterleaves | adapters/kimi/src/projection.ts:254-271 | whatever metadata, delegation and threads accept, the interleaving finds a turn at every call, uses up all turns and shows every frame once: a completeness that no run-time check establishes |
| KimiFamily.SessionNumbers | adapters/kimi/src/projection.ts:244-274 | the interleaved events are numbered 0, 1, 2, ... and are as many as the target reports over all threads |
| KimiSession.ThreadsShareBudgets | adapters/kimi/src/projection.ts:239-253 | the threads of a session stay within the event and usage budgets together, and the reported samples are the rows of all logs that carry one |
| KimiAlignment.TurnsMeetCalls | adapters/kimi/src/delegation.ts:58-69 | a child's turns, kept in receipt order, stand at their own calls exactly when no call to the child has its receipt after that of a later call |
| KimiAlignment.OneTurnMeets | adapters/kimi/src/delegation.ts:58-69 | the m-th answered call is the call made m-th exactly when m calls to the child have their receipts before its own |
| KimiPlacement.TurnsFollowTheirCalls | adapters/kimi/src/projection.ts:254-271 | in an accepted session every call is followed at once by a turn of the child it calls, and it is the turn of this very call exactly when as many calls to the child have their receipts before it as are made before it |
| KimiPlacement.DisorderDisplaces | adapters/kimi/src/projection.ts:254-271 | if some call to a child has its receipt after that of a later call, some call of the session is followed by another call's turn |
| KimiOvertaking.OvertakenTurnsDiffer | adapters/kimi/src/projection.ts:254-271 | a whole session, main log and child log, that delegation and threads accept: calls b and c are open in one step, c is answered first, and the frame behind call b starts the turn of call c |
| KimiProject.Undo | adapters/kimi/src/projection.ts:142-152 | popping visible frames one by one clears exactly the events from the first removed turn on |
| KimiProject.ProjectThread | adapters/kimi/src/projection.ts:52-221 | the row loop with its end-of-log checks accepts exactly the accepted logs and returns their state, both read off the rows in `KimiProtocol` and `KimiCounts` |
| KimiProject.ScanRows | adapters/kimi/src/delegation.ts:17-74 | the loop over one parent's rows |
| KimiProject.MatchTurns | adapters/kimi/src/delegation.ts:80-109 | the loop over a child's rows accepts exactly the matching turn sequences |
| KimiProject.CheckChild | adapters/kimi/src/delegation.ts:77-109 | one child: background children do not delegate, and its turns match |
| KimiProject.Delegation | adapters/kimi/src/delegation.ts:8-114 | all parents, then all children |
| KimiProject.ProjectThreads | adapters/kimi/src/projection.ts:239-253 | root and children, each within what earlier threads left of the event and usage budgets |
| KimiProject.ProjectSession | adapters/kimi/src/projection.ts:237-277 | fails only on a label cycle, an unsupported delegation or a refused thread; otherwise returns the complete numbered interleaving |
| CodeBuddyRecords.OnlyRepeatsDropped | adapters/codebuddy/src/source.ts:34-49 | what is kept is the first record of each key in order, and whatever is dropped is byte-identical to the kept record of its key |
| CodeBuddyRecords.HistoryIdempotent | adapters/codebuddy/src/source.ts:34-79 | admission is idempotent |
| CodeBuddyRecords.SiblingsComplete | adapters/codebuddy/src/source.ts:50-77 | every sibling lies in one unbroken group of calls of one response, followed at once by exactly one result per call |
| CodeBuddyAdmits.RecordAdmittedExactly | adapters/codebuddy/src/source.ts:37-49 | a record is admitted behind admitted ones exactly if it repeats a record of its key, brings a new id, or is another call directly behind the calls of its id |
| CodeBuddyAdmits.HistoryAdmittedExactly | adapters/codebuddy/src/source.ts:34-79 | a history is admitted exactly if its records are and each sibling group fits; then nothing but repeats is dropped |
| CodeBuddyAdmits.ResultsExactly | adapters/codebuddy/src/source.ts:68-75 | a group of calls is complete exactly if the rows behind it answer its calls one each, under their names |
| CodeBuddyRecords.CollectGroups | adapters/codebuddy/src/source.ts:37-49 | keys stay distinct, siblings are exactly the rows that share the id of the row before, and rows that share an id are calls |
| CodeBuddyRecords.CollectUnique | adapters/codebuddy/src/source.ts:37-49 | the first loop with its nested maps |
| CodeBuddyRecords.CheckGroup | adapters/codebuddy/src/source.ts:54-75 | one sibling group: its calls, then its results |
| CodeBuddyRecords.AdmitHistory | adapters/codebuddy/src/source.ts:34-79 | both loops compute admission |
| CodeBuddyThread.TurnsArePrompts | adapters/codebuddy/src/projection.ts:189-198 | a thread's turns are its frames, cut at its prompts and nowhere else, none of them empty; `events` is the sum over the frames |
| CodeBuddyThread.ContextIsInternal | adapters/codebuddy/src/projection.ts:44-63 | in a delegated thread the internal user inputs are exactly those that carry context only, so projection and validation count the same prompts |
| CodeBuddyThread.FramesFollowRows | adapters/codebuddy/src/projection.ts:189-196 | every admitted row adds one frame of its thread, in order |
| CodeBuddyThread.CallsAreCounted | adapters/codebuddy/src/projection.ts:147-157 | frames that call a child are as many as the distinct calls on record for it |
| CodeBuddyThread.FramesLink | adapters/codebuddy/src/projection.ts:112-115 | a frame names a child exactly when its row is a call with a child on record |
| CodeBuddyShows.RowsShown | adapters/codebuddy/src/projection.ts:116-170 | the frame of every row of an accepted prefix shows exactly the parts that say something, in order: the text blocks whose shown text is not empty, a call, a result |
| CodeBuddyProtocol.StateIsRead | adapters/codebuddy/src/projection.ts:25-187 | after any accepted prefix chain, session, both compaction states, calls, counters and delegated intent are what the rows of the prefix say |
| CodeBuddyProtocol.RowAcceptedExactly | adapters/codebuddy/src/projection.ts:33-197 | a row is accepted behind an accepted prefix exactly if it follows those rows and its events and the responses so far fit the budgets |
| CodeBuddyProtocol.ClosedExactly | adapters/codebuddy/src/projection.ts:200 | a thread is complete exactly if no compaction is open and none waits for its continuation or answer |
| CodeBuddyStates.OneParentChain | adapters/codebuddy/src/projection.ts:94-107 | each row of an accepted thread hangs on the row before it by exactly one parent field; internal inputs by their logical parent |
| CodeBuddyStates.EmergencyAnswered | adapters/codebuddy/src/projection.ts:42-63 | an emergency summary is followed at once by its continuation, and then by a completed answer before any other user message |
| CodeBuddyStates.CommandSummarized | adapters/codebuddy/src/projection.ts:66-85 | a user's compaction command is followed only by its reasoning and by file snapshots up to its completed summary, and never occurs in a delegated thread |
| CodeBuddyStates.UsageOncePerResponse | adapters/codebuddy/src/projection.ts:171-187 | usage is counted once per response, and all rows with a response's counters agree on them |
| CodeBuddyDelegation.ReferencesAgree | adapters/codebuddy/src/source.ts:239-332 | in accepted delegation every delegation call is answered, a child's calls are exactly the answered calls on record for it, once each, and every answered call is a call row |
| CodeBuddyDelegation.ScanKeeps | adapters/codebuddy/src/source.ts:255-330 | that agreement after any number of rows |
| CodeBuddyDesk.DeskIsRead | adapters/codebuddy/src/source.ts:239-330 | after any accepted prefix the desk holds exactly what its rows say: calls, filed receipts, names of spawned children, notifications |
| CodeBuddyDesk.RowTakenExactly | adapters/codebuddy/src/source.ts:239-330 | a row is taken behind accepted rows exactly if it follows them |
| CodeBuddyChild.TurnsAnswerCalls | adapters/codebuddy/src/source.ts:335-367 | an accepted child has exactly one turn per completed call, in receipt order: it opens with the call's prompt at the call's resume point and ends in a completed answer |
| CodeBuddyChild.CopiedIsCut | adapters/codebuddy/src/source.ts:372-385 | a child copied by a fork is accepted exactly when the answer to its last receipt is in its history, and is cut right behind that answer |
| CodeBuddyChildren.ValidatedExactly | adapters/codebuddy/src/source.ts:335-367 | a child is accepted exactly if it starts with a delegated prompt of its agent, stays in one session and has one fitting turn for each completed call; background and message prompts replace what was delegated |
| CodeBuddyChildren.FragmentExactly | adapters/codebuddy/src/source.ts:416-428 | a file of a copied child that continues elsewhere contributes exactly its rows up to the answer the next file resumes at, and is refused without one |
| CodeBuddyChildren.OriginExactly | adapters/codebuddy/src/source.ts:111-125 | which histories can be a root, forks included |
| CodeBuddyChildren.BeginExactly | adapters/codebuddy/src/source.ts:387-395 | the family search begins exactly with such a root whose delegation is accepted within the record budget |
| CodeBuddyFamily.SnapshotIsClosed | adapters/codebuddy/src/source.ts:387-437 | every member answers a reference of an earlier member, ids and native session ids are all different, and every child that any member refers to was found below that member |
| CodeBuddyLimits.PartsExactly | adapters/codebuddy/src/source.ts:403-415 | the files of a child are read exactly if each is there, holds rows and no metadata, and their rows fit the rest of the budget; then in the order of its storage parents |
| CodeBuddyLimits.FamilyWithinLimits | adapters/codebuddy/src/source.ts:387-437 | a found family keeps its thread and record limits, counts the rows of the root and of every file read, repeats no session, the root's included, and every member passed its checks on the files that delegation names |
| CodeBuddySession.SessionIsTree | adapters/codebuddy/src/source.ts:395-437 | an accepted family is a tree in the sense of the traversal |
| CodeBuddySession.SessionIsBalanced | adapters/codebuddy/src/source.ts:348 | in an accepted family calls and turns match in number for every child |
| CodeBuddySession.SessionInterleaves | adapters/codebuddy/src/projection.ts:212-244 | whatever search, delegation check and threads accept, the interleaving finds a turn at every call, uses up every turn and shows every frame of every thread exactly once |
| CodeBuddySession.SessionNumbers | adapters/codebuddy/src/projection.ts:225-247 | the interleaved events are numbered 0, 1, 2, ... and are as many as the target reports |
| CodeBuddyLimits.ThreadsShareBudgets | adapters/codebuddy/src/projection.ts:212-224 | the threads of a session stay within the event and usage budgets together, and the reported samples are the responses that their rows count, once in each thread |
| CodeBuddySession.RecordKeysDistinct | adapters/codebuddy/src/projection.ts:189 | no two frames of a whole interleaved family carry the same record key |
| CodeBuddyThread.TurnsStartAtPrompts | adapters/codebuddy/src/projection.ts:189-198 | every later turn of a delegated thread opens with the frame of its prompt |
| CodeBuddyAlignment.AnswerIsReply | adapters/codebuddy/src/source.ts:298-327 | in an accepted thread the row at which delegation files a call is the first result row of that call |
| CodeBuddyAlignment.TurnsMeetCalls | adapters/codebuddy/src/source.ts:327 | a child's turns, kept in receipt order, stand at their own calls exactly when no call to the child has its result row after that of a later call |
| CodeBuddyAlignment.OneTurnMeets | adapters/codebuddy/src/source.ts:327 | the m-th completed call is the call made m-th exactly when m calls to the child have their results before its own |
| CodeBuddyAlignment.SeparateCallsMeet | adapters/codebuddy/src/source.ts:327 | so they do whenever calls to one child never overlap |
| CodeBuddyOvertaking.OvertakenTurnsDiffer | adapters/codebuddy/src/projection.ts:237-242 | a whole source, root and child file, that search, delegation and threads accept: calls b and c overlap, c is answered first, and the frame behind call b opens with the prompt of call c |
| CodeBuddyPlacement.TurnsFollowTheirCalls | adapters/codebuddy/src/projection.ts:237-242 | in an accepted family every call is followed at once by a turn of the child it calls, and it is the turn of this very call exactly when as many calls to the child have their results before it as are made before it |
| CodeBuddyPlacement.DisorderDisplaces | adapters/codebuddy/src/projection.ts:237-242 | if some call to a child has its result after that of a later call, some call of the session is followed by another call's turn |
| CodeBuddyProject.ProjectThread | adapters/codebuddy/src/projection.ts:33-208 | the row loop computes the thread, stage by stage |
| CodeBuddyProject.ReadReferences | adapters/codebuddy/src/source.ts:239-333 | the loop over calls and receipts |
| CodeBuddyProject.CheckChild | adapters/codebuddy/src/source.ts:335-367 | the loops over rows and turns of a child |
| CodeBuddyProject.CutCopied | adapters/codebuddy/src/source.ts:372-385 | the forward scan from the last receipt |
| CodeBuddyProject.ReadFiles | adapters/codebuddy/src/source.ts:407-415 | a child's files in delegation order, within the record budget |
| CodeBuddyProject.VisitChild | adapters/codebuddy/src/source.ts:398-436 | one child of the search |
| CodeBuddyProject.SnapshotFamily | adapters/codebuddy/src/source.ts:387-437 | the breadth-first search |
| CodeBuddyProject.ProjectThreads | adapters/codebuddy/src/projection.ts:213-224 | root and children within the budgets |
| CodeBuddyProject.ProjectSession | adapters/codebuddy/src/projection.ts:212-250 | an admitted family is always interleaved; the result is the complete, numbered traversal |
| CodexRanks.CoordinatesForGood | adapters/codex/src/codexArchive.ts:511-531 | over any run of cursor steps the coordinate of a line never changes, two lines of a session share one only if they are the same byte of the same generation, and within a source coordinates follow offsets |
| CodexRanks.CoordinateDomain | adapters/codex/src/codexArchive.ts:35-38 | coordinates lie above every legacy clock value and below 2^53 |
| CodexRanks.CoordinateOrder | adapters/codex/src/codexArchive.ts:1187 | coordinates are ordered by rank, then offset, and are injective |
| CodexRanks.RankLimit | adapters/codex/src/codexArchive.ts:520-523 | a new file is refused exactly when the registry of its session is full |
| CodexRanks.SessionLimit | adapters/codex/src/codexArchive.ts:526-527 | only a new session is refused, exactly when the registry holds the most sessions already |
| CodexRanks.AllAssigned | adapters/codex/src/codexArchive.ts:511-530 | every file of every snapshot gets a rank, ranks stay injective, and known ranks stay |
| CodexRanks.EvolveExtends | adapters/codex/src/codexArchive.ts:511-530 | over any run of snapshots no rank changes |
| CodexRanks.RankSession | adapters/codex/src/codexArchive.ts:516-527 | the inner loop with its running next rank |
| CodexRanks.AssignSourceRanks | adapters/codex/src/codexArchive.ts:511-530 | the loop over snapshots |
| CodexLines.LinesTile | adapters/codex/src/codexArchive.ts:1721-1763 | lines cover a byte range without gap or overlap, each ending at its newline or at the end |
| CodexLines.TileIsLines | adapters/codex/src/codexArchive.ts:1721-1763 | there is only one such cut |
| CodexLines.TakeLines | adapters/codex/src/codexArchive.ts:1743-1750 | the inner loop takes the complete lines of the pending bytes |
| CodexLines.ReadLines | adapters/codex/src/codexArchive.ts:1721-1763 | block-wise reading yields these lines whatever the block size, unless a line is too long |
| CodexRaw.CompleteRunSendsAll | adapters/codex/src/codexArchive.ts:1612-1674 | a run of pages that completes sent, for every live file it had to read, exactly the bytes from the acknowledged offset to the end of the snapshot, once and in order, with one final mark iff the file is archived |
| CodexRaw.PageTiles | adapters/codex/src/codexArchive.ts:1633-1664 | the segments of a page continue each file from its acknowledged position without gap or overlap |
| CodexRaw.RunTiles | adapters/codex/src/codexArchive.ts:1612-1674 | so do the segments of any run of pages |
| CodexRaw.PageFits | adapters/codex/src/codexArchive.ts:1633-1664 | a page respects the segment count, the segment size and the total size |
| CodexRaw.EmptyPageIsDone | adapters/codex/src/codexArchive.ts:1612-1674 | a page without segments moves nothing, and exactly the files that are not stalled are then fully covered |
| CodexRaw.StalledSendsNothing | adapters/codex/src/codexArchive.ts:1633-1674 | a stalled file sends nothing, keeps its position and keeps the snapshot incomplete, whatever the limits |
| CodexChunks.ChunkExactly | adapters/codex/src/codexArchive.ts:1686-1717 | a chunk reaches the last newline within its limit or the end of the snapshot; without one a page that holds bytes waits and an empty page fails |
| CodexChunks.CutIsFull | adapters/codex/src/codexArchive.ts:1647-1663 | the cut of a file goes on until the page is full or no further line fits |
| CodexChunks.StartsExactly | adapters/codex/src/codexArchive.ts:1621-1631 | acknowledged progress counts exactly for the generation it was made in |
| CodexRaw.ReadChunk | adapters/codex/src/codexArchive.ts:1686-1717 | the backward scan for the last newline |
| CodexRaw.CutFile | adapters/codex/src/codexArchive.ts:1647-1663 | chunks of one file while the page has room |
| CodexRaw.CollectRaw | adapters/codex/src/codexArchive.ts:1612-1674 | the loop over files; `complete` is reported exactly when every live file is covered |
| CodexPages.CompleteRunIsOnePass | adapters/codex/src/codexArchive.ts:1100-1222 | for distinct event keys, any run of pages that completes puts out exactly what lay ahead of its first cursor: spawn events, then file events, each once and in order, and the usage samples likewise |
| CodexPages.PageMoves | adapters/codex/src/codexArchive.ts:1100-1222 | unless a key repeats within it, a page takes the next events and samples in order, keeps its count and byte limits, and never moves the cursor backwards |
| CodexPages.RunMoves | adapters/codex/src/codexArchive.ts:1100-1222 | so does any run of pages |
| CodexFull.PageIsFull | adapters/codex/src/codexArchive.ts:1133-1222 | a page of events ends only when everything was read, it is full, or the next event or sample has no room in it |
| CodexPages.PagingMatchesOnePage | adapters/codex/src/codexArchive.ts:1100-1222 | all completing runs of pages put out the events of the completing single page exactly when no event key repeats ahead of the cursor |
| CodexPages.RepeatShownTwice | adapters/codex/src/codexArchive.ts:1195-1203 | a file with two lines of one key: one page of two events shows it once, two pages of one event show it twice |
| CodexPages.SomeRunShowsAll | adapters/codex/src/codexArchive.ts:1100-1222 | from any cursor some run of pages completes and puts out everything that lay ahead, repeats included |
| CodexPages.OnePageExact | adapters/codex/src/codexArchive.ts:1166-1203 | a single completing page is the list of all events ahead exactly when no key repeats in it |
| CodexKeys.KeysRepeatExactly | adapters/codex/src/codexArchive.ts:1134-1205 | from any cursor the events ahead, spawn events among them, repeat a key exactly when two different entries own one key: a child thread, a completed item, a legacy message, a response item of one id, or a response item without an id; which lines own a key is read off the lines and the owner tables |
| CodexKeys.SessionPagesMatch | adapters/codex/src/codexArchive.ts:1100-1222 | joined with the paging: from any cursor of a session all completing runs of pages put out the events of a completing single page exactly when no two different entries own one key ahead of it |
| CodexKeys.OwnsIsShown | adapters/codex/src/codexArchive.ts:1224-1265 | a line owns a key in one of these ways exactly when the projection shows it under that key |
| CodexKeys.OneOwner | adapters/codex/src/codexArchive.ts:1224-1265 | in one of these ways no key has two owners |
| CodexKeys.ItemShownAsTwoKinds | adapters/codex/src/codexArchive.ts:1224-1265 | the lines that repeat a key: an item completed in one file and held as a response item by another file of the same thread |
| CodexLimits.PageFailsExactly | adapters/codex/src/codexArchive.ts:1118-1133 | a page fails exactly when the first event ahead does not fit behind the samples that the page takes before it; a spawn event, which comes before all samples, when it does not fit alone |
| CodexLimits.SampleBlocksEvent | adapters/codex/src/codexArchive.ts:1179-1184 | a sample and an event that fit one by one: the page that starts at the sample fails, and so does every retry, while a page that starts behind it succeeds under the same limits |
| CodexLimits.PageStallsExactly | adapters/codex/src/codexArchive.ts:1179-1184 | a page puts out nothing although something is left exactly when it has no room for an event at all, or the first thing ahead is a sample larger than a page |
| CodexLimits.LargeSampleStalls | adapters/codex/src/codexArchive.ts:1179-1184 | such a sample: the page is empty and ends where it began |
| CodexLimits.HeadIsAhead | adapters/codex/src/codexArchive.ts:1166-1184 | the first event and the samples before it, as these conditions use them, are the head of what lies ahead |
| CodexPages.ReadLines | adapters/codex/src/codexArchive.ts:1178-1209 | the loop over the lines of one file |
| CodexPages.CollectEvents | adapters/codex/src/codexArchive.ts:1100-1222 | the loops over spawns and files |
| CodexOwnership.CompletedOnce | adapters/codex/src/codexArchive.ts:997-1006 | an item that any live file completes is shown at exactly one line, the last of its file that completes it |
| CodexOwnership.ResponseOnce | adapters/codex/src/codexArchive.ts:1047-1082 | a response item that some live file offers is shown at exactly one line, of a file that offers it under its chosen format, and of a root file if one offers it |
| CodexOwnership.ShownIsOffered | adapters/codex/src/codexArchive.ts:1224-1265 | nothing is shown that no live file offers |
| CodexOwnership.CompletedShown | adapters/codex/src/codexArchive.ts:1224-1240 | a completed item is shown at a line exactly when that line owns it |
| CodexOwnership.LegacyOnce | adapters/codex/src/codexArchive.ts:1042-1046 | of all live lines with a legacy message only the last can show it; it does exactly when its file completes no item, and then the message is shown once |
| CodexOwnership.LegacyLost | adapters/codex/src/codexArchive.ts:1243-1247 | the failing input: a message that one file alone shows is shown nowhere beside a later file of the thread that carries it too and completes an item |
| CodexNewest.NewestIsShown | adapters/codex/src/codexArchive.ts:997-1006 | no live line of a file behind the owning one completes the item with a larger order, and the owning file beat the owner before it; where orders do not decrease within a file the shown line is the newest of all, in the first file that has one as new |
| CodexNewest.FirstIsShown | adapters/codex/src/codexArchive.ts:1067-1082 | a response item is shown at the first line that offers it, in the first live file that does, root files first |
| CodexNewest.AcceptsExactly | adapters/codex/src/codexArchive.ts:1039-1055 | supplements are accepted exactly behind a turn context that no session or task start has ended |
| CodexOwnership.InspectFile | adapters/codex/src/codexArchive.ts:988-1065 | one pass over a file fills the owner tables; which copy of an item then owns it is `CodexNewest.NewestIsShown` |
| CodexOwnership.InspectProjection | adapters/codex/src/codexArchive.ts:971-1082 | both phases: all lines, then formats and owners root first |
| CodexSchedule.HeadWithinEight | adapters/codex/src/codexArchive.ts:1835-1863 | while canonical work is pending, any eight turns that complete or pause serve the head of the queue; who gets each of them is `CodexChoice.CanonicalGoesTo` |
| CodexChoice.CanonicalGoesTo | adapters/codex/src/codexArchive.ts:1843-1861 | with sessions sorted as the code sorts them, a canonical turn goes to the newest waiting session other than the last served, and at every fourth turn, or without another one, to the oldest; below four turns in a row it goes before any Raw work |
| CodexChoice.ChangedExactly | adapters/codex/src/codexArchive.ts:1890-1903 | a session counts as changed exactly if it is newer than its completed snapshot, has other files or generations, or has a file that lost bytes; without a snapshot, if it is behind the baseline |
| CodexChoice.RawGoesTo | adapters/codex/src/codexArchive.ts:1852-1860 | a Raw turn goes, with Raw capture on, to a session that may have it when nothing canonical waits or four canonical turns have gone by; no other taker comes before it, the one served last behind all others |
| CodexChoice.RawSlotIsUsed | adapters/codex/src/codexArchive.ts:1852-1860 | a slot that some session may take is taken, by Raw work or by Git recovery of a session without a snapshot |
| CodexSchedule.RawServedExactly | adapters/codex/src/codexArchive.ts:1843-1862 | a session gets a Raw turn exactly at a Raw slot (four canonical turns in a row, or no canonical work) at which it may have one and no session ahead of it in the rotated order takes the slot, for Raw or, with no canonical work waiting, for Git recovery |
| CodexSchedule.OvertakenByAhead | adapters/codex/src/codexArchive.ts:1843-1862 | an eligible session loses a Raw slot exactly when some session ahead of it takes it |
| CodexSchedule.SessionServedInTime | adapters/codex/src/codexArchive.ts:1835-1863 | a session that stays eligible gets a Raw turn within five served turns, and five more for every Raw slot that it loses to a session ahead of it |
| CodexStarving.SessionCanStarve | adapters/codex/src/codexArchive.ts:1843-1862 | from a fresh cursor on, pages that the selection itself schedules: nine that open the story, then a run of any length with a growing session c, in which b is eligible for Raw at every turn and an older session a with a stalled snapshot takes every slot; with or without Git recovery |
| CodexStarving.RecordsSent | adapters/codex/src/codexArchive.ts:1633-1674 | the four Raw pages of a in that opening send one record each and leave the snapshot incomplete, so that it pauses |
| CodexStarving.RemnantStays | adapters/codex/src/codexArchive.ts:1633-1674 | once the file of a is shorter than what was acknowledged, its paused snapshot sends nothing and never completes, whatever the limits: the story goes on forever |
| CodexWaiting.ServedUnlessBlocked | adapters/codex/src/codexArchive.ts:1843-1888 | while no rival is blocked, an eligible session gets a Raw turn within five served turns for each unit of debt (Raw work, counted twice, and paused snapshots) that its rivals have or come by between turns, and for each slot of Git recovery, and five more; rivals are the sessions that get the Raw turns, and who asks for Raw work is what the code computes from files, snapshots and acknowledgments; page limits are positive |
| CodexWaiting.SlotsArePaid | adapters/codex/src/codexArchive.ts:1843-1862 | under the same assumptions the Raw slots that a session loses are at most the debt that its rivals have or come by, plus the slots that Git recovery takes |
| CodexWaiting.TurnPaysExactly | adapters/codex/src/codexArchive.ts:1612-1674 | a Raw turn of a session that asks for one leaves it less debt exactly if the session is not blocked, whatever the limits of its pages |
| CodexWaiting.BlockedExactly | adapters/codex/src/codexArchive.ts:1865-1888 | a session is blocked exactly if it has nothing to send and some file was cut short below its snapshot or its acknowledged offset, or, without a paused snapshot, some file has no complete line yet and no acknowledgment of its generation |
| CodexWaiting.BlockedStays | adapters/codex/src/codexArchive.ts:1612-1674 | a Raw turn of a blocked session changes neither its snapshot nor what is acknowledged, and it stays blocked |
| CodexWaiting.DroppedTurnCosts | adapters/codex/src/codexArchive.ts:482-494 | a Raw turn that is dropped keeps its snapshot, which adds one to the debt at most |
| CodexWaiting.NeedsExactly | adapters/codex/src/codexArchive.ts:1865-1888 | a session needs Raw work exactly if its acknowledged positions do not complete a new snapshot, or if one of its files has no complete line yet and no acknowledgment of its generation |
| CodexWaiting.RawTurnPays | adapters/codex/src/codexArchive.ts:1633-1674 | a Raw turn never leaves more work, and leaves strictly less unless every file is covered or cut short, whatever the limits of its pages |
| CodexWaiting.AcknowledgedIsAt | adapters/codex/src/codexArchive.ts:1621-1631 | acknowledging what a turn sent puts every file of its snapshot where the last page left it |
| CodexWaiting.AcknowledgedHelps | adapters/codex/src/codexArchive.ts:1621-1631 | what is acknowledged of an older snapshot leaves no more work on the current files |
| CodexBlocked.BlockedStarves | adapters/codex/src/codexArchive.ts:1843-1888 | the condition is needed: from every Raw state in which a session is blocked there is a run of any length in which only its Raw turns touch that state and another session is eligible for Raw at every turn and gets none |
| CodexBlocked.UnfinishedCanStarve | adapters/codex/src/codexArchive.ts:1843-1888 | the same without any file cut short, as pages that the selection itself schedules from a fresh cursor on: every Raw slot goes to a session whose only record is not finished |
| CodexBlocked.UnfinishedCompletes | adapters/codex/src/codexArchive.ts:1633-1674 | the Raw page of that session sends nothing and completes, so nothing is ever acknowledged and it asks again |
| CodexBlocked.StarvesBlocked | adapters/codex/src/codexArchive.ts:1865-1888 | in the run behind a file that was cut short, too, the schedule sees of that session what the code computes, and it is blocked |
| CodexStarving.RecoveryGoesFirst | adapters/codex/src/codexArchive.ts:1854-1858 | two pages that the selection schedules: with Git recovery and no canonical work waiting, an older session from before the baseline, without a completed snapshot, takes the turn ahead of the eligible Raw session, at any number of canonical turns |
| CodexSchedule.SomeRawWithinFive | adapters/codex/src/codexArchive.ts:1835-1863 | while some session stays eligible for Raw, one of any five served turns is a Raw turn, of that session or another, or a turn of Git recovery with no canonical work waiting |
| CodexSchedule.PagesMakeRun | adapters/codex/src/codexArchive.ts:640-663 | the turns that any run of pages makes follow each other as the bounds on waiting require: the counters of each turn come from the turn before, dropped turns included |
| CodexSchedule.TurnWithinFourPages | adapters/codex/src/codexArchive.ts:640-663 | among any four pages in a row one ends the turn |
| CodexSchedule.PageEndsTurn | adapters/codex/src/codexArchive.ts:658-663 | a turn that completes or pauses moves the fairness counters as the selection expects, a dropped one leaves them alone, and a paused session stays pending in its phase |
| CodexSchedule.NeverBoth | adapters/codex/src/codexArchive.ts:658-663 | no run of pages leaves a session both open and paused in the same phase |
| CodexSchedule.CompletedLeaves | adapters/codex/src/codexArchive.ts:1890-1939 | a completed canonical phase takes its session out of the canonical queue: it is neither behind its watermark nor paused |
| OpenCodeSource.ClimbToRoot | adapters/opencode/src/source.ts:226-232 | the ancestor walk gives the session without a parent, refuses the attribution exactly at a cycle or at the thread bound, and otherwise fails at the first session that cannot be loaded |
| OpenCodeSource.ChildIsNew | adapters/opencode/src/source.ts:257-259 | the "repeated Session identity" failure cannot occur |
| OpenCodeSource.SearchFamily | adapters/opencode/src/source.ts:233-261 | the breadth-first search succeeds with exactly the root and everything below it, and the count of its rows |
| OpenCodeWalk.NextIsHead | adapters/opencode/src/source.ts:291-312 | the next row is the head of the listing, and the step fails exactly when that row does not pass its checks |
| OpenCodeWalk.WalkIsListing | adapters/opencode/src/source.ts:291-312 | the keyset walk emits the listing of sessions, messages by time and id, and parts by id; it fails exactly when a listed row does not pass |
| OpenCodeCoverage.CountMeansCoverage | adapters/opencode/src/source.ts:333-335 | the row count meets the admission count exactly if every admitted row was emitted, once each |
| OpenCodeCoverage.SucceedsExactly | adapters/opencode/src/source.ts:291-349 | a traversal ends with matching counts exactly when every admitted row is sound, has a valid id and a time that is not negative, and no message of the family holds a part of another session |
| OpenCodeShows.SucceedsOnRows | adapters/opencode/src/source.ts:291-349 | the same said session by session: its row, its messages and its parts are sound with valid ids and times, and no part under its messages is of another session |
| OpenCodeShows.SupportedExactly | adapters/opencode/src/source.ts:245-253 | a session is admitted exactly if it has no second-schema messages, each of its parts belongs to one of its messages, and its revert names one of its messages and a part of it |
| OpenCodeCoverage.FamilyRowsDistinct | adapters/opencode/src/source.ts:291-312 | no row is listed twice |
| OpenCodeView.SourceView.Advance | adapters/opencode/src/source.ts:291-312 | `next` on the closure state |
| OpenCodeView.SourceView.Fetch | adapters/opencode/src/source.ts:331-341 | fetching a row keeps what is left, checks the row, and at the end the counts agree |
| OpenCodeView.SourceView.Deliver | adapters/opencode/src/source.ts:342-344 | the fetched row is handed out once |
| OpenCodeView.SourceView.Read | adapters/opencode/src/source.ts:323-349 | pages lose, repeat and reorder nothing, fit their limits, deliver only rows that pass their checks, and the last one comes only when every admitted row was counted; a second pass does not fail |
| OpenCodeView.DonePassCovers | adapters/opencode/src/source.ts:323-349 | after a complete pass every admitted row of the family was sound and was delivered exactly once |
| OpenCodeView.SourceView.Rewind | adapters/opencode/src/source.ts:319-323 | allowed once, after a complete pass; the second pass has the same rows ahead as the first |
| OpenCodeRevert.RevertCutsPrefix | adapters/opencode/src/capture.ts:74-101 | a part is active exactly if it precedes the revert boundary of its own session in the order of time, message id and part id, and a message exactly if it does or keeps some of its parts, whatever the state before |
| OpenCodeCapture.RevertedPartsAreSilent | adapters/opencode/src/capture.ts:74-101 | a part row behind the boundary has no event and no usage |
| OpenCodeShows.CapturedExactly | adapters/opencode/src/capture.ts:74-179 | a capture succeeds exactly if each listed row fits the rows above it and the yields of the shown parts fit the budgets; then row k has one frame with exactly its yield, numbered behind those before it |
| OpenCodeShows.LoadedExactly | adapters/opencode/src/source.ts:134-147 | a session loads exactly if its id is valid and its row is there and sound |
| OpenCodeCapture.FramesFollowRows | adapters/opencode/src/capture.ts:74-179 | one frame per row, numbered through |
| OpenCodeCapture.Capture.CountPage | adapters/opencode/src/capture.ts:181-188 | a page of the counting pass |
| OpenCodeCapture.Capture.Plan | adapters/opencode/src/capture.ts:181-209 | the counting pass fixes the targets and the frames of the second pass |
| OpenCodeCapture.Capture.Refill | adapters/opencode/src/capture.ts:221-223 | reading the next page keeps the frames still expected |
| OpenCodeCapture.Capture.TakeRow | adapters/opencode/src/capture.ts:225-229 | projecting a buffered row keeps the frames still expected, and cannot fail |
| OpenCodeCapture.Capture.Deliver | adapters/opencode/src/capture.ts:231-233 | the pending frame is the next expected one |
| OpenCodeCapture.Capture.Read | adapters/opencode/src/capture.ts:214-238 | pages deliver exactly the frames of the counting pass, in order; after that pass no page fails, each page before the end makes progress, and the targets are always met: the passes never disagree |
| GrokFacts.ProjectKeepsRaw | adapters/grok/src/projection.ts:47-206 | with Raw on every source row is kept exactly once and in order, joined fragments included |
| GrokFacts.ProjectKeys | adapters/grok/src/projection.ts:58-62 | record keys are distinct over the session although native background ids repeat, and events are numbered through |
| GrokFacts.PromptIndices | adapters/grok/src/projection.ts:147-151 | model prompt indices are 0, 1, 2, ... whatever host compactions lie between |
| GrokFacts.ForkLineage | adapters/grok/src/projection.ts:79-90 | the turn owners of an accepted fork form blocks a1+ a2+ ... parent+ self+ with all owners distinct, and background rows belong to these owners |
| GrokFacts.ModelTurnOpens | adapters/grok/src/projection.ts:147-151 | a completed model turn opens with its user prompt, numbered by the model turns before it |
| GrokTurns.TurnAcceptedExactly | adapters/grok/src/projection.ts:91-197 | a turn is accepted exactly if each row fits the rows before it and events and samples fit the budgets |
| GrokTurns.TurnShows | adapters/grok/src/projection.ts:101-197 | it adds one frame for each row that does not continue a text; texts, calls and updates show one event, the completion carries the samples |
| GrokSession.CutExactly | adapters/grok/src/projection.ts:47-68 | cutting gives the one list of background rows and completed turns that spells the log out, and fails exactly if there is none |
| GrokSession.CompactionExactly | adapters/grok/src/projection.ts:68-75 | which turns are taken for model turns, failed and completed compactions |
| GrokSession.StateIsRead | adapters/grok/src/projection.ts:47-200 | after any accepted items prompts, checkpoints, owners and counters are what the items say |
| GrokSession.ItemTakenExactly | adapters/grok/src/projection.ts:47-200 | the next item is taken exactly if it fits them |
| GrokSession.ProjectedExactly | adapters/grok/src/projection.ts:47-205 | a log is projected exactly if it can be cut, each item fits those before it, and the session's own counters agree with what was read |
| Grok.SegmentTurns | adapters/grok/src/projection.ts:65-68 | cutting closes every turn by its only completion row, so no turn is refused for its form |
| Grok.ProjectTurn | adapters/grok/src/projection.ts:101-197 | the loops over rows and fragments of one turn |
| Grok.ProjectSession | adapters/grok/src/projection.ts:47-206 | one pass that cuts the log into turns while projecting them equals cutting first |
| CursorStart.ProtocolIsLegal | adapters/cursor/src/newSession.ts:65-118 | in every interleaving at most one confirmation succeeds, none starts after an abandon, no abandon follows a success, and a confirmation starts only while no exit is known or after a clean zero exit |
| CursorStart.FinishedIsDecided | adapters/cursor/src/newSession.ts:109-118 | a finished run has one success and no abandon, or no success and an abandon |
| CursorStart.LateReadStartsNothing | adapters/cursor/src/newSession.ts:98-101 | a snapshot that arrives after a failed exit starts no confirmation |
| CursorStart.StepKeeps | adapters/cursor/src/newSession.ts:90-118 | the invariant behind these, kept by every step of child, monitor and main path |
| CursorSettles.ExitSettles | adapters/cursor/src/newSession.ts:107-118 | once the exit is known every step leads on: a run that takes twelve more steps has finished on its way |
| CursorSettles.NothingIsStuck | adapters/cursor/src/newSession.ts:89-118 | an unfinished start always has a step to take |
| CursorSettles.EndsExactly | adapters/cursor/src/newSession.ts:65-118 | exactly which endings are reachable: every log of Host calls with its result, confirmed or abandoned, reported as failed or not, for every exit of the child |
| CursorSettles.CallsBalance | adapters/cursor/src/newSession.ts:89-118 | every confirmation that starts ends once, at most two start, and the abandons follow from how far the start has come |
| CursorCapture.CapturesExtend | adapters/cursor/src/capture.ts:78-94 | along any chain of accepted captures content, records and frames of an earlier capture are prefixes of those of a later one |
| CursorCapture.CheckpointExact | adapters/cursor/src/cursorSource.ts:413-421 | the checkpoint of a readable transcript is admitted by exactly the files that start with that transcript |
| CursorCapture.PrefixRecords | adapters/cursor/src/cursorSource.ts:310-343 | a complete prefix is read to a prefix of the records, whatever the limits of either reading |
| CursorCapture.PrefixFrames | adapters/cursor/src/capture.ts:40-63 | more records only add frames; event numbers do not move |
| CursorShows.RecordsExactly | adapters/cursor/src/cursorSource.ts:310-343 | a file is read exactly if each line is closed, fits and decodes and there are not too many; record k is what line k decodes to |
| CursorShows.OpensExactly | adapters/cursor/src/capture.ts:40-94 | a capture opens exactly if the file reads, its parts fit the budgets and it still starts with the receipt's and the checkpoint's prefix; it shows one frame for each record, one numbered event for each part |
| CursorCapture.ReadRecords | adapters/cursor/src/cursorSource.ts:310-343 | the loop over the transcript |
| CursorCapture.ProjectRecords | adapters/cursor/src/capture.ts:40-63 | the loop that numbers events |

## Left out

- File system, SQLite schema, stamps, symbolic links, inventories, Git attribution and process spawning are foreign calls; files and tables are given, and files do not change while they are read.
- Hashing, base64, JSON text, UTF-8 and schema decoding: hashes of different arguments are taken to differ, and decoded rows are given.
- Deadlines and abort signals have no functional content.
- Byte budgets: Claude, Codex and OpenCode pages have abstract sizes; the byte budgets of Kimi, CodeBuddy, Grok and Cursor projections are not modelled, their counts are.
- Titles, labels, tool kinds, update texts, capture status, session status and update times: values that are carried along and decide nothing.
- Exact provider wording (CodeBuddy notifications and receipts, Kimi receipts and completion texts) appears as the outcome of its test. CodeBuddy's continuation prompt and delegated message are written out.
- Claude `bindChild` and the relation of child files to receipts: a node's child is not part of the model; the capture's streams are given.
- Claude `validateLegacyStream`, cursor decoding and migration of every adapter, runtime wrappers: long field checks or thin loops with little structure.
- Claude `restoreNormalization` and pending-projection validation belong to the legacy collector and are not modelled.
- ClaudeLines.ReadRecords: a read that returns fewer bytes than asked for is not modelled, and the limit is positive, as every admitted row limit is.
- CodexLines.ReadLines: a read that returns fewer bytes than asked for, or none, is not modelled; the same holds for the chunk reads in `CodexRaw`.
- CodexOwnership.ResponseOnce: speaks of response items with an id; one without an id is named after its own line and has no copies.
- CodexPages.CompleteRunIsOnePass: speaks of runs that do not fail; when a page fails is `CodexLimits.PageFailsExactly`.
- CodexSchedule.HeadWithinEight: `localeCompare` is a parameter of the model (of `CodexChoice` too), and the quarantine of a failing session appears as a turn that is dropped.
- Codex `collectPage`: re-reading a chosen session from a reused inventory, which can turn a Raw choice into a canonical one, is not modelled; neither is a cursor that a projection upgrade or a change of the Raw setting rewrites between two pages.
- CodexKeys.KeysRepeatExactly: how event ids are cut to 500 bytes and joined into keys is a parameter; names made from places and keys are taken to be distinct, cut ids are not.
- CodexWaiting.ServedUnlessBlocked: the files of a session do not change during one of its turns, only between turns, and the receiver acknowledges what each page sends; the files of a session have distinct object ids, and a paused file counts as live only while the current file has its generation. A file that cannot be read, which also counts as a need, is not modelled.
- Codex usage samples: which line carries the sample of a response is given, not derived.
- `sourceUpdatedAt` of the Codex projection is not modelled.
- OpenCodeSource.SearchFamily: ids are numbers in SQLite's order; the code sorts the ids of children as JavaScript strings, which fixes another order of the same sessions.
- KimiDelegation.TurnsAreCalls: the output tail of a background task is compared in characters, not in UTF-8 bytes.
- CodeBuddyDelegation.ReferencesAgree: a receipt or spawn whose JSON cannot be parsed is refused like one with wrong fields; both fail in the code, with different reasons.
- CodeBuddyFamily.SnapshotIsClosed: creation directories and the byte budget of the search are not modelled; record and thread budgets are.
- CodeBuddyRecords.AdmitHistory: an incomplete sibling group is refused with one reason; the code tells a retry from an unsupported group.
- CursorStart.ProtocolIsLegal: checking the exit and starting the confirmation is one atomic step, as it is between two yields of the runtime; interruption of the whole start from outside is not modelled.
- Web application, servers, access gateways, command line, discovery pages: thin wrappers or I/O.
