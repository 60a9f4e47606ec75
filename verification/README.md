# Verified model of a terminal client and its agent

This project models, in Dafny, the logic that a terminal client and the agent it talks to rely on to
lose nothing: a resumable output stream, an optimistic copy of workspace documents, and the parsers and
schedulers around them. It proves what the system promises about them for every input, every run and
every reachable state.

| file | models | main results |
|---|---|---|
| `RemoteSequence`, `OutputStream`, `ReplayProtocol`, `ReplayRecovery` | the client's side of an attached session, the connection, and the agent's replay plan | exactly when delivery is exactly-once and in order, over every run, and that it is where attaches do not overlap; an exact sequence to resume from, and a screen as if nothing had been lost, whenever the parser is idle; a gap that is heard can always be caught up with; a replay is reported exactly when it is parsed |
| `PaneTree`, `PaneTreeLaws`, `PaneTreeEdits`, `ClientPaneTree` | pane trees in the agent and in the client | split, close, resize and update write what they are asked to and preserve everything else, and both sides compute the same tree |
| `WorkspaceDocument`, `WorkspaceEdits`, `WorkspaceInPlace` | the document and its operations, on values and in place | each operation is accepted exactly when it should be, writes just what it is asked to, and only then is stored; the loops compute the specified document |
| `WorkspaceSync`, `SyncProtocol`, `SyncDelivery` | the client's queues, revisions and deferred projections, against an agent | at most once under conflicts, errors and late executions, and exactly when in order; a conflict is retried, and what is answered was executed exactly once; exactly when optimistic state outlives its mutations |
| `Calendar`, `Timestamp` | the log's date arithmetic | the closed formula is the Gregorian calendar for every integer; timestamps read back |
| `OscParser`, `OscContent` | the streaming parser of OSC sequences, and what they say | chunk boundaries do not matter while the carry fits; the carry is bounded; a reported directory arrives however it is encoded and cut; exactly what is understood |
| `ResizePump`, `RemoteHostManager`, `ActivityStore` | the resize queue, reconnecting, the idle timers | one request, one attempt, one timer at a time; exactly when the newest size wins or is left behind; a paused host stays closed, exactly when a wanted one is given up, and otherwise it connects; a pane is never idle early |
| `CellColumns`, `UrlLinks` | links across wrapped rows, in characters and in cells | a character is linked exactly when it is part of a URL, however the text was wrapped; one line's links are the buffer's |
| `ProcessTree`, `CompositionGuard`, `MessageTranslation`, `Framing` | process trees, input methods, chat messages, frames | exact reachability; text delivered once; nothing lost in translation; only what was written is read |

Each component has a specification made of functions on values. Where the program changes variables step
by step, a class or a loop with the program's own variables is proved to compute those functions. A
protocol is a state machine over values: a step is a function of the state and an action, and a run is a
list of states linked by steps. Lemmas about runs are proved from invariants that every step keeps.

What is outside is an environment with a contract. A connection delivers in order, may lose messages or
be cut, and then its requests fail at once; the journal is append-only, and xterm acknowledges arrays in
the order in which it received them. The agent's document is a list of versions,
and an operation is executed when its base is the newest revision. Decoding, encoding, regular
expressions and clocks are parameters with the laws they need.

Some promises are not kept by the code. Each of these is a lemma with a concrete run or input, next to
the condition under which the promise holds:

- Attaches that overlap can repeat output (`ReplayProtocol.OverlappingAttachesRepeatOutput`). Nothing in
  the client keeps recovery from a gap, which goes on waiting while the connection is lost, and a reconnect
  from attaching at the same time. What repeats output is a replay without a reset that begins at another
  byte than the next expected one; `ReplayProtocol.EveryRunIsExactlyOnceIff` says that this, and a replay
  that ends at another byte, is all that ever breaks exactly-once delivery.
- A connection cut inside a checkpoint leaves a screen that is never completed
  (`ReplayProtocol.CutCheckpointIsNeverCompleted`); `ReplayProtocol.EveryIdleStateIsResumable` says that
  nothing else does.
- The agent can execute operations in another order than they were queued
  (`SyncProtocol.LateExecutionOvertakes`), exactly as `SyncProtocol.LogIsInQueueOrderIff` says.
- An operation that the document's final check refuses has already been made
  (`WorkspaceDocuments.RefusedEditStays`), in exactly the cases of `WorkspaceDocuments.RefusedEditStaysIff`.
  No stored document shows it: the agent edits a loaded copy and returns before writing
  (`WorkspaceDocuments.StoredStaysValid`).
- The client resizes a split without comparing the number of sizes (`ClientPaneTree.SetSizesAgreesIff`).
- A listing replaces the view even where `remember` refuses it (`SyncProtocol.StaleListingRegresses`), and
  a creation that fails takes a document out of view that a listing brought meanwhile
  (`SyncProtocol.FailedCreationTakesAway`). An operation that fails with no document remembered leaves what
  it showed in view (`SyncProtocol.FailedOperationStays`). `SyncProtocol.SettlesThroughoutIff` says that
  nothing else keeps the view from the newest document, and when that lasts.
- A size can be dropped without a failure (`ResizePumps.OfflineResizeIsDropped`), exactly as
  `ResizePumps.QuietMeansAcknowledgedIff` says, or left pending (`ResizePumps.RegainedControlStrands`),
  exactly as `ResizePumps.PendingIsServedIff` says.
- A controller can be moved away from the size it asks for (`ResizePumps.ListingMovesController`,
  `ResizePumps.RegainedControlMoves`), exactly as `ResizePumps.ControllerKeepsItsSize` says.
- A reconnect that finds a paused attempt still closing is lost (`RemoteHosts.ReconnectCanBeLost`), and
  `RemoteHosts.WantedHostsAreTriedIff` says exactly when a host is given up.
- A list of parts in a tool result or an assistant turn is lost in translation
  (`MessageTranslation.ContentIsKeptIff`).
- A range that ends inside a wide cell of several characters loses that cell's last column
  (`CellColumns.EndInsideWideCellIsCut`); `UrlLinks.LinkedCellsIffUrl` says when a line is shown right.
- A sequence longer than 64 KiB that is cut is lost (`OscParsing.OverlongSequenceIsLost`).
- A time whose seconds do not fit 64 signed bits is printed as another (`Timestamps.FmtUtcRoundTripIff`).
- `descendants_of` is documented to exclude the root; the code includes it when parent links lead back to
  it (`ProcessTrees.RootIsReturned`, `ProcessTrees.ReturnedIffLinksLeadToRoot`).

## Model

| member | source | states |
|---|---|---|
| `RemoteSequence.AcceptDeliversTheMissingSuffix` | src/lib/remote-sequence.ts:11-33 | for a slice of the journal: a duplicate holds nothing beyond the next byte, a gap starts beyond it, and otherwise what is delivered is exactly the journal from the next byte to the end of the slice |
| `OutputStream.AgentPty.HandleEvent` | src/lib/pty.ts:526-580 | each event moves the sequence fields and hands out the effect as specified; a reset, a duplicate, an overlap and a gap included |
| `OutputStream.AgentPty.EmitData` | src/lib/pty.ts:541-551 | one array is numbered, its parse end noted and, during a replay, counted as pending |
| `OutputStream.AgentPty.AcknowledgeData` | src/lib/pty.ts:475-483 | acknowledging an array removes it, raises `parsedSeq` to its end and may complete the replay |
| `OutputStream.AgentPty.CompleteReplayIfDone` | src/lib/pty.ts:843-847 | completion is reported once the ended replay has no pending array |
| `OutputStream.AgentPty.Checkpoint` | src/lib/pty.ts:423-430 | in every exact state a screen may be uploaded if and only if xterm has parsed all it was given; its label is then the next expected byte, and the output written up to it is the journal from the last reset to that byte |
| `OutputStream.StaleAcknowledgementIgnored` | src/lib/pty.ts:475-483 | acknowledging an array from before a reset changes nothing |
| `OutputStream.ParseKeepsInv` | src/lib/pty.ts:475-483 | parsing the next array keeps the accounting exact |
| `OutputStream.ReceiveKeepsInvIff` | src/lib/pty.ts:526-580 | an event keeps the stream exact if and only if it is admissible: a replay without a reset begins at the next byte, one with a reset anywhere in the journal, a replay ends at the next byte; outputs always are, duplicated, overlapping or beyond a gap |
| `OutputStream.DeliveredExactlyOnce` | src/lib/pty.ts:526-580 | in an exact state the bytes written since the last reset spell journal[base..nextSeq), and the parsed ones journal[base..parsedSeq) |
| `OutputStream.IdleMeansAllParsed` | src/lib/pty.ts:815-842 | an idle parser means that every array written is parsed and `parsedSeq` equals `nextSeq` |
| `OutputStream.CompletionMeansReplayParsed` | src/lib/pty.ts:843-847 | a replay is reported complete only after all its arrays are parsed |
| `OutputStream.RunsStayExact` | src/lib/pty.ts:526-580 | whatever admissible events and acknowledgements arrive, in any number and order, the stream stays exact |
| `OutputStream.EveryAdmissibleRunIsExact` | src/lib/pty.ts:526-580 | from the start, after any admissible events and acknowledgements, the output since the last reset is journal[base..nextSeq), and an idle parser has parsed all of it |
| `OutputStream.CompletedAtMostOncePerReplay` | src/lib/pty.ts:843-847 | over any run, completions reported are at most the replays ended |
| `OutputStream.ReplayIsReportedIffParsed` | src/lib/pty.ts:475-483 | in every state of every admissible run, with the last begin or end of a replay so far: after an end exactly one report more than before it if every array of that replay has been parsed, and none more until then; after a begin none; and an idle parser has parsed them all |
| `ReplayProtocol.TruncatedIffNothingConnects` | src-tauri/src/agent/session_manager.rs:53-95 | an answer lacks history if and only if the journal goes on from nothing the client could start from: what it has, the checkpoint, or nothing; otherwise it begins at one of these, what the client has before all others, and a checkpoint before the beginning |
| `ReplayProtocol.AnswerFits` | src-tauri/src/agent/session_manager.rs:53-95 | the plan chosen for an attach makes an answer that the asking client accepts byte for byte |
| `ReplayProtocol.StepKeepsInv` | src/lib/pty.ts:746-792 | every step of client, connection and agent keeps what is on the wire fitting what the client expects, as long as an attach is sent only while nothing is subscribed and none is outstanding: output, losses, gaps, recoveries that outlive a connection, reconnects, trimmed journals and new checkpoints |
| `ReplayProtocol.EveryRunIsExactlyOnceIff` | src/lib/pty.ts:526-580 | in every run, however attaches overlap: in all states the output written since the last reset is journal[base..nextSeq), the parsed part journal[base..parsedSeq), and an idle parser has parsed all of it, if and only if every replay heard without a reset begins, and every replay heard ends, at the next expected byte |
| `ReplayProtocol.OrderlyAlwaysFollows` | src/lib/pty.ts:746-792 | where an attach is sent only while nothing is subscribed and none is outstanding, that is always so |
| `ReplayProtocol.EveryRunDeliversExactlyOnce` | src/lib/pty.ts:526-580 | so in every run in which attaches do not overlap, in every state: nothing lost, repeated or reordered, an idle parser has parsed everything, and a reset never meets unparsed bytes |
| `ReplayProtocol.EveryIdleStateIsResumable` | src/lib/pty.ts:746-768 | in every such run, an idle parser has an exact `parsedSeq` to resume, recover and label a checkpoint with; xterm was given the checkpoint and then the journal since; and that checkpoint is incomplete if and only if the connection was lost after its reset began and before its last array arrived, or that array is still to come |
| `ReplayProtocol.EveryScreenShowsTheJournal` | src/lib/pty.ts:423-430 | end to end, if every checkpoint saved was faithful: an idle client whose checkpoint is whole and not truncated shows what the whole journal up to `parsedSeq` would show, and what it saves is faithful again |
| `ReplayProtocol.OverlappingAttachesRepeatOutput` | src/lib/pty.ts:746-768 | a run of the whole system: a recovery goes on waiting for the parser while the connection is lost, it and the reconnect both attach, a replay begins before the next expected byte, and everything printed is written twice |
| `ReplayProtocol.CutCheckpointIsNeverCompleted` | src/lib/pty.ts:533-534 | a run in which the connection is cut inside a checkpoint: the client resumes incrementally, and the rest of the checkpoint never arrives |
| `ReplayRecovery.GapStartsRecovery` | src/lib/pty.ts:557-569 | an output heard beyond the next byte starts a recovery, if none is running |
| `ReplayRecovery.GapIsRecovered` | src/lib/pty.ts:746-768 | wherever an orderly run has heard a gap, it can go on by the endpoint's own steps to a state in which the client has parsed everything the agent has and no attach is outstanding |
| `ReplayRecovery.ConnectionCatchesUp` | src/lib/pty.ts:153-215 | so it can wherever a new connection is about to be attached to |
| `ReplayRecovery.EveryStateCanCatchUp` | src/lib/pty.ts:303-330 | and from every state of every orderly run it can go on so: at worst the connection is lost, a waiting recovery finds no host, and the next connection resumes |
| `PaneTreeLaws.SplitFinds` | src-tauri/src/workspace.rs:449-493 | a split succeeds exactly when the tree has the target as a leaf, and otherwise changes nothing |
| `PaneTreeLaws.SplitAddsIds` | src-tauri/src/workspace.rs:449-493 | a split adds exactly the new pane, and the new split where it makes one, to the ids of the tree |
| `PaneTreeLaws.SplitKeepsShape` | src-tauri/src/workspace.rs:449-493 | a split of a well-formed tree is well formed without the final check |
| `PaneTreeLaws.SplitInsertsAfterTarget` | src-tauri/src/workspace.rs:449-493 | with distinct ids the new leaf comes directly after the target in leaf order, and no other leaf changes |
| `PaneTreeLaws.RemoveDropsLeaf` | src-tauri/src/workspace.rs:495-521 | closing removes exactly the target from the leaf order, and the tree vanishes exactly when no leaf is left |
| `PaneTreeLaws.RemoveAddsNoId` | src-tauri/src/workspace.rs:495-521 | closing never adds an id |
| `PaneTreeLaws.RemoveKeepsShape` | src-tauri/src/workspace.rs:495-521 | closing in a well-formed tree leaves a well-formed one |
| `PaneTreeLaws.RemoveAbsent` | src-tauri/src/workspace.rs:495-521 | closing an absent pane only evens the sizes of every split |
| `PaneTreeLaws.CloseUndoesSplit` | src-tauri/src/workspace.rs:449-521 | closing the pane a split has added restores ids and nesting; the sizes come back evened |
| `PaneTreeLaws.SetSizesMeaning` | src-tauri/src/workspace.rs:523-544 | which split gets the sizes, when it is refused, and that ids and shape stay |
| `PaneTreeLaws.UpdateMeaning` | src-tauri/src/workspace.rs:557-581 | a leaf update succeeds exactly when the leaf exists, keeps every id, and keeps a tree well formed exactly when the edit is acceptable |
| `PaneTreeLaws.UpdateEditsOneLeaf` | src-tauri/src/workspace.rs:557-606 | a leaf update edits the first leaf of that id and no other |
| `PaneTreeEdits.UpdateWrites` | src-tauri/src/workspace.rs:557-606 | a leaf update writes the value asked for into the field asked for of the leaf of that id; every other field, leaf and split is as it was, for all five edits |
| `PaneTreeEdits.SetSizesWrites` | src-tauri/src/workspace.rs:523-544 | the sizes asked for are those of the split of that id, and nothing else changes |
| `PaneTreeEdits.SplitMakesNeighbours` | src-tauri/src/workspace.rs:449-493 | after a split the new leaf is the target's neighbour in a split of the direction asked for, with even sizes |
| `PaneTreeEdits.SplitKeepsSizes` | src-tauri/src/workspace.rs:449-493 | a split keeps direction and sizes of every split, but for one of its direction that holds the target |
| `PaneTreeEdits.CloseEvens` | src-tauri/src/workspace.rs:495-521 | after a close every split that is left has one share of a hundred for each child |
| `PaneTreeEdits.CloseKeepsDirections` | src-tauri/src/workspace.rs:495-521 | every split that is left after a close has been there before, in the same direction |
| `ClientPaneTree.CollectLeafIds` | src/lib/pane-tree.ts:12-20 | the accumulator holds the leaves' ids in leaf order |
| `ClientPaneTree.SplitAgrees` | src/lib/pane-tree.ts:47-99 | where the target's id is not repeated, the client's split gives the agent's tree |
| `ClientPaneTree.RepeatedNamesDisagree` | src/lib/pane-tree.ts:47-99 | with a repeated id the two differ: the client splits every occurrence, the agent the first |
| `ClientPaneTree.RemoveAgrees` | src/lib/pane-tree.ts:108-133 | on every tree the client's close gives the agent's tree |
| `ClientPaneTree.SetSizesAgreesIff` | src/lib/pane-tree.ts:141-153 | the client's resize gives the agent's tree if and only if no split has the id or the one that has it has as many children as there are sizes: the agent checks that, the client does not |
| `ClientPaneTree.SetLeafAgrees` | src/lib/pane-tree.ts:155-172 | where the leaf's id is not repeated, the client's leaf update gives the agent's tree |
| `ClientPaneTree.NextActiveSurvives` | src/lib/pane-tree.ts:108-133 | after a close the next focus is a surviving leaf: the one before the closed one, or the first |
| `WorkspaceDocuments.SplitAcceptedIff` | src-tauri/src/workspace.rs:245-271 | on a valid document a split is accepted if and only if the tab has the target, the new pane has a directory and a fresh id and, where a new split is made, that split has a fresh id of its own |
| `WorkspaceDocuments.CloseAcceptedIff` | src-tauri/src/workspace.rs:272-285 | on a valid document a close is accepted if and only if the tab exists: the final check never refuses it |
| `WorkspaceDocuments.SetSizesAcceptedIff` | src-tauri/src/workspace.rs:286-295 | on a valid document sizes are accepted if and only if the tab has a split of that id with as many children, and all are positive |
| `WorkspaceDocuments.UpdateCwdAcceptedIff` | src-tauri/src/workspace.rs:296-307 | on a valid document a directory change is accepted if and only if the tab has the pane and the directory is not blank |
| `WorkspaceDocuments.EditPaneAcceptedIff` | src-tauri/src/workspace.rs:546-555 | on a valid document a pane edit is accepted if and only if some tab has the pane and the edit is acceptable |
| `WorkspaceDocuments.AddTabAcceptedIff` | src-tauri/src/workspace.rs:204-210 | on a valid document a tab is added if and only if its ids are new and its own tree is well formed |
| `WorkspaceDocuments.ReorderAcceptedIff` | src-tauri/src/workspace.rs:218-227 | on a valid document reordering is accepted if and only if the tab exists; the tab lands at the index asked for or at the end, and the others keep their order |
| `WorkspaceDocuments.RemoveTabAcceptedIff` | src-tauri/src/workspace.rs:211-217 | on a valid document removing a tab is accepted if and only if it exists, and takes just that tab out |
| `WorkspaceDocuments.LabelAcceptedIff` | src-tauri/src/workspace.rs:228-244 | on a valid document a name or icon is accepted if and only if the tab exists, and changes neither its id, its tree nor another tab |
| `WorkspaceDocuments.SplitPlacesPane` | src-tauri/src/workspace.rs:245-271 | an accepted split puts the new pane directly after the target in its tab's leaf order, and moves no other pane of it |
| `WorkspaceDocuments.SplitThenClose` | src-tauri/src/workspace.rs:245-285 | an accepted split followed by closing the new pane gives the document back, with the sizes of that tab evened |
| `WorkspaceDocuments.EarlyErrorChangesNothing` | src-tauri/src/workspace.rs:195-340 | an operation that fails before the final check has changed nothing |
| `WorkspaceDocuments.RefusedEditStaysIff` | src-tauri/src/workspace.rs:195-340 | on a valid document an operation is refused and yet leaves its edit behind if and only if it adds a tab or pane that is not acceptable, sets a size that is not positive, a blank directory, or an unacceptable pane value, where tab and target exist |
| `WorkspaceDocuments.RefusedEditStays` | src-tauri/src/workspace.rs:296-340 | for example a blank directory for the only pane of a document |
| `WorkspaceDocuments.StoredStaysValid` | src-tauri/src/agent/repository.rs:486-533 | the caller edits a loaded copy: what is stored stays valid, nothing of a refused operation is stored, and the revision tells whether the document changed |
| `WorkspaceEdits.PaneEditWrites` | src-tauri/src/workspace.rs:308-340 | an accepted binding of a session, an agent, a status or a title writes that field of the pane of that id; every other field, pane and tab is as it was |
| `WorkspaceEdits.UpdateCwdWrites` | src-tauri/src/workspace.rs:296-307 | an accepted directory is written into the pane, and nothing else changes |
| `WorkspaceEdits.SetSizesWritesTab` | src-tauri/src/workspace.rs:286-295 | accepted sizes are written into the split of that id, and nothing else changes |
| `WorkspaceEdits.SplitWritesTab` | src-tauri/src/workspace.rs:245-271 | an accepted split changes one tab's tree only: the new pane is the target's neighbour in that direction with even sizes, and every split that does not hold the target in that direction is as it was |
| `WorkspaceEdits.CloseWritesTab` | src-tauri/src/workspace.rs:272-285 | an accepted close takes the pane out of its tab's panes and evens the tab's sizes, or takes the tab out if it had no other pane; nothing else changes |
| `WorkspaceEdits.LabelWrites` | src-tauri/src/workspace.rs:228-244 | an accepted name or icon is written into its tab and nothing else changes: an automatic name gives way to a custom one, and a blank icon means none |
| `WorkspaceEdits.CustomNameWins` | src-tauri/src/workspace.rs:228-241 | a custom name stays through any number of automatic ones; once it is cleared, the next automatic name is shown |
| `WorkspaceEdits.WorkspaceLabelAcceptedIff` | src-tauri/src/workspace.rs:197-203 | the workspace's name is refused if and only if it is blank; name and icon are written, a blank icon as none, and nothing else changes |
| `WorkspaceEdits.AddTabLands` | src-tauri/src/workspace.rs:204-210 | an accepted tab lands at the index asked for, or at the end; the others keep their order |
| `WorkspaceInPlace.SplitInPlace` | src-tauri/src/workspace.rs:449-493 | the loop over children, stopping at the first hit, edits the tree as specified |
| `WorkspaceInPlace.SetSizesInPlace` | src-tauri/src/workspace.rs:523-544 | the loop that sets sizes edits the tree as specified |
| `WorkspaceInPlace.UpdateLeafInPlace` | src-tauri/src/workspace.rs:557-581 | the loop that updates a leaf edits the tree as specified |
| `WorkspaceInPlace.ValidateTree` | src-tauri/src/workspace.rs:377-427 | filling the set of ids accepts exactly the well-formed trees whose ids are new and distinct, and then holds their ids too |
| `WorkspaceInPlace.WorkspaceDocument.Validate` | src-tauri/src/workspace.rs:178-193 | the check accepts exactly the valid documents |
| `WorkspaceInPlace.WorkspaceDocument.UpdateWorkspaceLeaf` | src-tauri/src/workspace.rs:546-555 | tabs are tried in order until one has the pane |
| `WorkspaceInPlace.WorkspaceDocument.RetainOthers` | src-tauri/src/workspace.rs:211-217 | removing a tab keeps the others in order and says whether there was one |
| `WorkspaceInPlace.WorkspaceDocument.ApplyToTab` | src-tauri/src/workspace.rs:228-307 | an operation on one tab changes that tab as specified |
| `WorkspaceInPlace.WorkspaceDocument.Apply` | src-tauri/src/workspace.rs:195-340 | every operation changes the object as specified and is accepted exactly when specified |
| `WorkspaceSyncing.WorkspaceSync.Remember` | src/lib/workspace-sync.ts:469-482 | an older document than the one remembered is refused, any other replaces it |
| `WorkspaceSyncing.WorkspaceSync.ProjectOrDefer` | src/lib/workspace-sync.ts:484-490 | a document is shown, or waits for the queue |
| `WorkspaceSyncing.WorkspaceSync.AcceptResponse` | src/lib/workspace-sync.ts:263-279 | a response is remembered and shown or deferred, or refused as older; no other workspace changes |
| `WorkspaceSyncing.WorkspaceSync.OnWorkspaceChanged` | src/lib/workspace-sync.ts:397-405 | an event is treated as a response is |
| `WorkspaceSyncing.WorkspaceSync.OnWorkspaceRemoved` | src/lib/workspace-sync.ts:406-412 | a removal forgets everything about the workspace |
| `WorkspaceSyncing.WorkspaceSync.OnDeleteAccepted` | src/lib/workspace-sync.ts:202-205 | the client's own deletion forgets the document, but not a deferred projection |
| `WorkspaceSyncing.WorkspaceSync.RollbackWorkspace` | src/lib/workspace-sync.ts:492-495 | a rollback shows the remembered document, if there is one |
| `WorkspaceSyncing.WorkspaceSync.Enqueue` | src/lib/workspace-sync.ts:213-226 | queueing a mutation shows what the user made of the workspace and marks its queue |
| `WorkspaceSyncing.WorkspaceSync.AfterMutation` | src/lib/workspace-sync.ts:227-235 | only the mutation that was queued last drains the queue |
| `WorkspaceSyncing.WorkspaceSync.ReplaceHost` | src/lib/workspace-sync.ts:309-310 | every listed document is offered to `remember`, and the view becomes the listing whatever `remember` said |
| `WorkspaceSyncing.ListingIsPerWorkspace` | src/lib/workspace-sync.ts:309-310 | a listing without repetitions acts on each workspace by itself |
| `SyncProtocol.StepKeepsExecutions` | src/lib/workspace-sync.ts:127-186 | no step makes the agent execute an operation a second time, or two operations that change the document or were answered in time out of order |
| `SyncProtocol.EveryRunAppliesOnceInOrder` | src/lib/workspace-sync.ts:127-186 | in every run with conflicts, errors, lost answers, late executions and remote changes, each operation is executed at most once; those answered in time, and those that change the document, in the order in which they were queued; each is sent at most twice |
| `SyncProtocol.LogIsInQueueOrderIff` | src/lib/workspace-sync.ts:127-186 | in every run the agent's log is a repeat-free part of the enqueue order if and only if no request of a failed mutation is executed late, after an operation queued later was executed at the same revision without changing anything; so always without late executions |
| `SyncProtocol.LateExecutionOvertakes` | src/lib/workspace-sync.ts:127-186 | a run in which that happens |
| `SyncProtocol.StepKeepsSettlingIff` | src/lib/workspace-sync.ts:213-279 | a step keeps the newest document shown, waiting for the drain, or owed by a mutation still to end, if and only if it is none of these: a listing that puts something else into view with nothing queued to put it right; the failure of a creation that takes a listed document out of view; the failure of the last mutation with no document to roll back to |
| `SyncProtocol.CachedStartIsInit` | src/lib/workspace-sync.ts:50-54 | the program's own start is admitted: a cached workspace of any content and revision 0, whatever the agent has |
| `SyncProtocol.SettlesThroughoutIff` | src/lib/workspace-sync.ts:213-279 | in every run, from its start or any settled state on, this holds in every state if and only if no step unsettles the view |
| `SyncProtocol.NoOptimisticStateLeaks` | src/lib/workspace-sync.ts:213-236 | in every run a projection is deferred only while the queue exists; as long as no step unsettles the view, after the drain the view is the newest document remembered, and nothing where none is: the agent's, if its newest version has arrived |
| `SyncProtocol.OfflineOperationRollsBack` | src/lib/workspace-sync.ts:492-495 | a run from a cached document: an operation that fails without an answer is rolled back to it |
| `SyncProtocol.FailedOperationStays` | src/lib/workspace-sync.ts:492-495 | a run in which an operation fails with no document remembered, and what it showed stays in view |
| `SyncProtocol.RevisionsNeverDecrease` | src/lib/workspace-sync.ts:469-482 | between removals, the remembered revision never decreases |
| `SyncProtocol.UpsertsTheNewest` | src/lib/workspace-sync.ts:213-279 | events, drains and rollbacks hand the newest remembered document to the view |
| `SyncProtocol.UpsertsNeverGoBack` | src/lib/workspace-sync.ts:397-413 | between removals, no document handed to the view is older than one before, from the cached one on |
| `SyncProtocol.ListingKeepsViewIff` | src/lib/workspace-sync.ts:309-310 | with or without a queue, a listing leaves the newest document in view if and only if it is not older than what is remembered or says the same |
| `SyncProtocol.StaleListingRegresses` | src/lib/workspace-sync.ts:453-456 | a run in which a late listing puts an old document back into view |
| `SyncProtocol.FailedCreationTakesAway` | src/lib/workspace-sync.ts:106-124 | a run in which a creation fails after a listing has brought its document: the queue drains and the document remembered is out of view |
| `SyncDelivery.HeadLeavesIff` | src/lib/workspace-sync.ts:127-186 | in every run the head mutation leaves the queue if and only if it fails, or hears anything but the document it asked for or its first conflict; after that conflict it is still the head and its document is fetched again |
| `SyncDelivery.SecondTryIffConflict` | src/lib/workspace-sync.ts:155-184 | in every run a mutation is in its second try if and only if it has had a conflict |
| `SyncDelivery.SentAtKnownRevision` | src/lib/workspace-sync.ts:127-184 | an operation is sent at the revision of the document fetched for it, or, before any conflict, at the one remembered when it began |
| `SyncDelivery.ConflictIffChanged` | src/lib/workspace-sync.ts:127-184 | a request meets a conflict if and only if the document has changed since it was fetched |
| `SyncDelivery.FetchedOperationIsExecuted` | src/lib/workspace-sync.ts:155-184 | if the agent has not changed since it gave the document, the operation it does not reject is in its log once the request arrives, and the answer is the new document |
| `SyncDelivery.ConflictIsRetried` | src/lib/workspace-sync.ts:155-184 | from every state with a first conflict, an agent that answers has the operation fetched for, sent once more and executed at its newest revision, and only then the mutation leaves the queue |
| `SyncDelivery.AnsweredExactlyOnce` | src/lib/workspace-sync.ts:127-186 | in every run an operation that is answered with a document is exactly once in the agent's log |
| `SyncDelivery.DeferralIsRecent` | src/lib/workspace-sync.ts:397-413 | a projection that waits for the queue was deferred by a document accepted after the last removal and the last drain |
| `Calendar.YearBrackets` | src-tauri/src/logger.rs:124-127 | the formula for the year of the era finds the year that contains the day |
| `Calendar.CivilIsCalendar` | src-tauri/src/logger.rs:121-132 | for every integer, the formula gives the date that counting day by day from 1970-01-01 gives in the Gregorian calendar |
| `Calendar.NumberOfDay` | src-tauri/src/logger.rs:121-132 | the date's own day number is the day it was made from |
| `Calendar.NumberDeterminesDate` | src-tauri/src/logger.rs:121-132 | no two valid dates have the same day number |
| `Calendar.CivilReachesEveryDate` | src-tauri/src/logger.rs:121-132 | every valid date is the date of some day |
| `Timestamps.FmtUtcRoundTripIff` | src-tauri/src/logger.rs:104-117 | reading the formatted text gives the milliseconds back if and only if their seconds fit 64 signed bits |
| `Timestamps.FmtUtcReadsBack` | src-tauri/src/logger.rs:104-117 | for every time the text is punctuated as a timestamp behind a year of four digits or more, and reads as the seconds after their cast to 64 signed bits, and the milliseconds |
| `OscParsing.FindSubslice` | src-tauri/src/agent/osc.rs:129-133 | the first introducer from a position, or the end |
| `OscParsing.FindTerminator` | src-tauri/src/agent/osc.rs:115-127 | the first terminator from a position and its length, or none |
| `OscParsing.Observe` | src-tauri/src/agent/osc.rs:19-47 | one pass reports and carries what a scan byte by byte meets |
| `OscParsing.OscParser.Push` | src-tauri/src/agent/osc.rs:19-47 | a push reports and carries what a scan of carry and chunk meets, and the carry never exceeds 64 KiB |
| `OscParsing.ScanInTwoParts` | src-tauri/src/agent/osc.rs:19-47 | scanning in two parts with an unbounded carry is scanning at once |
| `OscParsing.ChunksDoNotMatter` | src-tauri/src/agent/osc.rs:19-47 | however a stream is cut, the pushes report what one push of it reports and leave the same carry, while the open sequence fits |
| `OscParsing.CarryFitsIff` | src-tauri/src/agent/osc.rs:19-47 | the open sequence fits after every push if and only if the parser holds all of it after every push |
| `OscParsing.AnyTwoCutsAgree` | src-tauri/src/agent/osc.rs:19-47 | two ways of cutting one stream report the same |
| `OscContents.PercentDecode` | src-tauri/src/agent/osc.rs:88-104 | the loop decodes what the specification decodes, or nothing if that is not UTF-8 |
| `OscContents.DecodesIffEncodes` | src-tauri/src/agent/osc.rs:88-113 | decoding gives some bytes if and only if the value is a percent-encoding of them |
| `OscContents.ReportIsUnderstood` | src-tauri/src/agent/osc.rs:50-67 | a reported directory is understood as that directory, whatever encoding of its path was used |
| `OscContents.UnderstoodIffSaid` | src-tauri/src/agent/osc.rs:50-77 | content means an update if and only if it is a command and a payload that say a directory, a title or a status in exactly these forms |
| `OscContents.DirectoryArrives` | src-tauri/src/agent/osc.rs:19-113 | the report of a directory, encoded in any way, ended by either terminator and cut into any chunks, arrives as that directory, once |
| `OscContents.EscapedEncodes` | src-tauri/src/agent/osc.rs:88-113 | every path has an encoding that is decoded to it |
| `OscParsing.OverlongSequenceIsLost` | src-tauri/src/agent/osc.rs:29-32 | a sequence cut while longer than the bound is lost, though one push would report it |
| `ResizePumps.ResizePump.Resize` | src/lib/pty.ts:356-366 | a resize is ignored when disposed or read-only, and otherwise shown and queued |
| `ResizePumps.ResizePump.EnqueueResize` | src/lib/pty.ts:629-640 | the newest size is pending, and a pump is started only if none runs |
| `ResizePumps.ResizePump.FinishResizePump` | src/lib/pty.ts:642-652 | a finished pump is forgotten, and a size that came too late for it gets a successor |
| `ResizePumps.ResizePump.TakePending` | src/lib/pty.ts:656-663 | the pump takes the pending size, or stops |
| `ResizePumps.ResizePump.OnRequestFailed` | src/lib/pty.ts:677-693 | a failure goes on with a newer lease, asks for the canonical size, or stops |
| `ResizePumps.ResizePump.OnListing` | src/lib/pty.ts:714-738 | the listed size is applied unless a size event or another host came in between |
| `ResizePumps.ResizePump.OnSizeChanged` | src/lib/pty.ts:581-607 | a controller that is still asking ignores another size |
| `ResizePumps.AtMostOneInFlight` | src/lib/pty.ts:629-695 | in every run at most one resize request is in flight |
| `ResizePumps.QuietMeansAcknowledgedIff` | src/lib/pty.ts:629-695 | while no request fails and control is kept: once quiet, the size acknowledged last is the one asked for last if and only if no pump took it while there was nobody to send it to |
| `ResizePumps.OfflineResizeIsDropped` | src/lib/pty.ts:656-663 | a run without failure and with control kept in which the size asked for is dropped |
| `ResizePumps.ControllerKeepsItsSize` | src/lib/pty.ts:581-607 | from the start or any request for a size on, a controller with a resize outstanding shows the size asked for last, in every state of the run, if and only if no listing is applied to it with another size and no control comes back to it while another size is outstanding; size events never change what it shows |
| `ResizePumps.ListingMovesController` | src/lib/pty.ts:714-738 | a run in which the listing after lost control moves a controller that has taken control back, no step before having moved it |
| `ResizePumps.RegainedControlMoves` | src/lib/pty.ts:153-171 | a run in which control comes back while an old request is outstanding, and the controller shows another size than it asks for |
| `ResizePumps.PendingIsServedIff` | src/lib/pty.ts:629-652 | from the start or any request for a size on, in every state a controller's pending size has a pump, the only one there is, if and only if control never comes back over a size that was left while it was away |
| `ResizePumps.PendingIsSent` | src/lib/pty.ts:642-663 | a pending size with a pump is sent, over the transport and under the lease of the moment, as soon as the pump gets what it waits for, at most three times |
| `ResizePumps.NoPumpMeansAcknowledgedIff` | src/lib/pty.ts:629-695 | so where no pump runs, the size acknowledged last is the size asked for last if and only if no pump dropped it |
| `ResizePumps.RegainedControlStrands` | src/lib/pty.ts:642-652 | a run in which a pump ends while control is away, control comes back, and nothing sends the pending size |
| `ResizePumps.OutdatedRefusalGoesOn` | src/lib/pty.ts:677-688 | a refusal of an outdated lease makes the pump go on with the pending size under the newest one |
| `ResizePumps.LeaseIsNewest` | src/lib/pty.ts:153-171 | in every run the lease is the one granted last |
| `ResizePumps.WatcherHasNothingPending` | src/lib/pty.ts:153-171 | in every run, once control is lost nothing is pending until it is granted again |
| `ResizePumps.SizeEventShownIff` | src/lib/pty.ts:581-607 | the agent's size event is shown if and only if the client is a watcher, or asks for no other size |
| `ResizePumps.OlderListingIsIgnored` | src/lib/pty.ts:714-738 | in every run, a listing that was asked for before the newest size event that was shown never replaces its size |
| `RemoteHosts.StepKeepsInv` | src/lib/remote-host-manager.ts:23-90 | every step keeps: one known attempt, only the registered transport open, and a host that is paused registered only while an attempt has still to look |
| `RemoteHosts.AtMostOneAttempt` | src/lib/remote-host-manager.ts:23-32 | in every run at most one attempt per profile is in flight |
| `RemoteHosts.PausedStaysClosed` | src/lib/remote-host-manager.ts:127-135 | once a pause has settled, no transport is registered or open, and no timer, event or continuation opens one until the host is resumed |
| `RemoteHosts.PauseOpensAtMostOne` | src/lib/remote-host-manager.ts:127-135 | after a pause at most one more transport is opened: that of the handshake under way |
| `RemoteHosts.PausedIff` | src/lib/remote-host-manager.ts:76-135 | in every run a host is paused if and only if, of the starts, reconnects, pauses, removals and permanent failures so far, the last one was one of the last three: no transient failure pauses it |
| `RemoteHosts.WantedHostsAreTriedIff` | src/lib/remote-host-manager.ts:137-153 | from the first start, connect or reconnect of any run: a host that is wanted by that history is in every state connected, being connected or due to be retried, if and only if no connect joins an attempt that is over while nothing else is left |
| `RemoteHosts.WantedHostConnects` | src/lib/remote-host-manager.ts:34-90 | a wanted host with anything under way is online, over an open and watched transport, after at most eight of its own steps if the network is well |
| `RemoteHosts.RetriesCountFailures` | src/lib/remote-host-manager.ts:137-153 | in every run the count that the delay is taken from is the number of retries scheduled since the last success |
| `RemoteHosts.DueRetryIsRecent` | src/lib/remote-host-manager.ts:137-159 | in every run a retry that is due was scheduled after the last pause, removal or reconnect, and after the last timer that fired |
| `RemoteHosts.ForgottenIff` | src/lib/remote-host-manager.ts:108-135 | in every run a host is to be forgotten if and only if of the removals and resumptions so far the last was a removal |
| `RemoteHosts.NoTargetIsNeverTried` | src/lib/remote-host-manager.ts:34-42 | in every run a host without a target is never connected to |
| `RemoteHosts.ReconnectCanBeLost` | src/lib/remote-host-manager.ts:116-125 | a run from the program's own start in which a reconnect joins an attempt that is closing after a pause, and nothing is left to connect the host |
| `RemoteHosts.RemoteHostManager.ConnectProfile` | src/lib/remote-host-manager.ts:23-43 | a connect joins the attempt in flight, or starts one unless paused |
| `RemoteHosts.RemoteHostManager.ContinueConnected` | src/lib/remote-host-manager.ts:50-75 | a connected attempt undoes itself if the host was paused, and otherwise watches its transport |
| `RemoteHosts.RemoteHostManager.CatchFailure` | src/lib/remote-host-manager.ts:76-89 | a failure pauses the host if it is permanent, and otherwise schedules a retry |
| `RemoteHosts.RemoteHostManager.ScheduleRetry` | src/lib/remote-host-manager.ts:137-153 | a retry is scheduled unless paused or scheduled already |
| `RemoteHosts.RemoteHostManager.DisconnectRemoteWorkspaceHost` | src/lib/workspace-sync.ts:323-332 | disconnecting unregisters and closes the registered transport |
| `RemoteHosts.RemoteHostManager.PauseRemoteHost` | src/lib/remote-host-manager.ts:127-135 | a pause clears the timer and disconnects |
| `RemoteHosts.RemoteHostManager.ReconnectRemoteHost` | src/lib/remote-host-manager.ts:116-125 | a reconnect clears pause and timer, and disconnects first |
| `CellColumns.BuildColumnMap` | src/lib/terminal-cell-columns.ts:46-67 | every offset leads to its cell's first column and every column to its cell's first offset |
| `CellColumns.EndColumn` | src/lib/terminal-cell-columns.ts:83-92 | the exclusive end is the end of the last cell, or one past its first column where the range ends inside it |
| `CellColumns.ColumnInRangeIffCellIs` | src/lib/terminal-cell-columns.ts:94-109 | a column lies in a converted range if and only if its cell holds one of the characters, when the range ends with a cell or inside a narrow one |
| `CellColumns.ColumnInRangeIff` | src/lib/terminal-cell-columns.ts:83-109 | for every range: the first column of a cell lies in the converted range if and only if the cell holds one of the characters, and any further column if and only if the cell's last character is one |
| `CellColumns.EndInsideWideCellIsCut` | src/lib/terminal-cell-columns.ts:83-92 | otherwise the last column of the last cell is lost, for every such range |
| `CellColumns.ThereAndBack` | src/lib/terminal-cell-columns.ts:69-123 | going to a column and back leads to the cell's first offset, and the other way to its first column |
| `CellColumns.ConversionsGrow` | src/lib/terminal-cell-columns.ts:69-123 | both conversions keep the order of positions before, on and behind the row; behind it each offset is one more column |
| `UrlLinks.MapOffset` | src/lib/terminal-url-links.ts:161-174 | an offset is mapped to the last row that begins at or before it |
| `UrlLinks.ComputeUrlLinks` | src/lib/terminal-url-links.ts:88-127 | the loops find the links of every group of joined rows in order |
| `UrlLinks.LinkSpellsUrl` | src/lib/terminal-url-links.ts:106-123 | reading the rows over a link's range spells its URL |
| `UrlLinks.ContainsIffMatched` | src/lib/terminal-url-links.ts:129-159 | a character is inside a link if and only if it is one of the match's |
| `UrlLinks.LinkedIffUrl` | src/lib/terminal-url-links.ts:88-159 | a character of the buffer is inside some link if and only if it is part of a valid URL in the joined text of its rows |
| `UrlLinks.PrintedTextLinkedIff` | src/lib/terminal-url-links.ts:70-127 | a text printed over several rows, wrapped by the terminal or filling the width, between rows of other texts: one of its characters is inside a link if and only if it is part of a valid URL of that text |
| `UrlLinks.CutJoinsBack` | src/lib/terminal-url-links.ts:70-127 | a text cut at the width joins back to itself |
| `UrlLinks.UrlLinkAtPosition` | src/lib/terminal-url-links.ts:137-159 | the first link that contains the position, or none if none does |
| `UrlLinks.LineLinksAreTheBuffers` | src/lib/terminal-url-links.ts:188-244 | scanning one line's group gives the links of a scan of the whole buffer that touch the line |
| `UrlLinks.ComputeTerminalUrlLinks` | src/lib/terminal-url-links.ts:188-244 | the links of one line are those of the whole buffer that touch it, in cells; none for a line outside the buffer |
| `UrlLinks.LinkedColumnIffUrl` | src/lib/terminal-url-links.ts:188-244 | with maps that describe the rows, a terminal position of a line lies in a reported link if and only if: in the first column of its cell, the cell holds a character of a valid URL; in any further column, the cell's last character is one |
| `UrlLinks.LinkedCellsIffUrl` | src/lib/terminal-url-links.ts:188-244 | on a line, lying in a reported link is the same as having a character of a valid URL in one's cell, at all positions, if and only if every wide cell that holds such a character ends with one |
| `ProcessTrees.DescendantsOf` | src-tauri/src/main.rs:577-600 | the worklist ends on any list, cycles included, and returns exactly the entries reachable by parent links, in input order |
| `ProcessTrees.ReturnedIffLinksLeadToRoot` | src-tauri/src/main.rs:576-600 | with distinct pids an entry is returned if and only if following parent links from it leads to the root: the root's own, if and only if they lead back to it |
| `ProcessTrees.RootIsReturned` | src-tauri/src/main.rs:576-600 | a process that is its own parent is returned as its own descendant, and so are two that are each other's parent |
| `ProcessTrees.TmuxIffNamed` | src-tauri/src/main.rs:489-497 | a tmux process is one whose first argument names tmux in some directory, and then nothing or a colon |
| `ProcessTrees.ServerIffTitleOrFlag` | src-tauri/src/main.rs:468-487 | of these the servers are exactly those with a title after the bare name, or the flag -D; all others are clients |
| `ProcessTrees.ServerIsTmux` | src-tauri/src/main.rs:468-497 | a tmux server is a tmux process, so each one is either client or server |
| `ProcessTrees.ProcessTreeWithTmux` | src-tauri/src/main.rs:448-466 | the pane's descendants first; then, if and only if a client is among them, each server's descendants in turn, in input order and without pids already there; so exactly the union, and no pid twice if the input has none twice |
| `ProcessTrees.HoldsExactly` | src-tauri/src/main.rs:448-466 | with distinct pids the returned entries are exactly the wanted ones |
| `CompositionGuards.FindInsertedText` | src/lib/terminal-composition-guard.ts:137-157 | the two loops find the text between common start and common end |
| `CompositionGuards.SpliceLaw` | src/lib/terminal-composition-guard.ts:136-157 | putting the text in place of the part that differs gives the new value, and that part is as small as can be |
| `CompositionGuards.InsertedTextUpToRotation` | src/lib/terminal-composition-guard.ts:136-157 | text inserted anywhere is recovered up to a rotation, and exactly at the end of the value |
| `CompositionGuards.CompositionGuard.BeforeInput` | src/lib/terminal-composition-guard.ts:84-109 | an orphan commit and the echo of a plain key are taken over, nothing else |
| `CompositionGuards.CompositionGuard.Input` | src/lib/terminal-composition-guard.ts:111-123 | what was taken over is restored, and an orphan's text delivered |
| `CompositionGuards.CompositionGuard.CompositionEnd` | src/lib/terminal-composition-guard.ts:125-132 | an end is swallowed unless it matches the recorded start |
| `CompositionGuards.UnmatchedEndsAreSwallowed` | src/lib/terminal-composition-guard.ts:125-132 | after any events, an end reaches xterm if and only if it ends the composition that is open |
| `CompositionGuards.InputIsUndoneIff` | src/lib/terminal-composition-guard.ts:57-123 | after any events an input is undone, and the value put back that was there when it was announced, if and only if it was announced as an orphan commit or as the text of a plain key and no key, composition, focus, input or other announcement has come in between |
| `CompositionGuards.CommitDeliversOnce` | src/lib/terminal-composition-guard.ts:84-132 | an orphan commit is delivered once, leaves the textarea as it was, and its end is swallowed |
| `CompositionGuards.RunsDeliverOnce` | src/lib/terminal-composition-guard.ts:57-134 | over any run of commits, plain keys and compositions the committed texts are delivered once each and in order, exactly the orphan ends are swallowed, and without compositions the textareas end as they began |
| `MessageTranslation.AnthropicFromOpenaiMessages` | src-tauri/src/main.rs:1589-1666 | the loop gives the system prompt and the messages as specified; nothing for a value that is no list |
| `MessageTranslation.NothingLostOrReordered` | src-tauri/src/main.rs:1597-1664 | flattening the translated messages gives every turn and tool result that is not a system message, in order, each with its ids and calls and its content: of tool results and assistant turns the string content, of user turns the content as it is |
| `MessageTranslation.ContentIsKeptIff` | src-tauri/src/main.rs:1608-1657 | two contents of one tool result or assistant turn are told apart in the translation if and only if they differ and one is a string that is not empty; a list of parts is lost |
| `MessageTranslation.ResultsAreMerged` | src-tauri/src/main.rs:1608-1626 | consecutive tool results share one message |
| `MessageTranslation.SystemIsParagraphs` | src-tauri/src/main.rs:1600-1607 | the system prompt is the system texts as paragraphs, after those at the front that are empty |
| `MessageTranslation.AnthropicResponseToOpenaiMessage` | src-tauri/src/main.rs:1709-1747 | the loop collects the text and the tool calls of the blocks |
| `MessageTranslation.AssistantRoundTrip` | src-tauri/src/main.rs:1627-1657 | an assistant turn comes back with its text and its tool calls in order, each of type function, arguments equal as JSON values when they parse, and an empty object when not; empty content comes back as null, and no calls as none |
| `Activity.ActivityIdleDelay` | src/stores/activity-store.ts:87-94 | the time left until 800 ms after the last output, if any is left |
| `Activity.ActivityStore.MarkActivity` | src/stores/activity-store.ts:119-132 | output marks the pane and moves its deadline, or starts its one timer |
| `Activity.ActivityStore.RunTimer` | src/stores/activity-store.ts:101-110 | a timer that fires early for the newest output is armed again, and otherwise drops the pane |
| `Activity.ActivityStore.ClearActivity` | src/stores/activity-store.ts:136-143 | clearing removes the pane from both sets and its timer |
| `Activity.NeverDroppedEarly` | src/stores/activity-store.ts:96-132 | in every run, however late the timers: one timer a pane, active panes have been active before, and none is dropped within 800 ms of its last output |
| `Activity.LazyTimerRefinesRearming` | src/stores/activity-store.ts:83-132 | with timers on time a pane is active if and only if its last output was less than 800 ms ago, as if a timer were armed at every output |
| `Activity.FiringCatchesUp` | src/stores/activity-store.ts:101-110 | a due timer that runs is gone or due in the future, so timers can be on time |
| `Activity.ArmedForDeadline` | src/stores/activity-store.ts:96-132 | every timer that a step sets is due 800 ms after the pane's last output, which is later |
| `Framing.Writer.WriteFrame` | src-tauri/src/remote_protocol.rs:54-67 | a frame is length and payload; nothing is written for a value that cannot be encoded or exceeds 1 MiB, and a sink that fails holds the front of the frame and the error is reported |
| `Framing.Reader.ReadFrame` | src-tauri/src/remote_protocol.rs:71-99 | one value, a clean end, or the error the stream deserves, ended or failing, however few bytes each read returns |
| `Framing.WrittenFramesAreRead` | src-tauri/src/remote_protocol.rs:54-99 | any list of frames is read back whole and in order, and then ends cleanly |
| `Framing.CutIsAnError` | src-tauri/src/remote_protocol.rs:69-99 | a cut inside a frame: the frames before it are read, and then there is an error |
| `Framing.OversizedIffRefused` | src-tauri/src/remote_protocol.rs:88-94 | a header is refused, whatever follows it, if and only if it announces more than 1 MiB |
| `Framing.CleanStreamsAreFrames` | src-tauri/src/remote_protocol.rs:71-99 | a stream that ends cleanly is exactly the frames read from it |
| `Framing.ValueRoundTrip` | src-tauri/src/remote_protocol.rs:54-99 | a value that can be written is read back as itself |
| `Framing.ReadIffFramed` | src-tauri/src/remote_protocol.rs:71-99 | a value is read if and only if the stream begins with the frame of bytes that decode to it; neither value nor error if and only if the stream has ended |

## Left out

- OscParsing.ChunksDoNotMatter: one direction only. A sequence that outgrows the bound may hold another introducer, or have no meaning, and then the reports can still agree.
- ReplayProtocol.EveryRunIsExactlyOnceIff: for one session. A replacement session starts a new run, and the buffer for output that arrives before a listener is attached is not modelled.
- ReplayProtocol.EveryIdleStateIsResumable: the statement about the checkpoint is for attaches that do not overlap; where they do, two listeners can hear one checkpoint.
- ReplayProtocol.StepKeepsInv: a connect that still waits for the parser when its connection is lost is taken as failed; the program lets it attach on the dead connection, and clears the session when that fails. No output is written there.
- RemoteHosts.WantedHostsAreTriedIff: one profile and its own transports. Two profiles that reach the same device appear as a failing handshake, and forgetting a host's workspaces is not modelled.
- SyncProtocol.NoOptimisticStateLeaks: one workspace on one host. A workspace id that is used again after its removal is excluded; `owners`, which maps a workspace to its host, is not modelled.
- WorkspaceInPlace.SplitInPlace: trees are values, so a child is replaced in its list instead of being changed through a reference.
- ResizePumps.OfflineResizeIsDropped: an attach asks for the client's size by itself, which is not part of the pump's model.
- Timestamps.FmtUtcRoundTripIff: the day count is an unbounded integer after the 64-bit cast of the seconds, as no day in range overflows.
- WorkspaceDocuments.SetSizesAcceptedIff: sizes are positive reals; not-a-number, infinity and rounding are not modelled, and sizes need not add up to 100.
- UrlLinks.ComputeTerminalUrlLinks: column maps are given. Harvesting cell widths from a buffer line is not modelled, nor a line number that is not an integer.
- MessageTranslation.AssistantRoundTrip: an assistant turn whose content is a list of parts has no string content, and its parts do not come back; numbers are reals.
- Error messages: a refused operation is a refusal without its text.
- OscContents.UnderstoodIffSaid: how the library cleans a title is a parameter.
- Log files, their rotation and the ring buffer of recent lines: input and output.
- Resuming a session that the agent has lost, journal storage, lease granting and the database: contracts only.
- User interface, rendering, settings, shortcuts, SSH processes, HTTP and editors: foreign internals or one-branch predicates.
