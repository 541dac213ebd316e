# Verified model of the agent-team control plane

A model of the stateful parts of the control plane, with proofs about it.
Objects whose methods update fields in place are classes here, loops are loops, and every
such method is proved against a specification function; what the program promises is then
proved about that function, or about the state machine built from it, for all inputs and all
interleavings.

| Part | Files | Subject |
|---|---|---|
| Workspace hierarchy | `Hierarchy`, `Canvas`, `CanvasRuns`, `CanvasView`, `CanvasStore` | The canvas is a parent-pointer forest changed by guarded drags (optimistic, put back on failure), by removals that re-parent children, and by WebSocket events landing in between; and what it shows: the selection, the order of nodes and edges, each node's data. |
| PII redaction | `Regex`, `Substitution`, `Refinement`, `PiiTable`, `Shapes`, `Redaction` | A backtracking matcher, `re.sub`, the table with what its patterns stand for character by character, and the chain of substitutions over it: no stretch of a listed shape is left, nothing else is touched, and a second run changes nothing. |
| Delegations | `TaskStore`, `Delegation`, `DelegationHistory`, `Delivery` | Background tasks sharing a store with eviction, and what becomes of each as a function of what was reported for it; a poll that writes finished ids to a file; a reader that consumes the file. |
| Responses | `Streaming`, `Temporal` | The append-flag protocol, the terminal message, and the fallback paths of the durable-workflow wrapper. |
| Hot reload | `Watcher` | A snapshot-difference cache with a second scan after a pause. |
| Sessions | `Session` | Retries, and the session id as a function of the whole history of attempts. |
| Files and framing | `SkillsConfig`, `MemoryFile`, `StdioFraming` | Round trips, idempotence, and independence of how the input is cut into chunks. |
| Shared | `Basics`, `Text` | Options and sequences; Python's `strip` and `in` on strings. |

## Findings

Promises that the code does not keep for all inputs, each with the exact condition.

- A failed nest leaves a trace, whatever lands while its request is under way and leaves the
  moved node in place, exactly if its old parent is removed (`NoTraceIff`). If the moved node
  itself is removed, and nothing else, it leaves one exactly if that node has children: they go
  to the new parent (`RemovalInTheWindow`). A drag started while a nest is in flight can close a
  cycle (`DragDuringFlightClosesCycle`), and so can a snapshot loaded while a drag or dialog is
  open: exactly if its guard does not hold in the snapshot (`LoadUnderDialog`,
  `LoadUnderDialogClosesCycle`).
- An execution of the core answers with exactly one terminal message if and only if its request
  has a list of message parts in which every text is a string. Otherwise extracting the text
  raises before the core's `try`, and nothing is emitted (`OneTerminalMessage`). With the
  wrapper, whose own extraction fails for the same reason, the core is run twice, each time
  without a message (`EveryRunIsAnswered`).
- The documentation of `run` (temporal_workflow.py, lines 404-405) says a client always receives
  a response. A run with a workflow that is alone on its task id does, whatever runs with other
  ids do (`AloneIsAnswered`). If its id is registered when it begins it can return without one,
  and otherwise it cannot unless a later run registers an id that is registered
  (`LosesIffRegistered`). Overtaken by a second run that registers its id, it can return without
  one exactly if it has none yet and no core execution for it is in progress
  (`OvertakenLosesIff`).
- A completed delegation lacks its result if and only if a reply with a text part that is not a
  string was posted for it (`ReplyOutcome`, `ResultlessIff`). A delegation whose coroutine has
  ended is left in progress, for ever and never evicted, if and only if one of its posts raised
  an exception other than a connection failure or timeout (`OtherExceptionAbandons`,
  `AbandonedIff`, `AbandonedForEver`).
- Finished delegations are destroyed exactly by a poll that collected fresh ones and then met a
  malformed element or could not write the file, and by a read that took the file and could not
  read it or met a preview that cannot be cut to length, such as a JSON object (`LosesIff`,
  `NothingLostIff`).
- A finished delegation is collected a second time exactly if a poll lists it after the loop has
  forgotten it (`ForgottenComesAgain`, `NoRepeatsIff`), and a list of more than 200, polled
  twice, always brings some a second time (`LongListComesAgain`). The half that eviction keeps
  need not be the most recent one: it may forget the very rows just collected
  (`EvictionMayForgetTheNewest`).
- The heartbeat's memory stays within 200 ids exactly if no poll meets more than 300, or more
  than 200 and a malformed element, which ends the poll before it evicts (`SeenStaysBounded`).
  With a malformed last element in every listing there is no bound (`MalformedTailsFill`).
- A turn of the Claude SDK executor makes an attempt if and only if its prompt and its first
  options can be built, and it answers nothing, without being cancelled, if and only if the prompt
  or the options of the attempt that is due cannot be built (`TurnFacts`). The prompt cannot if
  the results file holds a preview that cannot be cut to length or, without a session, if one of
  the last ten memories is not a JSON object. Results already taken from the file can be dropped
  in this way (`TakenButNotSent`).
- A line on the MCP server's input that is JSON but not an object, or on which the parser raises
  another exception than a decode error (very deep nesting, a very long integer), ends its reading
  loop; later lines are never dispatched (`NonObjectEndsTheLoop`, `AllHandledIff`,
  `OneBadLineEndsTheLoop`).
- A skill directory whose name has surrounding blanks is listed under the trimmed name, or not at
  all if nothing is left, but stored under the name as given (`ListedNameIsTrimmed`).
- Re-installing is idempotent exactly for blocks whose first line is not blank; the blocks
  plugins produce always qualify (`SecondInstallChangesNothing`, `PluginsInstallOnce`).
  Installing again after an uninstall adds the block exactly if no line that stays quotes its
  marker (`ReinstallAddsIff`).

## Model

| member | source | states |
|---|---|---|
| `Hierarchy.LinkKeepsAcyclic` | canvas/src/components/Canvas.tsx:76-85 | hanging a node under a target keeps the hierarchy acyclic if and only if the drag guard holds: the target is neither the node nor below it |
| `Hierarchy.SpliceKeepsAncestors` | canvas/src/store/canvas.ts:189-205 | giving a removed node's children to its parent leaves the transitive closure of parent links among all others exactly as it was |
| `Hierarchy.SpliceKeepsGuard` | canvas/src/store/canvas.ts:189-205 | a drag guard once true survives the removal of any node, the dragged one and the target included |
| `Hierarchy.OldParentStaysGuarded` | canvas/src/store/canvas.ts:153-166 | while a node hangs elsewhere its old parent stays a place to which it can go back without a cycle |
| `Hierarchy.AcyclicWalksEnd` | canvas/src/store/canvas.ts:114-118 | on an acyclic hierarchy every climb along parent links ends |
| `CanvasRuns.NestKeepsForest` | canvas/src/store/canvas.ts:122-148 | the optimistic update keeps unique ids, acyclic parents and hidden-iff-child if and only if it is an extraction, moves an absent node, or passes the guard |
| `CanvasRuns.RemovalKeepsForest` | canvas/src/store/canvas.ts:189-209 | removing any node, present or not, keeps the forest |
| `CanvasRuns.RemovalKeepsTeams` | canvas/src/store/canvas.ts:189-205 | after a removal, who is above whom among the survivors is unchanged, on any list |
| `CanvasRuns.EventKeepsForest` | canvas/src/store/canvas-events.ts:22-246 | every WebSocket event keeps the forest |
| `CanvasRuns.DataEventMovesNothing` | canvas/src/store/canvas-events.ts:23-77 | events other than removals and first arrivals change no id, position, visibility or parent, and only the named node's data |
| `CanvasRuns.StepsKeepGuard` | canvas/src/components/Canvas.tsx:88-120 | over any events, deletions, selections and reads a guard true at drag time is true at confirm time, and the target is still there unless it was itself removed |
| `CanvasRuns.FailedNestLeavesNoTrace` | canvas/src/store/canvas.ts:137-167 | nest, then any steps that remove neither the moved node nor its old parent, then the revert, gives the very state those steps give alone, interleaved data updates included |
| `CanvasRuns.RemovalInTheWindow` | canvas/src/store/canvas.ts:150-167 | for a single removal during the request, of any node, the failed nest leaves no trace if and only if the old parent stays and the moved node, if it goes, has no children |
| `CanvasRuns.NoTraceIff` | canvas/src/store/canvas.ts:150-167 | for any steps during the request that leave the moved node in place, the failed nest leaves no trace if and only if none of them removes the old parent |
| `CanvasRuns.RunsStayForests` | canvas/src/store/canvas.ts:122-214 | in every run of drags, confirmations, extractions, request outcomes, deletions, events and snapshot loads, one nest at a time, every state is a forest and every open drag, dialog and way back is still guarded |
| `CanvasRuns.SnapshotIsForest` | canvas/src/store/canvas-topology.ts:8-43 | a loaded snapshot has one node for each row, in order, with its place and data, hidden exactly if it has a parent, and no edges; it is a forest exactly when its ids are unique and its parents acyclic |
| `CanvasRuns.LoadUnderDialog` | canvas/src/components/Canvas.tsx:115-120 | after a load under an open dialog, confirming keeps the forest if and only if the guard holds in the snapshot |
| `CanvasRuns.LoadUnderDialogClosesCycle` | canvas/src/components/Canvas.tsx:115-120 | for any two nodes there is a forest snapshot after whose load confirming makes a cycle |
| `CanvasRuns.DragDuringFlightClosesCycle` | canvas/src/components/Canvas.tsx:76-120 | in every forest: extract a child, take it as the target for its old parent, let the extraction fail, and confirming makes a cycle although the guard was true |
| `CanvasRuns.MessagesAreConserved` | canvas/src/store/canvas.ts:91-99 | over any steps, messages waiting plus arriving equal messages handed out plus still waiting, in order, per workspace |
| `CanvasView.RemovalTakes` | canvas/src/store/canvas.ts:189-209 | a removal takes exactly the nodes with the id and the edges at it and leaves the others in their order; its children come under its parent, visible if there is none; nothing else of a node changes, and no message |
| `CanvasView.NestTakes` | canvas/src/store/canvas.ts:131-148 | the optimistic update takes exactly the edges at the moved node and sets that node's parent and visibility; the order, the other nodes, the selection and the messages stay |
| `CanvasView.SelectionStays` | canvas/src/store/canvas.ts:207 | over any steps without a new choice the selection is empty if one of them removes the selected node, and otherwise what it was |
| `CanvasView.SelectionIs` | canvas/src/store/canvas.ts:85 | after any steps the selection is the last choice made, unless its node was removed since |
| `CanvasView.RemovedIsNotSelected` | canvas/src/store/canvas-events.ts:153 | after the step that removes a node that node is not selected, and the selection changes only if it was |
| `CanvasView.SelectionNamesNode` | canvas/src/store/canvas.ts:207 | as long as only nodes that are there are chosen, a selection names a node at every time |
| `CanvasView.DataShown` | canvas/src/store/canvas-events.ts:22-227 | over any steps that leave a node in place, its status, task, task count, error, error rate, card and restart flag are each what the last event that sets it set, and its other data but the parent stay |
| `CanvasView.ArrivalShows` | canvas/src/store/canvas-events.ts:91-117 | a node that arrives stands last in the list, as a visible root on the diagonal, with the stock name and tier where the event lacks them |
| `CanvasStore.Store.Hydrate` | canvas/src/store/canvas.ts:211-214 | replaces nodes and edges by those of the snapshot and nothing else |
| `CanvasStore.Store.ConsumeAgentMessages` | canvas/src/store/canvas.ts:91-99 | returns the waiting messages and forgets them |
| `CanvasStore.Store.RemoveNode` | canvas/src/store/canvas.ts:189-209 | the whole new state of a removal, which empties the selection exactly if the removed node was selected |
| `CanvasStore.Store.ApplyEvent` | canvas/src/store/canvas-events.ts:10-247 | the whole new state for every event, and for a removal event the same state as `removeNode`; the selection changes only if the selected node is removed, and then it is empty |
| `CanvasStore.Store.NestNode` | canvas/src/store/canvas.ts:122-148 | does nothing when the parent is already the target; otherwise makes the optimistic update and keeps what the revert needs |
| `CanvasStore.Store.NestFailed` | canvas/src/store/canvas.ts:153-167 | puts parent, visibility and edges back on whatever the store holds by then |
| `CanvasStore.Store.IsDescendant` | canvas/src/store/canvas.ts:112-120 | whenever the climb ends at all (always on a forest) the loop ends and decides the transitive closure of parent links |
| `CanvasStore.DragTarget` | canvas/src/components/Canvas.tsx:76-85 | finds the first intersecting node that passes the guard, or none if none does, whenever the walks it makes end |
| `CanvasStore.CountFrom` | canvas/src/components/WorkspaceNode.tsx:274-283 | the recursion ends on every list, cyclic ones included; it visits the node and all below it not visited before, and counts the list entries with a newly visited parent |
| `CanvasStore.CountDescendants` | canvas/src/components/WorkspaceNode.tsx:274-283 | with unique ids, cyclic or not, the count is the size of the set of nodes having the given one as a proper ancestor |
| `Regex.MatcherDecides` | workspace-template/builtin_tools/compliance.py:249-264 | the backtracking matcher finds a match at a position if and only if some stretch from there is a word of the pattern between word boundaries, and what it finds is one |
| `Regex.FirstBranchIsPreferred` | workspace-template/builtin_tools/compliance.py:256-257 | of several matches at a position it finds the one of the first alternative that has any, and there the one that repeats the earlier parts the most |
| `Substitution.FindFromIsLeftmost` | workspace-template/builtin_tools/compliance.py:292 | the next match found is a match and none starts before it |
| `Substitution.SubLeavesNoMatch` | workspace-template/builtin_tools/compliance.py:292 | substituting a pattern leaves no match of it and creates none of any other, for all patterns that hold no token delimiter and do not fit inside a token |
| `Substitution.SubChangesIffMatch` | workspace-template/builtin_tools/compliance.py:292-293 | the text changes if and only if it held a match |
| `Refinement.SubRefinesCuts` | workspace-template/builtin_tools/compliance.py:291-298 | a later substitution never cuts through an earlier token: it cuts the kept parts of the original text further, at word boundaries of the original |
| `Refinement.EdgesMakeMatches` | workspace-template/builtin_tools/compliance.py:249-264 | replaced parts that stood between word boundaries of the original are matches in it if and only if they are words of their patterns |
| `PiiTable.TableIsSane` | workspace-template/builtin_tools/compliance.py:249-264 | every pattern of the table has the properties the general theorems need |
| `Shapes.CardIs` | workspace-template/builtin_tools/compliance.py:250-251 | a text is a word of the card pattern if and only if it has 19 characters, blanks or dashes at 4, 9 and 14 and digits elsewhere |
| `Shapes.SsnIs` | workspace-template/builtin_tools/compliance.py:252-253 | of the social security pattern: 11 characters, dashes at 3 and 6 and digits elsewhere |
| `Shapes.KeyIs` | workspace-template/builtin_tools/compliance.py:254-255 | of the first key pattern: "sk-" and at least 32 key characters |
| `Shapes.SecretIs` | workspace-template/builtin_tools/compliance.py:256-257 | of the second key pattern: one of six prefixes in any case, a dash or underscore, and at least 20 key characters, letters beyond ASCII that fold to one included |
| `Shapes.AwsIs` | workspace-template/builtin_tools/compliance.py:258-259 | of the AWS pattern: "AKIA" and 16 capitals or digits |
| `Shapes.GithubIs` | workspace-template/builtin_tools/compliance.py:260-261 | of the GitHub pattern: "ghp_" and 36 letters or digits |
| `Shapes.EmailIs` | workspace-template/builtin_tools/compliance.py:262-263 | of the e-mail pattern: an at sign with a local part before it, and behind it a domain, a dot and at least two letters |
| `Shapes.TableIs` | workspace-template/builtin_tools/compliance.py:249-264 | the words of the table's patterns of a kind are exactly the texts of that kind's shapes |
| `Shapes.MatchesAre` | workspace-template/builtin_tools/compliance.py:249-264 | a stretch matches a pattern of a kind if and only if it has a shape of that kind and a word begins or ends at each of its ends |
| `Redaction.RedactPii` | workspace-template/builtin_tools/compliance.py:267-299 | the loop computes the chain of substitutions; no stretch of its result between word boundaries has a shape of the table, the types come in table order, and none is reported exactly when the text is unchanged |
| `Redaction.NoShapeRemains` | workspace-template/builtin_tools/compliance.py:267-299 | no stretch of the output between word boundaries looks like a card number, a social security number, a key, a token or an e-mail address, character by character |
| `Redaction.RedactionIsIdempotent` | workspace-template/builtin_tools/compliance.py:267-299 | a second run returns the text unchanged with an empty list of types |
| `Redaction.OnlyShapesAreReplaced` | workspace-template/builtin_tools/compliance.py:267-299 | the output is the original text with stretches between word boundaries, each of the shape of its kind, replaced by "[REDACTED:kind]" and all else verbatim and in order; the types are those kinds, each once |
| `Redaction.UntouchedIffClean` | workspace-template/builtin_tools/compliance.py:276-279 | the text comes back unchanged, with no types, if and only if no stretch of it between word boundaries has a shape of the table |
| `Redaction.TypesAreListed` | workspace-template/builtin_tools/compliance.py:289-298 | the types come in the order of the table, each at most once |
| `Redaction.SsnIsRedacted` | workspace-template/builtin_tools/compliance.py:252-253 | a text that is a social security number becomes "[REDACTED:ssn]" with the one type "ssn" |
| `TaskStore.DropsOldest` | workspace-template/builtin_tools/delegation.py:68-73 | eviction takes all finished tasks up to some age and nothing younger, exactly as many as asked for if there are that many, and no unfinished one |
| `TaskStore.EvictedSize` | workspace-template/builtin_tools/delegation.py:63-73 | up to 100 tasks all stay; of more, eviction leaves exactly 100, or as many as are unfinished if those are more |
| `TaskStore.EvictsOldest` | workspace-template/builtin_tools/delegation.py:63-73 | what goes is exactly the finished tasks up to some place of the store, none if the store holds at most 100 |
| `TaskStore.DropKeepsOrder` | workspace-template/builtin_tools/delegation.py:68-73 | what eviction leaves stands in the old order |
| `Delegation.LookupSucceeds` | workspace-template/builtin_tools/delegation.py:144-145 | in every reachable state the lookup with which a background task starts finds its delegation, still pending |
| `Delegation.StoreInEveryRun` | workspace-template/builtin_tools/delegation.py:142-311 | over every interleaving of dispatches and background steps the store never exceeds the larger of 100 and the peak number of unfinished tasks and stays in dispatch order; failed tasks and no others carry an error; a completed task carries a result exactly unless its coroutine died |
| `Delegation.DispatchEvicts` | workspace-template/builtin_tools/delegation.py:300-307 | over every run, a dispatch takes no task while fewer than 100 are stored; otherwise it leaves the larger of 100 and the unfinished ones, and takes exactly the finished tasks up to some place in dispatch order, so that each that goes is older than each finished one that stays |
| `Delegation.BudgetInEveryRun` | workspace-template/builtin_tools/delegation.py:190-266 | in every run a background task makes at most N posts, sleeps at most delay times N(N-1)/2, and sends at most one completion notice |
| `DelegationHistory.CountsInEveryRun` | workspace-template/builtin_tools/delegation.py:190-266 | in every run a task has slept k units after each k-th post that failed to connect and left attempts, and has sent a completion notice exactly if it is past that point, no discovery failed and no answer was invalid JSON |
| `DelegationHistory.OutcomeInEveryRun` | workspace-template/builtin_tools/delegation.py:142-267 | in every run a finished task stands as its last report says: a completed one has the texts of its reply one to a line, or its whole rendering, or no result if a text is not a string; a failed one has the reason, and after the last attempt the last error message that came, or "None" |
| `DelegationHistory.DescribedInEveryRun` | workspace-template/builtin_tools/delegation.py:300-307 | in every run each stored task has the workspace and the first 200 characters of the text it was dispatched with |
| `Delegation.StepOnlyTouches` | workspace-template/builtin_tools/delegation.py:142-267 | a step of one background task changes nothing about any other task or coroutine |
| `Delegation.StepMovesForward` | workspace-template/builtin_tools/delegation.py:142-267 | every step moves a status from pending to in progress, from in progress to completed or failed, or not at all; a finished task never changes, and only finished tasks disappear |
| `Delegation.StatusInEveryRun` | workspace-template/builtin_tools/delegation.py:142-267 | between any two states of any run a status only moves forward, a finished task keeps every field, and a task that is gone was finished in between |
| `Delegation.ReplyOutcome` | workspace-template/builtin_tools/delegation.py:223-247 | a reply completes the task, with a result if and only if it has no text part or all of them are strings |
| `Delegation.ResultlessIff` | workspace-template/builtin_tools/delegation.py:142-267 | in every run a stored completed task lacks its result if and only if a reply with a text part that is not a string was posted for it |
| `Delegation.OtherExceptionAbandons` | workspace-template/builtin_tools/delegation.py:191-257 | a step leaves a task in progress with a dead coroutine if and only if it is a post that raised another exception |
| `Delegation.AbandonedIff` | workspace-template/builtin_tools/delegation.py:142-267 | in every run a stored task whose coroutine has ended is unfinished if and only if one of its posts raised such an exception |
| `Delegation.AbandonedForEver` | workspace-template/builtin_tools/delegation.py:63-73 | no later step finishes or evicts such a task |
| `Delegation.DelegationStore.ListFinished` | workspace-template/builtin_tools/delegation.py:68-71 | lists the ids of the finished tasks, oldest first |
| `Delegation.DelegationStore.EvictOldDelegations` | workspace-template/builtin_tools/delegation.py:63-73 | deleting by id in a loop leaves exactly what the eviction function says: all of up to 100 tasks, else the larger of 100 and the unfinished ones |
| `Delegation.DelegationStore.Store` | workspace-template/builtin_tools/delegation.py:300-307 | appends the pending task with the first 200 characters of its description, then evicts |
| `Delegation.DelegationStore.ExecuteDelegation` | workspace-template/builtin_tools/delegation.py:142-182 | the coroutine's code, run while nothing else moves, leaves the store that a run of the state machine on the same answers leaves, from the first step to the last |
| `Delegation.DelegationStore.SendWithRetry` | workspace-template/builtin_tools/delegation.py:190-267 | the retry loop, with its returns, break and continue, and the lines after it take exactly the state machine's steps on the posts' answers, in order |
| `Delivery.ExactlyOnce` | workspace-template/heartbeat.py:147-177 | over any interleaving of polls and reads without exceptions and with at most 200 distinct finished ids, the records prompted followed by those in the file are one for each finished id ever listed, each once: they stand, in that order, at exactly the places of all listings put together where a finished id is first shown |
| `Delivery.CollectsInOrder` | workspace-template/heartbeat.py:147-166 | a poll collects exactly the rows, before any malformed element, that show a finished id not seen before for the first time, in the order of the listing, each with its own fields |
| `Delivery.PollCollectsInOrder` | workspace-template/heartbeat.py:147-177 | in any run each poll adds those records behind the ones collected before, in the order of its listing, and a read adds none |
| `Delivery.RunAccounts` | workspace-template/heartbeat.py:147-177 | with failures too: up to 200 ids nothing comes twice, and prompted plus waiting is what was collected, in order, except the records an exception destroyed |
| `Delivery.LosesIff` | workspace-template/executor_helpers.py:149-174 | a step destroys records if and only if it is a poll that found a finished unseen row and then met a malformed element or could not write the file, or a read that took a file with records and could not read it or format a preview |
| `Delivery.NothingLostIff` | workspace-template/heartbeat.py:147-177 | over every run nothing is destroyed if and only if no step is of such a kind |
| `Delivery.AtLeastOnce` | workspace-template/heartbeat.py:147-177 | without exceptions, and with any number of ids and evictions, every finished delegation ever listed was prompted or is in the file |
| `Delivery.ForgottenComesAgain` | workspace-template/heartbeat.py:152-171 | a poll collects something a second time if and only if it lists, before any malformed element, a finished delegation collected before and since forgotten |
| `Delivery.NoRepeatsIff` | workspace-template/heartbeat.py:152-171 | over every run nothing is collected twice if and only if no poll does so |
| `Delivery.LongListComesAgain` | workspace-template/heartbeat.py:168-171 | whatever hundred ids eviction takes, a well-formed list of more than 200 finished delegations, polled twice, brings some a second time |
| `Delivery.EvictionMayForgetTheNewest` | workspace-template/heartbeat.py:168-171 | whenever a poll with at most a hundred fresh rows evicts, it may evict exactly those rows, so that the next poll collects them again |
| `Delivery.LeavesTooManyIff` | workspace-template/heartbeat.py:147-171 | a poll leaves more than 200 ids if and only if it meets more than 300 in all, or more than 200 and a malformed element |
| `Delivery.SeenStaysBounded` | workspace-template/heartbeat.py:147-171 | over every run the remembered set stays within 200 if and only if no poll does that |
| `Delivery.HundredAtATime` | workspace-template/heartbeat.py:168-171 | over every run of well-formed listings that bring at most 100 fresh ids each it stays within 200 |
| `Delivery.MalformedTailsFill` | workspace-template/heartbeat.py:148-171 | n polls of one fresh row and a malformed element each make it hold n ids |
| `Delivery.SentBetween` | workspace-template/heartbeat.py:231-235 | over every run, whatever the clock does, self-messages i and j are at least 60 (j - i) seconds apart |
| `Delivery.SendsIff` | workspace-template/heartbeat.py:173-235 | in any run a step sends a self-message if and only if it is a poll without malformed elements that finds a fresh row, can write the file, can cut the texts of every first fresh row to length, and comes at least 60 seconds after the last one |
| `Delivery.WindowHoldsFew` | workspace-template/heartbeat.py:231-235 | over every run a window of W seconds holds at most floor(W/60) + 1 self-messages |
| `Delivery.HeartbeatLoop.CollectNew` | workspace-template/heartbeat.py:147-166 | the loop over the list: the records of the first fresh rows, in the order of the list, each id remembered before its record is kept; it ends early exactly if an element is malformed |
| `Delivery.HeartbeatLoop.EvictSeen` | workspace-template/heartbeat.py:168-171 | keeps all ids, or all but a hundred arbitrary ones when they are more than 200 |
| `Delivery.HeartbeatLoop.CheckDelegations` | workspace-template/heartbeat.py:134-235 | one poll as the step relation says; a self-message is sent exactly when records were written, all can be summarised, and the cool-down is over |
| `Delivery.HeartbeatLoop.ReadDelegationResults` | workspace-template/executor_helpers.py:137-174 | takes the file away and returns its records, or nothing if there is no file, or it cannot be renamed or read, or raises on a preview it cannot cut to length |
| `Streaming.ClientSeesTheText` | workspace-template/a2a_executor.py:291-333 | for every event stream, alternating run ids included, each artifact's first chunk and no other has append=false, and a client folding the chunks and joining artifacts in order of first appearance has exactly the text of the stream: that of all its text blocks and strings that are not empty, verbatim, at increasing places |
| `Streaming.ChunkTextsPick` | workspace-template/a2a_executor.py:122-154 | what is taken from a chunk are the texts of exactly the text blocks and strings that are not empty, verbatim, at increasing places of the list; a plain string yields itself unless empty, other content nothing |
| `Streaming.EventSends` | workspace-template/a2a_executor.py:296-333 | each event sends the chunks of its texts behind those sent before, to the artifact whose number is how often the run id has switched up to then |
| `Streaming.FirstChunksOpen` | workspace-template/a2a_executor.py:316-332 | for every event stream a chunk has append=true if and only if an earlier chunk is of the same artifact |
| `Streaming.OneTerminalMessage` | workspace-template/a2a_executor.py:198-409 | an execution emits exactly one terminal message, and last, if and only if the request has a list of parts in which every text is a string; otherwise nothing at all |
| `Streaming.FinalMessage` | workspace-template/a2a_executor.py:357-388 | the final text of a stream that ends is not empty; redacted, nothing in it has a shape of the redaction table; unredacted, it is the strip of what a streaming client shows, or the stock phrase |
| `Streaming.AnswerIs` | workspace-template/a2a_executor.py:282-409 | a readable request with a text that is not blocked gets the start signal, the chunks and, last, the text it returns, or the error that ended its stream or its preparation, and then returns nothing |
| `Streaming.MessageTextIs` | workspace-template/adapters/shared_runtime.py:27-34 | the text of a request is its texts that are not empty, verbatim and in order, with a space between any two, stripped |
| `Streaming.StreamTokens` | workspace-template/a2a_executor.py:291-333 | the streaming loop puts exactly the specified chunks on the queue and accumulates the texts of exactly the text blocks and strings that are not empty, in order |
| `Streaming.ExecuteStream` | workspace-template/a2a_executor.py:282-405 | the queue gets the start signal, the chunks, and the final or the error message |
| `Streaming.CoreExecute` | workspace-template/a2a_executor.py:198-409 | the queue gets exactly the specified events for every kind of request; it raises exactly if the text cannot be extracted; the result is the final text, or empty |
| `Text.TrimIs` | workspace-template/a2a_executor.py:358 | for any notion of a blank, trimming takes away all blanks at both ends and nothing else |
| `Text.StripIs` | workspace-template/a2a_executor.py:358 | stripping takes away all blanks at both ends and nothing else |
| `Temporal.BeginKeepsInv` | workspace-template/builtin_tools/temporal_workflow.py:412-450 | a run may begin with any task id unless it would register one that is registered |
| `Temporal.EveryRunIsAnswered` | workspace-template/builtin_tools/temporal_workflow.py:383-476 | while no run registers a registered id: the registry holds exactly the ids of runs between registration and return; a run that returned got a message if and only if its request can be read; a readable one gets a message for each core execution; an unreadable one had the core tried once, or twice around the wrapper, without any |
| `Temporal.CallsFindTheirRun` | workspace-template/builtin_tools/temporal_workflow.py:165-181 | in every reachable state an activity for a run that has not returned writes to that run's own queue; one that comes too late serves nobody unless a later run has the id |
| `Temporal.LosesIffRegistered` | workspace-template/builtin_tools/temporal_workflow.py:444-476 | as long as no later run registers a registered id: a run with a workflow may return without any message, with none on its way, if and only if its task id is registered when it begins |
| `Temporal.AloneIsAnswered` | workspace-template/builtin_tools/temporal_workflow.py:444-476 | in every run of the system, whatever ids other runs register twice: a run with a workflow has a message when it returns if no other such run of its id is in flight when it begins and none begins before it returns |
| `Temporal.OvertakenLosesIff` | workspace-template/builtin_tools/temporal_workflow.py:444-476 | a second run that registers the id of a run in its workflow can make that run return without a message if and only if it has none yet and no core execution for it is in progress |
| `Temporal.IdleIffUnregistered` | workspace-template/builtin_tools/temporal_workflow.py:444-476 | in a state reached by free steps no run of an id is in flight if and only if the id is not registered |
| `Temporal.TemporalWorkflowWrapper.AwaitWorkflow` | workspace-template/builtin_tools/temporal_workflow.py:452-476 | the workflow's activities and the fallback after it send one terminal message for each core execution, at least one |
| `Temporal.TemporalWorkflowWrapper.RunTask` | workspace-template/builtin_tools/temporal_workflow.py:383-476 | the code of a run, while no other run moves, takes the state machine's steps whichever fallback fires, takes its id out of the registry whoever registered it, puts the counted messages on the queue, and raises exactly if the message cannot be read |
| `Temporal.TemporalWorkflowWrapper.Execute` | workspace-template/a2a_executor.py:168-196 | the executor runs the core itself without a wrapper, or after an exception left it; the messages on the queue are those of the state machine |
| `Watcher.TickKeepsInStep` | workspace-template/skill_loader/watcher.py:140-158 | whatever the disk does between the two scans, a tick keeps the baseline in agreement with what each watched skill was last reloaded from |
| `Watcher.AlwaysInStep` | workspace-template/skill_loader/watcher.py:81-158 | so it is after every tick of every run |
| `Watcher.RestingDiskSettles` | workspace-template/skill_loader/watcher.py:140-158 | over a disk at rest one tick reloads exactly the skills whose last reload saw something else, makes the baseline agree with the disk, and the next tick reloads nothing |
| `Watcher.ReloadsAreDue` | workspace-template/skill_loader/watcher.py:124-158 | every reload is of a watched skill that looks different from its last reload, in exactly the paths reported, an unreadable file looking like an absent one |
| `Watcher.ScanSees` | workspace-template/skill_loader/watcher.py:110-122 | a scan has exactly the files of the watched skills, in any directory, whose own name does not start with a dot, with their hashes |
| `Watcher.ScanIgnores` | workspace-template/skill_loader/watcher.py:110-122 | disks that differ only in hidden files or in skills that are not watched look the same |
| `Watcher.SkillsWatcher.constructor` | workspace-template/skill_loader/watcher.py:81-84 | the first scan is the first baseline |
| `Watcher.SkillsWatcher.Scan` | workspace-template/skill_loader/watcher.py:110-122 | maps exactly the visible files of the watched skills present on the disk to their hashes |
| `Watcher.SkillsWatcher.ChangedSkills` | workspace-template/skill_loader/watcher.py:124-138 | reports exactly the watched skills that look different, each with exactly its differing paths, each once |
| `Watcher.SkillsWatcher.TickOnce` | workspace-template/skill_loader/watcher.py:140-158 | returns at once if nothing differs; otherwise commits the second scan and reloads what differs by then |
| `Session.SessionAfterMeans` | workspace-template/claude_sdk_executor.py:281-299 | the id a history calls for is that of the last success that returned one with no subprocess failure after it, and none otherwise |
| `Session.OutcomeIs` | workspace-template/claude_sdk_executor.py:206-236 | a stream that ends comes to the result of its last result message or, if there is none, to all assistant texts in order, and to the last session id that is not empty |
| `Session.TurnFacts` | workspace-template/claude_sdk_executor.py:301-360 | a turn makes an attempt if and only if its prompt and first options can be built, at most three, and waits 5 seconds before the second and 10 before the third; it tries again exactly after a transient failure that was not the third; it ends as its last attempt does, with its text or the stock phrase, or with the type of its exception and nothing else of it, unless the prompt or the next options cannot be built, and then, and only then, with an exception |
| `Session.TakenButNotSent` | workspace-template/claude_sdk_executor.py:313-319 | delegation results taken from their file reach no attempt if and only if they can be formatted and then the memories cannot or the first options cannot be built |
| `Session.ResumeFollowsHistory` | workspace-template/claude_sdk_executor.py:199 | over whole runs of turns every attempt resumes exactly the id the history before it calls for |
| `Session.LockKeepsTheChain` | workspace-template/claude_sdk_executor.py:253-254 | turns whose own code only waits for the lock: however they interleave, no two are inside, a stream is active only for the lock's holder, and all attempts still form one such chain |
| `Session.ClaudeSDKExecutor.RunQuery` | workspace-template/claude_sdk_executor.py:206-236 | prefers the last result over the assistant's text and takes the last session id; no stream is left active, and the stored id is untouched |
| `Session.ClaudeSDKExecutor.TryOnce` | workspace-template/claude_sdk_executor.py:319-336 | one attempt changes the stored id as the history function says |
| `Session.ClaudeSDKExecutor.ExecuteLocked` | workspace-template/claude_sdk_executor.py:301-360 | reads the results file, builds the prompt and runs the retry loop: exactly the specified attempts, waits and ending |
| `Session.ClaudeSDKExecutor.TryAgain` | workspace-template/claude_sdk_executor.py:318-353 | the retry loop, with the options built outside its inner `try`, makes exactly the specified attempts, waits and ending |
| `SkillsConfig.ReplaceThenParse` | platform/cmd/cli/cmd_agent_skill.go:241-269 | parsing after replacing returns exactly the list written, duplicate or non-sequence `skills` keys included |
| `SkillsConfig.ParseFinds` | platform/cmd/cli/cmd_agent_skill.go:241-269 | parsing a top-level mapping gives the values of its first `skills` entry that is a list, in order, or none |
| `SkillsConfig.ReplaceTouchesOnlyTheList` | platform/cmd/cli/cmd_agent_skill.go:444-488 | replacing succeeds exactly on a top-level mapping; every other key and value keeps its place and content; a missing list is added at the end |
| `SkillsConfig.LastReplaceWins` | platform/cmd/cli/cmd_agent_skill.go:444-488 | two replacements are the second one alone |
| `SkillsConfig.UpsertMeans` | platform/cmd/cli/cmd_agent_skill.go:490-518 | the flag tells whether the list changed, a change adds or removes exactly the trimmed name, and no duplicate comes in |
| `SkillsConfig.UpsertKeepsOrder` | platform/cmd/cli/cmd_agent_skill.go:503-518 | a new name comes last, and a removal leaves the other names in their order |
| `SkillsConfig.TrimIs` | platform/cmd/cli/cmd_agent_skill.go:491 | trimming takes away all blanks at both ends and nothing else |
| `SkillsConfig.AddThenRemove` | platform/cmd/cli/cmd_agent_skill.go:74-137 | adding an absent skill and removing it again, through the file each time, restores the list and leaves every other entry alone |
| `SkillsConfig.ListedNameIsTrimmed` | platform/cmd/cli/cmd_agent_skill.go:308-328 | after an install the directory's name is in the list if and only if it was before or is not empty and has no surrounding blanks; its trimmed name is, unless empty |
| `SkillsConfig.ParseSkillsFromConfig` | platform/cmd/cli/cmd_agent_skill.go:241-269 | the loop returns the values of the first `skills` entry that is a sequence, an empty list for other documents, an error only for text that is not YAML |
| `SkillsConfig.ReplaceSkillsInConfig` | platform/cmd/cli/cmd_agent_skill.go:444-488 | the loops turn the first `skills` value into the new list, or append the pair |
| `SkillsConfig.UpsertSkill` | platform/cmd/cli/cmd_agent_skill.go:490-518 | the loops compute the specified list and flag |
| `SkillsConfig.Workspace.InstallSkill` | platform/cmd/cli/cmd_agent_skill.go:302-341 | on success all files and the new list are there; on any failure the list is as before; files of others are untouched |
| `MemoryFile.AppendKeepsPrefix` | workspace-template/adapters/base.py:118-130 | an install keeps the old text as a prefix; what it adds begins on a fresh line, is the content, and ends its last line, a newline being put in on either side only where one is missing |
| `MemoryFile.AppendsIff` | workspace-template/adapters/base.py:119-125 | the content is added if and only if there is no file, its marker is blank, or the marker stands nowhere in the file |
| `MemoryFile.MarkerIs` | workspace-template/adapters/base.py:118 | the marker is the text up to the first line boundary without the blanks at its ends |
| `MemoryFile.InstalledBlocksStand` | workspace-template/plugins_registry/builtins.py:117-136 | after an install that adds a plugin's text every rule and every fragment stands in the file under its heading, rules first, in order, an empty line between any two |
| `MemoryFile.SecondInstallChangesNothing` | workspace-template/adapters/base.py:109-131 | installing any list of blocks again changes nothing if and only if every block starts with a line that is not blank |
| `MemoryFile.PluginsInstallOnce` | workspace-template/adapters/base.py:154-167 | installing a whole plugin list twice leaves the file as installing it once |
| `MemoryFile.UninstallRemovesMarkedLines` | workspace-template/plugins_registry/builtins.py:204-213 | read again after an uninstall, the file has exactly the lines that do not start with the plugin's marker, at increasing places; a second uninstall changes nothing |
| `MemoryFile.ReinstallAddsIff` | workspace-template/plugins_registry/builtins.py:201-213 | installing a plugin again after its uninstall adds its block if and only if no line that stays contains the block's marker |
| `MemoryFile.LinesReadBack` | workspace-template/plugins_registry/builtins.py:209-212 | lines joined and written are read back as the same lines |
| `MemoryFile.Memory.AppendToMemoryHook` | workspace-template/adapters/base.py:109-131 | the new file content, or no change when the marker is there |
| `MemoryFile.Memory.Install` | workspace-template/plugins_registry/builtins.py:117-136 | appends one block made of all rules and fragments, or nothing for a plugin without any |
| `MemoryFile.Memory.InstallAll` | workspace-template/adapters/base.py:154-167 | the plugins' blocks in the order of the list |
| `MemoryFile.Memory.Uninstall` | workspace-template/plugins_registry/builtins.py:204-213 | rewrites the file only if some line goes |
| `Text.ContainsMeans` | workspace-template/adapters/base.py:123 | the substring test holds if and only if the part occurs at some place |
| `Text.GlueHolds` | workspace-template/builtin_tools/delegation.py:237 | joined texts stand one after the other with the separator between any two and nothing else |
| `StdioFraming.SplitMeans` | workspace-template/a2a_mcp_server.py:232-234 | the lines and the rest, glued with newlines, are the text, and none of them holds a newline |
| `StdioFraming.RequestsPick` | workspace-template/a2a_mcp_server.py:234-236 | the requests are the lines that are not all blank, in order, without the blanks at their ends |
| `StdioFraming.ChunkingIsIrrelevant` | workspace-template/a2a_mcp_server.py:224-289 | for every split of a character stream into chunks the lines dispatched are the non-blank complete lines of the whole, in order, up to the first whose handling raises; without one the loop goes on and the unfinished rest waits in the buffer (Model Context Protocol 2024-11-05, "Transports", stdio) |
| `StdioFraming.HandledMeans` | workspace-template/a2a_mcp_server.py:226-289 | what is dispatched is the front of the requests up to the first that raises, all of them if and only if none but the last does |
| `StdioFraming.AllHandledIff` | workspace-template/a2a_mcp_server.py:238-244 | as long as handling objects does not raise, all requests are dispatched if and only if none but the last is JSON other than an object or makes the parser raise another exception than a decode error |
| `StdioFraming.NonObjectEndsTheLoop` | workspace-template/a2a_mcp_server.py:238-289 | a line that is JSON other than an object, or on which the parser raises another exception than a decode error, ends the loop, whatever the handlers do: no later line is dispatched |
| `StdioFraming.OneBadLineEndsTheLoop` | workspace-template/a2a_mcp_server.py:238-289 | after a line holding just a number the next line is never dispatched |
| `StdioFraming.FindNewline` | workspace-template/a2a_mcp_server.py:232 | finds the first newline, or none if there is none |
| `StdioFraming.Server.Feed` | workspace-template/a2a_mcp_server.py:230-289 | one chunk takes complete lines off the buffer and dispatches the non-blank ones, all of them or up to the first that raises |
| `StdioFraming.Server.Serve` | workspace-template/a2a_mcp_server.py:225-289 | feeds the chunks up to the first empty one, the end of the input, or until a line raises |

## Left out

- HTTP, WebSocket, Temporal, LLM and SDK calls, clocks and random ids are outcomes and parameters of the model: a success value, one of the exceptions the code tells apart, or another exception. Random ids are taken to be fresh.
- Canvas: an id is a non-empty string, so JavaScript's truth test on a parent id is "not null"; a missing `hidden` is false and a missing `runtime` is "". Rendering, React Flow's own node changes, viewport and position saving are not modelled.
- CanvasRuns.RunsStayForests: excludes overlapping nests, a snapshot loaded while a nest is in flight, and one loaded while a drag or dialog is open whose guard fails in it, for which the code gives no guarantee (`DragDuringFlightClosesCycle`, `LoadUnderDialogClosesCycle`); edges are empty from the start because snapshots have none.
- Store.IsDescendant: requires that the climb ends, because on a cycle that avoids the searched id the loop in the source does not.
- Redaction: Python's tables for characters beyond ASCII are parameters, so the theorems hold for any of them; the mapping of non-ASCII letters under `re.I` is one of these parameters. Input sanitising and the per-task tool-call counter are left out as easy.
- Delegation: interleavings are those of a state machine whose steps are what happens between two awaits; the coroutine's own code is shown to take these steps only while no other task moves. A coroutine's task object is its store entry: an unfinished entry is never evicted, so the two cannot differ while they are written. Cancelling coroutines, the permission check, status queries and the mirror calls' payloads are not modelled; the number of attempts is a natural number.
- Delegation.BudgetInEveryRun: takes the delay to be non-negative.
- Delivery: JSON encoding of a record and the layout of the prompt are identities; ids and statuses are strings; a write that stops half-way, the parent lookup, the consecutive-failure counter and error rates are not modelled. The set of ids has no order, so eviction takes any hundred. "Prompted" means handed to the code that builds a prompt; whether that prompt reaches an attempt is `TakenButNotSent`.
- Streaming: an event queue or task update that raises is not modelled, and a stream fails between events; artifact ids are counted instead of drawn. The SDK's request context is taken not to be iterable.
- Temporal: interleavings are those of a state machine over the steps of concurrent runs, in one process; the code of a run is shown to take these steps only while no other run moves. Cancellation is excluded: stopping the wrapper cancels its worker, which can end a core execution before its terminal message. The workflow is taken to return only after one of its `llm_call` activities returned.
- Watcher: names of skills contain no "/"; importing modules and auditing a reload are not modelled. A reload is identified with the scan that triggered it.
- Session: an exception is its type's name, its lower-case text and its exit code; the texts of prompt, memories and options are not modelled, only whether building them raises; committing the memory, the event queue and `execute`'s own text extraction are left out. Closing a stream from outside either fails or ends it for its reader after what it gave so far; the outcome without an answer is the cancellation of the turn's own task while it reads, and cancelling it elsewhere is not modelled.
- SkillsConfig: YAML text, comments and anchors; the tree is what the parser returns and is edited on values, so an alias elsewhere that points at the edited list is not modelled. A mapping is taken to have its keys and values in pairs, as the parser guarantees. Reading names and files from directories, auditing and publishing are left out.
- Workspace.InstallSkill: a failed request leaves the stored file as it was, and nobody else edits the config between the read and the write.
- MemoryFile: the text has no carriage returns, which text mode has turned into newlines; copying skill directories, set-up scripts, and reading rule files are not modelled.
- StdioFraming: decoding of bytes (a chunk that ends inside a multibyte character) and the dispatch to tools. What the parser makes of a text (a value, a decode error, another exception) is a parameter except for plain integers and the named constants, and whether handling an object raises is one that may depend on its text and on the number of lines before.
