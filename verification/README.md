# Work Graph: a verified model

Work Graph keeps a workspace of goals and work nodes in one database and imports external issues through a gateway with
a database of its own. Nearly everything it does is a transaction over a few tables. This project models those
transactions in Dafny, each as one atomic step of a state machine, and proves what the steps keep over whole runs. Where
the program works statement by statement, a method or class does the same and is proved equal to the step it implements.

`dafny verify dfyconfig.toml` checks the whole project. Automatic induction is switched off on every lemma, so each
inductive proof is exactly the one written in its body.

## What is modelled

**The forest and its history** (`Forest`, `Commands`, `ForestInvariant`, `History`, `ReadBack`, `RoundTrip`, `Goals`,
`Edits`, `Writers`, `Acceptance`, `Store`).
A workspace is a revision, the node rows (live and removed together) and the log of change events. Commands create,
update, move, remove, restore and advance nodes; a refused command changes nothing. The recursive queries are least fixed
points, and a loop with UNION ALL semantics is proved to compute them and to end.

**The circle of a node** (`Circle`, `CircleInvariant`, `Renumbering`, `CircleActs`, `Route`, `Executions`, `Bidding`,
`Promises`, `Outcomes`, `CircleStore`). Steps, execution ledger, bids and the node's lifecycle change together in seventeen acts:
route edits, bids, claims, submissions, runner leases and completions, and the requester's decisions. One joint invariant
covers them all, and under it `Outcomes` says of each act exactly when it is accepted and what it leaves. Updates of positions are modelled row by row, with the uniqueness check each row meets.

**Circles and forest together** (`Lifecycles`, `Joint`, `LeaseQueue`). Every act is tied to a lifecycle command of the
workspace; tree commands and acts on all nodes run together; runners lease from one queue over all nodes.

**Estimation statistics** (`Estimation`, `Office`). Durations are real numbers. The running row of an actor is proved
equal to its definitions over all observations, and the observations to the promises actually finished.

**The gateway** (`Idempotency`, `Placement`, `Content`, `GatewayStore`, `EventFeed`, `EventJournal`, `Consumer`, `Echoes`,
`JiraSync`, `Synchronizer`). Operators, retry worker, ingestion, lost answers and crashes interleave in any order. The
consumer reads committed events page by page; imports run in cycles over a paged search.

**Smaller algorithms** (`TreePicker`, `Picker`, `RateLimiter`): the depth-first picker, the walk up a chain of parents,
and the fixed-window limiter of authentication.

## What the proofs found

Each of these is proved, together with the condition under which the promise does hold.

- A parent is meant to stay open until everything below it is closed (README.md of the repository, line 97). Closing does
  check the whole live subtree, but a node can still be created under a closed one, and reopened below one. These two are
  the only commands that break it (`StepKeepsAcceptanceUnlessItOffends`, `CreateUnderClosedNode`, `ReopenBelowClosedNode`).
- Root goals are meant to stay where they are. The guard looks at the oldest row of the branch, not at the goal: a goal
  is moved or removed exactly if older live work hangs below it, and a removed goal never comes back
  (`GoalIsMovedExactlyWhen`, `GoalIsRemovedExactlyWhen`, `RemovedGoalNeverReturns`, `NewerGoalIsMovedAndRemoved`).
- Moving a step along the route is refused whenever there is a neighbour to exchange with: the first of the two rows
  written always meets the position still stored in the other, and positions are unique row by row. The exchange that is
  meant would need a check after the statement (`MoveIsRefusedExactlyOffTheEnd`, `MoveSwapsNeighbours`).
- Deleting a step succeeds exactly if the steps behind it are visited from front to back when the gap is closed; every
  order does so only with at most one step behind it (`DeletionCommitsExactlyInOrder`, `DeletionIsSafeExactlyWhen`).
- Deleting the current step of a route promotes no other. The route then accepts no start, finish or bid, and adding
  steps does not help; it recovers only once every step is deleted (`DeletionStallsExactlyWhen`, `StalledUntilEmptied`,
  `DeletedFirstStepStalls`).
- Returning work leaves the selected bid on the step. Whoever starts it next inherits that bid's promise, and is later
  measured against a promise made by somebody else: exactly if the step was selected for somebody else, opened again by
  a return or a reopening, and not selected since (`PromiseIsSomebodyElsesExactlyWhen`, `ReturnedStepCarriesOldPromise`).
- A removed node with a ready automated step stays in the queue of the runners, where it can be chosen but not leased:
  until it is restored or the step deleted, no younger node is served (`LeaseIsGrantedExactlyWhen`, `QueueStarves`,
  `RemovedTaskBlocks`).
- The settle delay of the event consumer is applied after the page was read. Commits faster than the delay are therefore
  not enough: nothing is lost exactly if commit time and the time between reading and applying a page together stay
  below it (`DelaySufficesExactlyWhen`, `SlowAnswerLosesAnEvent`).
- A placement that fails late can mark an already placed candidate as retrying or dead-lettered; its node stays. A
  competitor is not needed: failing to read the candidate again after the commit has the same effect
  (`LateFailureHidesPlacement`, `FailedReadHidesPlacement`, `StatusTellsUntilHit`). A placement repeated with changed
  content is refused for ever (`RetryCompletesExactlyWhenUnchanged`).
- A search page longer than requested loses issues although the cycle completes (`OverlongPageLosesAnIssue`,
  `BatchDropsNothingExactlyWhen`).
- The idempotency key, rendered as one string, can be shared by two items, exactly if the installation key of one extends
  the other's by a colon and the items overlap there. No two items the gateway stores do: Jira issue keys contain no
  colon, and mock items share one installation key as long as it is not reconfigured (`KeyStringsCollideExactlyWhen`,
  `StoredKeysAreDistinct`, `ReconfiguredKeysCollide`).

## Model

| member | source | states |
|---|---|---|
| Forest.ClosureIsLeast | internal/httpapi/tree_edit.go:266-267 | The recursive branch query is the least set holding its seeds and closed under children: no larger set is ever read. |
| Forest.LiveBranchIsDescendants | internal/httpapi/tree_edit.go:266-279 | The locked subtree holds exactly the live nodes that have the node on their parent chain. |
| Forest.LiveNodesBelowAreInLiveBranch | internal/httpapi/tree_edit.go:141-180 | A live node below another, even through removed rows, is in its live branch; this is why moving may look at live descendants only. |
| Forest.NoNodeIsItsOwnAncestor | internal/httpapi/tree_edit.go:145-154 | No row, live or removed, is its own ancestor, and every chain of parents ends. |
| Forest.RootIsTopOfChain | internal/httpapi/server.go:421-436 | Every ancestor of a live node is live and shares its root and partition; the one without a parent is that root. |
| ForestInvariant.MoveKeepsGrounded | internal/httpapi/tree_edit.go:145-180 | Moving a live branch under a live node outside it closes no loop among live and removed rows together. |
| ForestInvariant.StepKeepsForest | internal/httpapi/tree_edit.go:34-264 | Every command keeps the forest invariant: acyclic, live ancestors, inherited roots, frozen removed rows, descending stamps, one top per stamp, one birth per revision. |
| ForestInvariant.RunsKeepForest | internal/httpapi/server.go:184-262 | The invariant holds after any sequence of commands on a new workspace. |
| ForestInvariant.StampIsOneBranch | internal/httpapi/tree_edit.go:68-87 | All rows with one removal stamp are the branch that restoring its top revives. |
| ForestInvariant.MoveReadsSameBranch | internal/httpapi/tree_edit.go:180-203 | The branch read after a move, whose rows are logged, is the branch that was moved. |
| ForestInvariant.RestoreReadsRevivedBranch | internal/httpapi/tree_edit.go:87-110 | The live branch read after a restoration is exactly the set of revived rows. |
| History.StepIsAccurate | internal/httpapi/server.go:554-587 | A command either changes nothing or takes the next revision and logs, once per node, exactly the nodes it changed with their new state. |
| History.RunIsRecorded | internal/httpapi/server.go:560-587 | Along any run each node has at most one event per revision, and the last event of every node tells whether and how it is live. |
| History.TimeTravelIsExact | internal/httpapi/server.go:304-362 | Replaying the log up to the revision of any earlier state, with rows of one revision in any order, rebuilds that state's live forest. |
| History.QueryHasAnswer | internal/httpapi/server.go:321-325 | Every log has an ordering by revision up to any revision, however many events one commit left, so the replay is never about nothing. |
| History.EveryRevisionWasCommitted | internal/httpapi/server.go:304-318 | Every revision from 1 to the current one was the revision of some state of the run, so every accepted request has an answer. |
| ReadBack.CreationReadsBack | internal/httpapi/server.go:421-457 | Asked at any later time, history shows a created node at its revision under its parent with its content, and everything else as before. |
| ReadBack.EditReadsBack | internal/httpapi/server.go:504-542 | It shows an edited node with the new title and outcome and nothing else changed. |
| ReadBack.MoveReadsBack | internal/httpapi/tree_edit.go:180-203 | It shows a moved branch in one piece under its target, under the target's root and with the new revision; titles, outcomes, lifecycles and inner links stay, and every other node is as before. |
| ReadBack.RemovalReadsBack | internal/httpapi/tree_edit.go:243-258 | It shows the forest without exactly the removed branch. |
| RoundTrip.RunKeepsOrClearsStamp | internal/httpapi/tree_edit.go:48-87 | Whatever happens after a removal, the rows it stamped either all stay exactly as they were or none keeps the stamp. |
| RoundTrip.RemovedBranchStaysRestorable | internal/httpapi/tree_edit.go:47-67 | While the branch is still removed its top can be restored exactly if it has a parent, and the parent is live and planned. |
| RoundTrip.RemoveThenRestore | internal/httpapi/tree_edit.go:87-110 | Restoring revives exactly the removed branch, with the same inner parents and content, under the root of its parent's present place; all other rows are untouched. |
| Goals.GoalIsMovedExactlyWhen | internal/httpapi/tree_edit.go:141-160 | A fully planned goal is moved under planned work outside its branch exactly if some live node below it is older. |
| Goals.GoalIsRemovedExactlyWhen | internal/httpapi/tree_edit.go:223-242 | A goal is removed exactly if its live branch is fully planned and some live node below it is older. |
| Goals.RemovedGoalNeverReturns | internal/httpapi/tree_edit.go:46-53 | After any commands a removed goal's row is as its removal left it, and restoring it fails whatever revision is named. |
| Goals.NewerGoalIsMovedAndRemoved | internal/httpapi/tree_edit.go:266-267 | A concrete run: a task of the first goal is moved under a later one, which is then accepted for moving and for removal without return. |
| Edits.MoveIsAcceptedExactlyWhen | internal/httpapi/tree_edit.go:129-177 | A move is accepted exactly if everything live at or below the node is planned, the node has a parent or is not the oldest of these, the target is live and planned and does not climb to the node, and a named revision is the current one. |
| Edits.MoveLeaves | internal/httpapi/tree_edit.go:180 | The node hangs under the target; the live nodes at or below it get the target's root and partition and the new revision; no other column and no other row changes. |
| Edits.RemovalIsAcceptedExactlyWhen | internal/httpapi/tree_edit.go:223-247 | A removal is accepted exactly if everything live at or below the node is planned, the node has a parent or is not the oldest of these, and a named revision is the current one. |
| Edits.RemovalLeaves | internal/httpapi/tree_edit.go:248 | Exactly the live nodes at or below the node are stamped with the new revision; no other column and no other row changes. |
| Edits.RestorationIsAcceptedExactlyWhen | internal/httpapi/tree_edit.go:47-67 | A restoration is accepted exactly on a removed node whose parent is live and planned, if a named revision is the current one. |
| Edits.RestorationLeaves | internal/httpapi/tree_edit.go:68-87 | Exactly the rows with the node's removal stamp lose it and get the root and partition of the node's parent; no other column and no other row changes. |
| Writers.AtMostOneWriterWins | internal/httpapi/revision_preconditions.go:31-44 | Of two commands of one run that name the same revision at most one is accepted. |
| Writers.WinnerSawEveryCommit | internal/httpapi/revision_preconditions.go:31-44 | An accepted command that names a revision read earlier changes exactly the state that was read: nothing was committed in between. |
| Writers.LoserWasOvertaken | internal/httpapi/revision_preconditions.go:31-44 | A failed precondition on a revision read earlier means that some command was committed after the reading. |
| Acceptance.LiveDescendantsAreBelow | internal/httpapi/circle.go:796-806 | The acceptance query reaches the live nodes below at any depth and no others. |
| Acceptance.CloseChecksWholeSubtree | internal/httpapi/circle.go:790-814 | A node in review can be closed exactly when every live node below it is closed. |
| Acceptance.StepKeepsAcceptanceUnlessItOffends | internal/httpapi/circle.go:869-890 | A command breaks "closed means closed below" exactly if it creates under a closed node or reopens below one. |
| Acceptance.RunsKeepAcceptance | internal/httpapi/circle.go:790-814 | On runs without those two commands only closed live work stands below a closed node, at any depth, through moves and restorations. |
| Acceptance.CreateUnderClosedNode | internal/httpapi/server.go:427-436 | A concrete run that leaves planned work under a closed goal. |
| Acceptance.ReopenBelowClosedNode | internal/httpapi/circle.go:869-890 | A concrete run that creates nothing under closed work and leaves a reopened task below a closed goal. |
| Store.RecursiveQuery | internal/httpapi/tree_edit.go:266-279 | The UNION ALL loop over an acyclic table ends and finds each row of the branch once. |
| Store.BranchIsEditable | internal/httpapi/tree_edit.go:149-158 | The scan accepts exactly fully planned branches that do not contain the destination. |
| Store.NodesAtRevision | internal/httpapi/server.go:334-354 | The fold over a mutable snapshot computes the replay that time travel is proved about. |
| Store.OpenBranch | internal/httpapi/tree_edit.go:141-146 | Locking the subtree and testing its first row finds the live branch, and tells whether its oldest row is a goal. |
| Store.MoveTransaction | internal/httpapi/tree_edit.go:118-209 | Checks, branch update and one event per moved node amount to the move command. |
| Store.RemoveTransaction | internal/httpapi/tree_edit.go:211-264 | Checks, stamping and one event per removed node amount to the remove command. |
| Store.RestoreTransaction | internal/httpapi/tree_edit.go:34-116 | Checks, revival and one event per revived node amount to the restore command. |
| Store.CreateTransaction | internal/httpapi/server.go:364-463 | Validation, precondition, parent lookup and insertion amount to the create command. |
| Store.UpdateTransaction | internal/httpapi/server.go:465-547 | Validation and row update amount to the update command, which leaves the lifecycle alone. |
| Store.FindOpenWork | internal/httpapi/circle.go:796-811 | The scan over the queried rows finds open work exactly if some live node below is not closed. |
| Store.AdvanceTransaction | internal/httpapi/circle.go:952-968 | Checks, row update and event amount to the lifecycle command. |
| Store.WorkspaceStore.Execute | internal/httpapi/server.go:554-587 | The tables stay reachable states; a reply other than done leaves them unchanged and a done one moves the revision by one. |
| CircleInvariant.FinishKeepsSound | internal/httpapi/circle.go:733-789 | Ending the running execution with success, completing its step and promoting the next keeps the joint invariant. |
| CircleInvariant.FailKeepsSound | internal/httpapi/runner.go:164-169 | Ending it without success and failing the step keeps the joint invariant. |
| CircleInvariant.DeleteKeepsPositions | internal/httpapi/workflow_edit.go:263-274 | Closing the gap after a deletion leaves positions without gaps or repetitions. |
| CircleActs.ReturnKeepsSound | internal/httpapi/circle.go:815-868 | Rewinding the steps from the returned one on, and taking back their successes, keeps the joint invariant. |
| CircleActs.ActKeepsSound | internal/httpapi/circle.go:705-968 | Every act of work, bidding and route editing keeps the joint invariant of route, lifecycle, ledger and bids. |
| CircleActs.PlayKeepsSound | internal/httpapi/circle.go:705-968 | The joint invariant holds after any sequence of acts. |
| Route.PositionsArePermutation | internal/httpapi/circle.go:506 | After any acts the positions of n steps are exactly 1..n, one step at each. |
| Renumbering.CommitsExactlyWhenFree | internal/database/migrations/000014_workflow_steps.sql:12 | An update of positions commits exactly if the target of every row is free when that row is visited. |
| Renumbering.RewrittenIsRenumbered | internal/httpapi/workflow_edit.go:218 | In whatever order rows are visited, an update that commits gives every row its target and changes nothing else. |
| Renumbering.DeletionCommitsExactlyInOrder | internal/httpapi/workflow_edit.go:271 | Closing the gap of a deleted step commits exactly if the steps behind it are visited from front to back, and then has the effect a deferred check would give it. |
| Renumbering.DeletionIsSafeExactlyWhen | internal/httpapi/workflow_edit.go:263-274 | Some order always commits; every order does exactly if at most one step stands behind the deleted one. |
| Route.MoveIsRefusedExactlyOffTheEnd | internal/httpapi/workflow_edit.go:210-221 | A move is refused, in both orders of its rows, exactly if there is a neighbour to exchange with; at the end of the route it is accepted and changes nothing. |
| Route.MoveSwapsNeighbours | internal/httpapi/workflow_edit.go:201-221 | What the statement of a move asks for, and would do if positions were compared only after it: exchange exactly two neighbours. |
| Route.DeferredMoveStaysExactlyAtTheEnd | internal/httpapi/workflow_edit.go:210-217 | Under that deferred reading a move is without effect exactly at the end of the route it points to. |
| Route.MoveAndBack | internal/httpapi/workflow_edit.go:201-221 | Under that deferred reading moving a step and moving it back restores the route. |
| Route.AttemptsAreOneToK | internal/httpapi/circle.go:728 | The attempts of a step are numbered 1..k, each number once. |
| Route.LifecycleReadsTheRoute | internal/httpapi/runner.go:77-92 | At most one step is current; active means the one running execution belongs to its holder's started step; blocked means a failed step; review and closed mean a nonempty route with every step completed. |
| Route.FinishingMakesProgress | internal/httpapi/circle.go:776-789 | A submission or successful completion reduces the unfinished steps by one, and the node enters review exactly when none is left. |
| Route.RouteKeepsShape | internal/httpapi/circle.go:776-789 | Without deletions of steps, and with positions checked row by row, statuses by position read completed, at most one current, pending. |
| Route.DeletionStallsExactlyWhen | internal/httpapi/workflow_edit.go:263-274 | A deletion leaves planned work without a step to start exactly if it took the current step and others remain. |
| Route.StalledUntilEmptied | internal/httpapi/workflow_edit.go:240-291 | A stalled route stays stalled under any acts as long as it has steps. |
| Route.DeletedFirstStepStalls | internal/httpapi/workflow_edit.go:263-274 | A concrete stall: of two steps the first is deleted, and the second stays pending. |
| Executions.ActEvolves | internal/httpapi/runner.go:137-150 | No act changes the terms of an execution; only deleting its step removes one. |
| Executions.ExecutionsKeepTheirTerms | internal/httpapi/circle.go:728-768 | Over any run an execution keeps step, attempt, starter and promise, and its status changes only by finishing or from succeeded to returned or superseded. |
| Executions.NoLateResult | internal/httpapi/runner.go:137-146 | A finished execution that did not succeed is final, and a late result for any finished one is refused. |
| Executions.ReturnRetiresExactly | internal/httpapi/circle.go:849-853 | A return marks the one success of the returned step as returned, supersedes exactly successes of steps behind it, and leaves completed exactly the steps before it. |
| Executions.CompletedMeansOneSuccess | internal/httpapi/circle.go:744-755 | A step is completed exactly while one of its executions counts as succeeded, and never more than one does. |
| Bidding.ExactlyOneWinner | internal/httpapi/exchange.go:310 | As soon as a bid is offered there is exactly one that the order by promise, submission time and actor puts first, whatever the row order. |
| Bidding.SelectionTakesTheShortest | internal/httpapi/exchange.go:310-323 | No offered bid on the step promises less than the one selected; of equal promises none was submitted earlier, and of equal times none belongs to a smaller actor. |
| Bidding.SelectionBindsTheWinner | internal/httpapi/exchange.go:310-323 | Selection assigns the step to that winner, leaves no offered bid on it, and changes no other bid, step or execution. |
| Bidding.SelectionNeedsABid | internal/httpapi/exchange.go:291-316 | Selection succeeds exactly for the requester of a ready human step distributed by exchange that has an offered bid. |
| Bidding.BidsBelongToTheirActor | internal/httpapi/exchange.go:188-244 | Only its own actor changes a bid's promise or offers it again, and bidding anew keeps the first submission time. |
| Bidding.ActKeepsBound | internal/httpapi/exchange.go:189-244 | No act changes the winner or the promise of an assigned step: it stays, is deleted, or its winner starts on that promise. |
| Bidding.WinnerStartsOnThePromise | internal/httpapi/circle.go:707-731 | Over any run from selection on, the first thing that can happen to the step is its deletion or the winner's start, with exactly the selected promise. |
| Bidding.ShortestPromiseIsStarted | internal/httpapi/circle.go:707-731 | Over any run from selection on, the execution that starts the step promises no more than any bid that was on offer when bidding was closed. |
| Promises.StepShowsItsTrail | internal/httpapi/exchange.go:323 | After any acts a step names exactly the winner of its last selection; it is idle with that bid only if it was opened again since, and assigned only if it was not. |
| Promises.ReadyStepNamesABidExactlyWhen | internal/httpapi/circle.go:849 | A ready step names a bid exactly if it was selected, then opened again by a return or a reopening, and not selected since. |
| Promises.PromiseIsSomebodyElsesExactlyWhen | internal/httpapi/circle.go:728 | A claim starts on the promise of the last selection's winner, which is somebody else's exactly if the step was selected for somebody else, opened again since, and not selected again. |
| Promises.ReturnedStepCarriesOldPromise | internal/httpapi/circle.go:849 | A concrete run after a return: an actor who never bid starts with the earlier winner's promise. |
| Outcomes.ClaimIsAcceptedExactlyWhen | internal/httpapi/circle.go:707-717 | A claim is accepted exactly on live planned work whose current step is assigned to the actor, or ready, distributed simply and with requirements that the actor meets without exception. |
| Outcomes.ClaimStarts | internal/httpapi/circle.go:724-732 | It starts that step and adds one execution, numbered one higher than the step has executions, with the selected bid and its promise; nothing else changes. |
| Outcomes.LeaseIsAcceptedExactlyWhen | internal/httpapi/runner.go:31-52 | A runner gets work from a node exactly if it is live and planned with a ready automated step of its kind and an allowed module. |
| Outcomes.LeaseStarts | internal/httpapi/runner.go:72-92 | It starts that step with the next attempt number, without bid or promise, and changes nothing else. |
| Outcomes.SubmissionIsAcceptedExactlyWhen | internal/httpapi/circle.go:733-755 | On live work a submission is accepted exactly from the actor whose execution is running. |
| Outcomes.SubmissionFinishes | internal/httpapi/circle.go:744-789 | It ends that execution with success and no other, completes its step, and makes the pending step that stands first ready; the node is in review exactly if none is pending. |
| Outcomes.CompletionIsAcceptedExactlyWhen | internal/httpapi/runner.go:118-169 | A result is accepted exactly for a running execution of live work; success moves the route on as a submission does, anything else fails the step and blocks the node. |
| Outcomes.CancellationIsAcceptedExactlyWhen | internal/httpapi/circle.go:917-937 | The requester can cancel exactly while an execution of an automated step runs. |
| Outcomes.CancellationEnds | internal/httpapi/circle.go:938-950 | It ends that execution, fails its step and blocks the node, and changes nothing else. |
| Outcomes.RetryIsAcceptedExactlyWhen | internal/httpapi/circle.go:891-916 | The requester can retry exactly if an automated step has failed; it is then ready without a holder, and nothing else changes. |
| Outcomes.ReturnLeaves | internal/httpapi/circle.go:836-857 | A return readies its step, makes the steps behind it pending, frees them all, takes back their successes, and leaves steps before it alone. |
| Outcomes.ReopeningLeaves | internal/httpapi/circle.go:869-890 | A reopening readies the step that stands last, takes back its success, and leaves every other step and execution alone. |
| Outcomes.NewStepIsLast | internal/httpapi/circle.go:498-506 | A step can be added exactly to live planned work; it stands behind all others, and is ready exactly if there are none. |
| Lifecycles.ActFollowsEdge | internal/httpapi/circle.go:705-968 | Every accepted act moves the node along one lifecycle edge or leaves its lifecycle alone. |
| Lifecycles.ActAdvancesNode | internal/httpapi/circle.go:952-968 | An accepted act is an accepted lifecycle command of the workspace, and row and circle agree again afterwards. |
| Joint.JointRunsAgree | internal/httpapi/circle.go:677-968 | After any tree commands and any acts on any nodes every row agrees with its circle: live exactly if the circle is, in the circle's lifecycle; forest and circles keep their invariants together. |
| Joint.NothingRunsOnRemovedNodes | internal/httpapi/tree_edit.go:232-253 | In such runs no execution of a removed node is running. |
| Joint.ClosingFindsAllClosed | internal/httpapi/circle.go:790-814 | In such runs a node is closed only above circles that are closed. |
| LeaseQueue.SomethingIsServed | internal/httpapi/runner.go:31 | As long as some step waits in the runners' queue, one stands at its head: none waits on an older node, and on nodes of one age none at a smaller position. |
| LeaseQueue.LeaseIsGrantedExactlyWhen | internal/httpapi/runner.go:31-52 | The head of the runners' queue is leased exactly if its node is live and the policy allows the module, and then only its step starts. |
| LeaseQueue.QueueStarves | internal/httpapi/runner.go:31-43 | While a removed node has a ready automated step, no lease of that kind goes to it or to a younger node, over any run that neither restores it nor deletes the step. |
| LeaseQueue.AgesNeverChange | internal/httpapi/runner.go:31 | Over any run nodes keep the time they are queued by. |
| LeaseQueue.RemovedTaskBlocks | internal/httpapi/runner.go:31-43 | A concrete run that puts a removed node into that position. |
| CircleStore.FirstByPosition | internal/httpapi/circle.go:736 | The scan finds the row ORDER BY position LIMIT 1 selects. |
| CircleStore.ShortestBid | internal/httpapi/exchange.go:310 | The scan finds the offered bid with the shortest promise, earliest submission and smallest actor, in that order, or reports that none is offered. |
| CircleStore.Claiming | internal/httpapi/circle.go:707-732 | Choosing the current step, checking the actor and starting it amount to the claim act. |
| CircleStore.Submitting | internal/httpapi/circle.go:733-789 | Finding the actor's step, settling its one running row and promoting the next amount to the submit act. |
| CircleStore.Completing | internal/httpapi/runner.go:107-193 | Recording a runner's result, then completing or failing the step, amounts to the completion act. |
| CircleStore.Leasing | internal/httpapi/runner.go:30-92 | Choosing the first ready automated step and starting it amounts to the lease act. |
| CircleStore.Returning | internal/httpapi/circle.go:836-857 | The two updates over steps and executions amount to the return act. |
| CircleStore.Reopening | internal/httpapi/circle.go:869-890 | Opening the last step and taking back its success amounts to the reopen act. |
| CircleStore.Cancelling | internal/httpapi/circle.go:917-950 | Cancelling the one running automated execution and failing its step amounts to the cancel act. |
| CircleStore.UpdatePositions | internal/httpapi/workflow_edit.go:271 | Writing positions row by row, stopping at the first one that is taken, is the update the acts are proved about. |
| CircleStore.MovingStep | internal/httpapi/workflow_edit.go:196-221 | Looking up the neighbour and updating both rows, one after the other, amounts to the move act. |
| CircleStore.Deleting | internal/httpapi/workflow_edit.go:257-274 | Deleting with cascades and closing the gap, one row after the other, amounts to the delete act. |
| CircleStore.Bidding | internal/httpapi/exchange.go:151-193 | Validation and upsert amount to the bid act; a repeated bid keeps its first submission time. |
| CircleStore.Selecting | internal/httpapi/exchange.go:288-326 | Picking the winner, closing bids row by row and assigning amount to the selection act. |
| CircleStore.TaskCircle.Perform | internal/httpapi/circle.go:677-968 | The tables stay reachable states; an act commits as a whole or leaves every row alone. |
| Estimation.WelfordStep | internal/httpapi/circle.go:765-766 | One step of the recurrence turns sums over n errors into sums over n+1. |
| Estimation.RecurrenceIsBatch | internal/httpapi/circle.go:756-772 | After any observations the row holds the count, mean, sum of squared deviations from that mean, mean absolute error, overrun count and severity sum of all of them. |
| Estimation.OrderDoesNotMatter | internal/httpapi/circle.go:763-772 | Two sequences with the same observations in any order leave the same row. |
| Estimation.StoredRowIsSane | internal/httpapi/circle.go:763-772 | Spread is never negative and vanishes only when all errors are equal; the mean stays within the mean absolute error; overruns within the count. |
| Estimation.StabilityIsSampleDeviation | internal/httpapi/exchange.go:63-70 | The stability shown beside a bid is the sample standard deviation of the actor's relative errors. |
| Estimation.OverrunFigures | internal/httpapi/exchange.go:71-76 | The overrun rate is the share of work over twice its promise, and the severity the mean excess of that work alone. |
| Estimation.FiguresShowTheRecord | internal/httpapi/exchange.go:63-80 | The count, mean error and mean size of error shown are those of all observations of the actor, and zeros without any. |
| Estimation.FiguresAreDetermined | internal/httpapi/exchange.go:63-76 | In whatever order the same observations came, every reader is shown the same figures. |
| Office.FinishedAttemptIsLatest | internal/httpapi/circle.go:757-762 | The query for the latest succeeded attempt with a promise selects the attempt just finished, or nothing if it carried none. |
| Office.EveryPromiseIsObservedOnce | internal/httpapi/circle.go:748-772 | Over all circles and any run an actor's row is the statistics of exactly the promises that actor finished, each observed once. |
| Office.SubmissionIsObserved | internal/httpapi/circle.go:756-772 | After any run, submitting an execution with a promise adds to its starter's sums the error (minutes taken less minutes promised) over minutes promised, counts an overrun exactly if the work took more than twice its promise, and adds the excess over twice to the severity; no other row changes. |
| Office.CountIsPromisedSubmissions | internal/httpapi/circle.go:770 | The observation count is the number of the actor's accepted submissions whose execution carried a promise. |
| Idempotency.RepeatedCreation | internal/httpapi/idempotency.go:35-62 | Repeating a creation changes nothing; it gives the first answer exactly if the content is the same and is refused otherwise, on any revision. |
| Idempotency.ResultsOnlyGrow | internal/httpapi/idempotency.go:64-76 | A key gets a result with its first accepted creation, keeps it, and only that creation adds a node. |
| Idempotency.KeyStringsCollideExactlyWhen | internal/gateway/core.go:48-51 | Different items share a key exactly if they have one provider, one installation key extends the other by a colon and some text, and the other item begins with that text and a colon. |
| Idempotency.StoredKeysAreDistinct | internal/gateway/installations.go:175-177 | No two items the gateway stores share a key, whatever form the installation keys of Jira have, base URLs included. |
| Idempotency.ReconfiguredKeysCollide | internal/gateway/core.go:48-51 | Two mock items share a key if the configured installation key was changed between them. |
| Idempotency.EqualHash | internal/httpapi/idempotency.go:78-87 | The accumulated difference of two hashes is zero exactly if they are equal. |
| Placement.RunKeepsWorld | internal/gateway/candidates.go:161-182 | Over any interleaving mappings, candidates and answers in flight name the node and revision the core saved for the item. |
| Placement.AtMostOneNode | internal/gateway/candidates.go:105-182 | Over any interleaving of placements, retries, ingestion, lost answers and crashes at most one native node is created for an item. |
| Placement.PlacementIsForEver | internal/gateway/candidates.go:161-173 | Once a candidate carries a node, candidate and mapping name it for ever, and the mapping carries the revision it was created at. |
| Placement.PlacedNodeIsTheNodeMade | internal/gateway/candidates.go:167-173 | A mapping exists exactly for candidates with a node, names the one node made for its item, and no two items share one. |
| Placement.RetryCompletesExactlyWhenUnchanged | internal/gateway/retries.go:52-60 | After a crash behind the core's commit, a further placement completes the item exactly if parent, title and outcome are unchanged. |
| Placement.DelaysGrow | internal/gateway/candidates.go:219-228 | Waiting times never shrink with the attempts and stay between 15 seconds and 15 minutes. |
| Placement.DelaysDouble | internal/gateway/candidates.go:219-228 | The first wait is 15 seconds and each further one twice the one before, cut off at 15 minutes. |
| Placement.RetriesRunOut | internal/gateway/candidates.go:230-254 | Failures are counted one by one; a candidate retries with a next attempt ahead exactly until its attempts are used up, then is a dead letter without one, and its node never changes. |
| Placement.StatusTellsUntilHit | internal/gateway/candidates.go:230-254 | Status and node agree until a late failure or a retry decided on an old reading hits a placed candidate, and exactly until then. |
| Placement.LateFailureHidesPlacement | internal/gateway/candidates.go:129-141 | A concrete run in which a placed candidate ends up retrying. |
| Placement.FailedReadHidesPlacement | internal/gateway/candidates.go:178-182 | The same without a competitor: the candidate cannot be read again after the commit, and the placed candidate ends up retrying. |
| Content.CandidateHoldsLastIngestion | internal/gateway/candidates.go:44-76 | Over any interleaving a candidate has the version, title and description of one ingestion, and every later ingestion of its item brought that version again. |
| Content.PlacementWorksOnWhatItRead | internal/gateway/candidates.go:105-160 | A placement in flight has the content and the parent it was chosen or leased with, whatever happens to its candidate meanwhile. |
| Content.NodeIsMadeFromAnIngestion | internal/gateway/candidates.go:161-182 | The node a placement makes has the title and description of the last ingestion before the placement read them, under the parent it was chosen or leased with; no other node changes. |
| GatewayStore.CreateNodeUnderKey | internal/httpapi/server.go:399-457 | Lookup, comparison, creation on the expected revision and saving amount to the idempotent creation. |
| GatewayStore.OldestDue | internal/gateway/retries.go:41-45 | The scan leases the due candidate that has waited longest, and reports none exactly if none is due. |
| GatewayStore.Gateway.UpsertCandidate | internal/gateway/candidates.go:44-76 | The upsert is the ingestion step: same version changes nothing, a placed candidate keeps status and attempts. |
| GatewayStore.Gateway.CommitPlacement | internal/gateway/candidates.go:161-182 | Reading the revision, creating under the key, committing mapping and candidate together and reading the candidate again is the placement of the machine. |
| GatewayStore.Gateway.RecordFailure | internal/gateway/candidates.go:230-254 | Counting a failure and choosing retry or dead letter is the failure step on the attempts just read. |
| GatewayStore.Gateway.ProcessDueRetry | internal/gateway/retries.go:35-62 | One round leases the oldest due candidate and ends either placed or with one more failure recorded; with nothing due it changes nothing. |
| EventFeed.ListCommitted | internal/httpapi/events.go:34-75 | A page is the first `limit` events after the cursor in the order of time and id, and more follow exactly if some such event is not on it. |
| EventFeed.CursorPassesWhatIsTaken | internal/gateway/events.go:98-110 | Applying a page moves the cursor past exactly the events it takes, among those visible when the page was read. |
| EventFeed.CursorOnlyGrows | internal/gateway/events.go:108-130 | An event behind the cursor stays behind it. |
| EventFeed.PageStays | internal/gateway/events.go:88-97 | What is applied is the page last read, as it was when it was read, unless the consumer crashed in between. |
| EventFeed.ConsumedExactlyWhenSeen | internal/gateway/events.go:88-135 | Whatever crashes and interleavings, an event is consumed at most once, only when the cursor passes it, and exactly if it was visible in the page the cursor moved on. |
| EventFeed.SettledRunsLoseNothing | internal/gateway/events.go:98-110 | If every event at most as old as a page's cutoff was visible when the page was read, the events consumed are exactly those up to the cursor, each once. |
| EventJournal.RowExactlyWhenMapped | internal/gateway/events.go:111-126 | An event has a journal row exactly if it was consumed while its node was mapped; the row is suppressed exactly if its revision is not later than the mapping's. |
| EventJournal.OnlyTheCreationIsSuppressed | internal/gateway/events.go:118-123 | For a mapping at the revision of creation, the creation is suppressed and every later change of the node is pending. |
| EventJournal.PromptRunsSettle | internal/gateway/events.go:44 | The settle hypothesis holds when those two times together stay below the delay. |
| EventJournal.DelaySufficesExactlyWhen | internal/gateway/events.go:44 | Every run within the bounds consumes exactly the events up to its cursor, each once, if and only if commit time and the time between reading and applying a page together stay below the delay. |
| EventJournal.SlowAnswerLosesAnEvent | internal/gateway/events.go:98-106 | For all times that reach the delay together, a run within them in which an event is passed and never consumed. |
| Consumer.EventConsumer.ConsumePage | internal/gateway/events.go:97-135 | Keeping the settled front of a page, journaling it and moving the cursor is the feed's step; another page follows at once exactly after a full settled one with more behind it. |
| Echoes.CreationsNeverComeBack | internal/gateway/candidates.go:161-173 | Over any workspace history, placements and pages together: a journal row is suppressed exactly if it is the creation of a mapped node. |
| Echoes.OnlyTheCreatingCommitIsSuppressed | internal/gateway/events.go:118-123 | Of all work-node rows any commit leaves about a mapped node, changes of its route and requirements included, the journal suppresses exactly those of the commit that created it. |
| JiraSync.SearchIssues | internal/gateway/jira_sync.go:234-272 | The paging loop ends with at most `limit` issues, a contiguous stretch of the result from the token on, and drops none if no page is longer than requested; a missing token ends the result like the mark of the last page. |
| JiraSync.BatchDropsNothingExactlyWhen | internal/gateway/jira_sync.go:268-270 | A batch brings every issue it moves past exactly if the pages read for it held no more than the limit. |
| JiraSync.RunKeepsCaught | internal/gateway/jira_sync.go:86-141 | A run, failed or not, keeps everything before the continuation saved; the cursor moves only to the frozen upper bound and only after every usable issue was saved. |
| JiraSync.CursorMovesPastSavedIssues | internal/gateway/jira_sync.go:111-141 | Over any runs, every issue of a completed cycle that has a key and a title of more than white space is saved. |
| JiraSync.SavedIssuesWereFound | internal/gateway/jira_sync.go:113 | Every saved issue has a key and such a title, and came in a batch of some run. |
| JiraSync.BatchesConcatenate | internal/gateway/jira_sync.go:86-141 | Across failed and restarted runs the recorded batches of a cycle concatenate to the front of its result, and to all of it on completion. |
| JiraSync.NoTimeIsMissed | internal/gateway/jira_sync.go:86-101 | Every time up to the cursor lies in the window of some completed cycle. |
| JiraSync.OverlongPageLosesAnIssue | internal/gateway/jira_sync.go:268-270 | A concrete page longer than requested whose last issue is never saved although the cursor moves. |
| Synchronizer.Schedule.Synchronize | internal/gateway/jira_sync.go:54-141 | The statements of a synchronization, stopped anywhere, amount to one faithful run, so what was caught stays caught. |
| TreePicker.SortingOrders | internal/gateway/ui_tree.go:110-112 | Siblings come out in title order. |
| TreePicker.EveryLiveNodeOnce | internal/gateway/ui_tree.go:101-128 | On every forest with live ancestors the picker shows each live node exactly once and nothing else. |
| TreePicker.ParentsComeFirst | internal/gateway/ui_tree.go:114-126 | Every line but those of roots stands below the line of its parent. |
| TreePicker.DownMeetsUp | internal/httpapi/placement.go:240-254 | The path the walk down gives a node is the path the walk up collects. |
| TreePicker.PathHasDepth | internal/httpapi/placement.go:227-238 | A path is one longer than the depth. |
| Picker.BuildTreeOptions | internal/gateway/ui_tree.go:101-128 | Grouping, sorting and the recursive visit that appends to a shared list produce the picker's walk. |
| Picker.ComputeDepth | internal/httpapi/placement.go:227-238 | Counting steps up to the top ends, one short of the length of the path. |
| Picker.ComputePath | internal/httpapi/placement.go:240-254 | Collecting titles upwards and reversing them in place ends and gives the path from the top. |
| RateLimiter.Limiter.Consume | internal/httpapi/auth_rate_limit.go:14-37 | The upsert and its reply: no waiting time exactly when the attempt is admitted. |
| RateLimiter.FixedWindowAdmitsLimit | internal/httpapi/auth_rate_limit.go:17-28 | A window admits at most the limit from the attempt that opened it until its length has passed. |
| RateLimiter.SlidingWindowAdmitsTwice | internal/httpapi/auth_rate_limit.go:17-28 | Any interval of the window's length, wherever it starts, admits at most twice the limit. |
| RateLimiter.ExceedingBlocks | internal/httpapi/auth_rate_limit.go:21-27 | An unblocked identifier passes in its open window exactly below the limit; otherwise it is blocked for the full period. |
| RateLimiter.BlockHolds | internal/httpapi/auth_rate_limit.go:23-24 | Attempts during a block neither pass nor postpone its end. |

## Assumptions

- A transaction is atomic and commits or rolls back as a whole; writers of a workspace are ordered by its revision. Except
  for updates of positions, each UPDATE is one assignment over its rows.
- Ids are fresh when they are made; times are integers, durations real numbers. Titles arrive trimmed. Rows of a workspace
  are as old as their creation revisions say.
- A removal hands an empty value to the outbox payload (internal/httpapi/server.go:566-568), a column declared NOT NULL
  (internal/database/migrations/000001_initial.sql:62); it is taken to be accepted. If it were not, no removal would
  commit, and what is proved of all runs would hold of the runs without one.
- Skills, workspace policy, the requester's role, runner permissions and installed modules are parameters of the acts
  that ask for them. Jira issue keys contain no colon.
- A page is applied to the mappings as they are at that moment; mappings, once there, do not change.

## Left out

- EventFeed.ListCommitted: the query itself is given by its answer, in order and limited; only the truncation is a method.
- JiraSync.RunKeepsCaught: assumes that the result of a frozen query does not change while its cycle runs; an issue updated meanwhile is the business of the next window.
- Estimation.StabilityIsSampleDeviation: gives the square root by its defining property; floating-point rounding is not modelled.
- Placement.AtMostOneNode: the key is the triple it is rendered from; `StoredKeysAreDistinct` says why that loses nothing.
- LeaseQueue.LeaseIsGrantedExactlyWhen: a step whose row another runner has locked is skipped by the queue; leases follow each other here.
- Reply codes of circle acts, activity text, `before` states and actor ids of events, participants, module policies and secrets.
- `rankPlacement`, its scores and top five, and `assessBidRisk`: short arithmetic that would add only easy members.
- Module versions, names and configurations of steps, and the definition snapshot stored with an execution.
- HTTP routing, JSON, authentication, encryption, OAuth, SMTP, process execution, diagnostics, directory and profile handlers, and the web application.
- Database locks, leases of the synchronization worker, and settings or cursor resets racing a synchronization.
- Errors the program swallows, such as a failed read of the schedule row before a synchronization.
