# Verified model of the Overlord service layer

This Dafny project models the stateful and algorithmic cores of the Overlord backend and proves what
they promise: SQL tables are maps from id to row, a transaction is one atomic step unless stated
otherwise, code that runs between two `await`s is one step of an interleaving machine, and time is an
integer.

`dafny verify dfyconfig.toml` checks everything.

- `Common` – ids, optional values, outcomes, finite-set helpers.
- `TwoPhase`, `ProjectOrder`, `Objectives`, `ObjectiveEffects`, `ObjectiveGaps`, `ObjectiveStore` – renumbering rows
  under a unique index in two passes; projects; the objective queue with its draft slot, rotation and
  promotions.
- `ChangeFeed`, `RealtimeHub`, `HubRaces`, `HubStore` – the paginated change feed, and the hub's polls and
  catch-ups interleaved.
- `BranchNames`, `BranchTitles`, `WorktreePaths`, `BranchPlanning`, `BranchOverrides` – slugs, sanitising, decimal numbers, POSIX path
  joining, cycle numbering and the planner.
- `OAuth`, `OAuthHistory` – authorization codes and the tokens they carry, handlers interleaved; the approval
  behind each of them.
- `Membership`, `OrgAdmins`, `Workspaces`, `WorkspaceEffects`, `WorkspaceRaces`, `WorkspaceStore` – members, roles,
  invitations and the derived organization admins; gates read before the transactions they guard.
- `Statuses`, `StatusRuns`, `StatusEffects`, `StatusNames`, `StatusRaces`, `StatusStore` – workspace statuses, missions on them, board and
  My Missions reorders.
- `ComposeQueue`, `ComposeEffects`, `ComposeRaces`, `ComposeStore`, `DeliveryWrites` – the compose job queue and the
  compare-and-set on a delivery.
- `WebhookQueue`, `WebhookEffects`, `WebhookRaces`, `WebhookStore` – the webhook outbox; `WebhookCounter`, `CounterRaces` –
  the failure counter against the failures recorded.

The `...Store` files hold the classes whose methods update tables in place, with the loops of the code;
each is proved equal to a function or a step of the machine beside it, and the promises are proved
about those. The `...Effects` files say, independently of those functions, which requests go through and
what each of them leaves in every row. The `...Races` and `...Gaps` files show what goes wrong where a promise has a limit: that it
does from every state beyond the limit, and that a run from an empty or fresh start reaches such a state.

## What the code does where its promise has a limit

Each of these is proved, with the exact condition where the code does keep the promise.

- **Realtime.** Nothing stops two polls from overlapping. A landing that moves the hub cursor back is
  harmless by itself, since the next poll reads on from there; what loses rows is a landing that puts the
  cursor below where another poll in flight began, because that poll will carry it past rows nobody who
  joins in between is sent. A poll begun without subscribers broadcasts nothing, so its landing also loses
  what it passes over for a client that joined meanwhile. These two are exactly what is unsafe
  (`RealtimeHub.NoClientMissesARow`, `HubRaces.LandingIsSafeIff`), and both are reached from a fresh hub
  (`HubRaces.StaleLandingHappens`, `HubRaces.IdleLandingHappens`).
- **Future reorder.** Renumbering a subset of the queue fails (500, rolled back) exactly when an
  unlisted live objective sits in the target range (`Objectives.ReorderFutureExactly`), as it does when
  the first and the last of three are listed (`ObjectiveGaps.GapIsRefused`).
- **Organization-admin removal.** Its second-admin check runs outside its transaction, so two
  concurrent removals can leave a workspace without an ADMIN (`WorkspaceRaces.RemovalsRace`);
  the transaction is safe exactly when every workspace has another ADMIN (`Workspaces.DemotionKeepsIff`).
- **Project move.** The status row is read outside the transaction, so a status deleted in between
  leaves a live mission on it (`Statuses.MoveRaces`, exact in `Statuses.MoveKeepsIff`, reached in
  `StatusRaces.MoveRaceHappens`).
- **Compose queue.** The write that ends a processing goes by job id alone, so a worker that outlives
  its lease can do two things. Its retry can let a second worker in: that happens exactly when another
  worker holds the job for at least as long as the retry waits (`ComposeQueue.EveryRunHasOneHolder`,
  `ComposeRaces.RobbingMakesTwoHolders`). And it rewrites a terminal row, a success with a failure or a
  failure with a success included, exactly when it ends on one (`ComposeQueue.TerminalKeptIff`). Both
  are reached from an empty queue. Writing only while the row carries the worker's own lock would rule
  out both (`ComposeQueue.GuardedIsSafe`). The bound on claims holds in every run
  (`ComposeQueue.ClaimsAreBounded`).
- **Webhooks.** A redelivery breaks the invariant behind the attempt numbering exactly when an attempt of
  the message is under way, and for a message with a proper payload the numbering itself can then break
  (no other message is ever attempted, `WebhookRaces.ImproperIsNeverSent`). Under way means claimed,
  being sent, or failed before the sixth and not yet rescheduled, first attempts included (`WebhookQueue.RedeliveryKeepsIff`; `WebhookRaces.ImpatienceBreaks` from every such state,
  `WebhookRaces.BrokenNumberingIsReachable` from an empty outbox). Between the recording and the settling of
  a success or a sixth attempt it is harmless but lost (`WebhookQueue.UnsettledSwallowsRedelivery`). A
  message left processing by a crash is never reclaimed (`WebhookQueue.OrphanStays`), and redelivering it
  is safe.
- **Failure counter.** A delivery writes the counter it loaded plus one. The counter is the number of
  consecutive failures as long as no two deliveries to one subscription overlap, none is stopped between
  recording and counting, and the subscription is not enabled meanwhile; each of these steps, in the exact
  cases that `WebhookCounter.StepKeepsExactIff` gives, leads to a wrong counter
  (`CounterRaces.UncalmMiscounts`). The threshold of 20 holds regardless
  (`WebhookQueue.EnabledIsBelowThreshold`).
- **Member removal.** The guard against removing the only member never decides anything: the guard
  for the only ADMIN always fires first (`Workspaces.RemovalExactly`).
- **Accepting an invitation to a deleted workspace** always answers 500: when the profile already has a
  row there the unique index rolls it back (`WorkspaceRaces.StrandedInvitationHappens`), and otherwise the
  membership is committed before the workspace fails to load (`Workspaces.AcceptExactly`).
- **Role gates** are read before the transaction and not again in it. The last-admin guards are read
  inside, so stale gates break no invariant (`Workspaces.TransactionKeepsIff`); what a stale gate means is
  that the actor counts as what it was when the gate was read (`Workspaces.ManagersChangeNoAdmin`).
- **Worktrees.** Branches that differ in a slash against a dash share a directory
  (`WorktreePaths.WorktreesCollide`), and the overrides `.` and `..` plan the directory of the project
  resource and the one above it (`BranchPlanning.DotsAreKept`).

## Model

| member | source | states |
|---|---|---|
| TwoPhase.EveryWriteDistinct | backend/repository.ts:1841-1871 | If the unique index accepts a run of position writes, the positions are pairwise distinct after every single one of them |
| TwoPhase.ParkingFree | backend/repository.ts:1838-1852 | No parking write of a two-phase renumbering meets a position in use |
| TwoPhase.FinalFree | backend/repository.ts:5328-5340 | When the targets are clear, no final write meets a position still in use |
| TwoPhase.TwoPassRenumbering | backend/repository.ts:5296-5356 | The two passes are accepted at every write if and only if the targets are distinct and no unlisted row sits on one; then every listed row has its target and no other row has moved |
| TwoPhase.RejectedUnlessClear | backend/repository.ts:5408-5440 | A target held by an unlisted row, or a target named twice, makes some write fail, so the whole transaction does |
| TwoPhase.MovesClear | backend/repository.ts:5309-5315 | Dropping the rows that are already in place does not change whether the targets are clear |
| TwoPhase.ParkingAboveTargets | backend/repository.ts:1838-1839 | Pigeonhole: parking begins above 1..n although the largest position in use may be below n (null or sparse positions) |
| ProjectOrder.CheckedListIsTheGroup | backend/repository.ts:1774-1816 | A list that passes the checks names exactly the live projects of one workspace |
| ProjectOrder.CheckExactly | backend/repository.ts:1771-1816 | The checks pass for a workspace exactly when the list is of its live projects, each once, all of them and at least one, and the caller is not denied it |
| ProjectOrder.CheckRefuses | backend/repository.ts:1771-1816 | A list of different live projects of one workspace is refused as its gate says, before it is refused for being incomplete; any other list is a bad request |
| ProjectOrder.ReorderIsClear | backend/repository.ts:1818-1841 | For every accepted list, null and sparse positions included, all targets are clear |
| ProjectOrder.ProjectStore.UpdatePosition | backend/repository.ts:1845-1851 | One UPDATE is refused exactly when another live row of the workspace holds the position, and keeps the unique index |
| ProjectOrder.ProjectStore.WriteAll | backend/repository.ts:1845-1871 | The unique index holds after each of the 2k UPDATEs and none is refused |
| ProjectOrder.ProjectStore.ReorderProjects | backend/repository.ts:1771-1876 | The listed projects end at 1, 2, 3, ... in list order; a row already in place keeps its revision, others gain one; nothing else changes; the index holds after every UPDATE; a refused request changes nothing |
| Objectives.InsertKeepsValid | backend/repository.ts:5468-5520 | Whatever state is requested, an insertion keeps positions distinct and at most one draft per mission |
| Objectives.EnsureDraftSlotWorks | backend/repository.ts:5598-5698 | After an objective leaves the queue the mission has exactly one live draft |
| Objectives.EnsureDraftSlotSpares | backend/repository.ts:5624-5697 | Only blank drafts are deleted, no text or position changes, and a queued objective that becomes the draft is the first in line |
| Objectives.ReorderFutureExactly | backend/repository.ts:5367-5460 | A checked list is renumbered consecutively from its lowest position if and only if no unlisted live objective sits in that range; otherwise the index refuses it (500) and nothing changes |
| ObjectiveGaps.GapIsRefused | backend/repository.ts:5408-5440 | From an empty store: three queued objectives, and the reorder that lists the first and the last of them answers 500 |
| Objectives.ReorderFutureWrites | backend/repository.ts:5408-5456 | The two UPDATE passes of the code are accepted exactly in that case and leave exactly that result |
| Objectives.RotationDistinct | backend/repository.ts:5859-5886 | The rotation into the draft slot keeps all positions of the mission distinct, gaps included |
| Objectives.PromotionEffect | backend/repository.ts:5827-5886 | Making a future objective at p the draft while the lowest other draft is at d < p puts it exactly at d, moves what lay in [d, p) one further, and leaves every other row exactly as it was: all rows of the mission outside [d, p] and all other missions |
| Objectives.PromotionKeepsOrder | backend/repository.ts:5859-5886 | All other objectives keep their relative order, and the old draft comes directly after the new one |
| Objectives.PatchKeepsValid | backend/repository.ts:5889-5893 | The own UPDATE of an objective keeps positions distinct and at most one draft, once the other drafts are demoted |
| Objectives.UpdateKeepsValid | backend/repository.ts:5728-5964 | Every accepted update keeps positions distinct and at most one live draft per mission |
| Objectives.ExecutingLeavesOneDraft | backend/repository.ts:5910-5929 | Right after an objective goes from draft, future, submitted or launching to executing it is the one executing, and its mission has exactly one live draft, which is another |
| Objectives.DeleteKeepsValid | backend/repository.ts:5985-6010 | Soft deletion keeps positions distinct and at most one draft |
| Objectives.InsertAllKeepsValid | backend/repository.ts:3778-3900 | The objectives of a new mission, inserted one by one as drafts, leave distinct positions and one draft |
| Objectives.StepKeepsValid | backend/repository.ts:5367-5985 | Each mission and objective request keeps positions distinct, at most one draft per mission, and live objectives on live missions |
| Objectives.EveryRunValid | backend/repository.ts:5367-5985 | Over any run of mission creation and deletion, objective creation, update, deletion and future reorders these invariants hold |
| Objectives.EveryRunFromEmpty | backend/repository.ts:5367-5985 | So from an empty store on, two live objectives of a mission never share a position and are never both its draft, and their mission is live |
| ObjectiveEffects.UpdateExactly | backend/repository.ts:5742-5893 | After an accepted update the objective is in the state and at the position asked for, with the text asked for without surrounding space, at the next revision; what the request does not mention is as it was, but for the place it is rotated to |
| ObjectiveEffects.UpdateSpares | backend/repository.ts:5827-5886 | Every other row, when no execution starts: another draft goes back to the queue when a draft is asked for, a row that the rotation overtakes moves one further, and nothing else changes |
| ObjectiveEffects.ExecutingSpares | backend/repository.ts:5910-5929 | Every other row, when an execution starts: nothing changes while another draft has text; else the first queued objective becomes the draft and the blank drafts go; with no queue and no draft one blank draft is added behind all |
| ObjectiveEffects.UpdateAnswers | backend/repository.ts:5742-5826 | An update answers 404 exactly for a row that is not live; 400 exactly for an edit of the text once execution has begun, a blank text outside the queue, a way back from complete to the queue or a negative position; 500 exactly for a position another objective ends up at |
| ObjectiveEffects.WhenRowsFollow | backend/repository.ts:5855-5858 | The rotation takes place exactly when a queued objective is made the draft and another draft stands before it, and the draft slot is seen to exactly when execution starts from a state before it |
| ObjectiveEffects.DraftSlotExactly | backend/repository.ts:5598-5698 | The draft slot row by row: which drafts go, which queued objective is promoted, and when a blank draft is added |
| ObjectiveEffects.InsertExactly | backend/repository.ts:5468-5520 | An insertion is accepted for a live mission unless the text is blank outside the queue, and adds one row directly behind the last, trimmed, queued when a second draft is asked for |
| ObjectiveEffects.CreateMissionExactly | backend/repository.ts:3778-3900 | A mission is created exactly when all its objectives have text, or it has none and its title has; they are then its queue in the order given, at 0, 1, 2, ..., the first one the draft |
| ObjectiveEffects.DeleteExactly | backend/repository.ts:5985-6010 | A deletion marks the one live row with a new revision and no other, and answers 404 otherwise |
| ObjectiveEffects.DeleteMissionExactly | backend/repository.ts:4361-4375 | Deleting a mission marks exactly its live objectives |
| ObjectiveEffects.ReorderedRow | backend/repository.ts:5367-5460 | Only a list of different queued objectives of a live mission is reordered, and a listed one changes in position and revision alone |
| ObjectiveEffects.ReorderAnswers | backend/repository.ts:5367-5407 | A future reorder answers 400 for a duplicate, 404 for an unknown mission, and 500 only for a good list |
| ObjectiveEffects.RefusedForTheFirst | backend/repository.ts:5390-5407 | It is refused for the first listed objective that is not live in the mission (404) or not queued (400) |
| ObjectiveStore.Store.UpdatePosition | backend/repository.ts:5328-5340 | One position UPDATE is refused exactly when another live objective of the mission holds the position |
| ObjectiveStore.Store.WriteAll | backend/repository.ts:5325-5340 | The two loops succeed exactly when the targets are clear, with the index intact at every write, and roll back otherwise |
| ObjectiveStore.Store.ApplyObjectivePositionUpdates | backend/repository.ts:5296-5356 | The listed rows take their targets, or nothing changes when an unlisted row is on one |
| ObjectiveStore.Store.InsertObjective | backend/repository.ts:5468-5520 | Inserts at the end in the state the queue rule gives, or answers 404 or 400 and changes nothing |
| ObjectiveStore.Store.EnsureDraftSlotAfterLeaving | backend/repository.ts:5598-5698 | The row-by-row code leaves what the draft-slot rule computes |
| ObjectiveStore.Store.PromoteNext | backend/repository.ts:5631-5680 | Blank drafts are dropped one by one and the first future objective becomes the draft |
| ObjectiveStore.Store.Prepare | backend/repository.ts:5827-5886 | The demotion loop and the rotation leave exactly the prepared rows |
| ObjectiveStore.Store.UpdateObjective | backend/repository.ts:5728-5964 | The transaction leaves exactly what the update rule computes, or its status and the rows as they were |
| ObjectiveStore.Store.DeleteObjective | backend/repository.ts:5985-6010 | Soft-deletes the row with a new revision, or answers 404 |
| ObjectiveStore.Store.CreateMissionWith | backend/repository.ts:3778-3900 | The insertion loop leaves the mission with its objectives, or rolls everything back on the first blank one |
| ObjectiveStore.Store.ReorderFutureObjectives | backend/repository.ts:5367-5460 | The transaction leaves exactly what the future reorder computes, or its status and the rows as they were |
| ChangeFeed.AboveExactly | backend/realtime.ts:26-74 | A read returns exactly the rows above the cursor |
| ChangeFeed.PageSpan | backend/realtime.ts:57-74 | A page is the contiguous run after the cursor, at most the clamped limit long; `hasMore` says exactly whether rows remain; the returned cursor resumes directly after the page |
| ChangeFeed.PaginationIsExact | backend/realtime.ts:57-74 | For any start and any limit (zero, negative, oversized, not finite), following the cursor while `hasMore` terminates and yields exactly the rows above the start, in strictly ascending order and so each once |
| ChangeFeed.CursorMeans | backend/realtime.ts:57-64 | A cursor that is a number reads the rows above it, a fraction or a negative number included; any other reads all |
| ChangeFeed.PageIsFull | backend/realtime.ts:57-74 | A page holds all rows above the cursor, or exactly as many as asked for, clamped to 1 .. 500 and 500 for a limit that is no number |
| RealtimeHub.FetchCovers | backend/realtime.ts:150-154 | The rows of a poll cover the feed from its start to its last row |
| RealtimeHub.PageCovers | backend/realtime.ts:176-185 | A catch-up page covers the feed from its cursor to the next, and to the end when it is the last |
| RealtimeHub.AppendKeeps | backend/realtime.ts:57-74 | A row appended above the largest sequence number keeps the invariant |
| RealtimeHub.ConnectKeeps | backend/realtime.ts:100-113 | A new subscriber starts its catch-up, or none, consistently with the cursor |
| RealtimeHub.BroadcastKeeps | backend/realtime.ts:150-154 | A broadcast leaves no client short of a row up to where it puts the cursor, even when it moves the cursor back |
| RealtimeHub.StepKeepsIff | backend/realtime.ts:139-154 | Any step of the hub keeps the invariant (clients that read no more have every row up to the cursor, polls in flight began at or below it) if and only if, when it lands a poll, no other poll that will move the cursor began above where the landing puts it, and a poll begun without subscribers passes over no row that a client reading no more lacks |
| RealtimeHub.CatchUpKeeps | backend/realtime.ts:176-185 | Reading and sending a catch-up page keeps the invariant, disconnections in between included |
| RealtimeHub.RunKeeps | backend/realtime.ts:100-185 | Every interleaving whose landings meet that guard keeps the invariant |
| RealtimeHub.NoClientMissesARow | backend/realtime.ts:100-185 | In every such interleaving, overlapping polls and landings that move the cursor back included: a client that connected at some step with a cursor of its own below that of the hub, and whose catch-up has ended, has been sent every row above its own cursor up to the present cursor of the hub; one that connected otherwise, every row above the cursor of the hub at that step |
| RealtimeHub.ConnectCatchesUp | backend/realtime.ts:100-113 | A client that connects is catching up from its own cursor exactly when it is behind the hub, and has been sent nothing |
| RealtimeHub.PollDelivers | backend/realtime.ts:139-154 | An uninterrupted poll sends every client exactly the first 500 rows above the cursor and moves the cursor to the last of them |
| RealtimeHub.IdlePollMovesOn | backend/realtime.ts:141-147 | One without subscribers moves the cursor to the end of the feed |
| RealtimeHub.CatchUpPages | backend/realtime.ts:176-185 | A page of a catch-up sends its client the first 500 rows above its cursor and nobody else anything, and the catch-up is over with the last of them |
| RealtimeHub.InOrderIsGuarded | backend/realtime.ts:139-154 | A landing that does not move the cursor back, and passes over nothing for a client that joined meanwhile, meets the guard |
| RealtimeHub.OneAtATimeIsGuarded | backend/realtime.ts:139-154 | So does every landing when no two polls overlap and a poll begun without subscribers is one step, and then no client misses a row |
| HubRaces.LandingIsSafeIff | backend/realtime.ts:139-154 | Exactness: from any state the invariant allows, taking a landing leaves every continuation with guarded landings free of misses if and only if the landing itself is guarded; after any other, one of them ends with a connected client that misses a row |
| HubRaces.StaleLandingHappens | backend/realtime.ts:139-154 | From a fresh hub a run with overlapping polls leads to a landing that moves the cursor from 2 back to 1: alone it is safe, with a third poll begun at 2 in between it is not |
| HubRaces.IdleLandingHappens | backend/realtime.ts:141-147 | and another to the unsafe landing of a poll begun without subscribers, a client having joined meanwhile |
| HubStore.Hub.SendToAll | backend/realtime.ts:172-174 | The broadcast loop sends the rows to every subscriber once |
| HubStore.Hub.LandPoll | backend/realtime.ts:139-154 | Landing a poll is the finish step, and keeps the invariant of the hub exactly when it is guarded |
| HubStore.Hub.Poll | backend/realtime.ts:139-154 | An uninterrupted poll is the run of its steps |
| HubStore.Hub.SendCatchUp | backend/realtime.ts:176-185 | An uninterrupted catch-up terminates and sends its client exactly the rows above its cursor, and nobody else anything |
| HubStore.PageThenRest | backend/realtime.ts:176-185 | What a catch-up owes is its next page and what it owes after it, so each turn makes progress |
| BranchNames.TitleSlugForm | backend/branch-planning.ts:60-72 | Every title slug is lower-case letters, digits and single inner dashes, at most 48 characters |
| BranchNames.SlugFormIsFixed | backend/branch-planning.ts:60-72 | Slugging such a slug gives it back |
| BranchNames.SlugifyIdempotent | backend/branch-planning.ts:60-72 | Slugging twice equals slugging once exactly when the title has a slug or the fallback is its own slug |
| BranchNames.NameIsSanitary | backend/branch-planning.ts:74-90 | Sanitising leaves every name of that form unchanged |
| BranchNames.CanonicalBranch | backend/branch-planning.ts:92-96 | For every title and sequence the canonical branch is slug, dash, sequence; lower-case letters, digits and single inner dashes; and unchanged by sanitising |
| BranchNames.SequencesSeparateBranches | backend/branch-planning.ts:92-96 | Missions with different sequences have different canonical branches |
| BranchNames.DecimalRoundTrip | backend/branch-planning.ts:191-196 | Decimal printing then reading gives the number back |
| BranchNames.ParseIntRoundTrip | backend/branch-planning.ts:143-145 | `parseInt` of a printed number gives it back |
| BranchTitles.UncutKeepsLetters | backend/branch-planning.ts:60-64 | The uncut slug of a title has exactly its letters, in lower case, and digits, in order |
| BranchTitles.CutExactly | backend/branch-planning.ts:65-72 | A slug of fewer than 48 characters stays whole; a longer one is cut before the last dash between the 28th and the 48th, or to 48 if there is none |
| BranchTitles.CanonicalIs | backend/branch-planning.ts:92-96 | The canonical branch is the slug, or `mission-` and the sequence without one, then a dash and the sequence |
| WorktreePaths.PathIsParentAndLeaf | backend/branch-planning.ts:102-115 | For every root, slug, key and branch, dot segments included: the joined path is one fixed parent directory followed by the branch leaf; the leaf `.` gives that directory itself and `..` the one above it |
| WorktreePaths.WorktreesCollide | backend/branch-planning.ts:98-115 | Any two branches share a worktree path if and only if they have the same leaf, as `a/b` and `a-b` do, or one leaf is `.`, the other `..` and the directory is the root |
| WorktreePaths.NamesHaveOwnWorktrees | backend/branch-planning.ts:98-115 | Distinct planned names have distinct worktree paths |
| WorktreePaths.LeafForm | backend/branch-planning.ts:98-100 | A leaf is one segment that neither starts nor ends with a dash, and `branch` for a branch of nothing but slashes and dashes |
| WorktreePaths.PlainWorktree | backend/branch-planning.ts:102-115 | Under an absolute root of plain directories the worktree of a planned name is root, project, resource, branch, with `project` for one that is not named |
| BranchPlanning.HighestExistingCycle | backend/branch-planning.ts:128-139 | The loop finds the largest cycle number among the refs, 1 for the branch itself, 0 for none |
| BranchPlanning.FirstFreeIsLeast | backend/branch-planning.ts:190-196 | The search ends at the least free number, after at most as many steps as names are taken |
| BranchPlanning.OnlyMergedOrCheckedOut | backend/branch-planning.ts:190-196 | Above the highest existing cycle no local or remote ref can prolong the search |
| BranchPlanning.SearchFreeName | backend/branch-planning.ts:191-196 | The search loop makes at most one test more than there are merged and checked-out names |
| BranchPlanning.PlanMissionBranch | backend/branch-planning.ts:159-198 | The planner with its loops decides what the decision function says |
| BranchPlanning.DotsAreKept | backend/branch-planning.ts:74-90 | The overrides `.` and `..` survive sanitising, which empties them and falls back to them, and plan the directory of the project resource or the one above it |
| BranchPlanning.NewCycleIsFresh | backend/branch-planning.ts:175-197 | A recorded branch that is merged or gone gives a name in none of the ref sets, numbered at least 2, above every existing cycle, the least free from there |
| BranchPlanning.ReuseMeansExists | backend/branch-planning.ts:159-198 | For every input the plan says reuse exactly when the branch it names exists |
| BranchPlanning.CycleFieldIsExact | backend/branch-planning.ts:141-157 | The cycle field of `base-k` is exactly k for k from 2 up |
| BranchPlanning.SpellingsNormalize | backend/branch-planning.ts:117-122 | The bare, `origin/`, `refs/heads/` and `refs/remotes/origin/` spellings of a name without slashes normalise to it |
| BranchPlanning.CanonicalSpellings | backend/branch-planning.ts:117-122 | In particular those of a canonical branch |
| BranchPlanning.PlannedName | backend/branch-planning.ts:159-198 | A branch planned without an override, and not merely taken from the record, is again of the canonical form |
| BranchPlanning.RecordAndReplan | backend/branch-planning.ts:175-182 | Planning again while the recorded plan exists unmerged names it again exactly when the record normalises to it, and then with the same path and cycle |
| BranchPlanning.PlannedBranchIsReused | backend/branch-planning.ts:175-182 | A canonical or cycle branch, recorded in any of the four spellings, is reused with the same branch, path and cycle |
| BranchPlanning.PreviewAgrees | backend/branch-planning.ts:200-206 | With nothing recorded the preview names the branch, path and cycle of the plan |
| BranchOverrides.OverridePlanned | backend/branch-planning.ts:164-173 | An override decides the branch: its sanitised form, or itself when sanitising leaves nothing usable |
| BranchOverrides.SanitizedForm | backend/branch-planning.ts:74-83 | Whatever goes in, sanitising leaves no upper-case letter, backslash or character a ref may not hold, and no two slashes or dots in a row |
| BranchOverrides.LockGoes | backend/branch-planning.ts:83-83 | A `.lock` at the end is taken off |
| BranchOverrides.TrailersGo | backend/branch-planning.ts:83-83 | So are a dot and a dash |
| BranchOverrides.PlannedBranch | backend/branch-planning.ts:175-197 | Without an override: the canonical branch and cycle 1 when nothing is recorded, the record as it normalises while it exists unmerged, else a cycle of the canonical branch |
| BranchOverrides.PlanFields | backend/branch-planning.ts:141-157 | Every plan has the base it was given, starts a new branch from it, and has the worktree of its branch |
| BranchOverrides.LeastNewCycle | backend/branch-planning.ts:190-196 | Every number from 2 up to that of a new cycle is taken by a merged or checked-out branch or passed by an existing cycle |
| BranchOverrides.ReuseMeansRef | backend/branch-planning.ts:159-198 | A plan reuses its branch exactly when some local or remote ref normalises to it |
| BranchOverrides.SignIsRead | backend/branch-planning.ts:143-145 | `parseInt` reads a sign, so `base--5` is no cycle |
| OAuth.KeepsLocated | backend/oauth.ts:50-67 | Every step moves a token from one place to another and leaves the others where they are |
| OAuth.EveryRunIsSafe | backend/oauth.ts:50-67 | In every interleaving of approvals, exchanges and sweeps each minted token is in exactly one of a handler, the code map, a delivery or revocation; a code leaves the map at most once; deliveries match the unexpired stored entry in client, redirect URI, resource and PKCE challenge (section 4.1.3 of RFC 6749, section 4.6 of RFC 7636) |
| OAuth.KeepsSingleUse | backend/oauth.ts:238-247 | No step lets a code leave the map twice or come back |
| OAuth.KeepsSound | backend/oauth.ts:392-436 | What a handler checks was consumed unexpired and is what was stored under the code, and it answers with a token only for a matching exchange |
| OAuth.DeliveredOnce | backend/oauth.ts:344-436 | No token is delivered by two handlers, and a delivered one is neither pending nor handed to revocation |
| OAuth.DeliveredIffDeserved | backend/oauth.ts:392-436 | An exchange delivers the token if and only if the code is pending and unexpired and everything matches; a presented code is spent either way and otherwise its token is handed to revocation |
| OAuth.SweptMapIsRecent | backend/oauth.ts:50-57 | After a sweep only approvals of the last five minutes before its cutoff are pending |
| OAuth.Server.SweepExpired | backend/oauth.ts:50-57 | The sweep loop removes exactly the expired codes, hands exactly their tokens to revocation, and is a run of sweep steps |
| OAuth.Server.FinishExchange | backend/oauth.ts:392-436 | The rest of a token request is exactly the consume and check steps |
| OAuthHistory.DeliveriesWereApproved | backend/oauth.ts:344-436 | In every interleaving, a handler that answers with a token was begun by an exchange, and the code it presents was answered to an approval that is valid and approved by the user, as that request was when it began: client, redirect URI and resource are equal, the verifier hashes to its challenge, and the scope answered is its scope |
| OAuthHistory.DecisionExactly | backend/oauth.ts:344-366 | An approval goes on to mint a token exactly when it is valid and approved; a denial answers access_denied, anything else invalid_request |
| OAuthHistory.HonestExchangeDelivers | backend/oauth.ts:344-436 | The other way round: a valid approval, a wait of less than five minutes and an exchange that names the same client, redirect URI and resource and shows the verifier end with the token, its scope, and the code gone |
| OAuthHistory.RefusedExactly | backend/oauth.ts:392-436 | What every exchange is answered: the token, unsupported_grant_type, invalid_target for another resource, or invalid_grant |
| OrgAdmins.CountingAgrees | backend/rbac.ts:214-309 | The grouped counting query lists exactly the profiles for which the per-workspace loop says yes, in every state, with no live workspace and with duplicate role rows too |
| OrgAdmins.AdminInAllMeansEach | backend/rbac.ts:250-261 | The loop with its early return says yes exactly when the profile is ADMIN of each workspace |
| Membership.WithSoleRoleEffect | backend/organizations.ts:179-225 | Replacing a role leaves every active member with exactly one live role |
| Membership.WithSoleRoleAdmins | backend/organizations.ts:179-225 | and makes the member ADMIN exactly if that is the new role, changing nobody else |
| Membership.WithMemberAdmins | backend/workspaces.ts:419-427 | A new member adds at most itself to the ADMINs of its workspace |
| Membership.DisabledAdmins | backend/workspaces.ts:1443-1458 | Removing a member ends only its own being ADMIN there |
| WorkspaceEffects.GrantAllPlays | backend/organizations.ts:410-458 | After the loop the profile is ADMIN and nothing else in each listed workspace, a member of it or not; every other role of everybody is as before |
| WorkspaceEffects.DemoteAllPlays | backend/organizations.ts:482-501 | After the loop the profile is MEMBER and nothing else in each listed workspace it belongs to; every other role of everybody is as before |
| WorkspaceEffects.JoinAllPlays | backend/workspaces.ts:460-487 | After the loop the listed profiles are ADMIN of the new workspace and nothing else; every other role of everybody is as before |
| Workspaces.CountMeansOnlyAdmin | backend/workspaces.ts:1295-1330 | The last-admin guard, which counts member rows, fires exactly when the member's profile is the only ADMIN |
| Workspaces.RoleUpdateExactly | backend/workspaces.ts:1340-1404 | A role change goes through exactly when the actor is at least a manager, only an ADMIN makes or unmakes an ADMIN, and the only ADMIN is not demoted; the target then holds exactly the new role and no other member's roles change |
| Workspaces.RemovalExactly | backend/workspaces.ts:1413-1469 | A removal goes through exactly when the actor is at least a manager, only an ADMIN removes an ADMIN, and the target is not the only ADMIN (the only-member guard never decides); exactly the target leaves |
| Workspaces.AcceptExactly | backend/workspaces.ts:1137-1285 | An acceptable invitation (pending, unexpired, for the actor's address) answers 200 exactly when its workspace is live; into a deleted workspace the actor is joined and answered 500, or, with a row already there, nothing changes and the answer is 500; a late attempt only marks it expired (410) |
| WorkspaceRaces.StrandedInvitationHappens | backend/workspaces.ts:1191-1205 | A run of requests from an empty directory, in which an invited profile is made organization admin and then the workspace is deleted, leaves an invitation whose acceptance answers 500 and changes nothing |
| Workspaces.JoinedExactly | backend/workspaces.ts:1191-1252 | A new member gets exactly the invited role; a member keeps its roles |
| Workspaces.OnboardKeeps | backend/workspaces.ts:510-615 | Onboarding keeps the invariant |
| Workspaces.CreateKeeps | backend/workspaces.ts:386-497 | Creating a workspace keeps the invariant, even when the creator is no longer an organization admin |
| Workspaces.DeleteKeeps | backend/workspaces.ts:709-738 | Deleting a workspace keeps the invariant, so its organization stays live exactly while a live workspace remains |
| Workspaces.UpdateRoleKeeps | backend/workspaces.ts:1356-1398 | The transaction of a role change keeps an ADMIN in every live workspace, whatever its gate captured |
| Workspaces.RemoveMemberKeeps | backend/workspaces.ts:1419-1468 | and so does that of a removal |
| Workspaces.DemotionKeepsIff | backend/organizations.ts:482-501 | The transaction of an organization-admin removal keeps every workspace administered if and only if each has another ADMIN |
| Workspaces.CheckMeansOthers | backend/organizations.ts:474-480 | The check that a second organization admin exists guarantees that |
| Workspaces.TransactionKeepsIff | backend/workspaces.ts:378-1469 | The gates are read before the transactions. Whatever has happened in between, a transaction keeps one live role per active member, an ADMIN in every live workspace and live organizations exactly those with a live workspace, except that the removal of an organization admin does so if and only if each live workspace has another ADMIN |
| Workspaces.StepKeepsInv | backend/workspaces.ts:378-1469 | A request that nothing interrupts, refused or not, keeps all that |
| Workspaces.EveryRunKeepsInv | backend/workspaces.ts:378-1469 | and so does every run of transactions whose gates were read at any time before: onboarding, workspace creation and deletion, invitations, role changes, removals and organization-admin changes |
| Workspaces.EveryRunFromEmpty | backend/workspaces.ts:378-1469 | So from an empty directory on, a live workspace has an ADMIN and a live organization, and an active member has exactly one live role |
| Workspaces.ManagersChangeNoAdmin | backend/workspaces.ts:184-195 | No transaction of an actor whose gate captured a mere manager changes who is ADMIN anywhere or leaves a new ADMIN invitation, however late it runs |
| Workspaces.NonAdminsChangeNoAdmin | backend/workspaces.ts:184-195 | So no uninterrupted member request of anybody who is not an ADMIN does |
| Workspaces.CreationKeepsOrgAdmins | backend/workspaces.ts:386-497 | Creating a workspace leaves the derived organization admins of every organization exactly as they were, with a stale gate too |
| Workspaces.AddingAddsExactly | backend/organizations.ts:377-458 | Adding an organization admin adds the target and nobody else |
| Workspaces.RemovingRemovesExactly | backend/organizations.ts:465-501 | Removing one removes the target and nobody else |
| WorkspaceEffects.RolesAfter | backend/workspaces.ts:378-1469 | After every transaction that goes through, whatever its gate captured, who holds which role where is exactly what the request says: founders and organization admins ADMIN in a new workspace, an accepted invitation its role, the target of a role change the new role, a removed member none, the target of a grant ADMIN and of its withdrawal MEMBER in each live workspace; everybody else, and everywhere else, what they held |
| WorkspaceEffects.TablesAfter | backend/workspaces.ts:378-1285 | and the other tables: workspaces and organizations are founded, a deleted workspace takes its organization along exactly when it was the last, an invitation lives fourteen days and supersedes the pending ones to its address, and only a pending one is revoked |
| WorkspaceEffects.OnboardExactly | backend/workspaces.ts:510-560 | An organization is founded exactly under a name by a profile that belongs to no live workspace |
| WorkspaceEffects.CreateExactly | backend/workspaces.ts:378-410 | A workspace is created exactly under a name by an admin of its organization |
| WorkspaceEffects.DeletionExactly | backend/workspaces.ts:168-183 | A workspace is deleted exactly by one of its ADMINs; a stranger is answered 404, another member 403 |
| WorkspaceEffects.InviteExactly | backend/workspaces.ts:959-1010 | An invitation is made exactly by at least a manager, to an address no member has, as ADMIN by an ADMIN only; when 400 and 409 are answered |
| WorkspaceEffects.RevokeExactly | backend/workspaces.ts:1094-1130 | An invitation is revoked exactly by at least a manager of its workspace |
| WorkspaceEffects.MemberAnswers | backend/workspaces.ts:1356-1442 | When a role change or removal by at least a manager is answered 404, 403 or 409 |
| WorkspaceEffects.AddAdminExactly | backend/organizations.ts:377-408 | An organization admin is made exactly by another, of a known profile that belongs to a live workspace of the organization; when 400 and 403 are answered |
| WorkspaceEffects.RemoveAdminExactly | backend/organizations.ts:465-481 | One is unmade exactly by one, while another than the target is left; 409 exactly when the target is the only one |
| WorkspaceRaces.RemovalsRace | backend/organizations.ts:474-501 | The check is outside the transaction: two removals of the only two ADMINs both pass it and leave a workspace without an ADMIN |
| WorkspaceRaces.RaceIsPossible | backend/organizations.ts:474-501 | A run of requests from an empty directory, onboarding and one accepted invitation, to a state in which that happens |
| WorkspaceStore.Directory.SetSoleRole | backend/organizations.ts:179-225 | The row updates leave exactly one live role, or nothing to do |
| WorkspaceStore.Directory.CreateOrganizationOnboarding | backend/workspaces.ts:510-615 | The transaction leaves exactly the onboarding outcome |
| WorkspaceStore.Directory.CreateWorkspace | backend/workspaces.ts:378-490 | The transaction with its loop over organization admins leaves exactly the creation outcome |
| WorkspaceStore.Directory.AddOrganizationAdmin | backend/organizations.ts:377-458 | The loop leaves exactly the outcome of the grants |
| WorkspaceStore.Directory.RemoveOrganizationAdmin | backend/organizations.ts:465-501 | The loop leaves exactly the outcome of the demotions |
| WorkspaceStore.Directory.DeleteWorkspace | backend/workspaces.ts:709-738 | Tombstones the workspace and, if empty, the organization |
| WorkspaceStore.Directory.AcceptWorkspaceInvitation | backend/workspaces.ts:1137-1285 | The transaction and the load after it leave exactly the acceptance outcome, 410 and both kinds of 500 included |
| WorkspaceStore.Directory.UpdateWorkspaceMemberRole | backend/workspaces.ts:1340-1404 | The transaction leaves exactly the outcome of the role change |
| WorkspaceStore.Directory.RemoveWorkspaceMember | backend/workspaces.ts:1413-1469 | The transaction leaves exactly the outcome of the removal |
| Statuses.SeedingKeeps | database/src/constants.ts:7-57 | A new workspace starts with exactly one default, one execute and one review status |
| Statuses.CreateStatusKeeps | backend/repository.ts:1931-1995 | Creating a status keeps exactly one default (a draft), one execute and one review |
| Statuses.UpdateStatusKeeps | backend/repository.ts:2002-2060 | So does updating one; a new default replaces the old one |
| Statuses.UpdatedHolders | backend/repository.ts:2024-2036 | Making a status the default makes it the only one; no other update changes who holds what |
| Statuses.DeleteStatusKeeps | backend/repository.ts:2066-2110 | So does deleting one |
| Statuses.DeletionGuardsAreExact | backend/repository.ts:2074-2087 | A deletion is refused precisely when it would break the rules |
| Statuses.CreateMissionKeeps | backend/repository.ts:3806-3860 | A new mission is on a live status of its workspace and carries its type |
| Statuses.PatchKeeps | backend/repository.ts:4089-4105 | A status change by PATCH keeps the rules |
| Statuses.DuplicatedKeeps | backend/repository.ts:4801-4870 | A scheduled duplicate is placed on a live status, and no other mission changes |
| Statuses.DuplicateNeverFails | backend/repository.ts:4768-4788 | The fallback on the default status always exists |
| Statuses.MoveKeepsIff | backend/repository.ts:4210-4311 | The transaction of a project move keeps the rules if and only if the status it read before is still live, or the mission no longer is |
| Statuses.MoveRaces | backend/repository.ts:4315-4353 | The read is outside the transaction: deleting an unused status in between leaves a live mission on a dead status |
| StatusRaces.MoveRaceHappens | backend/repository.ts:4315-4353 | A concrete run from an empty store to such a move and such a deletion |
| Statuses.SchedulingKeeps | backend/repository.ts:4631-4763 | Setting and clearing a schedule and assigning a mission keep the rules |
| Statuses.DeleteMissionKeeps | backend/repository.ts:4361-4390 | Deleting a mission keeps the rules |
| StatusRuns.ReorderColumnExactly | backend/repository.ts:4401-4488 | A board reorder succeeds exactly for distinct live missions of the project and a live status; they then sit in the column at 100, 200, ... in order with its type, and no other mission has changed |
| StatusRuns.ReorderMineExactly | backend/repository.ts:5142-5217 | A My Missions reorder succeeds exactly for distinct live missions of the workspace assigned to the caller; slots read 100, 200, ..., board positions within the column are untouched, and so are other missions |
| StatusRuns.StepKeepsInv | backend/repository.ts:1931-2110 | Each status or mission request keeps the rules |
| StatusRuns.EveryRunKeepsInv | backend/repository.ts:1931-2110 | Over any run of status, mission, schedule and assignment requests each live mission points at a live status of its workspace and carries its type, and every workspace keeps exactly one default, one execute and one review |
| StatusRuns.EveryRunFromEmpty | backend/repository.ts:1931-2110 | So from an empty database on, a workspace has one default, one execute and one review status, the default a draft, and a live mission is on a live status of its workspace, whose type it carries |
| StatusEffects.TopPositionExactly | backend/repository.ts:3324-3343 | The top of a column is 100 above the highest of the other live missions in it, and 100 when there is none |
| StatusEffects.PatchExactly | backend/repository.ts:4089-4180 | A status PATCH succeeds exactly when the mission is live and the status, if any, live in its workspace; the mission is then on that status with its type, on top of the column if the status is another and where it was if not; no other mission changes, and the only new one is the duplicate its schedule calls for |
| StatusEffects.DuplicatedExactly | backend/repository.ts:4801-4870 | A duplicate is made exactly for a mission completed with a schedule that has a next due date; it is on the configured status while that is live, else on the default, on top of the column, and otherwise a copy |
| StatusEffects.ColumnTurnExactly | backend/repository.ts:4427-4488 | One turn of a board reorder: exactly a live mission of the project goes to its slot, and arriving from another column is a change of status with its duplicate |
| StatusEffects.MineTurnExactly | backend/repository.ts:5159-5217 | One turn of a My Missions reorder: exactly a live mission of the caller gets its slot, and only one from another status changes, to the top of its column |
| StatusEffects.ColumnAnswers | backend/repository.ts:4401-4440 | What a refused board reorder is answered |
| StatusEffects.MineAnswers | backend/repository.ts:5142-5158 | What a refused My Missions reorder is answered |
| StatusEffects.CreateMissionExactly | backend/repository.ts:3806-3860 | A mission is created exactly in a live project on a live status, or on the default, on top of that column, assigned as asked |
| StatusEffects.MoveExactly | backend/repository.ts:4203-4353 | A project move reads the status asked for or the own one, within one workspace, and puts the mission on top of that column of the other project |
| StatusEffects.SetScheduleExactly | backend/repository.ts:4631-4720 | A schedule is set exactly on a live mission with a next status live there, in the row the mission has or a new one |
| StatusEffects.ClearScheduleExactly | backend/repository.ts:4723-4763 | Clearing it takes the row away exactly when no other mission row refers to it |
| StatusEffects.AssignAndDeleteExactly | backend/repository.ts:4361-4390 | Assigning and deleting change the one live mission and nothing else |
| StatusNames.EveryRunKeepsNames | backend/repository.ts:385-404 | In no run from an empty database do two live statuses of a workspace have the same name but for case |
| StatusNames.CreateStatusExactly | backend/repository.ts:1931-1995 | A status is created exactly when its name is neither blank nor taken, its type neither execute nor review (which the workspace has), and it is the default only as a draft |
| StatusNames.NextPositionExactly | backend/repository.ts:1956-1961 | It goes directly behind the last live status |
| StatusNames.UpdateStatusExactly | backend/repository.ts:2002-2060 | A status is updated exactly when it is live, the new name neither blank nor taken, it becomes the default only as a draft, and the default keeps being it |
| StatusNames.DeleteStatusExactly | backend/repository.ts:2066-2110 | A deletion takes exactly the one status, exactly when no live mission is on it and the workspace can do without it |
| StatusNames.SeededExactly | database/src/constants.ts:7-57 | The seven statuses of a new workspace, their types and order |
| StatusStore.Board.SeedWorkspaceStatuses | backend/workspaces.ts:287-317 | The loop inserts exactly the seven default statuses |
| StatusStore.Board.ClearDefaults | backend/repository.ts:426-436 | Exactly the default flags of the workspace's live statuses are cleared |
| StatusStore.Board.CreateWorkspaceStatus | backend/repository.ts:1931-1995 | The transaction leaves exactly the created status, or its error and nothing |
| StatusStore.Board.UpdateWorkspaceStatus | backend/repository.ts:2002-2060 | The transaction leaves exactly the updated status, or its error and nothing |
| StatusStore.Board.DeleteWorkspaceStatus | backend/repository.ts:2066-2110 | The transaction leaves exactly the tombstone, or its error and nothing |
| StatusStore.Board.CreateScheduledDuplicate | backend/repository.ts:4801-4870 | Inserts exactly the duplicate the rule gives |
| StatusStore.Board.CreateMissionRow | backend/repository.ts:3806-3860 | Inserts exactly the mission the rule gives |
| StatusStore.Board.PatchMissionStatus | backend/repository.ts:4089-4180 | Leaves exactly the patched mission and its duplicate |
| StatusStore.Board.ReorderBoardColumn | backend/repository.ts:4401-4488 | The loop leaves exactly the reordered column, or rolls back on the first error |
| StatusStore.Board.ReorderMyMissions | backend/repository.ts:5142-5217 | The loop leaves exactly the reordered slots, or rolls back on the first error |
| ComposeQueue.StepKeepsCounted | backend/delivery-compose-worker.ts:486-580 | Every step of every worker, late or not, keeps the account of a job: each claim is paid for by its creation, an expired lease or the one retry of an earlier attempt |
| ComposeQueue.ClaimsAreBounded | backend/delivery-compose-worker.ts:118-187 | In every run, overruns included, a job is claimed at most max_attempts (at least 1) plus lease expiries times, and attempt_count is the number of its claims |
| ComposeQueue.StepKeepsExclusive | backend/delivery-compose-worker.ts:486-580 | No step but a retry that robs a holder, one whose wait ends before the lease of another worker on the job does, admits a second holder |
| ComposeQueue.EveryRunHasOneHolder | backend/delivery-compose-worker.ts:118-187 | At most one worker holds a job in every run without such a retry, late ends included |
| ComposeRaces.RobbingMakesTwoHolders | backend/delivery-compose-worker.ts:564-580 | Exactness: after any such retry some continuation, every end in it in time, has two holders of one job |
| ComposeRaces.RobbingHappens | backend/delivery-compose-worker.ts:486-580 | and such a retry is reached from an empty queue |
| ComposeQueue.TerminalKeptIff | backend/delivery-compose-worker.ts:548-580 | The write at the end goes by id alone: a step keeps every terminal row as it is if and only if it does not end a processing whose job is already terminal, whatever it writes |
| ComposeRaces.AnyProcessingCanOverwrite | backend/delivery-compose-worker.ts:548-580 | Any processing under way can come to do so, through others that all end in time |
| ComposeRaces.OverwritingHappens | backend/delivery-compose-worker.ts:174-187 | From an empty queue: a late last attempt that throws turns succeeded into failed |
| ComposeQueue.OwnLockIsEnough | backend/delivery-compose-worker.ts:525-534 | A worker that wrote only while the row carries its own lock would neither overwrite a terminal row nor rob a holder |
| ComposeQueue.GuardedIsSafe | backend/delivery-compose-worker.ts:525-580 | and in every run of such ends neither happens |
| ComposeQueue.EveryRunIsSafe | backend/delivery-compose-worker.ts:118-187 | If every processing that ends does so before its lease does, it ends on its own lock: at most one worker holds a job, and a terminal row stays exactly as it is from any moment to any later one |
| ComposeQueue.TerminalIsFinal | backend/delivery-compose-worker.ts:548-580 | In every run in which no processing ends on a terminal row, late ends included, terminal rows stay exactly as they are |
| ComposeEffects.ClaimExactly | backend/delivery-compose-worker.ts:486-540 | A claim takes a due job, queued or with a lock run out, that no other such job precedes by priority and time, and none only when there is none; it runs under the worker's lock for a minute as one attempt more, and every other stale lock is reset |
| ComposeEffects.EndExactly | backend/delivery-compose-worker.ts:118-187 | The end of a processing: failed, cancelled or succeeded, or back in the queue for 15 seconds, one, five or fifteen minutes or an hour by its attempt, or failed with the last; no other job changes |
| ComposeEffects.ErrorsRunOut | backend/delivery-compose-worker.ts:118-187 | A job whose every attempt ends in an error gets exactly max_attempts of them, each as soon as its wait is over, and has then failed |
| ComposeEffects.QuietSteps | backend/delivery-compose-worker.ts:548-580 | A worker that stops leaves every job as it is |
| ComposeStore.Worker.Candidate | backend/delivery-compose-worker.ts:507-518 | The candidate query returns an eligible job that comes first by priority and run_after, if there is one |
| ComposeStore.Worker.ReclaimStaleLocks | backend/delivery-compose-worker.ts:494-506 | Exactly the stale locks are reset |
| ComposeStore.Worker.ClaimNextComposeJob | backend/delivery-compose-worker.ts:486-540 | The transaction is exactly the claim step |
| ComposeStore.Worker.ProcessJob | backend/delivery-compose-worker.ts:118-187 | The end of a processing keeps the account of claims, and keeps every terminal row exactly when its job is not terminal already |
| DeliveryWrites.WriteReplacesWhatItRead | backend/delivery-compose-worker.ts:279-310 | A write that changes the row replaces exactly the revision it read and keeps every payload key but `deliveryReport` |
| DeliveryWrites.EveryRunKeepsPayloads | backend/delivery-compose-worker.ts:279-357 | Under any interleaving of workers and other writers every worker revision differs from the one before in the report alone and has at most one change row from a worker |
| DeliveryWrites.PersistExactly | backend/delivery-compose-worker.ts:279-324 | Write and record: the row takes the report on top of what was read at the next revision, recorded once; a worker that comes too late, or to a deleted row, changes and records nothing |
| DeliveryWrites.AloneSucceeds | backend/delivery-compose-worker.ts:279-357 | A worker that has the row to itself gets its report in, exactly for a live row that holds one |
| DeliveryWrites.OthersWin | backend/delivery-compose-worker.ts:279-324 | Once somebody else has written the row no worker that read it before changes it |
| DeliveryWrites.Delivery.LoadComposeContext | backend/delivery-compose-worker.ts:326-357 | Loads the row exactly when it is live and holds a report |
| DeliveryWrites.Delivery.PersistDeliveryReport | backend/delivery-compose-worker.ts:279-324 | The compare-and-set, and the change row exactly if it won |
| WebhookQueue.AttemptsAreNumbered | backend/webhook-dispatcher.ts:98-218 | If no redelivery is issued while an attempt of the message is under way, its attempts since the last redelivery are numbered 1..k with k at most 6 and all but the last failed; redelivering an abandoned message is included |
| WebhookQueue.StepKeepsAttempts | backend/webhook-dispatcher.ts:98-218 | Each step of each dispatcher, stopping included, keeps the numbering and at most one delivery per message |
| WebhookQueue.RedeliveryKeepsIff | backend/webhooks.ts:528-563 | A redelivery keeps the numbering invariant if and only if no attempt of the message is under way: claimed, being sent, or failed before the sixth and not yet rescheduled, the first attempt included |
| WebhookRaces.ImpatienceBreaks | backend/webhooks.ts:528-563 | Exactness: from any such state with an attempt under way, a redelivery has a continuation, itself with no redelivery under an attempt, in which the attempts of the message are not numbered 1..k |
| WebhookRaces.BrokenNumberingIsReachable | backend/webhook-dispatcher.ts:98-218 | and a run from an empty outbox reaches that |
| WebhookRaces.ImproperIsNeverSent | backend/webhook-dispatcher.ts:98-125 | The only other messages, those without a proper payload, are never attempted |
| WebhookQueue.UnsettledSwallowsRedelivery | backend/webhook-dispatcher.ts:205-216 | A redelivery after a recorded success or sixth attempt, before it is settled, keeps the numbering but is lost: settling ends the message with no new attempt |
| WebhookQueue.OrphanStays | backend/webhook-dispatcher.ts:245-264 | A message left processing by a dispatcher that stopped stays so until it is redelivered |
| WebhookQueue.StepKeepsCounter | backend/webhook-dispatcher.ts:329-364 | No step of any dispatcher or update leaves a subscription enabled with 20 or more consecutive failures, however old the counter it loaded |
| WebhookQueue.EnabledIsBelowThreshold | backend/webhook-dispatcher.ts:329-364 | In every interleaving, stale counters included, an enabled subscription has fewer than 20 consecutive failures |
| WebhookEffects.AttemptExactly | backend/webhook-dispatcher.ts:98-218 | A whole attempt that nothing comes between, from the claim on: recorded under the next number; the message sent, due again after half a minute, two or ten minutes, an hour or six, or failed with the sixth; the counter zero or one more, the subscription disabled at 20; nothing else changes |
| WebhookEffects.ClaimExactly | backend/webhook-dispatcher.ts:245-264 | A claim takes the due message available longest, and none only when none is due |
| WebhookEffects.LoadExactly | backend/webhook-dispatcher.ts:98-135 | Loading ends a message without a proper payload as failed, one without an enabled live subscription as cancelled, and makes any other the next attempt |
| WebhookEffects.RequestsExactly | backend/webhooks.ts:255-330 | Enabling starts the counter afresh and disabling keeps it; a removed subscription is never reachable; a new or redelivered message is due at once with no attempt behind it |
| WebhookCounter.StepKeepsExactIff | backend/webhook-dispatcher.ts:329-364 | With any number of dispatchers, a step keeps the counter of a subscription at the number of failures, up to the one attempt not yet counted, if and only if it does not load the subscription while another delivery has it loaded, does not enable it during a delivery that found a positive counter or has failed, and does not stop a delivery between recording and counting (a success over a zero counter excepted) |
| WebhookCounter.CounterIsStreak | backend/webhook-dispatcher.ts:329-364 | Over every run of such steps, several dispatchers included, the counter of a subscription no delivery has loaded is the number of failed attempts since the last success or enabling |
| CounterRaces.UncalmMiscounts | backend/webhook-dispatcher.ts:329-364 | Exactness: after any other step, from any state exact so far, carrying the deliveries under way to their end leaves a wrong counter |
| CounterRaces.StoppingHappens | backend/webhook-dispatcher.ts:205-216 | From an empty outbox: a stop between recording a failure and counting it leaves the counter at 0 after one failure |
| CounterRaces.OverlapHappens | backend/webhook-dispatcher.ts:329-364 | From an empty outbox: two dispatchers deliver to one subscription at once and the counter ends wrong |
| WebhookStore.Dispatcher.Candidate | backend/webhook-dispatcher.ts:245-264 | The candidate is the due message available longest, if there is one |
| WebhookStore.Dispatcher.ClaimNextOutboxMessage | backend/webhook-dispatcher.ts:245-264 | The transaction is exactly the claim step |
| WebhookStore.Dispatcher.Deliver | backend/webhook-dispatcher.ts:98-218 | An uninterrupted delivery is the run of its steps |
| WebhookStore.Dispatcher.RedeliverWebhookDelivery | backend/webhooks.ts:528-563 | Answers 200 exactly when the payload parses and names the live subscription; then the message is pending with no attempts, and the numbering invariant is kept exactly when no attempt was under way; otherwise nothing changes |

## Left out

- Express routing, MCP dispatch, storage backends, e-mail, environment loading, scripts and the web client: I/O or thin wrappers.
- Permission gates and token scopes beyond the roles modelled: a request is taken as permitted; `ProjectOrder` has a gate as a parameter.
- The change log and realtime nudges inside transactions: appends that feed nothing modelled here except the feed itself. (The rotation writes two change rows with the same revision for the moved objective; the log that would show it is not modelled.)
- `dequeueObjective`, launch preferences, agents, titles, tags, due dates and other columns that steer nothing proved here; they appear as `other` in an objective's body or not at all.
- The scheduling engine: whether a next due date exists is a parameter of a request.
- Unicode: strings are taken after NFKD and removal of combining marks, and lower-casing is ASCII; e-mail addresses are taken trimmed and lower-cased.
- Hashing, random ids, secrets and invitation tokens: SHA-256 is an arbitrary function, drawn ids and codes are assumed fresh, and a token lookup is an invitation id.
- JavaScript number precision: sequence and cycle numbers are unbounded.
- Windows path rules: `path.join` is the POSIX one.
- Slug and key searches (`uniqueWorkspaceSlug`, `uniqueStatusKey`): the same search as the cycle search, and easier.
- `reorderWorkspaceStatuses`, status lists, workspace settings, CSV export and the other read-only listings: easy members.
- `cascadeDeleteAccount`: it has no last-admin guard, so it is not part of the membership machine.
- The Postgres encoding of booleans in the default-status guards: the 0/1 encoding of SQLite is modelled.
- `RealtimeHub.start`: the first cursor read is taken as complete before clients join; commits are taken to append above the largest sequence number.
- The SQLite data-version refresh of the hub, heartbeats and `hello` events: they carry no rows.
- Restart of the server: the in-memory code map of OAuth is lost with the process, and is not modelled across one. A failed `createUserToken` is an approval that stays where it is.
- The claim batches of the two pollers (five and ten in a row) and their `polling` flag: a worker or dispatcher processes one item at a time and claims again.
- HTTP, composing and signing: the outcome of a request or a composition is nondeterministic.
- Enqueueing and de-duplicating compose jobs: jobs appear queued with no attempts.
- Webhook subscription columns other than `enabled` and the counter, and the address checks.
- ComposeQueue.EveryRunIsSafe: assumes that a processing which ends does so before its lease; `ComposeRaces.RobbingHappens` and `ComposeRaces.OverwritingHappens` show why, and the exact conditions are `ComposeQueue.EveryRunHasOneHolder` and `ComposeQueue.TerminalKeptIff`.
- WebhookQueue.AttemptsAreNumbered: assumes that no redelivery is issued while an attempt of its message is under way; `WebhookRaces.ImpatienceBreaks` shows why.
- Workspaces.EveryRunKeepsInv: a removal of an organization admin in a run finds another ADMIN in each workspace; `Workspaces.TransactionKeepsIff` and `WorkspaceRaces.RemovalsRace` show why.
- Responses read back after a transaction: only the load after accepting an invitation is modelled, since only there the answer contradicts what was committed in a run without concurrency.
- RealtimeHub.NoClientMissesARow: assumes that landings are guarded; `HubRaces.LandingIsSafeIff` shows that from a state the invariant allows every other landing is unsafe.
- Row locks: a claim may pass over rows that others have locked (`SKIP LOCKED`), but which rows are locked is not modelled; the claim methods of the stores take none as locked, as on SQLite.
- StatusRuns.EveryRunKeepsInv: a project move in a run writes a status that is still live; `Statuses.MoveKeepsIff` shows why.
- WebhookCounter.CounterIsStreak: assumes the steps that `WebhookCounter.StepKeepsExactIff` allows; `CounterRaces.UncalmMiscounts` shows why.
