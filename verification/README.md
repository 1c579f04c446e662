# Verification model of the learning-record server

A Dafny model of the decision and state logic of a Spanish-learning record server: the audit amendment protocol, the
compiler from compact to canonical practice records, the eligibility of reviews and their scheduling, tutor handoffs,
the practice-brief planner and the recorder it must satisfy, the concept graph, speech intervals, log timing, preference
patches and the ranked queue. `dafny verify dfyconfig.toml` checks everything.

Tables are finite maps or sequences held by a value (`Db`, `Desk`, `Book`, `Graph`, `Table`); the classes `Store` and
`Workflow` update the same tables statement by statement and are proved equal to the specification on values, rollback
included. Identifiers, clocks, query results and other crates' results are parameters. A digest or a stored request body
is the value it was taken of, which is how collision freedom enters.

## How the modules fit together

| area | modules |
|---|---|
| shared | `Outcomes`, `Texts`, `Sets`, `Sums`, `SessionModel` |
| audit amendments | `DependencyGraph`, `AuditModel`, `AuditCommit`, `AuditOrder`, `AuditRevert`, `AuditRestoration`, `LaterAmendments`, `LaterReverts`, `AuditExamples`, `LaterExample`, `AuditStore` |
| what audits accept and write | `AuditValidity`, `AuditColumns`, `RevertRecords`, `JsonStrings` |
| compact to canonical | `CompactRequest`, `Expansion`, `ExpansionRun`, `CanonicalChecks`, `ExpansionChecks`, `ExpansionAcceptance` |
| expansions read back | `ExpansionReading`, `ExpansionEvidence` |
| review eligibility | `ReviewPolicy`, `ReviewDecisions`, `ReviewFairness`, `ReviewReasons`, `ReviewOrder`, `ReviewAdditions` |
| recording and scheduling | `ReviewLedger`, `ReviewChain`, `ReviewTimes`, `ReviewAdmission`, `SessionFacts`, `RecordingAcceptance`, `PracticeStore` |
| tutor handoffs | `Handoffs`, `HandoffRuns`, `HandoffFacts`, `HandoffExample`, `HandoffDesk`, `TutorQueues`, `QueueFacts` |
| briefs and activities | `Activities`, `RoundRobin`, `BriefPlanner`, `BriefChoices`, `PlanRecording`, `ActivityFacts` |
| graph, intervals, patches, ranking | `ConceptGraph`, `Taxonomy`, `TaxonomyEdges`, `SpeechIntervals`, `DeliveryMetrics`, `IntervalUnion`, `PreferenceMerge`, `PreferenceStore`, `PreferenceFacts`, `Ranking` |

An operation is proved equal to a specification function, and what that function computes is stated again in the fields of
its inputs alone, without the function: what a commit leaves in each column (`AuditColumns`), what an expansion says when
it is read back (`ExpansionReading`, `ExpansionEvidence`), which rows a recording adds (`ReviewAdmission`), which drill an
item gets (`BriefChoices`), which edges an upsert stores (`TaxonomyEdges`), and exactly what each of them accepts.

## Where the code and its promises part

- A committed run cannot always be reverted. The generated batch is refused when the run added a recovered finding,
  marked a finding as a duplicate, or rewrote a text that one of its own sources quotes, since the compensation takes
  those sources over. `AuditRestoration.RevertSucceedsIff` is the exact condition right after the commit and
  `LaterReverts.LaterRevertIff` at any later time; `AuditExamples.RecoveredFindingStays`,
  `AuditExamples.DuplicateFindingStays`, `AuditExamples.QuotedStatusBlocksRevert` and
  `AuditExamples.QuotedSummaryBlocksRevert` are inputs.
- A revert that goes through restores the rows two revisions on only for reversible amendments
  (`AuditRestoration.RevertRestoresIff` is exact). A null outcome that was overwritten stays overwritten, because
  `COALESCE` cannot write null (`AuditRestoration.NullOutcomeKept`, `AuditExamples.NullOutcomeIsLost`), and a summary that
  was there comes back as the JSON text of itself (`AuditRestoration.SummaryEncodedAgain`,
  `AuditExamples.SummaryComesBackEncoded`).
- A revert reads the current revision and then writes the old columns, so it overwrites later amendments of those columns
  without a word. `LaterAmendments.LaterAmendmentsSurviveIff` says exactly which columns survive;
  `LaterExample.LaterOutcomeIsOverwritten` is an input.
- Dependencies make a batch acyclic but do not order it: the ledger grows in list order. A dependency by short name must
  stand earlier in the list, one with the run's prefix need not. `AuditOrder.DependenciesFirstIff` is exact;
  `AuditExamples.ForwardDependencyIsAppliedFirst` is an input.
- The message of the review-day check speaks of an earlier timestamp, but only learning days are compared: an earlier
  timestamp on the same learning day is accepted, with zero elapsed days. `ReviewTimes.RecordedIff` is exact for a whole
  request, `ReviewTimes.TimestampsFallWithinADay` says what it means for a history, and
  `ReviewTimes.EarlierTimestampIsRecorded` is a run of two recordings.
- `practice_brief` itself does not check the bounds of an activity configuration; the server front end does. A plan with an
  out-of-bounds override can therefore be built and never recorded (`PlanRecording.PlansCanBeRecorded` is exact,
  `PlanRecording.ZeroSecondsArePlanned` is an input).
- Feedback retries are answered from storage before the source is compared, repair retries only after it: a stale source
  replays the first and refuses the second (`HandoffRuns.FeedbackRetryIsNoOp` and `HandoffRuns.RepairRetry` are exact,
  `HandoffExample.StaleSourceRefusesRepairRetry` is a desk).
- `diversify_segment` never moves a target: the search for an unused branch among the placed targets always fails.
- `merge` is associative exactly when the patch in the middle is an object
  (`PreferenceMerge.AssociativeExactlyForObjects`).

## Model

| member | source | states |
|---|---|---|
| DependencyGraph.EnsureAcyclic | src/audit.rs:1038-1081 | the three-colour search accepts exactly the acyclic graphs; acceptance yields a topological order of all proposals, refusal a real path from the reported node back to itself |
| DependencyGraph.PathDescends | src/audit.rs:1038-1081 | along any path, positions in the order found strictly fall |
| DependencyGraph.TopologicalOrderIsAcyclic | src/audit.rs:1038-1081 | a graph with a topological order has no cycle |
| AuditCommit.CommitEffects | src/audit.rs:1083-1224 | a commit raises each newly amended entity's revision by one from its expected value, amends no entity twice and leaves every other row alone; an amended session's summaries are what its amend_summary writes, all others are untouched; and the ledger grows by exactly the new proposals, in list order |
| AuditCommit.CommitClosesRun | src/audit.rs:1172-1208 | only the batch's own run is closed, with its applied count raised by what was applied |
| AuditCommit.ValidTargetsDistinct | src/audit.rs:948-1036 | in a committed batch no two fresh amendments share an entity, recovered findings aside |
| AuditCommit.RevisionsRise | src/audit.rs:1083-1170 | over a run of amendments no revision ever falls and an amended entity's strictly rises |
| AuditCommit.ReplayIsNoOp | src/audit.rs:948-1036 | applying a committed batch again skips every proposal and changes nothing |
| AuditCommit.CommitKeepsInvariants | src/audit.rs:1172-1224 | a commit keeps every row within its table constraints and every summary dated by its session |
| AuditValidity.BatchIff | src/audit.rs:785-1036 | the batches validation accepts: every proposal fits the table of its operation, cites what is there in its own words and is built from its entity as it stands (or is recorded alike), and no proposals need one another in a ring |
| AuditColumns.CommitWritesColumns | src/audit.rs:1083-1170 | column by column, what a commit leaves in the row of each amendment and in its session's summaries: the fields of the proposal, the fixed status, or the old value; the revision rises by one and nothing else moves |
| AuditColumns.CommitAddsFindings | src/audit.rs:1124-1127 | each recovered finding adds one row under the next identifier, in list order, with the fields of its proposal column by column, an item and an attempt it names being of its session; no other row is added |
| AuditColumns.CommitStaysConstrained | sql/sqlite_schema.sql:269-471 | after a commit every row holds words its table allows and no two sessions share a source event |
| AuditOrder.DependenciesFirstIff | src/audit.rs:1019-1034 | after any commit, the first of its run or a resumed one, every recorded proposal stands after those it depends on exactly when that held before, nothing recorded waits for a proposal of this batch, and no prefixed dependency among the new ones points forward |
| AuditRevert.RevertIdInjective | src/audit.rs:1312-1391 | generated compensation names never collide |
| AuditRevert.RowRestored | src/audit.rs:1312-1391 | an amendment followed by its compensation gives the row back two revisions on exactly when no null outcome was overwritten |
| AuditRevert.Unwind | src/audit.rs:1312-1391 | compensating newest first, on any database that still shows what the run left, takes every amended row and summary back and moves nothing else |
| AuditRestoration.CompensationsValid | src/audit.rs:755-940 | for a run without uncompensable amendments, the generated batch passes all of validation exactly when the snapshot hash is one and every text the run quotes still stands in the rows and summaries it leaves |
| AuditRestoration.RevertSucceedsIff | src/audit.rs:1312-1391 | reverting a committed run succeeds exactly when it added no recovered finding, marked no finding as a duplicate and rewrote no text it quotes, in a row or in a session's summary, and the snapshot hash is one |
| AuditRestoration.RevertRestoresIff | src/audit.rs:1312-1391 | a revert that succeeds applies one compensation per amendment, only appends to the ledger, and restores rows (two revisions on) and summaries exactly when every amendment is reversible |
| AuditRestoration.RevertLeaves | src/audit.rs:1312-1391 | each amended entity is left as the amendment and its inverse make it, summaries included |
| AuditRestoration.NullOutcomeKept | src/audit.rs:1083-1170 | an outcome that was null keeps the amended value through the revert |
| AuditRestoration.SummaryEncodedAgain | src/audit.rs:1352-1375 | an audit summary that was there comes back as the JSON text of itself |
| JsonStrings.StringsReadBack | src/audit.rs:1128-1141 | the JSON text a summary is kept as says everything its string said: every string is read back from its text |
| RevertRecords.RevertRecordsAll | src/audit.rs:1312-1391 | a revert appends one entry per applied proposal of the run, newest first, with the name, digest, old columns, sources and reason it derives from it, and closes a run of its own |
| LaterAmendments.RevertOverwrites | src/audit.rs:1312-1391 | at any later time a revert writes the old columns over what its entities then show, one revision on, and touches no other row |
| LaterAmendments.LaterAmendmentsSurviveIff | src/audit.rs:1349-1375 | later writes survive the revert exactly in the columns the compensation leaves alone or writes the same value to |
| LaterReverts.LaterRevertIff | src/audit.rs:1312-1391 | at any later time a run of any length can be reverted exactly when each amendment has an inverse and what it cites still stands, no entity was amended twice, the tables take the old columns back one after the other, newest first, and the snapshot hash is one |
| LaterExample.LaterOutcomeIsOverwritten | src/audit.rs:1338-1355 | two committed runs on one outcome; reverting the first brings back the outcome from before it and loses the second |
| AuditExamples.NullOutcomeIsLost | src/audit.rs:1083-1170 | an item whose outcome was null, marked correct by a run; after the revert it is still correct |
| AuditExamples.DuplicateFindingStays | src/audit.rs:1352-1375 | a committed run marking a finding as a duplicate whose revert is refused |
| AuditExamples.RecoveredFindingStays | src/audit.rs:1346-1366 | a committed run adding a recovered finding whose revert is refused |
| AuditExamples.QuotedStatusBlocksRevert | src/audit.rs:1376-1378 | a committed retraction that quotes the status it retracts; it has an inverse and yet its revert is refused |
| AuditExamples.QuotedSummaryBlocksRevert | src/audit.rs:926-939 | a committed amendment of a summary that quotes the summary it replaces; it has an inverse and yet its revert is refused |
| AuditExamples.SummaryComesBackEncoded | src/audit.rs:1352-1375 | a session with the summary text fair, amended and reverted; the summary is then the JSON text of fair |
| AuditExamples.ForwardDependencyIsAppliedFirst | src/audit.rs:1172-1208 | a valid batch of two whose first proposal depends on the second, and is recorded before it |
| AuditStore.Store.ValidateBatch | src/audit.rs:948-1036 | accepts exactly the valid batches: metadata, every proposal against the tables and the ledger, acyclic dependencies |
| AuditStore.Store.SetStatus | src/audit.rs:1083-1170 | the guarded updates leave the tables as the specification of one amendment says, or report exactly its error |
| AuditStore.Store.ApplyBatch | src/audit.rs:1210-1224 | commits exactly what the specification of the batch gives, or reports its error and changes nothing |
| AuditStore.Store.RevertBatch | src/audit.rs:1312-1391 | builds and applies the compensating batch as specified, or reports its error and changes nothing |
| CompactRequest.AttemptNumbersInOrder | src/tutoring.rs:421-470 | attempt numbers are a bijection from nested positions onto 1..A that follows array order |
| CompactRequest.ObservationNumbersInOrder | src/tutoring.rs:421-470 | observation numbers are a bijection onto 1..O in the order turn, attempt, observation |
| CompactRequest.OffsetsAscend | src/tutoring.rs:639-780 | what one attempt contributes to a flat list ends before what a later attempt contributes begins |
| ExpansionRun.Expand | src/tutoring.rs:385-923 | expansion succeeds exactly on the expandable requests, and its result places every nested element at the position its array order gives, once, with every reference turned into the number of the element it names |
| ExpansionChecks.ObservationsInOrder | src/tutoring.rs:639-780 | read in the validator's order, the observations of an expansion are numbered 1..O |
| ExpansionChecks.FindingsLinked | src/db.rs:363-613 | every finding of an expansion names an existing item and attempt that belong together |
| ExpansionChecks.ExpansionEvidenceLinked | src/production.rs:711-826 | the evidence of an expansion has one record per attempt and observation, nested under its own attempt, originals earlier, interventions after before before |
| ExpansionChecks.ExpansionPassesChecks | src/db.rs:363-613 | every successful expansion passes the recorder's number and link checks and the evidence links |
| ExpansionAcceptance.ExpandableIff | src/tutoring.rs:289-850 | which requests are expanded: how much there is of everything, the texts, that each reference names something, that originals come before their corrections, and that unassessed feedback fits when joined |
| ExpansionReading.TurnsAreRead | src/tutoring.rs:560-780 | read back through item numbers, every turn has its item, its attempts in order with all observations, and the findings on each |
| ExpansionReading.ReviewsAreRead | src/tutoring.rs:782-850 | every citation of a review names the observation its reference named: that place of that attempt of that turn, with its content |
| ExpansionReading.NumbersTellApart | src/tutoring.rs:294-335 | a number cites one observation only, so distinct references get distinct numbers |
| ExpansionReading.AssessmentsAreRead | src/tutoring.rs:880-915 | every task assessment is for the attempt its reference named |
| ExpansionEvidence.EvidenceIsRead | src/tutoring.rs:584-780 | the evidence on an attempt is what the request said of it: its record, the attempt its original named, a verdict for each observation, and each intervention after it with the attempt it precedes |
| ExpansionEvidence.EvidenceIsWhole | src/tutoring.rs:533-556 | evidence is there exactly when any part of it is supplied; opportunities and variations stand in order and the variations cite what their references named |
| ExpansionEvidence.FeedbackIsRead | src/tutoring.rs:364-383 | without evidence an item's feedback holds the lines of all interventions of its turn in order, with evidence there is none |
| CanonicalChecks.ValidateEvidence | src/production.rs:711-849 | the evidence loops accept exactly the evidence that is linked and consistent |
| ReviewFairness.CountedIff | src/production.rs:850-926 | the ladder of exclusions lets a record count exactly when it is an assessable use of the target, cold or in a transfer, in an open drill, with no hint, cue, model or earlier intervention |
| ReviewDecisions.SortDedup | src/production.rs:1050-1068 | reason codes come out in name order without duplicates, none lost |
| ReviewDecisions.Inspect | src/production.rs:946-1009 | one pass over the verdicts collects support, exclusions, codes, failure and scenarios |
| ReviewDecisions.ReviewDecision | src/production.rs:927-1069 | the loop decides as the declarative account of the rule says |
| ReviewReasons.ExcludedForReason | src/production.rs:850-1000 | a record is excluded for the first of seven reasons that applies to its raw fields, and counts when none does |
| ReviewReasons.SuppliedIff | src/production.rs:441-474 | a prompt supplies the target exactly when it says, in capitals or not, one of the instructions, or a form of something the attempt practises |
| ReviewReasons.CodesMean | src/production.rs:927-1069 | what each code of a decision says of the session: failures, citations, variety, explanation and effort |
| ReviewReasons.NumbersMean | src/production.rs:946-1009 | the supporting numbers are the cited independent uses, the excluded ones the cited records with a reason |
| ReviewReasons.CodesInNameOrder | src/production.rs:1050-1051 | the codes stand in the order of their wire names, none twice |
| ReviewFairness.EligibleIff | src/production.rs:1010-1068 | a review is eligible exactly when its support is varied and covered, it says Again iff there is a failure, every failure is cited, nothing unassessable is cited, and other ratings are explained with known effort |
| ReviewFairness.EligibleMeans | src/production.rs:946-1068 | an eligible review says Again iff some independent attempt failed, cites every such failure, and rests on independent uses from two scenarios covered by one variation assessment |
| ReviewFairness.NoCherryPicking | src/production.rs:946-1068 | two eligible reviews of one target, however cited, rated and explained, agree on whether it failed |
| ReviewFairness.MoreHelpLessSupport | src/production.rs:850-926 | reporting further interventions can only shrink the supporting set |
| ReviewOrder.OrderDoesNotMatter | src/production.rs:946-1068 | reordering the evidence records changes neither eligibility nor the sorted codes nor the observations on either side |
| ReviewAdditions.SetAsideAttemptsDoNotMatter | src/production.rs:946-1068 | a further attempt whose observations are all set aside, of a turn that is there or of one of its own, with the interventions that follow, changes neither eligibility nor support, cited or not |
| ReviewChain.LearningDayIsShifted | src/db.rs:166-173 | the hour branch of the learning day is a shift of the day boundary by the cut-off |
| ReviewChain.RunKeepsInv | src/db.rs:2276-2693 | over every run of recordings, keys and sessions correspond one to one, every item's reviews form an unbroken chain, and nothing recorded changes |
| ReviewChain.ReplaysForGood | src/db.rs:2276-2307 | after a recording, whatever follows, the same request replays its response and any other under its key is refused, with no change |
| ReviewChain.ElapsedTelescopes | src/db.rs:174-183 | along a chain days never go back, elapsed days add up to last day minus first, and the due day is later |
| ReviewChain.CacheIsReplay | src/db.rs:2617-2649 | in every reachable book an item's cached memory is what replaying its own ratings and intervals yields, due on its last day plus its interval |
| ReviewChain.OnlyAdmittedReviewsMove | src/db.rs:2567-2661 | exactly the admitted reviews leave a row, in order, and only the items they name change |
| ReviewChain.EveryMoveIsHonest | src/db.rs:2588-2649 | every review row ever added says Again exactly when its session holds an independent failure of that target |
| ReviewTimes.RecordedIff | src/db.rs:2276-2661 | a request under a new key is recorded exactly when it is valid and acceptable and each review is the first for its target, which is known and declared, and if admitted not on an earlier learning day than the last one |
| ReviewTimes.TimestampsFallWithinADay | src/db.rs:174-183 | in every reachable book, where an item's timestamps go back they and all reviews between them stay on one learning day |
| ReviewTimes.EarlierTimestampIsRecorded | src/db.rs:174-183 | two recordings of one run, both accepted, the second dated an hour before the first |
| RecordingAcceptance.RecordedExactly | src/db.rs:2255-2694 | a request under a new key is recorded exactly when its links and evidence hold, its policy version, date and targets are in order, and each review can be taken |
| SessionFacts.ValidIff | src/db.rs:363-613 | the validators accept exactly the sessions whose numbers each name one entry, whose links resolve, and whose evidence matches attempts and observations one to one |
| ReviewAdmission.RowsWereLetThrough | src/db.rs:2588-2649 | every row a recording adds comes from a review whose decision is eligible and whose supporting uses the rating policy accepts, and says what the step made of the item's state |
| ReviewAdmission.LetThroughLeavesRow | src/db.rs:2588-2649 | every review that is let through leaves exactly one row, and its item shows that row's state |
| ReviewAdmission.RefusedLeavesItem | src/db.rs:2600-2613 | a review refused by the rule or by the policy leaves no row and its item as it was |
| ReviewAdmission.RecordingAdds | src/db.rs:2536-2694 | besides rows, a recording adds one session dated by its learning day, the entry that replays it and the new targets |
| PracticeStore.Store.TakeReviews | src/db.rs:2567-2661 | the loop writes the rows and cached states of the admitted reviews, or reports the first error |
| PracticeStore.Store.RecordPractice | src/db.rs:2255-2694 | one transaction: replays, conflicts, or records as specified, and on any error leaves every table as it was |
| HandoffRuns.RunKeepsInv | src/workflow.rs:111-298 | over every interleaving with audits: distinct identifiers and workspaces, at most one assessment per handoff with excerpts verbatim from the frozen attempts, repairs in range and at most 64, and rows only appended |
| HandoffRuns.SnapshotFrozen | src/workflow.rs:142-161 | a handoff's snapshot, and its assessment once given, never change |
| HandoffRuns.FeedbackRetryIsNoOp | src/workflow.rs:162-183 | retrying accepted feedback after any run changes nothing and answers with it, even when the source is stale |
| HandoffRuns.FeedbackIsFinal | src/workflow.rs:162-193 | once given, any other feedback for the handoff or under the key is refused for good |
| HandoffRuns.RepairRetry | src/workflow.rs:262-298 | an accepted repair sent again after any run changes nothing and succeeds exactly while the source is current |
| HandoffRuns.FeedbackGivenWhileCurrent | src/workflow.rs:185-261 | every assessment a run added was given by one of its steps, when the source was current, the handoff had no other and the assessment fitted it |
| HandoffRuns.RepairTakenWhileCurrent | src/workflow.rs:262-298 | every repair a run added was taken by one of its steps, when the source was current, its number in range and fewer than 64 stored |
| HandoffRuns.HandoffMadeWhileCurrent | src/workflow.rs:111-141 | every handoff a run added froze the session as it stood at that step, for a workspace without one |
| HandoffExample.StaleSourceRefusesRepairRetry | src/workflow.rs:162-298 | a desk and an audit after which the repair's retry is refused and the feedback's retry answered, neither changing anything |
| HandoffFacts.GetPresents | src/workflow.rs:142-161 | a view shows the handoff, the assessment on it, the repairs on it in order, and whether its snapshot still shows the session's active attempts |
| HandoffFacts.NewHandoffIff | src/workflow.rs:99-141 | a workspace gets a handoff exactly when its session has 1 to 64 active attempts within the size limit; the snapshot shows those attempts in order |
| HandoffFacts.NewFeedbackIff | src/workflow.rs:162-261 | feedback under a new key is stored exactly when it is within limits, the first on its handoff, quotes word for word and answers what was asked, while the source stands |
| HandoffFacts.UsedKeyIff | src/workflow.rs:167-183 | feedback under a used key is answered when it is the same again and a conflict otherwise |
| HandoffFacts.NewRepairIff | src/workflow.rs:262-298 | a repair attempt under a new key is stored exactly when the assessment has that repair, the source stands and fewer than 64 are stored |
| HandoffFacts.UsedRepairKeyIff | src/workflow.rs:274-298 | under a used key nothing changes; the same attempt is answered exactly while the source stands, any other refused |
| HandoffRuns.WorkspaceKeepsHandoff | src/workflow.rs:111-141 | a workspace keeps showing the handoff it was given, after any run, and another session for it is a conflict |
| HandoffDesk.Workflow.CreateHandoff | src/workflow.rs:111-141 | inserts or answers as specified and keeps the invariant |
| HandoffDesk.Workflow.CheckPoints | src/workflow.rs:217-253 | the loop accepts exactly the point assessments that are requested, verbatim and not repeated |
| HandoffDesk.Workflow.Feedback | src/workflow.rs:162-261 | stores or answers as specified and keeps the invariant |
| HandoffDesk.Workflow.Repair | src/workflow.rs:262-298 | stores or answers as specified and keeps the invariant |
| TutorQueues.CountingFindsMissing | src/workflow.rs:312-324 | fewer distinct repairs done than proposed iff some repair has no attempt, and the difference is how many |
| TutorQueues.Actions | src/workflow.rs:299-326 | lists, for the twenty newest handoffs, those current ones with a repair still missing and how many |
| QueueFacts.ActionsMean | src/workflow.rs:299-326 | the queue lists exactly the pending ones among the twenty newest handoffs, newest first, each with the number of repairs nobody attempted |
| TutorQueues.EveryPointIsDecided | src/workflow.rs:339-346 | each assessed point has exactly one deciding assessment, the last among those with the greatest attempt number |
| TutorQueues.TaskGaps | src/workflow.rs:330-388 | counts the points whose deciding assessment is partial or missing |
| QueueFacts.HandoffEntriesMean | src/workflow.rs:349-386 | a handoff contributes, while its source stands, one entry for each point on an attempt under its task key, in order, a gap when met in part or missing |
| QueueFacts.SessionHandoffsMean | src/workflow.rs:333-336 | the handoffs looked at are the first twenty of the session |
| Activities.MergedConfigFits | src/activities.rs:275-386 | completing an override keeps it fitting and in bounds, and leaves only the transformation sprint empty |
| Activities.ValidateActivityRecording | src/activities.rs:544-748 | the loops accept exactly the recordings whose runs, items, stimuli and counts satisfy the declarative rules |
| ActivityFacts.RecordingIff | src/activities.rs:544-748 | the accepted recordings: runs in bounds with the stimuli their activity needs, every item of a run with a fitting drill, and as many items and complications as configured |
| RoundRobin.Allocate | src/db.rs:3649-3665 | gives each target one item and the rest in rounds: exactly the share it gets by taking turns |
| RoundRobin.VisitsClosed | src/db.rs:3649-3665 | shares differ by at most one and the first targets get the larger ones |
| RoundRobin.VisitsCount | src/db.rs:3649-3665 | a target's share is the number of items k with k mod n its position |
| RoundRobin.SharesAddUp | src/db.rs:2990-2991 | the allocations add up to the number of items |
| RoundRobin.TakeTurns | src/db.rs:3013-3024 | the cursor loop never runs out and gives item k to target k mod n |
| BriefPlanner.Leading | src/db.rs:1777-1784 | the recommendation that sorts first is one nothing in the list precedes |
| BriefPlanner.LeadingIgnoresOrder | src/db.rs:1777-1784 | two listings of the same recommendations, one per drill and stage, have the same leading one |
| BriefPlanner.PlanIgnoresListOrder | src/db.rs:2798-3064 | a plan does not depend on the order in which the stored recommendations of its targets are listed |
| BriefChoices.PlanChooses | src/db.rs:1705-1797 | every item has the drill of the recommendation that comes first, by weight and wire names, among those of its target the activity, the caller's list and the mix permit |
| BriefChoices.RefusedForWantOfDrills | src/db.rs:1778-1782 | a fitting request is refused for want of drills exactly when a target has no permitted recommendation |
| BriefChoices.PlanSays | src/db.rs:2798-3064 | the rest of a plan, from the request alone: configuration, targets, number and phase of items, time to respond, and allocations as counts of items |
| ActivityFacts.DrillsIff | src/activities.rs:33-51 | the activities each drill goes with |
| ActivityFacts.DefaultsMean | src/activities.rs:143-257 | what each activity does where nothing is configured, and how many items it has |
| ActivityFacts.RequestIff | src/db.rs:2779-2870 | which requests fit before any target is looked at, activity by activity |
| BriefPlanner.PracticeBrief | src/db.rs:2798-3064 | a plan is made exactly for the plannable requests, and has the stated targets, allocations, drills, phases and configuration |
| PlanRecording.ComplicationsPlanned | src/activities.rs:499-517 | a role-play ends in exactly the configured number of complications and no other activity has any |
| PlanRecording.PlansCanBeRecorded | src/activities.rs:544-748 | a run carried out from a plan passes the recorder's check exactly when the override was in bounds |
| PlanRecording.ZeroSecondsArePlanned | src/db.rs:2824-2846 | a request for zero seconds to respond, its plan, and a run carried out from it; neither that run nor any other of a plan for it is accepted |
| PlanRecording.PlanExists | src/db.rs:2798-3064 | every plannable request has a plan |
| PlanRecording.RunExists | src/activities.rs:519-543 | every plan can be carried out, with stimuli its activity accepts |
| ConceptGraph.Reachable | src/taxonomy.rs:92-103 | the recursive query finds exactly what the start reaches |
| ConceptGraph.GuardIsExact | src/taxonomy.rs:82-106 | in an acyclic graph, adding an edge keeps it acyclic precisely when the object does not reach the subject |
| Taxonomy.ValidateConceptKey | src/taxonomy.rs:7-25 | accepts exactly the keys of at most 160 bytes made of non-empty lower-case segments with single separators |
| Taxonomy.CanonicalPairIsSymmetric | src/taxonomy.rs:27-33 | the two orders of a pair are stored alike, in order |
| Taxonomy.RunKeepsInv | src/db.rs:3783-3868 | every run of upserts keeps both hierarchies acyclic, edges between distinct concepts, and symmetric pairs in one direction |
| Taxonomy.OnlyCyclesAreRefused | src/db.rs:3783-3868 | an upsert with any list of edges fails exactly when its own concept is not in order, an edge names an unknown concept, or its edges together would close a cycle |
| Taxonomy.StoredEdgeIsAccepted | src/db.rs:3866-3866 | sending a stored edge again is accepted and changes nothing |
| TaxonomyEdges.ListedEdgeIsStored | src/db.rs:3844-3868 | a listed broader or requires edge is stored from the concept to the other; of a symmetric pair exactly one order is, the lesser key first |
| TaxonomyEdges.UpsertMovesEdges | src/db.rs:3812-3868 | no edge is lost or changes its provenance, each input's edge is there, and a new edge has the provenance of the first input asking for it |
| TaxonomyEdges.UpsertStoresConcept | src/db.rs:3783-3816 | the concept has the scheme and title of the upsert and is active unless it says otherwise, every other concept is as it was |
| TaxonomyEdges.AcceptedIff | src/db.rs:3783-3868 | an upsert is accepted exactly when its concept is in order, the others it names are known, and both hierarchies stay free of cycles with all its edges |
| Taxonomy.Store.InsertEdge | src/db.rs:3844-3868 | refuses exactly the closing edges, else inserts unless the row exists or is a self edge |
| Taxonomy.Store.UpsertConcept | src/db.rs:3783-3833 | upserts as specified, or rolls everything back |
| SpeechIntervals.ExtractRuns | src/practice/analysis.rs:89-107 | finds, in order, exactly the maximal voiced runs of at least five frames |
| SpeechIntervals.MergedIsSeparated | src/practice/analysis.rs:109-124 | merged intervals are in order and at least seven frames apart |
| SpeechIntervals.DeterminedByFrames | src/practice/analysis.rs:109-124 | separated intervals are determined by the frames they cover |
| SpeechIntervals.MergedIsTheSpeech | src/practice/analysis.rs:89-124 | the merged list is the one separated list covering exactly the frames in runs of 150 ms or in gaps of under 200 ms between them |
| DeliveryMetrics.SpanIsSpeechAndGaps | src/practice/analysis.rs:126-141 | the span is the speech plus every gap, and no gap needs flooring |
| DeliveryMetrics.BuildDeliveryMetrics | src/practice/analysis.rs:78-196 | times add up, cutting ends off at the length of the recording never takes effect, pauses never exceed span minus speech, burden lies below one without clamping, long pauses are among internal pauses, fewer than the intervals, and every figure is the one the intervals give: gaps of at least half a second and two seconds, their number, sum, largest and rate per minute |
| IntervalUnion.UnionIsCoverage | scripts/analyze_mcp_logs.py:316-327 | an instant is in the union exactly when some span covers it |
| IntervalUnion.UnionDuration | scripts/analyze_mcp_logs.py:316-327 | in any order and with any overlap, the result is the size of the union of the spans |
| IntervalUnion.TimingSummary | scripts/analyze_mcp_logs.py:330-395 | busy time counts the instants at which some call is under way inside the bounds, the window runs from the lower bound or first instant seen to the upper bound or last one, and busy time and gap make it up |
| PreferenceMerge.Merge | src/production.rs:184-194 | the in-place editing leaves the specified document |
| PreferenceMerge.MergeIsAssociative | src/production.rs:184-194 | applying two patches is applying their merge |
| PreferenceMerge.AssociativeExactlyForObjects | src/production.rs:184-194 | this holds for all documents exactly when the middle patch is an object |
| PreferenceMerge.MergeIsIdempotent | src/production.rs:184-194 | sending a patch twice is sending it once |
| PreferenceMerge.LeavesArrive | src/production.rs:184-194 | a leaf of the patch ends up at its path, unless the document has a leaf on the way there |
| PreferenceMerge.OutsideStays | src/production.rs:184-194 | a path the patch does not speak of keeps its value |
| PreferenceMerge.LeavesStay | src/production.rs:184-194 | a leaf of the document stays where the patch has an object |
| PreferenceMerge.ObjectsArrive | src/production.rs:184-194 | where the patch has an object the result has one too, unless the document has a leaf on the way |
| PreferenceStore.RunKeepsInv | src/production.rs:231-260 | however reads and writes interleave, the version counts the accepted updates and each was computed from the one it replaced |
| PreferenceStore.VersionsRiseByOne | src/production.rs:242-260 | a step raises the version by one exactly when it commits a call that read the standing version |
| PreferenceStore.LostUpdateImpossible | src/production.rs:253-258 | of two calls that read one version at most one is accepted, whatever happens between their writes |
| PreferenceStore.CommitLeaves | src/production.rs:242-260 | an accepted update leaves its own result under the next version and its source, a rejected one leaves the row alone |
| PreferenceFacts.StorableIff | src/production.rs:184-230 | the documents that may be stored are exactly what typed preferences in bounds are written as |
| PreferenceFacts.BeginIff | src/production.rs:242-252 | a call gets to its write exactly with a source, an object for a patch, the standing version and a result that may be stored |
| PreferenceFacts.StoredIsARecord | src/production.rs:195-260 | whatever calls interleave, what is stored is a typed record in bounds, written |
| PreferenceStore.StoredIsDefaultsPatched | src/production.rs:195-230 | stored preferences are valid, with a budget from 1 to at most 50, and are the defaults with all accepted patches merged into one |
| PreferenceStore.Store.Update | src/production.rs:242-260 | an uninterrupted update stores what a read followed by its write stores |
| Ranking.CompareAntisymmetric | src/db.rs:880-908 | the comparison of two targets reverses with them and is equal only on equal keys |
| Ranking.CompareTransitive | src/db.rs:880-908 | the comparison is transitive |
| Ranking.CompareMeans | src/db.rs:875-911 | what comes first: due before new, earlier due, more and later errors, less likely remembered, then the key |
| Ranking.LoadOrderDoesNotMatter | src/db.rs:875-911 | sorting rows with distinct keys gives the one ranked permutation, whatever order they were loaded in |
| Ranking.DiversifySegment | src/db.rs:925-941 | the stretch comes out in the order it went in |
| Ranking.DiversifyRows | src/db.rs:912-923 | so does the whole queue |
| Ranking.KeepBetter | src/db.rs:1582-1596 | the table holds the unbeaten candidate of every drill and stage seen so far, the new candidate included |
| Ranking.Recommendations | src/db.rs:1598-1643 | lists in strict order one recommendation per drill and stage, which no row of that kind beats, from a target's own rows if it has any and else from those it inherits |
| Ranking.RecommendationsIgnoreOrder | src/db.rs:1598-1643 | that list does not depend on the order or repetition of the rows, nor on the order in which the table yields its values |

## Left out

- HTTP, MCP and OAuth handling, configuration, telemetry, providers, exports, read-only reports and SQL text.
- AuditRestoration.RevertSucceedsIff: assumes proposals built from the entity as shown, and a run identifier and a revert
  name not used before.
- AuditRestoration.RevertRestoresIff: the same assumptions.
- LaterAmendments.RevertOverwrites: assumes a revert name not used before.
- LaterReverts.LaterRevertIff: the same assumption.
- RevertRecords.RevertRecordsAll: the same assumption.
- AuditStore.Store.ApplyBatch: entity identifiers are integers.
- ExpansionRun.Expand: does not model the length limits of fields that no rule here reads (they travel together), nor the
  wording of errors; strings are measured in characters where the source measures bytes, and trimming knows the ASCII
  white space only.
- ExpansionChecks.ExpansionPassesChecks: leaves out the checks that expansion does not establish, among them blank-text
  checks of the evidence, the fit of accuracy and outcome, and the cross-references to stored weaknesses.
- ReviewFairness.CountedIff: lower-casing of prompts covers ASCII and Latin-1 letters.
- PracticeStore.Store.RecordPractice: the rating policy that compares an eligible review with the stored observations is a
  parameter, decided before the rows are written; activities, findings, clips and the statistics of weaknesses are not
  recorded. The spaced-repetition step and the local time zone are parameters too.
- ReviewTimes.RecordedIff: assumes that the spaced-repetition step itself does not fail.
- RecordingAcceptance.RecordedExactly: the same assumption, and a cut-off hour of at most 24.
- ReviewAdmission.RowsWereLetThrough: a cut-off hour of at most 24.
- HandoffRuns.RunKeepsInv: the sizes of serialised snapshots and requests are carried as numbers, and generated handoff
  identifiers are parameters that may collide.
- TutorQueues.TaskGaps: the latest session and its recorded assessments are query results given as parameters.
- TutorQueues.Actions: newest first is by order of insertion; equal creation times are not modelled.
- BriefPlanner.PracticeBrief: covers briefs for an activity outside the spontaneous mode; loading, due dates and error
  examples of targets are left out, and the order of candidates is given.
- Activities.ValidateActivityRecording: timing and reflections of attempts are left out.
- Taxonomy.Store.UpsertConcept: scheme, definition and notes are kept only as far as an upsert checks them.
- DeliveryMetrics.BuildDeliveryMetrics: exact arithmetic; the median pause, resampling and the detector are left out.
- IntervalUnion.UnionDuration: requires spans that do not end before they start, which its caller guarantees; timestamps
  are whole microseconds and figures are not rounded.
- PreferenceStore.Store.Update: preferences are their JSON document, and a patch is any JSON object; reading a patch with
  typed fields is left to the server front end.
- Ranking.LoadOrderDoesNotMatter: retrievability is a real, never NaN, and dates are day numbers.
- `descendant_ids` is a bounded form of the reachability already modelled.
