# Tutor core verification

A Dafny model of the stateful and arithmetic core of the tutoring server, with proofs of what
that core promises over every input, every run and every interleaving. `dafny verify
dfyconfig.toml` checks everything.

The modules follow the program's components.

- **Memory maintenance** (`Maintenance`, `MaintenanceProofs`, `MaintenanceWrites`,
  `MaintenanceResults`, `MaintenanceRetries`, `MaintenanceClaims`, `MaintenanceReplays`,
  `MaintenanceCommits`, `MaintenanceProgress`, `MaintenanceStamps`, `MaintenanceWitness`,
  `MaintenanceStore`): leased, checkpointed, paged consolidation of session notes. Each transaction is
  one atomic step; writers that add, edit and delete sources, targets and archives, with any stamps,
  run between any two steps. `MaintenanceStore.Store` is the same thing as loops over rows updated in
  place, proved equal to the steps.
- **Assessment evidence** (`Rubrics`, `Scores`, `ScoreProofs`, `ScoreAcceptance`, `ScoreMethods`,
  `Evidence`, `EvidenceProofs`, `EvidenceResults`, `EvidenceHistory`, `EvidenceTransitions`,
  `EvidenceStore`): frozen rubrics, exact scoring, the attempt life cycle, reviews, adjudications,
  curriculum revisions, and the readers that derive "trusted and passed" from all of them.
- **Learner model** (`Bkt`, `BktOrder`, `IndividualBkt`, `IndividualShift`, `Fsrs`, `FsrsReference`,
  `Collective`, `CollectiveRuns`): Bayesian updates, the FSRS-5 memory state machine and the
  bounded-step publisher of collective parameters, over exact reals.
- **Bounded tables** (`Lru`, `RateLimits`, `LoginFailures`, `LoginRecency`, `Cimd`): in-memory tables with a
  recency order, compared with unbounded specifications.
- **Canonical encoding** (`Nostr`): the byte-level event serialization of NIP-01, section "Events
  and signatures", with UTF-8 decoding and encoding written out.
- **Transactional bookkeeping** (`Catalog`, `CatalogMoves`, `CatalogStore`, `Badges`,
  `BadgeTruncation`): seats of cohorts under retried and interleaved requests, and the run of recalls
  behind a retention badge.
- `Options`, `Texts`, `Sets`, `Reals` and `Ordering` hold the optional value, white space, sizes of sets,
  signs of products, and the text and key order of ordered queries.

Findings. Where the code and its own comments disagree, the model follows the code:

- A comment in the commit transaction (db/consolidation_maintenance.go:575-576) says that a source
  added after the final page was claimed "becomes another batch". That batch is refused at commit:
  a source stamped after the checkpoint's start fails the prefix check, and no claim or commit
  restarts the checkpoint. `MaintenanceProgress.WriteAfterClaimBlocks` and
  `MaintenanceProgress.BlockedForever` prove it, and `MaintenanceWitness.BlockingRun` is such a run;
  `MaintenanceProgress.ClaimedBatchCommitsIff` gives the exact condition under which a claimed batch
  commits.
- A session write takes its stamp before it waits for the learner's lock (db/narrative_store.go:248),
  so it can be stored after a claim with a stamp from before it, and a job that has already read there
  cannot notice it. A completion can then cover notes it never saw: an edit of a committed source
  (`MaintenanceWitness.OldStampRun`), or a new row that makes up the count of a deleted one
  (`MaintenanceWitness.RestoredCountRun`). On every run, with any stamps, a completion is exact if and
  only if every row of the period whose latest write the job could not notice is listed as it is
  stored (`MaintenanceWrites.EveryCompletionIsExactIff`).
- A comment above the retention award (db/badges.go:134-135) says that reading only the newest 500
  rows "can only delay an award" and "cannot invent an earlier start". Both fail on a history of 502
  rows (`BadgeTruncation.TruncationCanInventAward`, `BadgeTruncation.TruncationCanInventStart`). For
  every history, `BadgeTruncation.WindowStartsEarlierIff` and `BadgeTruncation.WindowInventsAwardIff`
  say exactly when the window does it; `BadgeTruncation.StartNeverInventedIff` and
  `BadgeTruncation.AwardInventedIff` say when any cut would.

Other promises hold under a condition that is proved exact:

- Idle cleanup of the rate limiter is invisible exactly when there is a burst and ten minutes refill
  it (`RateLimits.ForgettingIsInvisibleIff`). Under the same condition, and no other, a key is granted
  at most the burst plus what the rate refills (`RateLimits.GrantsBoundedIff`). The
  environment may set any positive rate and burst (main.go:418-421) and the constructor accepts any
  at all; all of them are covered.
- The order of Bayesian measurements does not matter exactly when the responses are impossible under
  mastery or the epsilon guard leaves the same denominator in both orders
  (`BktOrder.OrderIgnoredIff`).
- A weight version is applied to a learner again exactly when it is still the current one of its
  policy and the learner's latest version is of another policy (`CollectiveRuns.ReappliedIff`); so it
  moves a learner at most once while no policy is returned to.
- A retention run lies after its last break exactly when that break is not itself counted
  (`Badges.RunAfterBreakIff`).
- No worse reported rates are read as no worse signals, exactly unless an error rate of 0, which is read
  as unknown and replaced by the complement of the success rate, comes out above the other profile's
  (`IndividualShift.RatesAreSignalsIff`).
- An individualized measurement moves mastery in the direction of the answer exactly when the
  parameters in use say so, the epsilon guard included (`IndividualBkt.IndividualDirectionIff`).

## Model

| member | source | states |
|---|---|---|
| `MaintenanceProofs.EveryCompletionIsExact` | db/consolidation_maintenance.go:482-618 | on every interleaving of claims, commits and writers, the sources committed since the last restart of a completed job are exactly the period's sources then: none skipped, none twice, none changed since the restart; of a session write it asks only that, where a job has already read, the stamp is after the start of that job's checkpoint |
| `MaintenanceProofs.ValidPrefixIsLog` | db/consolidation_maintenance.go:124-134 | when the prefix check passes, the sources up to the cursor are exactly the ones the checkpoint stands for, with the versions they were committed at |
| `MaintenanceProofs.CompletionExact` | db/consolidation_maintenance.go:555-582 | a valid checkpoint with nothing remaining covers the period exactly |
| `MaintenanceProofs.AppendManifest` | db/consolidation_maintenance.go:336-337 | appending a claimed page to the committed sources keeps the checkpoint's meaning for the advanced cursor |
| `MaintenanceProofs.PlanKeeps` | db/consolidation_maintenance.go:247-381 | a claimed page, however far it was shrunk, lists every source between the old and the new cursor |
| `MaintenanceProofs.WriteKeepsJob` | db/consolidation_maintenance.go:124-134 | a delete, a write where the job has not read yet, or one stamped after the start of its checkpoint, cannot make the checkpoint misrepresent what it covers |
| `MaintenanceProofs.ClaimKeeps` | db/consolidation_maintenance.go:173-404 | a claim keeps the protocol invariant |
| `MaintenanceProofs.CommitKeeps` | db/consolidation_maintenance.go:482-618 | a commit keeps the protocol invariant |
| `MaintenanceProofs.RequeueKeeps` | db/consolidations.go:181-193 | returning stale delivered jobs to the queue keeps the protocol invariant |
| `MaintenanceProofs.EnqueueKeeps` | db/consolidations.go:46-60 | queueing a period keeps the protocol invariant and never queues a period twice |
| `MaintenanceProofs.AtMostOneLiveLease` | db/consolidation_maintenance.go:222-229 | on every run of maintenance claims, commits, requeues, enqueues and other writers with any stamps, no two jobs hold a live lease at any instant from the latest claim on; ClaimPendingConsolidations, ReleaseConsolidationClaims and MarkConsolidationCompleted (db/consolidations.go:84-179), which write the same rows and have no caller in the program, are excluded |
| `MaintenanceProofs.TokenTakesEffectOnce` | db/consolidation_maintenance.go:516-533 | on every run, with any stamps, each token takes effect at most once; a used or unknown token writes nothing |
| `MaintenanceProofs.OnlyTheLiveLeaseWrites` | db/consolidation_maintenance.go:524-533 | a commit changes the tables only for the job whose live lease carries its token |
| `MaintenanceResults.ExactRetryReturnsSameAnswer` | db/consolidation_maintenance.go:524-530 | after a commit, and while it is its job's latest, whatever happens in between, an exact retry at any later time changes nothing and returns the same answer |
| `MaintenanceRetries.SpentTokenAnswer` | db/consolidation_maintenance.go:516-533 | on every run, with any stamps: a token that took effect, presented again with any content, changes nothing; while it is its job's latest it is answered as committed exactly when the content is the one that took effect and as a mutation conflict otherwise, and as a lost lease afterwards |
| `MaintenanceRetries.CommittedContentTookEffect` | db/consolidation_maintenance.go:482-618 | on every run, whoever is told that a commit succeeded had this very content stored under this very token, and is told that it is a replay exactly when that was before |
| `MaintenanceCommits.CommitTakesEffectIff` | db/consolidation_maintenance.go:482-582 | in every state of every run, the commit of the holder of a live lease takes effect exactly when it is not blank and in size, names every listed target once and nothing else, the prefix is valid, every listed source, target and archive row is as it was claimed, and the quotas admit it |
| `MaintenanceCommits.CommitRefusal` | db/consolidation_maintenance.go:482-582 | otherwise nothing changes, and which of the errors is given |
| `MaintenanceCommits.NoLeaseIsLost` | db/consolidation_maintenance.go:513-533 | a token that is nobody's latest and holds no live lease is told that its lease is lost |
| `MaintenanceCommits.NoLostUpdate` | db/consolidation_maintenance.go:583-617 | a commit overwrites each target, and the archive when it completes, at the version stored just before it, one version up, with the supplied content |
| `MaintenanceResults.CommitIsAtomic` | db/consolidation_maintenance.go:583-617 | a commit writes every target one version later with its supplied content, the archive exactly when it completes, and the checkpoint, or it writes nothing |
| `MaintenanceResults.ValuesFaithful` | db/consolidation_maintenance.go:544-554 | the supplied values are exactly the updates, one per target |
| `MaintenanceResults.SwapTargetsEffect` | db/consolidation_maintenance.go:583-588 | the target loop changes exactly the listed targets |
| `MaintenanceResults.HasMoreIsExact` | db/consolidation_maintenance.go:295-307 | has_more is true exactly when a source of the period is left after the batch |
| `MaintenanceResults.PageIsSortedPrefix` | db/consolidation_maintenance.go:274-381 | the page after shrinking is a non-empty prefix of the ordered remaining sources, at most eight long |
| `MaintenanceClaims.ClaimedIsStored` | db/consolidation_maintenance.go:258-381 | whatever is claimed is stored: every session and snapshot carries the stored version and content, and the snapshots are exactly the two memory documents and the note of each (domain, slug) that a listed note touches, each once |
| `MaintenanceClaims.ClaimLimits` | models/consolidation.go:11-17 | no batch exceeds 8 sessions, 16 concepts, 32 KiB an object or 128 KiB in all |
| `MaintenanceReplays.FirstAnswer` | db/consolidation_maintenance.go:173-246 | a new request is busy exactly while some lease is live, idle exactly when no job may be claimed, and otherwise takes the oldest such job or is refused without effect; its answer is recorded |
| `MaintenanceReplays.SameRequestSameBatch` | db/consolidation_maintenance.go:406-463 | after a claim and any events, the same request changes nothing; while the lease is live it returns the very batch of the claim exactly as long as every listed row and the archive are as they were, and is refused otherwise; afterwards it is expired |
| `MaintenanceReplays.SameRequestSameAnswer` | db/consolidation_maintenance.go:193-199 | a request that was answered idle or busy is answered so for good |
| `MaintenanceReplays.ClaimHandsOutSummary` | db/consolidation_maintenance.go:258-270 | on every run a claim that continues a checkpoint hands out the summary of the job's latest commit, and any other one the stored archive |
| `MaintenanceReplays.LeaseLasts` | db/consolidation_maintenance.go:364-367 | a lease is live for five minutes and the job may be claimed again from then on |
| `MaintenanceReplays.ClaimableIff` | db/consolidation_maintenance.go:226-235 | which jobs may be claimed: waiting ones, and delivered ones after their lease, or half an hour after a delivery without one |
| `MaintenanceReplays.RequeuedIff` | db/consolidations.go:181-193 | exactly the jobs delivered before the cutoff go back to the queue, with nothing else changed |
| `MaintenanceProgress.AdvancedPrefixValid` | db/consolidation_maintenance.go:124-134 | after consuming a page the prefix check passes exactly when every consumed source was last written no later than the checkpoint's start |
| `MaintenanceProgress.ClaimedBatchCommitsIff` | db/consolidation_maintenance.go:531-582 | with no other writer in between and before the lease ends, a well-formed commit succeeds exactly when no claimed source is stamped after the checkpoint's start, and completes exactly when the claim said nothing more was left |
| `MaintenanceProgress.WriteAfterClaimBlocks` | db/consolidation_maintenance.go:555-576 | any unconsumed source of the period written after a claim with a stamp after the start of the checkpoint blocks the job |
| `MaintenanceProgress.BlockedForever` | db/consolidation_maintenance.go:251-257 | a blocked job stays blocked through any claims, commits and requeues |
| `MaintenanceWitness.BlockingRun` | db/consolidation_maintenance.go:555-576 | a possible run from an empty queue, a claim at 1 and a note of the period written at 5, that leaves its job blocked |
| `MaintenanceWrites.EveryCompletionIsExactIff` | db/consolidation_maintenance.go:482-618 | on every run from an empty queue, with no condition on stamps: the sources committed since the last restart of a completed job are exactly the period's sources then, if and only if every row of the period whose latest write the job could not notice since is listed as it is stored |
| `MaintenanceWrites.WatchKeeps` | db/consolidation_maintenance.go:173-618 | every step, with any stamps, keeps that a checkpoint stands for the rows its job could notice |
| `MaintenanceWrites.NoticedMissNothing` | db/consolidation_maintenance.go:124-134 | while every write where a job has already read is stamped after its checkpoint began, no job misses any |
| `MaintenanceWrites.EveryRunIsStructured` | db/consolidation_maintenance.go:173-618 | on every run, with any stamps, cursor, count and order of each checkpoint, its page and the lease bookkeeping agree |
| `MaintenanceStamps.CompletionAfterWriteIff` | db/narrative_store.go:248-310 | any one session write and any commit after it that completes its job: the completion is inexact if and only if the job cannot notice the write and does not list the row as it was written |
| `MaintenanceStamps.WriteBeforeCommitInexactIff` | db/narrative_store.go:248-310 | the case of a commit that would complete without the write too: it then completes inexactly if and only if the write edits a source an earlier batch committed, with a stamp no later than the start of the checkpoint |
| `MaintenanceStamps.OldStampUnseen` | db/consolidation_maintenance.go:124-134 | such an edit passes the prefix check, the source checks and the completion check |
| `MaintenanceStamps.NewRowPassesIff` | db/consolidation_maintenance.go:124-134 | a new row where the job has already read passes the prefix check exactly when the count was one short and all stamps, its own included, are no later than the start of the checkpoint |
| `MaintenanceStamps.PageRowRefused` | db/consolidation_maintenance.go:561-565 | where the prefix check passes, an edit of a source of the leased page fails its check whatever its stamp |
| `MaintenanceWitness.OldStampRun` | db/narrative_store.go:248 | a possible run in which an edit stamped before the first claim and stored after the second is covered by a completion that never saw it |
| `MaintenanceWitness.RestoredCountRun` | db/narrative_store.go:489-500 | a run in which a committed note is deleted, so that the commit is refused, and a new one with an old stamp makes it complete with a note it never saw |
| `MaintenanceStore.Store.HasLiveLease` | db/consolidation_maintenance.go:222-229 | the scan finds a live lease exactly when one exists |
| `MaintenanceStore.Store.PickJob` | db/consolidation_maintenance.go:230-241 | the scan finds the oldest eligible job |
| `MaintenanceStore.Store.ReadPage` | db/consolidation_maintenance.go:312-338 | the reading loop gives the page's items and the concepts they touch |
| `MaintenanceStore.Store.ShrinkPage` | db/consolidation_maintenance.go:303-381 | the halving loop returns the specified batch or error |
| `MaintenanceStore.Store.BuildPlan` | db/consolidation_maintenance.go:242-381 | resuming or restarting, paging and shrinking give the specified plan |
| `MaintenanceStore.Store.Claim` | db/consolidation_maintenance.go:173-404 | the in-place transaction has exactly the new tables and outcome of the claim step |
| `MaintenanceStore.Store.CollectValues` | db/consolidation_maintenance.go:544-554 | the update loop collects the specified values or the first error |
| `MaintenanceStore.Store.CheckManifest` | db/consolidation_maintenance.go:562-569 | the re-check loop finds the first stale source, target or archive |
| `MaintenanceStore.Store.AdmitBundle` | db/consolidation_maintenance.go:534-574 | the checks of a commit, in order, admit the specified values |
| `MaintenanceStore.Store.WriteTargets` | db/consolidation_maintenance.go:583-588 | the write loop produces the specified targets |
| `MaintenanceStore.Store.Commit` | db/consolidation_maintenance.go:482-618 | the in-place transaction has exactly the new tables and outcome of the commit step |
| `Rubrics.ValidateCriteria` | assessment/rubric.go:132-168 | the one-pass loop accepts exactly criteria that are each well formed with distinct ids, and its running total is their exact maximum |
| `Rubrics.ValidateRubric` | assessment/rubric.go:132-168 | accepts exactly the rubrics with criteria, unique ids and a reachable positive passing score |
| `Rubrics.ValidateAnchors` | assessment/rubric.go:132-168 | accepts exactly anchors in range, described and with distinct scores |
| `Scores.ItemRoundTrip` | assessment/score.go:87-125 | checking a normalized item gives the same item back |
| `Scores.IndexMeaning` | assessment/score.go:85-128 | the index exists exactly when every item is well formed and no two share an id, and then maps each id to its item |
| `ScoreProofs.ItemOrderIgnored` | assessment/score.go:45-170 | permuting the criterion items changes nothing |
| `ScoreProofs.KeyedFormLikeArray` | assessment/score.go:57-77 | the id-keyed form scores like the array listing the same items in any order |
| `ScoreProofs.CanonicalIsFixedPoint` | assessment/score.go:145-169 | evaluating the canonical output gives the same document, total and outcome again |
| `ScoreProofs.AcceptedMeaning` | assessment/score.go:81-169 | an accepted document grades exactly the frozen criteria, each in range, and passes exactly when the exact sum reaches the passing score |
| `ScoreAcceptance.AcceptedIff` | assessment/score.go:38-170 | for every rubric that may be frozen and every document with rows: accepted exactly when it has only known fields, its rows can be assigned to the criteria one to one, each naming its criterion with a score in range and evidence, the sums can be stored, aggregates and remarks are in order and the result is in size; and then the result lists those very rows in the rubric's order with their exact sum and passes exactly when that reaches the bar |
| `ScoreAcceptance.RefusedOutright` | assessment/score.go:38-80 | nothing is accepted under a rubric that may not be frozen or without a list or object of rows |
| `ScoreAcceptance.KeyedRowsAre` | assessment/score.go:57-77 | the rows of a keyed document, in the order of names: an object with its own id or the name for it, anything else as a bare score |
| `ScoreAcceptance.EveryCriterionCounts` | assessment/rubric.go:132-170 | in a rubric that may be frozen every criterion adds to the maximum |
| `ScoreAcceptance.AnchorsAreScores` | assessment/rubric.go:132-170 | every anchor describes a score that a row may give |
| `ScoreProofs.FullMarksPassZerosFail` | assessment/score.go:169-181 | full marks always pass and all zeros never do |
| `ScoreMethods.RunningTotals` | assessment/score.go:123-124 | adding scores in item order gives the exact total in rubric order |
| `ScoreMethods.CollectRows` | assessment/score.go:45-80 | the row loops give the specified rows of either document form |
| `ScoreMethods.IndexRows` | assessment/score.go:85-125 | the item loop gives the index and both running sums, or fails exactly when the index does not exist |
| `ScoreMethods.CountDecidesCover` | assessment/score.go:126-128 | comparing counts decides coverage of the frozen criteria |
| `ScoreMethods.Evaluate` | assessment/score.go:38-170 | the imperative evaluation equals the order-free specification |
| `EvidenceResults.TrustedPassedIsEarned` | db/assessments.go:33-70 | on every run an attempt is returned as trusted and passed exactly when it demonstrates, and then its exact criterion sum under its frozen rubric reaches its frozen passing score outside high-stakes domains |
| `EvidenceResults.MarkIsFirstBreak` | db/curriculum_reconciliation.go:57-107 | on every run an attempt's mark is the first later version that changed its concept; an unmarked one was prepared under the present definition, active ever since |
| `EvidenceResults.MarkIsPermanent` | db/curriculum_reconciliation.go:57-107 | a mark once set never changes, so retiring and reactivating brings nothing back |
| `EvidenceResults.RevisionsHaveNoGaps` | db/assessment_adjudication.go:77-120 | on every run an attempt's revisions are 1..n, the effective disposition is the last, and no authority's certificate is recorded twice |
| `EvidenceResults.OneCertificatePerRevision` | db/assessment_adjudication.go:77-83 | once a certificate succeeded for an expected revision no other can, in any later state |
| `EvidenceResults.ReplayReturnsOriginal` | db/assessment_adjudication.go:64-73 | replaying a certificate later changes nothing and returns its original row, even when superseded |
| `EvidenceResults.AcceptanceRecomputes` | db/assessment_adjudication.go:93-111 | in every reachable state the recomputation at acceptance agrees with the recorded score; it refuses only for missing text or changed material |
| `EvidenceHistory.EveryAttemptIsAsSubmitted` | db/assessments.go:93-413 | on every run every attempt still has the domain, concept, decision, version, rubric, passing score and task of the draft it was created from, holds the one response submitted to it, unless redacted since, and the one grade reported for it; every review was of exactly that task and response; and the adjudications are the certificates that took effect, in order, each about a stored review of its attempt, material and score |
| `EvidenceHistory.SubmissionIsFinal` | db/assessments.go:281-413 | no later event replaces a draft, a response, a grade or a certificate |
| `EvidenceHistory.EveryMaterialIsAsSubmitted` | db/assessment_review.go:114-170 | on every run review material shows the submitted response, and is readable only if it shows task and response as they were |
| `EvidenceTransitions.CreatedIff` | db/assessments.go:93-188 | exactly when an attempt is created, and the version it is recorded under |
| `EvidenceTransitions.TransitionsIff` | db/assessments.go:281-432 | exactly when a submission, a completion and a cancellation are made: current evidence in the right state, and a completion under a decision only with the total and outcome the frozen rubric gives |
| `EvidenceTransitions.ReviewedIff` | db/assessment_review_journal.go:24-123 | exactly when a review is recorded and when it is a repetition |
| `EvidenceTransitions.AdjudicatedIff` | db/assessment_adjudication.go:32-131 | exactly when an adjudication is recorded; a repeated certificate returns the row of that attempt, authority, id and hash |
| `EvidenceTransitions.BelievedIff` | db/assessments.go:33-70 | who is believed in every state, by adjudication, evaluation, stored trust, policy and stakes |
| `EvidenceTransitions.CountedOutcome` | db/assessments.go:33-70 | the accepted review's outcome counts, and otherwise, after a rejection too, the attempt's own |
| `EvidenceTransitions.SurvivesIff` | db/curriculum_reconciliation.go:57-107 | a revision leaves evidence alone exactly when the concept stays retired or stays active with the same description, level, outcomes and criteria |
| `EvidenceTransitions.KeptIff` | models/curriculum_semantics.go:10-33 | outcomes and criteria are the same exactly when the same ones are listed, in any order |
| `EvidenceProofs.ReconcileMarks` | db/curriculum_reconciliation.go:57-107 | the reconciliation loop marks exactly the current attempts of the affected concepts |
| `EvidenceProofs.HitIsChanged` | db/curriculum_reconciliation.go:57-107 | for an active concept, being reconciled is the same as having changed |
| `EvidenceProofs.NoBreakSteady` | db/curriculum_reconciliation.go:26-55 | no break since an active version means one definition, continuously active |
| `EvidenceProofs.CreateKeeps` | db/assessments.go:97-188 | creating an attempt keeps the evidence invariant |
| `EvidenceProofs.CompleteKeeps` | db/assessments.go:356-413 | a host evaluation keeps the evidence invariant: a decision-bound outcome is the one its rubric gives |
| `EvidenceProofs.ReviewKeeps` | db/assessment_review_journal.go:59-107 | recording a review keeps the evidence invariant |
| `EvidenceProofs.AdjudicateKeeps` | db/assessment_adjudication.go:57-131 | an adjudication keeps the evidence invariant |
| `EvidenceProofs.ReviseKeeps` | db/curriculum_reconciliation.go:57-107 | a curriculum revision keeps the evidence invariant |
| `EvidenceStore.Store.Lock` | db/curriculum_reconciliation.go:26-55 | finds the version under which evidence for an active concept may be written |
| `EvidenceStore.Store.CreateAttempt` | db/assessments.go:97-188 | the in-place insert equals the create step |
| `EvidenceStore.Store.SubmitAttempt` | db/assessments.go:281-354 | the in-place update equals the submit step |
| `EvidenceStore.Store.CompleteAttempt` | db/assessments.go:356-413 | recomputation and update equal the complete step |
| `EvidenceStore.Store.CancelAttempt` | db/assessments.go:415-432 | the in-place update equals the cancel step |
| `EvidenceStore.Store.ReviewAttempt` | db/assessment_review_journal.go:59-107 | insert-if-absent and read-back equal the review step |
| `EvidenceStore.Store.AdjudicateAttempt` | db/assessment_adjudication.go:57-131 | the in-place append equals the adjudication step |
| `EvidenceStore.Store.ReconcileRows` | db/curriculum_reconciliation.go:57-107 | the loop over concepts gives the specified rows |
| `EvidenceStore.Store.ReviseCurriculum` | db/curriculum_reconciliation.go:57-107 | publishing a version and reconciling equal the revision step |
| `Bkt.MasteryByCounts` | algorithms/bkt.go:38-65 | after any measurements in which the guard does not fire, the mastery is Bayes' rule applied once to the numbers of correct and incorrect answers |
| `Bkt.ObservationOrderIgnored` | algorithms/bkt.go:38-65 | permuting measurements changes nothing for slip and guess in the measurable range |
| `Bkt.UnguardedOrderIgnored` | algorithms/bkt.go:38-65 | for any slip and guess, permuting measurements changes nothing while the guard fires in neither order |
| `Bkt.GuardBreaksOrder` | algorithms/bkt.go:38-65 | a concrete state outside that range, where the guard fires in one order and not in the other and the results differ |
| `BktOrder.OrderIgnoredIff` | algorithms/bkt.go:38-65 | for all probabilities and any two permuted runs of measurements, the results agree exactly when the responses are impossible under mastery or the guarded denominators are equal |
| `BktOrder.TwoOrdersAgreeIff` | algorithms/bkt.go:38-65 | a correct and an incorrect answer commute exactly when mastery excludes one of them, or the two guarded denominators, written out in mastery, slip and guess, are equal |
| `BktOrder.FractionalStep` | algorithms/bkt.go:38-65 | one measurement, guard included, turns mastery u / g into u times the likelihood over the larger of the joint probability and epsilon g |
| `Bkt.DirectionIff` | algorithms/bkt.go:38-65 | for all likelihoods and every mastery, exactly when a measurement does not lower and does not raise the mastery: above the guard by which hypothesis makes it likelier, under the guard by its likelihood under mastery against epsilon |
| `IndividualBkt.IndividualDirection` | algorithms/individual_bkt.go:115-158 | with positive evidence weight a correct answer never lowers and an incorrect one never raises the sanitized mastery, guard included, and the result is a probability |
| `IndividualBkt.IndividualDirectionIff` | algorithms/individual_bkt.go:115-158 | for every profile, state and label, exactly when the result is not below and not above the sanitized mastery |
| `IndividualBkt.NoEvidenceDirectionIff` | algorithms/individual_bkt.go:115-158 | without evidence an uncertain mastery moves in the direction of the answer exactly when guess is at most one minus slip, or, where the guard fires, exactly when the response is at least (incorrect: at most) as likely under mastery as epsilon |
| `IndividualBkt.NoEvidenceCanMisdirect` | algorithms/individual_bkt.go:115-158 | a concrete state without evidence where a correct answer lowers mastery |
| `IndividualBkt.GuardCanMisdirect` | algorithms/individual_bkt.go:115-158 | another one, with guess at most one minus slip, where the guard does it |
| `IndividualShift.BetterProfileFavours` | algorithms/individual_bkt.go:115-150 | of two profiles of equal evidence at the same confidence, the one with no less success and stability and no more error, hints and overconfidence yields no less learning and no more slipping and guessing, for every state, answer and label |
| `IndividualShift.BetterProfilePosterior` | algorithms/individual_bkt.go:115-158 | and then gains no less mastery from a correct answer and loses no less from an incorrect one, the guard included |
| `IndividualShift.RatesAreSignalsIff` | algorithms/individual_bkt.go:169-189 | no worse reported rates are no worse signals, exactly unless an error rate of 0 stands for the complement of the success rate and that is above the other's |
| `IndividualShift.NoErrorsCanRaiseSlip` | algorithms/individual_bkt.go:169-189 | a concrete learner whose error rate of 0 gives a higher slip than one of 0.1 |
| `IndividualShift.SaturatedFeatures` | algorithms/individual_bkt.go:14-66 | each feature alone, at its maximum, moves learn, slip and guess by its documented share |
| `IndividualShift.ConfidenceCounts` | algorithms/individual_bkt.go:121-122 | unsure success counts three quarters, and error counts as overconfidence in proportion to how far confidence is above 0.75 |
| `IndividualShift.MovedWithin` | algorithms/individual_bkt.go:121-131 | no features move learn outside -0.18 to 0.10, slip outside -0.11 to 0.15 or guess outside -0.06 to 0.15 |
| `IndividualShift.WeightOfEvidence` | algorithms/individual_bkt.go:191-205 | evidence weighs a twentieth an observation up to 1, rates without a count one half, an empty profile nothing |
| `IndividualShift.LeftAlone` | algorithms/individual_bkt.go:115-158 | forgetting is never touched, and without evidence an unlabelled or correct answer leaves every parameter at its sanitized value |
| `IndividualShift.LabelEffects` | algorithms/individual_bkt.go:134-144 | what each error label changes of the unlabelled parameters, and that it changes nothing else |
| `IndividualShift.LabelsExcuseOrAggravate` | algorithms/individual_bkt.go:134-144 | a syntax or logic error leaves an incorrect answer with no less mastery and a knowledge gap with no more than without a label, wherever slip is at most one half and guess at least 0.05 |
| `Fsrs.EveryHistoryIsHealthy` | algorithms/fsrs.go:229-283 | for every rating history: positive stability, difficulty in [1, 10], interval 0 exactly after Again and otherwise in [1, 36500], lapses count the recalls immediately followed by Again |
| `FsrsReference.EveryHistoryFollowsFsrs5` | algorithms/fsrs.go:229-283 | on every history of answers stability and difficulty are those of the published FSRS-5 equations, written without guards and with their numbers |
| `FsrsReference.ReviewFollowsFsrs5` | algorithms/fsrs.go:229-283 | and so is one review of any card with a usable stability, whatever rating is passed and difficulty stored |
| `FsrsReference.FirstAnswers` | algorithms/fsrs.go:139-142 | a new card, or one without a usable stability, starts at 0.40255, 1.18385, 3.173 or 15.69105, strictly more for a better answer |
| `FsrsReference.FirstIntervals` | algorithms/fsrs.go:242-252 | and is due at once, after 1, 3 or 16 days |
| `FsrsReference.FirstDifficultyFalls` | algorithms/fsrs.go:144-148 | a better first answer never makes the card harder; after Again its difficulty is 7.1949 |
| `FsrsReference.SameDayOrder` | algorithms/fsrs.go:184-189 | on the same day a better answer leaves the card strictly more stable |
| `FsrsReference.SameDayDirection` | algorithms/fsrs.go:184-189 | Again and Hard lower the stability on the same day, Good and Easy raise it |
| `FsrsReference.EveryIntervalIsStability` | algorithms/fsrs.go:212-222 | on every history the card is due after its stability in days, rounded and in range, and at once after Again |
| `FsrsReference.EveryElapsedIsWholeDays` | algorithms/fsrs.go:105-114 | the days recorded are the whole days since the answer before |
| `FsrsReference.ForgettingOrder` | algorithms/fsrs.go:176-182 | the stability left by a lapse never rises with difficulty or retrievability and never falls with the stability before |
| `FsrsReference.RecallOrder` | algorithms/fsrs.go:161-174 | a recall makes a card grow by no larger a factor the harder, the more retrievable and the more stable it was |
| `FsrsReference.RecallableOrder` | algorithms/fsrs.go:84-95 | retrievability falls with the days since the review and rises with stability |
| `Fsrs.DelayedRecallGrows` | algorithms/fsrs.go:161-174 | a delayed recall never lowers stability, and Hard gives at most Good, Good at most Easy |
| `Fsrs.RelearningNeverExceeds` | algorithms/fsrs.go:259-267 | a delayed Again followed by a same-day Good never exceeds the stability before the lapse |
| `Fsrs.BetterRatingEasier` | algorithms/fsrs.go:150-159 | a better rating never makes the card harder |
| `Fsrs.IntervalIsRoundedStability` | algorithms/fsrs.go:212-222 | at the desired retention the interval is the rounded stability kept in range |
| `Collective.OnePublication` | db/collective_weights.go:26-46 | a publication moves every parameter toward the clamped median without passing it and closes the largest gap by exactly the cap; nothing is published exactly inside the hysteresis band |
| `Collective.PublicationStops` | db/collective_weights.go:26-46 | with a fixed median exactly Rounds(gap) versions are published, at most the ceiling of gap over cap, then none ever again and every gap is under the threshold |
| `Collective.MovesMonotonically` | db/collective_weights.go:26-46 | repeated publication moves every parameter monotonically toward the clamped median |
| `Collective.BlendLandsBetween` | db/collective_weights.go:48-58 | blending lands between state and weight, moves by exactly the capped quarter of the gap, and a prior takes the weight over |
| `Collective.EveryHistoryIsSteady` | db/collective_weights.go:144-201 | whatever the medians and policies over time, versions are 1..n, in bounds, and consecutive versions of a policy differ by at least the threshold and at most the cap |
| `Collective.PublishIff` | db/collective_weights.go:136-171 | a version is published exactly for 30 contributors or more and a first or sufficiently different median, and is numbered next |
| `Collective.ApplyOutcome` | db/collective_weights.go:210-268 | what the next use of a concept does to a learner: reference parameters, nothing, the version taken over, or blended into the reference or the learner's own |
| `Collective.CountedIff` | db/collective_weights.go:235-250 | an applied version counts exactly under the policy it was published for |
| `CollectiveRuns.VersionsRiseUnderPolicy` | db/collective_weights.go:227-268 | on every run, under whatever policies, of two applications to a learner under one policy the later has the higher version, or the same one after the learner took another policy's |
| `CollectiveRuns.ReappliedIff` | db/collective_weights.go:235-268 | on every run, a version a learner already took is applied again exactly when it is still the current one of its policy and the learner's latest version is of another policy |
| `CollectiveRuns.EachVersionMovesOnce` | db/collective_weights.go:227-268 | on every run in which no policy is returned to, each version moves a learner at most once |
| `CollectiveRuns.ReturningPolicyReapplies` | db/collective_weights.go:238-250 | returning to an earlier policy applies its version a second time |
| `Collective.CollectVotes` | db/collective_weights.go:115-135 | the candidate loop keeps, per concept and learner, the newest estimate that matches its source |
| `Collective.Concept.Recompute` | db/collective_weights.go:137-171 | the in-place publication equals the publish step and keeps the history steady |
| `Collective.Concept.Use` | db/collective_weights.go:210-268 | the in-place application equals the apply step, and nothing happens to a learner without a row |
| `RateLimits.ForgettingIsInvisibleIff` | auth/ratelimit.go:113-171 | for every rate and burst: on all runs with a monotone clock and no capacity eviction the table answers as a never-forgetting bucket, exactly when there is a burst and ten idle minutes refill it |
| `RateLimits.AnswersLikeReference` | auth/ratelimit.go:113-171 | under that condition every answer agrees |
| `RateLimits.DrainTellsApart` | auth/ratelimit.go:113-171 | without it, a drained key swept after ten minutes is granted a request the reference refuses |
| `RateLimits.GrantsBoundedIff` | auth/ratelimit.go:113-171 | for every rate and burst: over every stretch of every run with a monotone clock and no capacity eviction each key is granted at most burst plus rate times the elapsed time, exactly when there is a burst and ten idle minutes refill it |
| `RateLimits.GrantsBounded` | auth/ratelimit.go:132-145 | the bound, when there is a burst that ten idle minutes refill, on runs with a monotone clock and no capacity eviction |
| `RateLimits.DrainExceedsBound` | auth/ratelimit.go:158-166 | when ten idle minutes do not refill the burst, a key that empties it, is swept and empties it again is granted twice the burst, more than the bound |
| `RateLimits.FirstExceedsBound` | auth/ratelimit.go:117-130 | with a burst below one the first request of a key already exceeds the bound |
| `RateLimits.AgainTellsApart` | auth/ratelimit.go:117-130 | with a burst below one a swept key is granted a request the reference refuses |
| `RateLimits.EveryTableIsShaped` | auth/ratelimit.go:113-145 | whatever the clock does, map keys and recency list agree and never exceed 10,000 |
| `RateLimits.EveryTableIsValid` | auth/ratelimit.go:113-145 | with a monotone clock the list is also in order of use |
| `RateLimits.EvictsLeastRecentlyUsed` | auth/ratelimit.go:118-129 | a key forgotten by a request was used no later than any other |
| `RateLimits.NeverMoreKeys` | auth/ratelimit.go:117-130 | no run leaves more than 10,000 keys |
| `RateLimits.PatientKeyIsGranted` | auth/ratelimit.go:113-145 | on every monotone run, evictions and sweeps included, a request is granted if every earlier request of its key is long enough ago for one token |
| `RateLimits.BurstIsSpent` | auth/ratelimit.go:132-145 | after a burst at one instant the next request of that instant is refused |
| `RateLimits.RateLimiter.AllowLocal` | auth/ratelimit.go:113-145 | the in-place update has exactly the specified table and answer |
| `RateLimits.RateLimiter.Cleanup` | auth/ratelimit.go:158-166 | visiting buckets in any order removes exactly the idle ones |
| `LoginFailures.AllowsLikeHistory` | auth/login_failures.go:103-114 | on monotone runs without capacity eviction a check decides as the full failure history does |
| `LoginFailures.RecordsLikeHistory` | auth/login_failures.go:142-170 | the recorded count is the true in-window count up to threshold + 6, and the penalty is the same for both |
| `LoginFailures.RunFaithful` | auth/login_failures.go:236-264 | the stored stamps are the newest of the history, missing only expired ones unless the cap is reached |
| `LoginFailures.RetryAfterSaturates` | auth/login_failures.go:208-221 | penalties are bounded, never fall as the count grows, and cannot tell counts above threshold + 5 apart |
| `LoginFailures.WaitsInSeconds` | auth/login_failures.go:208-221 | the waits are 1, 2, 4, 8, 16 and then 30 seconds from the threshold on |
| `LoginFailures.EveryTrackerIsValid` | auth/login_failures.go:142-170 | on every run map and list agree, at most 10,000 accounts, each with between one stamp and the cap |
| `LoginFailures.NothingKeptForLong` | auth/login_failures.go:236-264 | on every run with a monotone clock no stamp older than the window and one minute is still stored after a check or a failure |
| `LoginRecency.EveryListIsInOrder` | auth/login_failures.go:103-170 | on every run the list is in order of each account's latest check or failure |
| `LoginRecency.ForgetsLeastRecent` | auth/login_failures.go:142-154 | an account pushed out of a full table was checked or failed no later than any that stays |
| `LoginFailures.KeepWithin` | auth/login_failures.go:242-248 | filtering into the same backing array keeps exactly the stamps in the window and leaves the rest of the array alone |
| `LoginFailures.LoginFailureTracker.AllowLocal` | auth/login_failures.go:103-114 | the in-place check equals the specified one |
| `LoginFailures.LoginFailureTracker.RecordLocal` | auth/login_failures.go:142-170 | the in-place record equals the specified one |
| `LoginFailures.LoginFailureTracker.PruneOne` | auth/login_failures.go:236-254 | pruning one account, by filtering its stamps in place, keeps exactly those in the window and drops an empty account |
| `LoginFailures.LoginFailureTracker.PruneAllBuckets` | auth/login_failures.go:256-264 | the sweep, at most once a minute and in any order, prunes every account |
| `LoginFailures.LoginFailureTracker.RemoveBucket` | auth/login_failures.go:273-278 | removing an account clears its stamps and its place in the list |
| `Cimd.RunKeeps` | auth/cimd.go:185-265 | on every interleaving of lookups and completions the cache invariant holds |
| `Cimd.OneFetchPerClient` | auth/cimd.go:206-226 | at most 256 entries, and two metadata requests under way are never for the same client |
| `Cimd.ServedIsFresh` | auth/cimd.go:198-205 | what is served was fetched for that very id and is still within its lifetime |
| `Cimd.FlightsKeepTheirAnswer` | auth/cimd.go:243-265 | a finished flight keeps its one answer for ever, so all its waiters get the same |
| `Cimd.OnlyCompletionEndsFlight` | auth/cimd.go:252-262 | an entry in flight is gone only by its own completion |
| `Cimd.CompletionOwnsEntry` | auth/cimd.go:252-252 | a flight under way always finds its own entry when it ends |
| `Cimd.LookupDropsOnly` | auth/cimd.go:339-365 | a lookup drops an entry only when it has expired or, in a full cache, as the least recently used finished one |
| `Cimd.ServedIsNewest` | auth/cimd.go:198-204 | the client just served is the most recently used of the finished entries |
| `Cimd.WaitsForOwnFlight` | auth/cimd.go:206-210 | a caller that waits, waits for a flight of its own client that is still under way |
| `Cimd.RefusedIff` | auth/cimd.go:211-216 | a lookup is refused exactly when its client is unknown and 256 requests are under way |
| `Cimd.ClientCache.PruneExpired` | auth/cimd.go:339-345 | visiting entries in any order removes exactly the stale ones |
| `Cimd.ClientCache.Evict` | auth/cimd.go:347-365 | the scan in any order removes the one least recently used finished entry |
| `Cimd.ClientCache.Lookup` | auth/cimd.go:193-219 | the in-place lookup equals the specified one |
| `Cimd.ClientCache.Finish` | auth/cimd.go:249-264 | the in-place completion equals the specified one |
| `Nostr.DecodeEncoded` | auth/native_nostr.go:78-78 | an encoded rune is read back whatever follows it |
| `Nostr.SanitizedIff` | auth/native_nostr.go:59-59 | ranging over a text and encoding its runes gives it back exactly when it is valid UTF-8 |
| `Nostr.StringRoundTrip` | auth/native_nostr.go:57-83 | an encoded string delimits itself: reading gives back the text and the rest |
| `Nostr.IntRoundTrip` | auth/native_nostr.go:88-90 | a decimal integer is read back up to the first non-digit |
| `Nostr.TagListRoundTrip` | auth/native_nostr.go:91-105 | an encoded tag list is read back with its rest |
| `Nostr.EventRoundTrip` | auth/native_nostr.go:85-109 | a decoder recovers public key, timestamp, kind, every tag and content from the hashed bytes |
| `Nostr.SamePreimageIff` | auth/native_nostr.go:85-109 | two events are hashed from the same bytes exactly when they agree once stray bytes read as U+FFFD |
| `Nostr.PreimageInjective` | auth/native_nostr.go:85-109 | on valid UTF-8 events the serialization is injective |
| `Nostr.StrayBytesCollide` | auth/native_nostr.go:57-83 | two different invalid bytes are written alike |
| `Nostr.AppendJsonString` | auth/native_nostr.go:57-83 | the appending loop writes the specified string |
| `Nostr.AppendTags` | auth/native_nostr.go:92-104 | the tag loops write the specified list |
| `Nostr.CanonicalBytes` | auth/native_nostr.go:85-108 | the buffer is the specified preimage |
| `Catalog.SeatsAlwaysMatch` | db/catalog.go:381-457 | on every interleaving of requests, migrations, erasures, offerings that close others, and provisioned cohorts, reserved seats equal the seat-holding enrollments and never exceed capacity |
| `Catalog.EffectOncePerKey` | db/catalog_admin.go:101-147 | the tables are those of executing each logged effect once, and no key is logged twice |
| `Catalog.SameKeySameAnswer` | db/catalog_admin.go:53-147 | any two successes of one key answer the same request of the same actor with the same response, and at most one executed it |
| `Catalog.RecoveryReturnsWinner` | db/catalog_admin.go:133-146 | on every run a call that lost its transaction succeeds exactly when an effect of the same request by the same actor took hold under its key, and with that effect's response |
| `Catalog.MutateKeeps` | db/catalog.go:425-443 | every keyed mutation keeps the seat invariant |
| `Catalog.JoinKeeps` | db/learner_formations.go:167-252 | joining keeps the seat invariant |
| `Catalog.LeaveKeeps` | db/learner_formations.go:275-309 | leaving keeps the seat invariant |
| `Catalog.LeaveReleasesOne` | db/learner_formations.go:275-309 | leaving that changes anything releases exactly the learner's seat of that cohort; every other cohort keeps its holders |
| `Catalog.MigrateKeeps` | db/formation_migration.go:58-186 | migrating keeps the seat invariant |
| `Catalog.MigrateMovesOne` | db/formation_migration.go:133-179 | a first migration releases exactly the source's seat and takes exactly one in the target cohort |
| `Catalog.EraseKeeps` | db/saas_governance_erasure.go:79-132 | erasure never finds inconsistent reservations and keeps the seat invariant |
| `Catalog.EraseReleasesHeld` | db/saas_governance_erasure.go:79-132 | in every cohort erasure releases exactly the seats the learner held |
| `Catalog.OfferKeeps` | db/formation_catalog.go:134-148 | opening an automatic offering and closing the retired ones keeps the seat invariant |
| `Catalog.ProvisionKeeps` | db/learning_scope.go:142-156 | a cohort provisioned together with its one seated learner keeps the seat invariant |
| `CatalogMoves.EnrollOutcome` | db/catalog.go:381-457 | a manager enrolls exactly a stranger into an open cohort with room; exactly that enrollment and one seat of that cohort change |
| `CatalogMoves.JoinAgainOutcome` | db/learner_formations.go:167-252 | what an enrolled learner who joins is answered, and that one who left takes the same enrollment up again |
| `CatalogMoves.JoinNewOutcome` | db/learner_formations.go:167-252 | what a stranger who joins is answered, and that exactly one new enrollment and seat are made |
| `CatalogMoves.LeaveOutcome` | db/learner_formations.go:254-311 | leaving gives back an active learner's seat, tells one who left so, and is refused in any other state |
| `CatalogMoves.LeaveThenJoin` | db/learner_formations.go:167-311 | leaving and joining again restores every enrollment and seat; only the cohort's version moves, by two |
| `CatalogMoves.MigrateIff` | db/formation_migration.go:58-187 | exactly when a first migration is made |
| `CatalogMoves.MigrateMoves` | db/formation_migration.go:133-188 | it seats the learner in the target, then cancels the source, and is remembered |
| `CatalogMoves.MigratedAgain` | db/formation_migration.go:42-57 | a repeated migration is answered by its cohort and changes nothing |
| `CatalogMoves.EraseOutcome` | db/saas_governance_erasure.go:82-134 | erasure cancels exactly the learner's enrollments and takes exactly their seats from each cohort |
| `CatalogMoves.CreateOutcome` | db/catalog.go:284-327 | exactly when a cohort is created, open and empty |
| `CatalogMoves.OfferOutcome` | db/formation_catalog.go:134-150 | which offerings are open and closed after a publication |
| `CatalogMoves.ProvisionOutcome` | db/learning_scope.go:142-156 | the cohort of one that is provisioned, for a domain and for recovered evidence |
| `CatalogMoves.BeginAnswers` | db/catalog_admin.go:59-112 | how a keyed request begins, by its key and the receipt found |
| `CatalogMoves.FailsOnlyAfterLookingAgain` | db/catalog_admin.go:130-147 | a request with a good key fails only after it looked for a receipt once more and found none of its own |
| `CatalogMoves.LosersLookAgain` | db/catalog_admin.go:116-147 | a transaction that fails or meets a rival's receipt changes nothing and is left to look again |
| `CatalogStore.Store.EnrollMembership` | db/catalog.go:381-457 | the in-place transaction equals the enroll step and leaves no trace when it fails |
| `CatalogStore.Store.JoinFormation` | db/learner_formations.go:167-252 | the in-place transaction equals the join step |
| `CatalogStore.Store.LeaveFormation` | db/learner_formations.go:254-311 | the in-place transaction equals the leave step |
| `CatalogStore.Store.CountHeld` | db/saas_governance_erasure.go:92-115 | the row loop counts, cohort by cohort, the seats the learner holds |
| `CatalogStore.Store.ReleaseSeats` | db/saas_governance_erasure.go:115-128 | the release loop succeeds exactly when every counter covers its count |
| `CatalogStore.Store.CancelErasedEnrollments` | db/saas_governance_erasure.go:82-132 | the in-place erasure equals the erase step |
| `CatalogStore.Store.LoadReceipt` | db/catalog_admin.go:82-99 | the receipt read finds nothing, the response of the same request by the same actor, or a conflict |
| `CatalogStore.Store.CommitCall` | db/catalog_admin.go:103-129 | mutation and receipt commit together, and a rival's receipt since the load rolls the mutation back |
| `CatalogStore.Store.RecoverCall` | db/catalog_admin.go:133-146 | the recovery read answers as specified |
| `CatalogStore.Store.RunMutation` | db/catalog_admin.go:53-147 | a request without rivals replays its receipt, or commits effect and receipt together, or changes nothing |
| `Badges.RunIsUnbroken` | db/badges.go:210-256 | given that valid implies passed, the run holds only observations after the last break, with strictly increasing responses and distinct attempts, and starts no earlier than the given time or any break |
| `Badges.RunAfterBreakIff` | db/badges.go:215-221 | for every history the run lies after the last break exactly when that break is not itself an eligible recall of an attempt not counted before |
| `Badges.FailedAnswerCanCount` | db/badges.go:215-221 | a failed answer that is eligible opens the run it breaks |
| `Badges.RunIsComplete` | db/badges.go:238-253 | when eligible recalls come in order of response, one attempt each whatever its number of rows, every one since the last break is in the run; nothing is asked of other observations |
| `Badges.AwardedIsSpanned` | db/badges.go:194-256 | whatever is awarded was spanned, among the observations read, by three or more unaided recalls of different attempts, each a day or more after exposure and review and due, the last one that many days after a start no earlier than the given time, the first review and anything that discredits the run |
| `BadgeTruncation.WindowStartsEarlierIff` | db/badges.go:161 | for every history: the run read from the newest 500 observations starts earlier than the whole run, exactly when its first review, the given time and every break that is read are all before the review of the whole run's first recall, or all before the response of a break that is not read |
| `BadgeTruncation.WindowInventsAwardIff` | db/badges.go:161-207 | for every history: the newest 500 observations earn a milestone the whole does not, exactly when the run picked from them has three proofs and starts, by the breaks that are read, that many days before its last one, and the run picked from the whole, by all the breaks, does not |
| `BadgeTruncation.InOrderWindowInventsAwardIff` | db/badges.go:161-207 | when eligible recalls come in order, the same by the run of the whole history and the observations, without the run of the window: the first recall read and the breaks read span the milestone up to the last proof, with three proofs from it on, and those of the whole history do not |
| `BadgeTruncation.CutStartsEarlierIff` | db/badges.go:134-135 | the same condition for a cut at any place |
| `BadgeTruncation.EarnsFromIff` | db/badges.go:195-207 | in a chronological history what is read from any place on earns a milestone exactly when the first recall there spans it |
| `BadgeTruncation.StartNeverInventedIff` | db/badges.go:134-135 | for every history, no suffix starts the run earlier exactly when every eligible recall since the last break opens no earlier than the breaks and than the review of the run's first recall |
| `BadgeTruncation.SuffixRun` | db/badges.go:134-135 | in a chronological history the run of a suffix is the end of the whole run |
| `BadgeTruncation.AwardInventedIff` | db/badges.go:195-207 | in a chronological history a suffix earns a milestone the whole does not, exactly when a recall no later than the third proof from the end opens that many days before the last proof while the whole run is shorter |
| `BadgeTruncation.TruncationOnlyDelays` | db/badges.go:134-135 | in a chronological history whose start no suffix invents, a milestone earned from a suffix is earned from the whole |
| `BadgeTruncation.TrackedIsSafe` | db/badges.go:134-135 | reviews no older than the breaks and recalls before them are enough for that |
| `BadgeTruncation.TruncationCanInventStart` | db/badges.go:134-135 | a concrete history of 502 observations whose newest 500 start the run earlier than the whole |
| `BadgeTruncation.TruncationCanInventAward` | db/badges.go:134-135 | the same history, six days after its break, is awarded the seven-day milestone that the whole does not earn |
| `Badges.RetentionRun` | db/badges.go:210-256 | the loop returns the proofs and start of the specified scan |
| `Badges.Award` | db/badges.go:195-207 | a milestone of 7, 30 or 90 days is awarded exactly when three proofs among the newest 500 observations span it |

## Left out

- SQL text, dialects, row locks and savepoints: each transaction is one atomic step over maps and sequences.
- Hashing, encryption and signatures: a hash is modelled as the hashed value, tokens and identifiers are inputs assumed fresh.
- Retention deletes rows without the learner's lock (db/narrative_store.go:489-500), so it can act in the middle of a claim or a commit; here it is a step of its own like every other transaction.
- MaintenanceProofs.EveryCompletionIsExact: holds on runs whose session writes every job can notice; without that, `MaintenanceWrites.EveryCompletionIsExactIff` is the exact condition.
- Eventual completion of a maintenance job: it does not hold as written, see the first comment discussed above.
- Parsing of period keys into bounds, canonical enrollment lookup and narrative quotas of maintenance: a period carries its bounds and quotas are a flag of the commit.
- Idempotency receipts of maintenance claims that are still in progress or expired: only completed receipts are modelled.
- ClaimPendingConsolidations, ReleaseConsolidationClaims and MarkConsolidationCompleted (db/consolidations.go:84-179): they write the job rows of the leased protocol without looking at its tokens, so a job released under a live lease and claimed this way would be live again; the program does not call them, and every run of the maintenance results is without them. Deletion of old jobs is left out too.
- JSON tokenizing and the decoding part of rubric parsing: documents start as parsed values, and a number is its canonical decimal.
- Which error message an invalid score gets: evaluation is accepted or refused.
- Interactions, transfer records, learning events and concept-state resets written by curriculum reconciliation: only attempts are marked.
- Authorization, membership, roles and permissions: inputs of each step where they decide a branch.
- Rounding, NaN and infinities of floating point: reals throughout; exp and pow are known only by positivity, exp(0) = 1, powers of 1 and strict monotonicity, and the sum's rounding is an uninterpreted function.
- medianOf and the calibration evidence queries: the median is an input of publication.
- Shared backends of the rate limiter and the failure tracker, second-factor windows, and proxy address parsing: only the local paths are modelled.
- Fetching and validating a client metadata document, waiting callers and their cancellation: a completion carries the outcome of its fetch.
- Which offerings a publication retires, admission records, archived domains, audit events and learner profiles of the catalog: an admission is an input of joining.
- Reading badges back, mastery and formation badges: branch-by-branch checks.
- LoginFailures.LoginFailureTracker.PruneOne: a bucket holds its stamps as a sequence, copied to an array for the in-place filter, so sharing of that array between calls is not modelled.
- CatalogStore.Store.RunMutation: runs load, transaction and recovery back to back; rivals between them are the interleavings of the catalog's runs.
- BadgeTruncation.AwardInventedIff: is stated for histories whose eligible recalls come in order of response, because without that order the run of a suffix need not be part of the whole run; `BadgeTruncation.WindowInventsAwardIff` is for all histories.
- BadgeTruncation.InOrderWindowInventsAwardIff: has the same hypothesis for the same reason.
- BadgeTruncation.EarnsFromIff: has the same hypothesis for the same reason.
- HTTP handlers, templates, cookies, mail, the OAuth endpoints, the command line, the desktop client, schema migrations and the unused item-response functions.
