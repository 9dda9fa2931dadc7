# Verification of the NOC bridge

This project models the parts of the system that decide what an operator's report says and whether a job is
ever lost, and proves what they promise. It has four parts.

**Evidence reconciliation.** A language model writes findings about a log; each finding cites deterministic
pattern ids or log entry ids. `sandbox/preprocessing.py` counts the log, then rewrites the findings until they are an
exact account of it. The pattern path runs six passes over one report: the citations are checked, findings that share
a cause family are merged through a union-find with path halving, findings with the same narrative are merged, an
unquantified finding takes the family it hints at, omitted patterns come back, and a key finding is promoted. The
entry path expands cited entries to their families and files the rest. The worker repeats this on what a crashed
predecessor stored.

**Job delivery.** A transactional outbox, a main, a retry and a dead-letter queue with at-least-once delivery, a lease
with fencing tokens, a renewal thread and the settlement of failures, as a step relation over the jobs table, the
outbox, the queues, the running handlers, the object store and the clock.

**Skill snapshots.** Dependency resolution, the depth-first materialization of a snapshot tree, the execution hash of
the API and of the worker, and the registry's version and activation history.

**Report composition.** The composed document with its links and bookmarks, and the preview in which screenshots are
numbers.

## How to read it

One module to a file. `Results` and `CodePointOrder` are shared. The reconciliation is `UnionFind`, `Components`,
`Findings`, one module for each pass (`ValidatePass`, `MergePass`, `DetailPass`, `AttachPass`, `AppendPass`),
`PatternReconciliation`, then `Entries`, `EntryPass`, `EntryTheorems`, `EntryNumbers`, `EntryFiling`, `EntryStability`,
the counting in `Tallies` and `LogCounts`, and the worker's loop in `Recovery`. Delivery is `JobRows`, `Protocol`,
`Fencing`, `Delivery`, `Attempts`, `Copies`, `Races`, `Leases`, `Outbox` and `Dispatchers`. Snapshots are `Snapshots`,
`Materialization`, `ExecutionHash`, `HashIdentity`, `HashOrder`, `SnapshotExecution`, `Registry`, `RegistryHistory`,
`RegistryRepeat` and `RegistryRecords`. Reports are `Composition`, `ReportLinks`, `ReportPlans`, `ReportTheorems` and
`Preview`.

Code that works step by step is a method proved against a function or a relation; the theorems are lemmas about those.
Every induction is written out, so every lemma carries `{:induction false}`.

`dafny verify dfyconfig.toml` checks the project.

### Where the code is not what one would expect

- A strict reconciliation that merges findings writes the merged ids into the caller's findings but returns a new
  report. When such an attempt then fails a later check and is the last one, the repair works on the caller's report,
  which now cites patterns twice, and is always rejected (`sandbox/preprocessing.py:808-823`,
  `bridge/noc_bridge/worker.py:314-337`): `Recovery.MergedInPlaceIsRejected`, with `Recovery.MergingAttempt` as a case.
  The repair accepts what a successful attempt leaves if and only if no family was cited by two findings:
  `Recovery.LeaveBehind`.
- `claim_job` says its locked second read keeps a concurrent claimant from changing the answer
  (`bridge/noc_bridge/db.py:275-277`). It does not keep out a writer between the conditional update and that read: if
  the holder's failure is recorded there, the second read finds a row that is neither completed nor busy, and the
  message is acknowledged (`bridge/noc_bridge/worker.py:710-712`). With the holder's connection gone as well, the job is
  lost: `Races.SplitClaimLosesAJob`.
- `mark_retrying` has no token guard (`bridge/noc_bridge/db.py:193-204`). Run late, after its retry copy was delivered
  and completed, it reopens a completed job with no message left: `Races.LateMarkLosesAJob`. `Delivery.DropsNoneIffHarmless`
  says exactly which late reads and late marks do harm, and `Delivery.AtomicRunLosesNoJob` that none does when the two step
  pairs are undivided.
- The two execution hashes differ on `dependencies: null`: the worker reads an empty list, the API raises
  (`apps/api/app/skills/registry.py:116-118`, `bridge/noc_bridge/skill_registry.py:129`): `ExecutionHash.NullDivides`.
  `ExecutionHash.ApiAcceptsIff` is the exact condition.
- The hash is documented as independent of the manifest's order (`apps/api/app/skills/registry.py:104-111`). The order
  shows if and only if there is a hash and two dependencies have one name and one content hash but different trees below
  them: `HashOrder.OrderIsHiddenIff`. It takes two dependencies of one name (`HashOrder.DistinctNamesDecide`), not all
  pinned (`HashOrder.PinnedKeysDecide`); `HashOrder.VersionsTradePlaces` has a table with two.
- With three failed renewals in a row, a claim is displaced up to a lease of four minutes, not only up to the three
  minutes at which the interval stops growing: `Leases.TwoMissesTolerated`.
- Without full incident coverage an analysis can render a back link to an alert navigation that is not there:
  `ReportTheorems.BackLinkToNowhere`. A bookmarked analysis is linked if and only if the plan refers to its incident or
  the policy covers all (`ReportTheorems.BackLinkLandsIff`), and there is a navigation if and only if one of them is
  (`ReportTheorems.NavigationIff`).

### Conventions

- The id of a log entry, a snapshot row or an outbox row is its position. `preprocess_log` numbers entries that way; for
  table rows the position stands for the order of creation.
- Percentages are exact hundredths, rounded half to even.
- What a text says is a parameter: template digest, cause family, trace id, narrative key and the one family that a
  finding hints at.
- Findings that the original changes in place are values here; what a caller still holds after a call is a value of
  its own (`Recovery.LeaveBehind`).
- Two kinds of error are told apart where the caller does: `Rejected` for the errors the output attempts catch,
  `MissingKey` for a failed dictionary lookup.
- Digests are functions, assumed injective only where a statement needs it.

## Model

| member | source | states |
|---|---|---|
| UnionFind.HalvingKeepsRoots | sandbox/preprocessing.py:772-776 | one step of path halving changes no root, of any index |
| UnionFind.Forest.Find | sandbox/preprocessing.py:772-776 | terminates, returns the root, and changes no root |
| UnionFind.LinkMovesRoots | sandbox/preprocessing.py:778-781 | linking one root under another moves exactly the class of that root |
| UnionFind.Forest.Union | sandbox/preprocessing.py:778-781 | afterwards both classes have the left root and no other class moved |
| Components.LinkByKey | sandbox/preprocessing.py:783-794 | linking every key to its first holder only gives one root to exactly the items that a chain of shared keys connects |
| Components.RootsAreClasses | sandbox/preprocessing.py:783-798 | equal roots if and only if linked by a chain of items that pairwise share a key |
| Components.ChainHasOneRoot | sandbox/preprocessing.py:783-794 | all items of a chain of shared keys have one root although only first holders were linked |
| Components.Classes | sandbox/preprocessing.py:769-798 | the groups are exactly the classes of the transitive closure of sharing a key, each ascending, in order of first member |
| Components.ClassesAreLinked | sandbox/preprocessing.py:796-798 | two items are linked if and only if they are in one group |
| Findings.PercentageIsNearest | sandbox/preprocessing.py:756 | the percentage is within half a hundredth of the exact quotient |
| Findings.TieIsEven | sandbox/preprocessing.py:756 | and where two are equally near, it is the even one |
| Findings.PercentageInRange | sandbox/preprocessing.py:756 | a count up to the total gives a percentage up to 100 |
| Findings.ExactlyOneOwner | sandbox/preprocessing.py:953-991 | in a reconciled report every manifest pattern but "other" is in exactly one finding, with its whole family |
| Findings.TakeKeepsAccount | sandbox/preprocessing.py:965-974 | a finding that takes uncited patterns of a family nobody else cites keeps the report's account, and adds exactly those citations |
| Findings.SumIgnoresOrder | sandbox/preprocessing.py:866 | the count of a finding does not depend on the order of its ids |
| Findings.CountsAreConserved | sandbox/preprocessing.py:858-868 | the counts of a reconciled report sum to the manifest's, less the "other" bucket when no finding cites it |
| Findings.NumbersOf | sandbox/preprocessing.py:858-868 | a reconciled finding has the count of its ids and the percentage nearest to it; an unquantified one has neither |
| ValidatePass.Validate | sandbox/preprocessing.py:713-757 | succeeds if and only if, after stripping in fallback mode, ids are known and assigned once; keeps what the mode keeps, with exact counts; the error is a missing key if and only if the first finding that cannot be accepted looks up the marker |
| ValidatePass.KeptCites | sandbox/preprocessing.py:740-757 | what is kept cites known patterns only, none twice, and is measured |
| ValidatePass.StrictKeepsAll | sandbox/preprocessing.py:715-757 | strict mode drops no finding and changes no id |
| ValidatePass.FirstBadDecides | sandbox/preprocessing.py:715-739 | only the first finding that cannot be accepted decides which error is raised |
| ValidatePass.WhatStrippingLeaves | sandbox/preprocessing.py:713-728 | stripping leaves a finding without unknown ids alone and of the others the known ids, once each; one that cites nothing known becomes unquantified |
| ValidatePass.FallbackCites | sandbox/preprocessing.py:713-757 | what fallback mode keeps cites exactly the known ids that were cited |
| MergePass.SingletonsIffWhole | sandbox/preprocessing.py:796-799 | every class is one finding if and only if no family is cited by two findings |
| MergePass.MergedIsAccounted | sandbox/preprocessing.py:801-812 | one finding a class cites what the class cited, each pattern once, and no family is split any more |
| MergePass.MergeFamilies | sandbox/preprocessing.py:763-821 | cites the same patterns as before, splits no family, keeps together what was together, is the identity when nothing is shared, and lays the classes out with key findings first; every merged finding has the text, and the rank as key or secondary, of the earliest finding that cites one of its ids |
| MergePass.Primary | sandbox/preprocessing.py:802-805 | the finding that keeps its text is the first key finding of the class, which is its first finding |
| MergePass.Rebuild | sandbox/preprocessing.py:800-812 | one finding a class in class order, those of key findings first; each is the first member of its class but for the ids, which are exactly those of all its members |
| MergePass.FirstTellerIsFirst | sandbox/preprocessing.py:801-805 | the earliest finding that cites an id of the merged one is the first member of its class |
| MergePass.RebuiltKeepsText | sandbox/preprocessing.py:801-818 | so after laying out, every quantified finding has the text and the rank of the earliest finding that cites one of its ids |
| MergePass.MergedInOrder | sandbox/preprocessing.py:806-810 | a merged finding lists its patterns member by member, each member's in its own order, none twice |
| MergePass.UnquantifiedInOrder | sandbox/preprocessing.py:813-818 | the unquantified findings stay in order |
| DetailPass.FindDuplicates | sandbox/preprocessing.py:827-843 | a finding is a duplicate if and only if one of its distinctive narratives belongs to an earlier finding, and its owner is the one that owns the first such narrative; what stands behind that narrative is not registered |
| DetailPass.HandOn | sandbox/preprocessing.py:844-850 | every owner has its own ids first and then those of its direct duplicates, whatever happens to the owner itself; nothing else of it changes |
| DetailPass.WhatSurvives | sandbox/preprocessing.py:844-856 | exactly the ids of survivors and of their direct duplicates are still cited: ids handed to a duplicate are gone |
| DetailPass.MergeDuplicateDetails | sandbox/preprocessing.py:821-856 | drops exactly the duplicates, splits no family, leaves no two survivors with one distinctive narrative, and says which ids are lost |
| AttachPass.AttachUnquantified | sandbox/preprocessing.py:870-951 | every hinted family is told of afterwards, no unquantified finding with a hint is left, no citation is lost and no family is split |
| AttachPass.AttachOne | sandbox/preprocessing.py:930-944 | taking a family that nobody tells of keeps the account and tells of exactly one family more |
| AttachPass.HintedIs | sandbox/preprocessing.py:896-929 | a hint counts if and only if it names a family of the manifest |
| AttachPass.MembersInManifestOrder | sandbox/preprocessing.py:930-944 | a family is taken in manifest order |
| AppendPass.FindTeller | sandbox/preprocessing.py:957-963 | finds the one quantified finding that cites the family, if there is one |
| AppendPass.AppendOmitted | sandbox/preprocessing.py:953-991 | gives a reconciled report from any accounted one: a finding keeps its ids, in place, and gains exactly the omitted members of a family it cites; the findings added behind hold exactly a whole omitted family and bear its name; a complete report is left alone |
| AppendPass.OmittedInManifestOrder | sandbox/preprocessing.py:953-991 | omitted members come back in manifest order |
| PatternReconciliation.Recount | sandbox/preprocessing.py:858-868 | recounts every finding from its ids and changes nothing else |
| PatternReconciliation.Promote | sandbox/preprocessing.py:992-1021 | fallback mode ends with a key finding whenever a pattern but "other" exists: of a report without one exactly the first finding is promoted, and the synthetic finding is never appended |
| PatternReconciliation.FinishStrict | sandbox/preprocessing.py:763-991 | strict mode after validation: reconciled, keeps together what was together, texts and ranks from the earliest finding concerned, omitted patterns filed by family, identity on a reconciled report |
| PatternReconciliation.AppendedKeepsText | sandbox/preprocessing.py:953-991 | appending changes no text and no rank |
| PatternReconciliation.AppendedFiles | sandbox/preprocessing.py:953-991 | an omitted pattern joins the finding of its family if the report tells of the family, and else a secondary finding of that family alone |
| PatternReconciliation.NewIsOfOneFamily | sandbox/preprocessing.py:975-991 | an added finding holds patterns of one family, none cited before, and is named after it |
| PatternReconciliation.FinishFallback | sandbox/preprocessing.py:763-1021 | fallback mode after validation: reconciled, no hint left unused, narratives repeated only where one was unquantified at first |
| PatternReconciliation.AttachedUndoubled | sandbox/preprocessing.py:896-951 | attaching can repeat a distinctive narrative only through a finding that was unquantified |
| PatternReconciliation.ReconciledIsAcceptable | sandbox/preprocessing.py:713-757 | a reconciled report passes the strict first pass unchanged |
| PatternReconciliation.ReconciledIsRepairable | sandbox/preprocessing.py:713-757 | and the first pass of fallback mode accepts it as well |
| PatternReconciliation.Reconcile | sandbox/preprocessing.py:680-1023 | raises if and only if the citations are unacceptable, with a missing key if and only if the first bad finding looks up the marker; else reconciled in either mode. In strict mode every finding has the text and the rank of the earliest finding of the input that cites one of its ids, omitted patterns are filed by family, and a reconciled report stays as it is |
| EntryPass.IndexEntries | sandbox/preprocessing.py:568-575 | the two indexes hold exactly the entries of each family and each pattern |
| EntryPass.Expand | sandbox/preprocessing.py:599-606 | the expansion is every entry that some cited entry brings in |
| EntryPass.GroupFindings | sandbox/preprocessing.py:577-624 | raises if and only if an id is unknown, malformed or already claimed, and then the error that the caller catches; else each finding owns its expansion less what was claimed |
| EntryPass.FileLoose | sandbox/preprocessing.py:630-674 | unclaimed entries go to their recoverable families in code point order, the rest to one bucket |
| EntryPass.ReconcileEntries | sandbox/preprocessing.py:553-677 | the whole entry path against its specification, errors included; the theorems below say what it means |
| EntryTheorems.SucceedsIffFamiliesDisjoint | sandbox/preprocessing.py:577-594 | with a family on every entry, succeeds if and only if all cited ids are known integers and distinct findings cite disjoint sets of families |
| EntryTheorems.OwnsItsFamilies | sandbox/preprocessing.py:595-610 | each finding then owns exactly the union of the families it cites, whatever the order of findings |
| EntryTheorems.ExpansionIs | sandbox/preprocessing.py:599-606 | an entry is brought in by one of its family, or by one of its pattern where the cited entry has no family |
| EntryTheorems.OwnedIffCites | sandbox/preprocessing.py:599-612 | an entry is owned by a finding if and only if the finding cites an entry of its family |
| EntryTheorems.EveryEntryOnce | sandbox/preprocessing.py:608-674 | after recovery and the bucket every entry is held exactly once, families or not |
| EntryTheorems.EvidencePartitionsLog | sandbox/preprocessing.py:608-674 | the evidence lists are duplicate-free, pairwise disjoint and cover the log |
| EntryNumbers.CountsAddUp | sandbox/preprocessing.py:612-674 | the counts sum to the number of entries |
| EntryNumbers.OccurrencesInRange | sandbox/preprocessing.py:467-474 | the occurrence count is at most the physical count, and positive when that is |
| EntryNumbers.OccurrencesAreTraces | sandbox/preprocessing.py:467-474 | entries of one trace count once and entries without a trace count one each: the occurrences are the distinct non-empty traces and the distinct entries that have none |
| EntryNumbers.NumbersOf | sandbox/preprocessing.py:612-671 | every reconciled finding with evidence has its entries as count and physical count, its distinct traces and untraced entries as occurrences, and the percentage nearest to its count |
| EntryNumbers.IdentityIsByName | sandbox/preprocessing.py:460-464 | two reconciled findings with evidence have one identity if and only if they have one name, where a missing name is "finding" |
| EntryNumbers.ReconciledPassChecks | bridge/noc_bridge/validation.py:258-294 | every finding with evidence passes the validator's count, physical, occurrence and percentage checks |
| EntryNumbers.PercentagesAddUp | sandbox/preprocessing.py:612-674 | the n rounded percentages sum to within half a hundredth times n of 100 |
| EntryFiling.AddedHolds | sandbox/preprocessing.py:630-674 | every added finding holds all loose entries of one recoverable family, or is the last and holds all those of the other families |
| EntryFiling.LooseIsRecovered | sandbox/preprocessing.py:630-674 | every loose entry is in the added finding of its family, or in the bucket if the family is not recoverable |
| EntryFiling.RecoveredBySortedFamily | sandbox/preprocessing.py:637-657 | recovered findings stand in the code point order of their families |
| EntryFiling.BucketInOrder | sandbox/preprocessing.py:636-641 | the bucket lists entries by family in code point order, and by position within one |
| EntryStability.RepeatingOnlyOrders | sandbox/preprocessing.py:577-677 | a reconciled entry report is reconciled again without error, and only the order inside the catch-all bucket can change |
| EntryStability.SettledIsOnlyOrdered | sandbox/preprocessing.py:577-677 | a report that owns whole families and partitions the log is only put in order |
| EntryStability.SecondPassIsFixed | sandbox/preprocessing.py:577-677 | from the second pass on nothing changes |
| Tallies.CoverCountsAll | sandbox/preprocessing.py:278-307 | counts over distinct ids that cover the labels sum to the number of labels |
| Tallies.ClassCount | sandbox/preprocessing.py:299-320 | the sum of the counts of a class is the number of labels of that class |
| Tallies.RankedIsInRank | sandbox/preprocessing.py:278 | the ranking is by falling count, then code point order |
| Tallies.RankingIs | sandbox/preprocessing.py:278 | of any two ranked labels the earlier has the higher count, or the same and comes first in code point order |
| LogCounts.CountLines | sandbox/preprocessing.py:215-262 | the counters hold every pattern in order of first appearance, its exact count, and the family of its last line |
| LogCounts.BuildManifest | sandbox/preprocessing.py:278-300 | the manifest is the highest-ranked patterns and one bucket for exactly what is cut |
| LogCounts.BuildFamilies | sandbox/preprocessing.py:302-322 | every pattern is in the family it ended with, with the number of its lines, in rank order |
| LogCounts.ManifestIsWellFormed | sandbox/preprocessing.py:278-300 | ids are distinct and none is a reserved name |
| LogCounts.ManifestSize | sandbox/preprocessing.py:278-300 | the manifest lists every pattern, or as many as it may and then the bucket |
| LogCounts.ManifestAddsUp | sandbox/preprocessing.py:278-300 | whatever the size limit, the manifest counts every line once |
| LogCounts.ManifestKeepsTheTop | sandbox/preprocessing.py:278-290 | no pattern left out outranks one that is listed, and none is left out of a manifest that is not full |
| LogCounts.FamiliesAddUp | sandbox/preprocessing.py:302-322 | the family counts sum to the number of lines |
| LogCounts.ReportCountsTheLog | sandbox/preprocessing.py:858-991 | the counts of a reconciled report over a log's manifest sum to its lines, less an uncited "other" bucket |
| Recovery.ReconcileStrict | sandbox/preprocessing.py:680-707 | either kind of result: what comes out is reconciled, and a reconciled one comes out in order |
| Recovery.RejectedAgain | sandbox/preprocessing.py:577-610 | an entry report that was rejected half way, with the expansions already written into it, is rejected again |
| Recovery.MergedInPlaceIsRejected | sandbox/preprocessing.py:801-812 | the findings a merge has written into are rejected in both modes |
| Recovery.LeaveBehind | bridge/noc_bridge/worker.py:300-328 | what a strict attempt leaves to the repair: its own result unless it merged; the fallback pass accepts what a successful attempt leaves if and only if no family was cited by two findings |
| Recovery.MergingAttempt | bridge/noc_bridge/worker.py:300-337 | an attempt that succeeds by merging two findings, and whose repair fails |
| Recovery.ReconciledInOrder | sandbox/preprocessing.py:612-674 | putting the evidence of a reconciled analysis in order drops no id and repeats none |
| Recovery.ValidatorIsReasonable | bridge/noc_bridge/validation.py:183-294 | the validator's numeric checks, with any others that read no order of evidence, ask the same of a reconciled analysis and of its ordered form |
| Recovery.Repair | bridge/noc_bridge/worker.py:323-337 | there is a repair if and only if the fallback pass accepts what is left and the bounded result is valid; it is reconciled and passes the checks |
| Recovery.ProduceOutput | bridge/noc_bridge/worker.py:276-338 | the output is that of the first strict attempt whose result is valid, none if a key was missing before one, and else the repair of what the last attempt left; it is reconciled and passes the checks |
| Recovery.ProducesIff | bridge/noc_bridge/worker.py:276-338 | where every reconciled analysis is accepted there is an output if and only if some response is strictly acceptable, or the last one acceptable to the fallback pass, with no missing key before |
| Recovery.FirstAnswerStands | bridge/noc_bridge/worker.py:300-304 | a first response that is reconciled and valid is the output, put in order |
| Recovery.SameFactsReconciled | bridge/noc_bridge/worker.py:329 | bounding the narratives keeps a report reconciled |
| Recovery.ArtifactExistsAndValid | bridge/noc_bridge/worker.py:195-207 | accepts a stored output if and only if it is valid, strict reconciliation accepts it, and its result is valid; so it accepts every reconciled and valid one |
| Recovery.CrashAndRecover | bridge/noc_bridge/worker.py:195-207 | any output the worker accepts and stores is reconciled and valid, and is accepted again by its successor, for every check that is indifferent to the order inside a reconciled bucket |
| Recovery.CrashAndRecoverValidated | bridge/noc_bridge/worker.py:195-207 | and so it is under the validator's checks: every stored finding passes them |
| JobRows.UndisturbedClassification | bridge/noc_bridge/db.py:254-298 | without interference a row is claimed or classified as completed or busy, never otherwise |
| JobRows.JobRow.ClaimJob | bridge/noc_bridge/db.py:231-298 | the four dispositions and the row each leaves; a claim sets token and lease, anything else changes nothing |
| JobRows.JobRow.RenewJobLease | bridge/noc_bridge/db.py:301-313 | extends the lease if and only if the row is processing under that token |
| JobRows.JobRow.MarkCompleted | bridge/noc_bridge/db.py:82-113 | completes and releases if and only if no token is asked for or it is the row's |
| JobRows.JobRow.MarkFailed | bridge/noc_bridge/db.py:170-190 | fails and releases under the same guard |
| JobRows.JobRow.MarkRetrying | bridge/noc_bridge/db.py:193-204 | reschedules whatever the row was |
| JobRows.JobRow.BumpAttempt | bridge/noc_bridge/db.py:207-210 | writes the attempt number and neither takes nor releases a claim |
| Fencing.StepIsRowStep | bridge/noc_bridge/db.py:231-313 | every step of the protocol leaves a job's row alone or makes one allowed event of it |
| Fencing.RunIsFenced | bridge/noc_bridge/db.py:231-313 | every reachable state is fenced |
| Fencing.FencedThroughout | bridge/noc_bridge/worker.py:766-794 | at every point of every run a token is held exactly while processing, completions and failures directly follow their own claim, claims carry rising tokens, and a completed job has a stored result |
| Fencing.CompletedByLatestClaimant | bridge/noc_bridge/worker.py:783-794 | whoever completes a job is its latest claimant, with no settlement in between, and no other handler holds its claim |
| Fencing.OnlyRescheduleReopens | bridge/noc_bridge/db.py:193-204 | the only step that takes a job out of its completed state is the unguarded reschedule |
| Delivery.NewJobIsUnsent | apps/api/app/jobs.py:68-113 | a job's row never appears without an unsent outbox event for it |
| Delivery.QueueMoves | bridge/noc_bridge/queue_topology.py:53-88 | a queued copy is delivered, moved on by the retry queue's time to live, or stays |
| Delivery.HandedOver | bridge/noc_bridge/worker.py:628-664 | a handler that gives up its delivery leaves a copy in a queue; which one is said below |
| Attempts.RetriesAreDue | bridge/noc_bridge/worker.py:624-639 | in every run a retry is published for a failure that was retryable when it was raised and had an attempt left, and the copy has the next attempt |
| Attempts.DeadLettersAreFinal | bridge/noc_bridge/worker.py:648-656 | in every run the dead-letter queue gets a failure that was terminal or the last attempt's |
| Attempts.ExactlyOneWayOn | bridge/noc_bridge/worker.py:627-656 | a connected handler that settles a failure can publish a retry if and only if one is due, and a dead letter if and only if none is |
| Attempts.RunRemembers | bridge/noc_bridge/worker.py:618-627 | what a settling handler knows of its failure is the last failure it met |
| Attempts.NoAttemptBeyondTheLast | bridge/noc_bridge/worker.py:626-629 | in every run the attempt of every message in a queue or with a handler is between one and the last |
| Attempts.AttemptIsRecorded | bridge/noc_bridge/worker.py:630-717 | a claim writes the attempt of its message, a retry the next one |
| Copies.CopiesAreConserved | bridge/noc_bridge/queue_topology.py:53-88 | no step but publishing adds a copy of a message, and none but an acknowledgement removes one |
| Copies.CopiesAreBalance | bridge/noc_bridge/queue_topology.py:53-88 | at the end of every run there are as many copies of a message as were published and not acknowledged |
| Delivery.HarmlessStepDropsNone | bridge/noc_bridge/worker.py:618-666 | a harmless step leaves every unfinished job with a carrier |
| Delivery.DropsNoneIffHarmless | bridge/noc_bridge/worker.py:618-712 | a step drops no job if and only if it is not a late read or late mark that finds the row changed and the job without another carrier |
| Delivery.RunDropsNone | bridge/noc_bridge/worker.py:618-803 | every state of a harmless run keeps a carrier for every unfinished job |
| Delivery.NoJobIsLost | apps/api/app/jobs.py:83-113 | in every harmless run a job that is not completed has an unpublished outbox row, a queued copy or an unacknowledged delivery |
| Delivery.AtomicRunLosesNoJob | bridge/noc_bridge/worker.py:618-803 | with the claim one step and the retry publish and its mark one step, no run loses a job |
| Delivery.AtomicStepsAreHarmless | bridge/noc_bridge/worker.py:633-639 | either pair, undivided, does no harm |
| Races.SplitClaimLosesAJob | bridge/noc_bridge/db.py:241-298 | a run of twelve steps that loses a job when the claim's two statements are divided |
| Races.LateMarkLosesAJob | bridge/noc_bridge/worker.py:633-639 | a run of sixteen steps that loses a job when the mark comes after the retry was completed |
| Leases.LeaseRenewer.Run | bridge/noc_bridge/worker.py:119-141 | the lease is lost exactly by a refusal, and nothing is asked after one |
| Leases.ForceLasts | bridge/noc_bridge/db.py:254-258 | a claim that misses few enough renewals in a row is never displaced: every other claim finds it busy and every renewal that arrives succeeds |
| Leases.ToleratesIff | bridge/noc_bridge/worker.py:119-138 | exactly as many misses in a row are tolerated as leave the next tick within the lease |
| Leases.TwoMissesTolerated | bridge/noc_bridge/worker.py:120 | two misses are tolerated if and only if the lease is at least three seconds, three if and only if it is at least four minutes |
| Outbox.Dispatcher.DispatchPending | apps/api/app/outbox.py:131-179 | one pass tries exactly the oldest pending events, each once, as many as the batch or all; each is published now or has one more failed attempt, all others are untouched; returns the number published |
| Outbox.StillToTry | apps/api/app/outbox.py:136-150 | what can still be selected is exactly the untried rest of the queue, so a failing row costs no other its turn |
| Outbox.Dispatcher.PurgePublished | apps/api/app/outbox.py:47-106 | refuses bad arguments, else deletes one batch of events, each published before the retention limit, oldest first, and leaves the rest as it was |
| Outbox.OldestGoFirst | apps/api/app/outbox.py:77-87 | an expired event stays only if the batch is full of events published no later |
| Outbox.PurgeKeepsTheRules | apps/api/app/outbox.py:75-106 | only events published before the cutoff go, the rest stays in order, and one that might have gone stays only behind a full batch of no later ones |
| Outbox.WithoutIsRest | apps/api/app/outbox.py:93-99 | what a deletion leaves is the other events, in order |
| Outbox.PendingSurvives | apps/api/app/outbox.py:77-99 | retention keeps every unpublished event, in order |
| Dispatchers.StepKeepsExclusive | apps/api/app/outbox.py:139-179 | row locks keep one dispatcher to an event |
| Dispatchers.PublishedAtMostOnce | apps/api/app/outbox.py:112-130 | with any number of dispatchers, events arriving at any time and no crash, no event is published twice, and one marked published was published once |
| Snapshots.RepeatedName | bridge/noc_bridge/skill_registry.py:170-180 | a dependency path on which a name comes back is a cycle or has two rows of one name |
| Snapshots.ChildIs | bridge/noc_bridge/skill_registry.py:86-99 | a dependency is the pinned row if there is one, else the newest row of its name, and of its version if it gives one |
| Snapshots.MaterializableRows | bridge/noc_bridge/skill_registry.py:156-225 | a tree that can be materialized has intact rows only, each dependency named and there in the version asked for |
| Materialization.Workspace.Materialize | bridge/noc_bridge/skill_registry.py:156-225 | terminates on any table; on success the row and all below it are finished, on failure the tree cannot be materialized at all |
| Materialization.PositionsFall | bridge/noc_bridge/skill_registry.py:156-225 | along any dependency path the order in which subtrees finish strictly falls |
| Materialization.FinishedWalk | bridge/noc_bridge/skill_registry.py:156-225 | a walk that succeeds has written exactly the reachable rows, which have distinct names and no cycle, despite the early return |
| Materialization.NoNameRepeats | bridge/noc_bridge/skill_registry.py:170-180 | where materialization succeeds no dependency path repeats a name |
| SnapshotExecution.MaterializeSnapshot | bridge/noc_bridge/skill_registry.py:228-267 | succeeds if and only if the reference resolves, the execution hash is the stamped one and everything reachable is sound, distinctly named and acyclic; writes exactly that, each row once |
| SnapshotExecution.ReferenceIs | bridge/noc_bridge/skill_registry.py:69-86 | a job refers to the row of its id, or else to the newest row of its hash, and the row must have its skill name, and the hash if it gives one |
| SnapshotExecution.LaterSnapshotsChangeNothing | bridge/noc_bridge/skill_registry.py:235-241 | rows recorded later change neither what a job with pinned dependencies materializes, nor whether it can, nor its hash |
| ExecutionHash.HashesAgree | apps/api/app/skills/registry.py:98-134 | where dependencies are lists the two hashes agree, in value and in failure; both terminate on cyclic tables |
| ExecutionHash.ApiAcceptsIff | bridge/noc_bridge/skill_registry.py:121-141 | the API hashes exactly what the worker hashes with no null reachable, to the same value |
| ExecutionHash.NullDivides | apps/api/app/skills/registry.py:116-118 | a table with a null list below the root, which the worker hashes and the API does not |
| ExecutionHash.MaterializableHashes | bridge/noc_bridge/skill_registry.py:121-141 | whatever can be materialized has a hash |
| HashIdentity.HashIsOfNormalTree | bridge/noc_bridge/skill_registry.py:121-141 | the hash is that of the tree of content hashes with children sorted, and fails exactly when there is no tree |
| HashIdentity.TreeHashIsInjective | bridge/noc_bridge/skill_registry.py:139-141 | under an injective digest equal hashes mean equal trees |
| HashIdentity.EqualHashesIff | apps/api/app/skills/registry.py:104-111 | two snapshots have one hash if and only if they have one tree of content hashes up to order |
| HashOrder.InsertCommutes | apps/api/app/skills/registry.py:130 | two components sort alike in either order of arrival unless they have one key and differ |
| HashOrder.InsertClashes | apps/api/app/skills/registry.py:130 | and those that do have one key and differ keep their order of arrival, among whatever others |
| HashOrder.OrderDoesNotMatter | apps/api/app/skills/registry.py:98-134 | permuting a manifest's dependencies leaves the hash, or the failure, as it was, when one name and content hash mean one tree |
| HashOrder.TradingPlacesMatters | bridge/noc_bridge/skill_registry.py:139 | two dependencies of one name and content hash with different trees change the hash when they trade places, before any others |
| HashOrder.OrderIsHiddenIff | apps/api/app/skills/registry.py:98-134 | the order-independence that the documentation of the hash promises, exactly: under an injective digest every order of a manifest's dependencies has one hash or failure if and only if there is no hash, or one name and content hash mean one tree among them |
| HashOrder.PinnedKeysDecide | apps/api/app/skills/registry.py:163-185 | dependencies pinned by name meet that condition |
| HashOrder.PinnedOrderIsHidden | apps/api/app/skills/registry.py:98-134 | so permuting pinned dependencies never changes the hash |
| HashOrder.DistinctNamesDecide | apps/api/app/skills/registry.py:98-134 | dependencies with distinct names meet it too |
| HashOrder.VersionsTradePlaces | bridge/noc_bridge/skill_registry.py:121-141 | an unpinned row on two versions of one skill whose hash depends on their order |
| Registry.SkillRegistry.GetOrCreateSnapshot | apps/api/app/skills/registry.py:137-241 | records what is on disk as the specification says, or fails and changes nothing |
| RegistryRecords.GetRecords | apps/api/app/skills/registry.py:163-241 | the row returned has the name, the hash of the files on disk and a pin for each declared dependency; a row is added if and only if there was none with that hash and those pins, and is active if that was asked, or not said and it is the first |
| RegistryRecords.PinsAreHeld | apps/api/app/skills/registry.py:163-185 | the pins have exactly the names of the declared dependencies, each for a row of that name: the one of the version asked for, or the active one, where it was already there |
| Registry.SkillRegistry.SetActiveSnapshot | apps/api/app/skills/registry.py:298-342 | activates the asked version alone, or fails and changes nothing |
| Registry.SkillRegistry.ResolveActiveSnapshot | apps/api/app/skills/registry.py:251-272 | returns an active row of the skill after recording what is on disk, or fails and changes nothing |
| RegistryHistory.CreationKeeps | apps/api/app/skills/registry.py:200-241 | a creation takes the next version, leaves one active row at most, and changes no other field of any row |
| RegistryHistory.GetKeeps | apps/api/app/skills/registry.py:137-241 | recording a skill and, on the way, its dependencies keeps the history |
| RegistryHistory.ActivationKeeps | apps/api/app/skills/registry.py:298-342 | activation leaves exactly the target active and changes nothing else |
| RegistryHistory.CallsKeepHistory | apps/api/app/skills/registry.py:137-342 | after any calls versions are 1 to n in order of creation, at most one row of a skill is active, and exactly one unless the skill was first recorded as a draft |
| RegistryHistory.CallsOnlyExtend | apps/api/app/skills/registry.py:137-342 | no call removes a row or changes anything but active flags |
| RegistryRepeat.KeptSettled | apps/api/app/skills/registry.py:163-198 | a skill whose recording would change nothing stays so when rows of unsettled skills are added |
| RegistryRepeat.GetPreserves | apps/api/app/skills/registry.py:137-241 | recording a skill settles it and unsettles no other |
| RegistryRepeat.RepeatFindsTheSame | apps/api/app/skills/registry.py:137-198 | recording unchanged files again finds the same row and changes nothing, whatever is asked about activation |
| RegistryRepeat.EditsActivateNothing | apps/api/app/skills/registry.py:251-272 | once a skill has an active row, what is on disk does not move it |
| Composition.BuildIndex | bridge/noc_bridge/report_composition.py:246-260 | the index of ids and display ids, refused when any two collide |
| Composition.IndexedAreDistinct | bridge/noc_bridge/report_composition.py:246-260 | an accepted snapshot has distinct incident ids, all indexed |
| Composition.ParseNodes | bridge/noc_bridge/report_composition.py:281-340 | what parsing a plan collects, and which plans it refuses |
| Composition.IndexFinds | bridge/noc_bridge/report_composition.py:246-260 | a text finds an incident if and only if it is its id or display id |
| Composition.ReferredIs | bridge/noc_bridge/report_composition.py:311-326 | an analysis node means the incident of its id or display id, or else the first incident of its run |
| ReportLinks.ComposeReport | bridge/noc_bridge/report_composition.py:230-455 | the composed document or the refusal, against its specification |
| ReportPlans.ComposesIff | bridge/noc_bridge/report_composition.py:230-434 | a document is composed if and only if the snapshot is supported, its incidents can be told apart, the plan is read and every analysis can be shown as its node asks |
| ReportPlans.PlanIsReadIff | bridge/noc_bridge/report_composition.py:281-369 | a plan of blocks is read if and only if every node refers to this report, references repeat only where allowed, and they cover all incidents and all runs where the policies say so |
| ReportPlans.SummaryIsProse | bridge/noc_bridge/report_composition.py:288-340 | the summary is the plan's prose in order, but for the headings that the document has anyway |
| ReportPlans.AskedInOrder | bridge/noc_bridge/report_composition.py:311-329 | analyses are asked for in the order of first mention |
| ReportPlans.LastNodeIsKept | bridge/noc_bridge/report_composition.py:329 | the node kept for an analysis is the last one that means it |
| ReportTheorems.LinksResolve | bridge/noc_bridge/report_composition.py:402-434 | every navigation entry and evidence link names the bookmark of exactly one available analysis block |
| ReportPlans.AlertsAre | bridge/noc_bridge/report_composition.py:374-385 | an incident is among the alerts if and only if the policy covers all or a node of the plan refers to it by id or display id |
| ReportPlans.AlertsInOrder | bridge/noc_bridge/report_composition.py:374-382 | without full coverage alerts stand in the order of first mention |
| ReportTheorems.BackLinkLandsIff | bridge/noc_bridge/report_composition.py:387-434 | in every accepted plan a bookmarked analysis is linked from its alert and from the navigation, under the alert's number, if and only if the policy covers all incidents or the plan refers to this one |
| ReportTheorems.UnalertedHasNoLink | bridge/noc_bridge/report_composition.py:402-434 | otherwise no block at all links to it |
| ReportTheorems.NavigationIff | bridge/noc_bridge/report_composition.py:410-419 | there is a navigation if and only if some bookmarked analysis is of such an incident |
| ReportTheorems.BackLinksLand | bridge/noc_bridge/report_composition.py:402-434 | under full incident coverage every bookmarked analysis is linked from its alert and from the navigation, under the alert's number |
| ReportTheorems.PlansDifferInSummaryOnly | bridge/noc_bridge/report_composition.py:374-434 | under full coverage the documents of two accepted plans differ only in the summary section |
| ReportTheorems.BackLinkToNowhere | bridge/noc_bridge/report_composition.py:374-426 | without full incident coverage a bookmarked analysis can stand without any navigation |
| Preview.Index.BlockToJson | bridge/noc_bridge/report_document_json.py:49-152 | the block's JSON numbered from the length of the list, the list extended by its screenshots in walk order; fails exactly on an unknown block |
| Preview.DocumentToPreview | bridge/noc_bridge/report_document_json.py:155-168 | the payload and the private list of a whole document |
| Preview.NumbersAreConsecutive | bridge/noc_bridge/report_document_json.py:73-88 | the numbers in a block's JSON are consecutive in walk order, over any nesting |
| Preview.PreviewAgrees | bridge/noc_bridge/report_document_json.py:155-168 | the numbers of a payload are exactly 0 to k-1, and a number stands where a screenshot does if and only if the list has that screenshot there |
| Preview.AnalysisOrder | bridge/noc_bridge/report_document_json.py:128-146 | an analysis numbers what its children show, then its own screenshots, then its log file and texts in order |
| Preview.EvidenceOrder | bridge/noc_bridge/report_document_json.py:114-127 | incident evidence numbers its own screenshots last |
| Preview.DocumentOrder | bridge/noc_bridge/report_document_json.py:155-168 | a document numbers all its blocks, then all its metadata |

## Left out

- Text classification: templates, cause families, timestamps, trace ids, the narrative key and the matching of hints are inputs.
- The text checks of the validator (density, repetition, causation) and the schema are one abstract check in `Recovery`, any predicate that reads no order of evidence; the numeric ones are modelled for the entry path in `EntryNumbers`.
- Findings keep their name, ids, numbers and narrative keys; other fields are passed through by the original and are not modelled.
- An entry's family as the manifest entry has it and the final family of its pattern may differ, as in the original; no statement equates them.
- Statistics other than patterns and families (levels, endpoints, status codes, samples, representative entries), log compaction and narrative compaction.
- A cited manifest id that is not a string, and a `pattern_ids` that is not a list.
- Columns of the jobs table beside status, token, lease and attempt; the attempt number is written together with the step beside it, since nothing reads it between the two.
- Messages that fail the schema, status events, the admin's requeue and purge of the dead-letter queue, and evidence upload sweeps.
- A broker restart: queues keep their messages, although the retry copy is published without the persistent mode (`bridge/noc_bridge/worker.py:633-638`).
- The worker's inference, object store and database connections: they succeed or raise at any step; a handler whose connection dropped goes on but cannot reach the broker.
- Clock skew between workers and a renewal that takes time: ticks are ideal.
- Several dispatchers are modelled without crashes, and may select any unlocked pending event, not only the oldest; the single-dispatcher pass allows failures of any pattern, and the delivery protocol allows crashes between publishing and marking.
- SHA-256, JSON and YAML: digests are functions, manifests are parsed; `dependencies` that are neither absent, null nor a list.
- Snapshots with short sentinel hashes, which the original does not verify: a row is intact or not.
- The contract check and the cycle check of a new snapshot are one abstract predicate of the registry; on-disk dependencies are acyclic.
- The audit serialization and the legacy daily report assembler; blocks that hold no other block are one kind in `Preview`.
- Document metadata and provenance, heading texts beyond their number and title, and the layout of an analysis, which either can be laid out or not.
- Rendering, OCR, HTTP, health endpoints, metrics, migrations and the web application.
