# RiskSense assessment engine: a Dafny model

This project models the parts of the RiskSense backend that decide what an assessment asks, what it scores, what it
runs on and what is remembered of it, and proves the properties those parts exist for.

- **Intake.** `Branching`, `Intake` and `AssessmentRecord` are one assessment document and its operations: starting,
  choosing a persona, describing the incident, answering, submitting, deciding. `Intake` gives each operation as a
  function from document to document with the audit events it writes; the class `Assessment` performs it field by
  field and is proved to do exactly that. `IntakeRuns` and `IntakeTermination` are about whole runs, with the language
  model's answers as arbitrary input.
- **Replay.** `Replay` folds the audit log back into a state and compares it with the stored document.
- **Scoring.** `Conditions`, `RuleEngine` and `Scoring` are the condition language, the hard rules and the weighted
  matrix, over real numbers; `Sorting` is the stable sort they and the snapshots use.
- **Content.** `Reachability` has the four hand-written branch walks, `Datasets` the upload validation and the activation
  it is meant to guarantee, `PinnedContent` the snapshot an assessment runs on, `Versions`, `Approval` and
  `RuleLifecycle` the version and change-control machines, `DatasetLifecycle` the upload, review and activation of datasets
  beside them, and `RulePreflight`, `RuleBackfill` and `RuleMigration` the one-time migration of rules to versions.
- **Audit log.** `CanonicalJson` is the text that is hashed, `AuditRecords` what a record hashes, `AuditChain` the walk
  over a log, `AuditWriters` the concurrent writers; `ObjectIds` is how a database id reads as text, and `StoredPayload`
  what the database keeps of a payload.
- **Time-driven machines.** `Sessions`, with `SessionRaces` for logins at the same time, `Otp` and `Retention`.
- **What is left behind.** `AnswerLaws`, `OutcomeLaws`, `ReplayDetails`, `VersionLaws`, `ContentLaws`, `MigrationLaws`,
  `SessionLaws`, `JsonLaws` and `AuditLaws` say of each operation what it leaves of its document, store, log or text, in terms
  of what was there and what was given, not of how it is computed: which value an answer stores, on what a classification
  rests, which content stands under a key after a dataset. `Conditions`, `RuleEngine`, `Scoring`, `Branching`, `Otp` and
  `Retention` have such laws of their own.

Everything the code does not decide itself is a parameter: what the language model extracts, how JavaScript reads a piece
of text as a word, a number or a boolean, the hash, the clock, the directory of reviewers.

## Where the code and its promises part

Each of these is a theorem of the model, with the exact condition where there is one.

- The guard that limits re-asking a question to once (src/modules/assessments/service.ts:162-163) never fails, because
  every copy of the key is removed from the asked list; `IntakeRuns.AskedOnce`. An intake therefore ends only
  because settled answers fill their fact: an empty value for a required fact costs nothing, and neither does a
  clarification without text, which does not count as asked. `IntakeTermination.IntakeIsBounded` bounds every run by counting
  the two, and with either one an intake can go on for ever (`IntakeTermination.IntakeNeedNotEnd`).
- If every node of a flow is gated and a required fact has a producing question, selecting the scenario stalls the intake: a
  question is current, but a message is still taken for a persona or a description, and only the selection of a scenario
  with an ungated question gets to the questions; `IntakeRuns.BeginStartsQuestions`, `IntakeRuns.StalledReceives`,
  `IntakeRuns.NeverUnderWay`.
- A rebuilt status differs from the stored one exactly while the status is `intake_complete`, or `awaiting_decision` with
  a score of 0 and a fired rule; `Replay.ConformanceIsExact`. The comment on `errorReview` (compute.ts:33) speaks of a
  score of exactly 0; the code also asks that no rule fired.
- With full auditing a log is complete exactly when the assessment was opened with a text: a description given later is
  never logged, so facts are then never compared; `Replay.CompleteIffOpenedWithText`.
- A validated dataset can be refused at activation for reasons that the validation does not look at: a row without a branch
  trigger keeps the stored one (`Datasets.AcceptedYetRefused`), somebody has an open draft of a persona or scenario in the
  file (`Datasets.DraftYetAccepted`, `Datasets.ScenarioDraftYetAccepted`), or a scenario changed its persona
  (`Datasets.OtherPersonaYetAccepted`); `Datasets.AcceptedActivatesIff` says that personas, questions and scenarios have no
  others. An open matrix draft and a rule key all of whose rules are retired are two more (`Approval.SheetAppliesIff`,
  `RuleLifecycle.RowAppliesIff`); `DatasetLifecycle.ActivationGoesThroughIff` is the whole list. A dataset refused once has
  failed for good (`DatasetLifecycle.DecidedForGood`).
- A version group's key is unique only within the group: `Versions.TwoGroupsOneKey`.
- The preflight of the rule migration judges ids by their text, the backfill and the indexes by their stored type. A legacy row
  that holds an explicit null where it should lack a field, or whose `_id` or `tenantId` is not stored as an object id, passes
  the preflight and then aborts the backfill, leaving everything unchanged: `RuleBackfill.BackfillIsSound`. Rows whose ids
  only read alike pass it too, and can keep an index from being built when the rows are backfilled already:
  `RuleBackfill.TwinsCanClash`, `RuleMigration.RulesCollection.Migrate`.
- An audit record hashes its ids and its payload as the caller gave them and is verified with what the database gives back: it
  does not verify when the actor id was empty, when either id had capital letters, or when an object inside the payload was
  empty, because Mongoose leaves empty objects out when it saves; `AuditChain.WrittenVerifiesIff` is the exact condition.
  The callers pass ids they have read from the database. But an update that gives a question its first scoring hint records
  an empty `before`, and from that record on the log of the tenant does not verify, although nobody tampered with it:
  `AuditChain.FirstValueFails`, `AuditWriters.LogVerifiesIff`.
- A closed assessment that the retention sweep has reduced never matches its log again: persona, scenario, score, confidence
  and the logged facts are reported as differing, and nothing else; `Replay.ReducedIsReported`.
- A code request whose mail outlasts the five-minute lock lets another request through. Any hour then holds at most one code
  more for each such request (`Otp.EveryWindowIsBounded`), and can hold that many (`Otp.StragglersExceedTheLimit`).
- A dry run of the retention sweep foretells the reductions only with a grace period or with nothing to flag, and the archived
  assessments only if no plan changed under a half-enforced one: `Retention.DryRunForetells` is the exact condition, and
  `Retention.PlanChangeMisleads` the failing input.
- The tenant's settings look for removed sectors in parts of a dataset that no dataset has (the last three paths of
  src/modules/system/routes.ts:211-213). Nothing is lost by it, because a scoring sheet never names a sector: whatever is
  stored or may still be activated names configured sectors only, however sectors come and go
  (`DatasetLifecycle.NoSectorIsStranded`).

## Model

| member | source | states |
|---|---|---|
| `Conditions.MatchesReadsOnlyItsKeys` | src/modules/shared/conditions.ts:81-93 | Two fact maps that agree on `factKeysOf` of a condition give it the same verdict, at any nesting. |
| `Conditions.ReadingMeans` | src/modules/shared/conditions.ts:48-57 | Only texts are read as words, numbers or booleans; every other value is compared as it is. |
| `Conditions.OperatorsMean` | src/modules/shared/conditions.ts:59-78 | What each operator asks of the value read from the fact and the one read from the condition: equality, difference, and order only of two numbers. |
| `Conditions.ListsMean` | src/modules/shared/conditions.ts:59-78 | When a fact exists and when it is in a list, and that any other operator reads the head of a list and fails without one. |
| `Conditions.GroupsMean` | src/modules/shared/conditions.ts:81-86 | `all` asks for every part, `any` for one, and a condition without an operator never holds. |
| `RuleEngine.NothingFires` | src/modules/rules/engine.ts:29-34 | No winner exactly when no trigger matches. |
| `RuleEngine.WinnerIsBest` | src/modules/rules/engine.ts:25-43 | The winner fired, no rule that fired beats it on (priority, severity), and the fired list is exactly the matching rules. |
| `RuleEngine.WinnerIsFirstBest` | src/modules/rules/engine.ts:29-34 | Of equally good rules that fire the first in the list wins. |
| `RuleEngine.OrderOfRulesIsIrrelevant` | src/modules/rules/engine.ts:29-43 | Listing the rules in another order changes neither the forced classification nor which rules are reported as fired. |
| `RuleEngine.RulesReadOnlyTheirKeys` | src/modules/rules/engine.ts:29-31 | Rule evaluation depends only on the fact keys its triggers name. |
| `Scoring.FirstMatchIsFirst` | src/modules/scoring/compute.ts:43-49 | The mapping used is the first whose condition holds, and none is used only when none holds. |
| `Scoring.ComputeFactor` | src/modules/scoring/compute.ts:41-51 | The loop with its early exit computes the trace of one factor: first matching mapping or the scale minimum, and its weighted share. |
| `Scoring.TraceMeans` | src/modules/scoring/compute.ts:41-51 | A factor has the value of the first mapping that holds, or the minimum of its scale, and earns that part of its weight that the value is of the scale. |
| `Scoring.TracesByName` | src/modules/scoring/compute.ts:37-54 | Each of the six traces is that of the factor of its name. |
| `Scoring.ScoreNeedsNoClamp` | src/modules/scoring/compute.ts:57-60 | For every matrix the schema accepts the rounded sum is within 0..100, so the clamp is the identity, although weights sum to 100 only up to rounding. |
| `Scoring.ScoreMeans` | src/modules/scoring/compute.ts:57-60 | The score is what the six factors earn together, to the nearest whole point, halves upwards. |
| `Scoring.BandsPartitionScores` | src/modules/scoring/compute.ts:62-68 | Every score 0..100 lies in exactly one band of a valid matrix, and that band is reported. |
| `Scoring.SeverityMonotoneInFactors` | src/modules/scoring/compute.ts:37-68 | Raising factor values never lowers the score or the severity. |
| `Scoring.ConfidenceIsAPercentage` | src/modules/scoring/compute.ts:75-83 | Confidence is within 0..100 for any facts and any extraction confidences in 0..1. |
| `Scoring.ConfidenceMeans` | src/modules/scoring/compute.ts:75-83 | Confidence is seven tenths the share of required facts that are there and three tenths the mean confidence of the facts that are there, as a whole percentage. |
| `Scoring.OutcomeIsDetermined` | src/modules/scoring/compute.ts:85-110 | Score, trace and classification are the same for any order of the rules and for facts that agree on the keys named in the matrix and the rules. |
| `Scoring.SimulateMeans` | src/modules/scoring/compute.ts:85-110 | Every field of a result: the forced classification of every best rule that fires, else the band of the score; the two confidence bounds; and the error review of a zero score without a rule. |
| `Branching.GateOfNone` | src/modules/assessments/branching.ts:35 | A question is gated exactly when some flow node of its key has a `showIf`. |
| `Branching.GateOfIsLast` | src/modules/assessments/branching.ts:35 | The gate of a key is that of its last flow node with a `showIf`. |
| `Branching.GateMeans` | src/modules/assessments/branching.ts:41-42 | A gate is open exactly when its fact reads as the value it names; a key without a gate is always open. |
| `Branching.NextIsFirstAskable` | src/modules/assessments/branching.ts:30-46 | The question popped is the first askable key of the queue, nothing behind it is touched, and no question means that nothing queued is askable. |
| `Branching.PopNext` | src/modules/assessments/branching.ts:34-45 | The shifting loop computes that function. |
| `Branching.BranchComesFirst` | src/modules/assessments/branching.ts:52-58 | A matching trigger puts every follow-up not yet asked or queued ahead of the whole queue, and a trigger that does not match adds nothing. |
| `Branching.BranchMeans` | src/modules/assessments/branching.ts:52-58 | The follow-ups brought in, exactly: those of a trigger whose value reads as the answer does, neither asked nor queued, in order, in front. |
| `Branching.MissingMembers` | src/modules/assessments/branching.ts:61-63 | The missing facts are exactly the required ones that are absent, null or empty. |
| `Branching.StructuredValue` | src/modules/assessments/branching.ts:66-80 | A yes/no answer is the boolean it reads as, a number answer the number given or read, a free text itself; a choice is in `Branching.AnswerSays`. |
| `Branching.AnswerSays` | src/modules/assessments/branching.ts:66-80 | An answer is taken exactly when it says something, and for that value: the first option it names by id, fact value or label, the boolean or the number it reads as, or itself. |
| `AssessmentRecord.BuildFacts` | src/modules/assessments/service.ts:35-39 | The loop builds the map in which the last fact of a key wins. |
| `AssessmentRecord.Assessment.StoreFact` | src/modules/assessments/service.ts:41-47 | Overwrites the fact of the same key in place, or appends. |
| `AssessmentRecord.Assessment.Step` | src/modules/assessments/service.ts:148-176 | The document after `advance`: next askable question, else the producer of the first missing fact that has one asked again, else completed. |
| `AnswerLaws.AdvanceMovesOn` | src/modules/assessments/service.ts:148-176 | Where an intake moves on to, exactly: the first queued question that can be asked, else the question about the first missing required fact that has one, else the end; and that nothing else changes. |
| `AssessmentRecord.Assessment.SelectScenarioAndBegin` | src/modules/assessments/service.ts:366-389 | Pins the scenario, fills the queue and advances, writing one event; a refusal changes nothing. |
| `AssessmentRecord.Assessment.ContinueAfterPersona` | src/modules/assessments/service.ts:348-364 | Without an opening text the description is asked for; a stale scenario selection is refused. |
| `AssessmentRecord.Assessment.Open` | src/modules/assessments/service.ts:265-312 | The new document and its events; an inferred persona waits for confirmation. |
| `AssessmentRecord.Assessment.ChoosePersona` | src/modules/assessments/service.ts:333-345 | Choosing a persona before the questions, and the refusal after. |
| `AssessmentRecord.Assessment.ChooseActivePersona` | src/modules/assessments/service.ts:315-345 | A persona that is not active is refused, and with a text the scenario is selected before the choice is stored. |
| `AssessmentRecord.Assessment.DescribeIncident` | src/modules/assessments/service.ts:406-422 | The description turn: its phase check, the minimum length, the stale selection. |
| `OutcomeLaws.StartMeans` | src/modules/assessments/service.ts:265-312 | What an assessment begins as: a persona named by the caller counts at once, a proposed one waits, and under full auditing the text is logged. |
| `OutcomeLaws.BeginMeans` | src/modules/assessments/service.ts:366-389 | A selection with questions is pinned, its flow queued in order, and the intake moves on; one without is refused. |
| `OutcomeLaws.SetPersonaMeans` | src/modules/assessments/service.ts:333-364 | Before the questions the persona is stored, and then a description is asked for, the questions begin, or the selection is refused as stale. |
| `OutcomeLaws.DescribeMeans` | src/modules/assessments/service.ts:406-422 | A description is taken exactly in its phase, with ten characters, and a selection for the persona that has questions; each refusal has its reason. |
| `OutcomeLaws.PersonaMessage` | src/modules/assessments/service.ts:402-405 | A message in the persona phase names an active persona by its value, else by its text. |
| `OutcomeLaws.DescribingMessage` | src/modules/assessments/service.ts:406-421 | A message in the describing phase is a description by its trimmed text, else by its value. |
| `OutcomeLaws.AnsweringMessage` | src/modules/assessments/service.ts:400-424 | Every other message is an answer, and once the intake is over none is taken. |
| `AssessmentRecord.Assessment.RecordSideFacts` | src/modules/assessments/service.ts:462-471 | Extracted side facts only fill gaps: never an existing fact, an unknown key, a placeholder or a low confidence. |
| `AssessmentRecord.Assessment.SettleExtracted` | src/modules/assessments/service.ts:456-499 | An extracted answer is settled, or unclear once, exactly as the verdict function says, with the facts stored so far. |
| `AssessmentRecord.Assessment.AnswerQuestion` | src/modules/assessments/service.ts:424-531 | One answer to the current question, field by field: the refusals, the one clarification, or the settled answer with its value, its branch, the next question and its event, exactly as `AnswerLaws.Taken` says. |
| `AnswerLaws.DirectAnswer` | src/modules/assessments/service.ts:500-529 | An answer given as a value is accepted exactly when it says something for a question of its kind; the fact of the question is then what it says, every other fact stays, and the answer, the event, the branch and the next question are fixed. |
| `AnswerLaws.AnswerInWords` | src/modules/assessments/service.ts:454-529 | An answer in words is always accepted: unclear once unless the model is sure, else settled with the value extracted, read as the question reads it, or with the words themselves; beside it exactly the side facts that fill gaps. |
| `AnswerLaws.AnswerMeans` | src/modules/assessments/service.ts:424-531 | Every answer is taken in one of these ways, or refused because no question asked it or because it says nothing to the one that did. |
| `AnswerLaws.FillingMeans` | src/modules/assessments/service.ts:462-471 | Which side facts fill gaps: confident, of another question of the pin, no placeholder, and nothing known of the fact before or from an earlier place. |
| `AnswerLaws.NoAnswer` | src/modules/assessments/service.ts:424-447 | A message that does not answer the question being asked is refused. |
| `AssessmentRecord.Assessment.ReceiveMessage` | src/modules/assessments/service.ts:392-531 | A message is by the phase the choice of an active persona, a description of at least ten characters, or an answer, with the refusals of each. |
| `AssessmentRecord.Assessment.SubmitResult` | src/modules/assessments/service.ts:571-603 | The submit transaction: refusals, the scored result, the status and the three events, exactly as `OutcomeLaws.Submitted` says. |
| `OutcomeLaws.SubmitMeans` | src/modules/assessments/service.ts:534-603 | Submitting succeeds exactly on a completed intake with every required fact, and then the stored score, classification, rule, confidence, recommended action, status and events are what the pinned rules and matrix make of the facts. |
| `OutcomeLaws.SubmissionsOfRuns` | src/modules/assessments/service.ts:534-603 | So it is for every submission of every run. |
| `AssessmentRecord.Assessment.RecordDecision` | src/modules/assessments/service.ts:612-644 | The decision transaction with its four refusals, against the decision function that `OutcomeLaws.DecideMeans` is about. |
| `OutcomeLaws.DecideMeans` | src/modules/assessments/service.ts:606-644 | When a decision is refused and why, accepting a zero score included, and exactly what an accepted one stores and logs: its reason trimmed in the document, as given in the log. |
| `IntakeRuns.JudgeKeepsFacts` | src/modules/assessments/service.ts:456-513 | A turn never loses a captured fact other than the one the question is about, and a settled turn stores its value there. |
| `IntakeRuns.ReaskFinds` | src/modules/assessments/service.ts:160-169 | A missing fact is asked for again exactly when one of the missing facts has a pinned producer. |
| `IntakeRuns.AdvanceKeepsInv` | src/modules/assessments/service.ts:148-176 | Choosing the next question either asks one that was not asked or finishes with nothing askable and no producible fact missing. |
| `IntakeRuns.RunsKeepInv` | src/modules/assessments/service.ts:228-644 | The invariant of an intake holds after every sequence of calls from every start, even when the tenant's plan changes between calls. |
| `IntakeRuns.AskedOnce` | src/modules/assessments/service.ts:153-165 | In every reachable state the asked list has no duplicates and not the current question, so the guard on re-asking always passes. |
| `IntakeRuns.NothingOwedIsLost` | src/modules/assessments/branching.ts:21-58 | Every ungated flow question and triggered follow-up is answered, queued or current until the intake completes, and answered afterwards. |
| `IntakeRuns.RequiredFactsAtCompletion` | src/modules/assessments/service.ts:158-172 | An intake completes only with every required fact present or produced by no pinned question. |
| `IntakeRuns.SubmitRefusesOnlyTheUnproducible` | src/modules/assessments/service.ts:540-546 | A completed intake is refused for missing facts exactly when a required fact without a pinned producer is missing. |
| `IntakeRuns.BeginStartsQuestions` | src/modules/assessments/service.ts:366-389 | Selecting a scenario starts the questions exactly when some flow question is ungated; otherwise it completes at once or stalls, and exactly when it does which. |
| `IntakeRuns.MessagesAreOperations` | src/modules/assessments/service.ts:392-422 | An accepted message is one of the operations that runs are made of. |
| `IntakeRuns.LaunchStalls` | src/modules/assessments/service.ts:307-310 | An assessment opened on a scenario that stalls is stalled. |
| `IntakeRuns.StalledMoves` | src/modules/assessments/service.ts:315-422 | Only choosing a persona or describing the incident moves a stalled intake, and it reaches the questions exactly when the newly selected flow has an ungated question. |
| `IntakeRuns.StalledReceives` | src/modules/assessments/service.ts:392-422 | Every message to a stalled intake is refused or selects a scenario anew, with the same outcome. |
| `IntakeRuns.NeverUnderWay` | src/modules/assessments/service.ts:228-422 | While every scenario on offer stalls, no run ever puts a question or completes an intake. |
| `IntakeTermination.SettlingUsesOneUp` | src/modules/assessments/service.ts:446-529 | Each settled answer uses up one of the remaining questions or missing required facts, unless it leaves a required fact blank. |
| `IntakeTermination.RunsAreBounded` | src/modules/assessments/service.ts:148-176 | Over every run settled answers plus what remains stay within questions plus required facts plus blank settlements, and turns within twice that plus empty clarifications. |
| `IntakeTermination.IntakeIsBounded` | src/modules/assessments/service.ts:392-531 | Whatever the model answers: at most questions + required facts + blank settlements of required facts are settled, and at most twice as many turns accepted, plus the clarifications without text. |
| `IntakeTermination.IntakeEnds` | src/modules/assessments/service.ts:392-531 | So without blank settlements and empty clarifications at most (questions + required facts) answers are settled in at most twice as many turns. |
| `IntakeTermination.EmptyAnswersNeverEnd` | src/modules/assessments/service.ts:160-169 | Empty answers to a required question are settled any number of times. |
| `IntakeTermination.EmptyClarificationsNeverEnd` | src/modules/assessments/service.ts:478-495 | A clarification without text is asked any number of times. |
| `IntakeTermination.IntakeNeedNotEnd` | src/modules/assessments/service.ts:160-169 | Both counts are needed: from one launch there are, for every n, a run that settles n answers and a run of n turns that settles none. |
| `Replay.Reconstruct` | src/modules/assessments/reconstruct.ts:60-152 | The loop over the sorted entries computes the replay of the known events. |
| `Replay.OrderIsRestored` | src/modules/assessments/reconstruct.ts:69 | Entries in any order are put back into the order of the log. |
| `Replay.QuestionFactsSuffice` | src/modules/assessments/service.ts:489-529 | Logging only the facts a question stored is enough to rebuild the whole fact map. |
| `Replay.ReplayAgrees` | src/modules/assessments/reconstruct.ts:60-152 | After every run the replayed log equals the document in persona, scenario, answers, facts, score, winner, factors, classification, confidence, recommendation, decision and visible status; the facts as long as no answer was logged without them. |
| `ReplayDetails.RunsTell` | src/modules/assessments/reconstruct.ts:74-149 | After every run a replay also tells the logged opening text and the last decision: its kind, the classification it set and, under full auditing, its reason. |
| `ReplayDetails.OpeningIsLogged` | src/modules/assessments/service.ts:287-305 | Full auditing logs the opening text as it was given. |
| `Replay.CompareFacts` | src/modules/assessments/service.ts:675-679 | The comparison names exactly the facts that differ or are missing on either side. |
| `Replay.Compare` | src/modules/assessments/service.ts:663-679 | The report names exactly the fields whose rebuilt value is known and differs. |
| `Replay.StoredMeans` | src/modules/assessments/service.ts:660-679 | What the report reads of the stored document. |
| `Replay.ConformanceIsExact` | src/modules/assessments/service.ts:650-702 | On a run's own log, whatever plan each call was made under, the report is empty, except for the status in exactly the states a replay cannot tell. |
| `Replay.ZeroScoreNeedsARule` | src/modules/assessments/reconstruct.ts:134 | A status that differs because of a zero score comes with a fired rule. |
| `Replay.CompleteIffOpenedWithText` | src/modules/assessments/reconstruct.ts:75-149 | A replay is complete exactly when the assessment was started under full auditing with a text and no answer, result or decision was accepted without full auditing. |
| `Replay.MinimalIsPartial` | src/modules/assessments/service.ts:55-58 | Without full auditing a replay is never complete. |
| `Replay.MinimalRebuildsNoFacts` | src/modules/assessments/service.ts:55-58 | Calls without full auditing give a replay no fact. |
| `Replay.DriftIsReported` | src/modules/assessments/service.ts:675-679 | With a complete replay a report without facts means that the stored facts are the logged ones. |
| `Replay.ReducedIsReported` | src/modules/assessments/service.ts:660-679 | On a closed assessment that retention reduced exactly the persona, the scenario, the score, the confidence and the logged facts with a value are reported. |
| `Reachability.QuestionMap` | src/modules/assessments/content.ts:49-71 | The walk used for pinning terminates on any graph and returns exactly the reachable active questions. |
| `Reachability.ActivationWalk` | src/modules/scenarios/service.ts:39-60 | The activation walk succeeds exactly when no link dangles, with the same closure, and names only dangling keys when it refuses. |
| `Reachability.DatasetWalk` | src/modules/datasets/service.ts:105-126 | The validation walk returns the same closure with its facts, and reports exactly the dangling links. |
| `Reachability.ReleaseWalk` | src/modules/datasets/content-verify.ts:291-312 | The release gate's queue visits the same closure and the dangling links, each reported once. |
| `Reachability.WalksAgree` | src/modules/datasets/content-verify.ts:275-323 | On one snapshot all four walks agree on reachable keys, produced facts and missing links. |
| `Datasets.CrossValidate` | src/modules/datasets/service.ts:67-136 | The validation accepts exactly the datasets whose sectors, tags, default scenarios, triggers and scenarios all resolve, in the file or in the tenant's current content. |
| `ContentLaws.AcceptsMeans` | src/modules/datasets/service.ts:67-136 | What the validation accepts, reference by reference: sectors, default scenarios, tags, triggers and personas found in the file or the current content, and scenarios whose links and required facts hold on the merged questions. |
| `ContentLaws.MergedMeans` | src/modules/datasets/service.ts:84-92 | Questions are looked up in the file first, then among the active ones. |
| `Datasets.ApplyContent` | src/modules/datasets/service.ts:245-268 | The apply loops: personas and scenarios edited or created and activated version by version, questions patched, and one refusal leaves nothing changed. |
| `ContentLaws.AppliedInstalls` | src/modules/datasets/service.ts:245-268 | After every successful application each persona and scenario row is, as it stands in the file, the content of a new active version of its key, the one before is deactivated, each question is active as its row has it or with the stored trigger, and nothing that the file does not name is touched. |
| `Datasets.ValidateForActivation` | src/modules/scenarios/service.ts:18-70 | The activation check passes exactly the scenarios with an active persona, a flow, no dangling link and produced required facts. |
| `Datasets.AppliesIff` | src/modules/datasets/service.ts:245-268 | A dataset is applied exactly when its sectors are configured, no draft is in the way, its scenarios keep their personas and can be activated on the file's questions and the stored ones: a condition on the stored rows and the file. |
| `Datasets.AppliedBrings` | src/modules/tenants/sectors.ts:50-60 | Applying a dataset brings in configured sectors only. |
| `Datasets.AcceptedActivates` | src/modules/datasets/service.ts:62-66 | When no stored trigger is kept, a dataset is accepted exactly when its references resolve and every scenario can be activated, and is then applied unless a draft is in the way or a persona was changed. |
| `Datasets.AcceptedActivatesIff` | src/modules/datasets/service.ts:67-136 | An accepted dataset is applied exactly when no open draft is in the way, the stored scenarios are for the same personas, and the follow-ups added by kept triggers lead to active questions. |
| `Datasets.AcceptedYetRefused` | src/modules/datasets/service.ts:255-256 | A row that drops its trigger over a stored one with an inactive follow-up is accepted and can never be applied. |
| `Datasets.DraftYetAccepted` | src/lib/versioned.ts:121-123 | A row for a persona that somebody is editing is accepted and cannot be applied. |
| `Datasets.ScenarioDraftYetAccepted` | src/lib/versioned.ts:121-123 | Nor can a row for a scenario that somebody is editing. |
| `Datasets.OtherPersonaYetAccepted` | src/modules/scenarios/service.ts:72-76 | A scenario row for another persona than the stored scenario's is accepted and can never be applied. |
| `PinnedContent.SnapshotIsUnique` | src/modules/assessments/content.ts:139-140 | The pinned question list is determined by the library and the flow, whatever order the database returned. |
| `PinnedContent.PinQuestions` | src/modules/assessments/content.ts:139-146 | Pinning refuses exactly when a link dangles, naming exactly the dangling keys, and otherwise gives the snapshot. |
| `PinnedContent.NormalizeMeans` | src/modules/assessments/content.ts:73-83 | Freezing a question loses nothing of it but a branch without follow-ups. |
| `PinnedContent.PinVersions` | src/modules/assessments/content.ts:129-166 | Pinning freezes scenario, matrix, questions and sorted rules with their hashes, and refuses exactly when a link dangles or there is no matrix. |
| `PinnedContent.PinMeans` | src/modules/assessments/content.ts:130-166 | What is pinned: an active scenario and matrix with their version numbers, questions ascending by key, and every active rule, ascending by id. |
| `PinnedContent.RestoreGivesSnapshot` | src/modules/assessments/content.ts:108-113 | A snapshot comes back unchanged from storage, in whatever order it was stored. |
| `PinnedContent.PinIsValid` | src/modules/assessments/content.ts:135-166 | What is pinned is closed: one question per key, and the flow and every follow-up find theirs. |
| `PinnedContent.PinResolves` | src/modules/assessments/content.ts:108-124 | What pinning wrote is what every later turn reads. |
| `PinnedContent.AdministrationKeepsPin` | src/lib/versioned.ts:97-194 | No administrative edit changes what a released pin resolves to. |
| `PinnedContent.AdministerMeans` | src/lib/versioned.ts:68-194 | Each step of an administrator changes one collection, and only as it says. |
| `PinnedContent.AdministratorsAreInvisible` | src/modules/assessments/service.ts:126-145 | The administrators' steps can be erased from any run: the assessment ends exactly as without them. |
| `PinnedContent.SelectionIsSteady` | src/modules/assessments/service.ts:366-389 | A selection that gets the assessment under way leaves its library resolving to the content selected; any other leaves it stalled. |
| `PinnedContent.LaunchIsSteady` | src/modules/assessments/service.ts:307-310 | The same for an assessment opened with a persona and a text. |
| `PinnedContent.SamePinSameRun` | src/modules/assessments/content.ts:129-166 | From the moment of selection: two assessments that select the same content and take the same turns end in the same document and log, whatever administrators do to either library. |
| `Versions.EditKeepsSound` | src/lib/versioned.ts:68-194 | Every edit keeps one current document per group, current iff active, one open draft, numbers 1..n. |
| `Versions.RunsKeepSound` | src/lib/versioned.ts:68-194 | Every run of edits keeps it. |
| `Versions.ActivatedIsFrozen` | src/lib/versioned.ts:11-20 | Once a version has left the draft status no run of edits changes its identity or content. |
| `Versions.DeactivatedStaysSo` | src/lib/versioned.ts:120-152 | A deactivated version is never current again. |
| `Versions.TwoGroupsOneKey` | src/lib/versioned.ts:68-71 | Two groups can come to share a current key. |
| `Versions.PublishIff` | src/modules/datasets/service.ts:245-268 | Editing or creating the document of a key and activating it succeeds exactly when it is admitted and no draft is in the way. |
| `Versions.TouchesSpare` | src/modules/datasets/service.ts:245-268 | Publishing one key changes nothing that publishing another depends on. |
| `Versions.DraftsGetInTheWay` | src/lib/versioned.ts:120-123 | Editing an active version is enough to put a draft in the way of its key. |
| `Versions.Collection.Create` | src/lib/versioned.ts:68-91 | The new draft, or the refusal when a current document has the key. |
| `Versions.Collection.Update` | src/lib/versioned.ts:97-145 | In-place edit of a draft, copy of an active version into the next draft, and the four refusals. |
| `Versions.Collection.MakeActive` | src/lib/versioned.ts:148-173 | Activation with its hook, the previous current version deactivated. |
| `Versions.Collection.Withdraw` | src/lib/versioned.ts:176-194 | Deactivation, which an already deactivated version ignores. |
| `VersionLaws.CreateMeans` | src/lib/versioned.ts:68-95 | A new key begins a new group with a first draft of the content given; the refusal is exact. |
| `VersionLaws.ReviseMeans` | src/lib/versioned.ts:97-145 | A draft takes the new content in place, of an active version it makes the next draft of the group with a higher number; the four refusals are exact. |
| `VersionLaws.AmendMeans` | src/modules/scoring/service.ts:63-79 | Only a draft is amended, and in nothing but its content. |
| `VersionLaws.ActivateMeans` | src/lib/versioned.ts:148-174 | An admitted draft becomes the current version, the current version of its group alone is deactivated, nothing else changes; the refusals are exact. |
| `VersionLaws.DeactivateMeans` | src/lib/versioned.ts:176-194 | Only the version named is deactivated. |
| `VersionLaws.PublishStands` | src/modules/datasets/service.ts:249-253 | Editing or creating and then activating leaves exactly the given content current under the key, as a new version of what stood there, and touches no other key. |
| `Approval.RecordApproval` | src/modules/scoring/service.ts:63-75 | Approving a stored draft, with its refusals. |
| `Approval.ActivateSheet` | src/modules/datasets/service.ts:274-287 | The matrix part of a dataset's activation: edit or create, name the maker, approve, activate, or undo it all. |
| `ContentLaws.MatrixEditMeans` | src/modules/scoring/service.ts:37-79 | What each matrix edit is in the versioned store: the editor is the maker and the approval gone, and an approval is recorded under the name and reference given. |
| `ContentLaws.AdmittedMeans` | src/modules/scoring/service.ts:17-35 | A matrix is admitted for activation exactly with an approval whose change reference is not blank. |
| `Approval.MatricesNeedFourEyes` | src/modules/scoring/service.ts:16-77 | In every run every active matrix has a complete approval by somebody other than its recorded last editor. |
| `Approval.ApprovalCoversBody` | src/modules/scoring/service.ts:43-75 | An approval that outlives an edit still covers the body and the maker it was given for. |
| `Approval.SheetAppliesIff` | src/modules/datasets/service.ts:274-287 | A scoring sheet is applied exactly when its reviewer is not its author and no draft is in its way. |
| `RuleLifecycle.RuleBook.CreateRule` | src/modules/rules/service.ts:39-55 | The new draft rule, or the refusal when any rule has the key. |
| `RuleLifecycle.RuleBook.UpdateRule` | src/modules/rules/service.ts:58-108 | Retired rules are refused, an active one is copied unless a replacement is open, an open one loses its approval. |
| `RuleLifecycle.RuleBook.ApproveRule` | src/modules/rules/service.ts:110-124 | Only drafts, and never by their author. |
| `RuleLifecycle.RuleBook.ActivateRule` | src/modules/rules/service.ts:126-165 | Activation with a complete approval, the repair of a rule that is active but not current, the previous rule retired, and an audit entry written exactly when there is none. |
| `RuleLifecycle.RuleBook.RetireRule` | src/modules/rules/service.ts:166-177 | Retiring, which an already retired rule ignores. |
| `ContentLaws.RuleRefusalMeans` | src/modules/rules/service.ts:39-178 | Every refusal of a rule edit with its exact reason. |
| `RuleLifecycle.BookRefinesVersions` | src/modules/rules/service.ts:39-177 | Each elementary edit that a rule book admits, the versioned store admits with the same effect. |
| `RuleLifecycle.RunsKeepInv` | src/modules/rules/service.ts:39-177 | In every run: one group per key, at most one active and one open rule in it, numbers 1..n, active iff current, active only with a complete approval by another than the last editor. |
| `RuleLifecycle.ActivatedIsFrozen` | src/modules/rules/service.ts:57-108 | A rule that became active or retired keeps its text, maker and approval through every run, and stays retired. |
| `RuleLifecycle.ApprovalCoversText` | src/modules/rules/service.ts:95-124 | After any edit an approval covers what it covered before, or the draft somebody else than its maker just approved, or the text a dataset's row put in its place under the row's author and reviewer. |
| `RuleLifecycle.RowAppliesIff` | src/modules/datasets/service.ts:290-300 | A dataset's rule is applied exactly when reviewer and author differ, the reference is not blank, and its key is not one whose rules are all retired. |
| `DatasetLifecycle.Desk.UploadDataset` | src/modules/datasets/service.ts:175-216 | An upload is stored as validated exactly when it parses and the validation accepts it. |
| `DatasetLifecycle.Desk.ApproveDataset` | src/modules/datasets/service.ts:219-231 | Only validated datasets, and never by their author. |
| `DatasetLifecycle.Desk.ActivateDataset` | src/modules/datasets/service.ts:234-328 | Applies personas, questions, scenarios, matrix and rules all or nothing, each under the guard on its sectors, the last two under the author's and the reviewer's names, or marks the dataset failed. |
| `ContentLaws.SheetInstalls` | src/modules/datasets/service.ts:270-287 | The sheet is the new active matrix of its key, made by the author of the dataset and approved by its reviewer, for the sector of the matrix before. |
| `ContentLaws.RulesInstall` | src/modules/datasets/service.ts:288-301 | The last row of each rule key is the one active rule of the key, so made and approved, for the sectors of the rule it edits; none is left open and no other key is touched. |
| `ContentLaws.ActivationInstalls` | src/modules/datasets/service.ts:234-329 | Whenever an activation goes through in a reachable state all of the file stands so and the dataset is active; a refused one changes nothing but that the dataset has failed. |
| `ContentLaws.UploadMeans` | src/modules/datasets/service.ts:175-216 | An upload is stored as it was given, validated or rejected. |
| `ContentLaws.ReviewMeans` | src/modules/datasets/service.ts:219-232 | A validated dataset is approved in the name of the reviewer, with the exact refusals. |
| `ContentLaws.SectorsMean` | src/modules/system/routes.ts:195-219 | The sectors become those wanted unless one that goes is still named. |
| `ContentLaws.DirectEditMeans` | src/modules/tenants/sectors.ts:50-60 | Any other edit changes its own collection and nothing else, and nothing at all when it names a sector that is not configured. |
| `DatasetLifecycle.Desk.ChangeSectors` | src/modules/system/routes.ts:195-219 | The tenant gets the sectors wanted unless one that goes is still named by some stored version or awaited dataset. |
| `DatasetLifecycle.FourEyesEverywhere` | src/modules/datasets/service.ts:219-303 | Whatever uploads, reviews, activations, direct edits and changes of the sectors interleave, no active matrix, rule or dataset was approved by its recorded maker. |
| `DatasetLifecycle.NoSectorIsStranded` | src/modules/tenants/sectors.ts:44-60 | In every run every sector that a stored version or a dataset awaiting activation names is configured, although sectors come and go. |
| `DatasetLifecycle.DecidedForGood` | src/modules/datasets/service.ts:234-328 | Rejected, activated and failed datasets stay so, so content is applied at most once and as reviewed. |
| `DatasetLifecycle.RulesApplyIff` | src/modules/datasets/service.ts:288-301 | A reviewed dataset's rules apply exactly when none has a key whose rules are all retired, and the guard on sectors refuses none; afterwards none of its own keys has. |
| `DatasetLifecycle.ActivationGoesThroughIff` | src/modules/datasets/service.ts:234-303 | Exactly when an approved dataset activates, in every reachable state: no drafts in the way, unchanged personas, resolvable scenarios, and no rule key that is all retired; never a matter of who activates it, nor of sectors changed since the upload. |
| `RulePreflight.ProjectRows` | src/modules/rules/migration.ts:64-92 | The first pass: projected rows, planned operations, count of versioned rows, and an issue exactly when a row is malformed. |
| `RulePreflight.CheckPlaces` | src/modules/rules/migration.ts:94-122 | The second pass raises no issue exactly when every row is well formed and no two rows clash. |
| `RulePreflight.PlanRuleBackfill` | src/modules/rules/migration.ts:64-129 | The preflight raises no issue exactly on a clean table, and plans exactly the legacy rows in order. |
| `MigrationLaws.RowFineMeans` | src/modules/rules/migration.ts:72-85 | When a stored row is in order. |
| `MigrationLaws.PlanMeans` | src/modules/rules/migration.ts:80-92 | One operation for each row without version fields, in the order of the rows: its own id as group, version 1, current when active; and none for any other. |
| `MigrationLaws.ProjectMeans` | src/modules/rules/migration.ts:68-92 | What the preflight takes each row to be once the plan is carried out. |
| `MigrationLaws.CleanMeans` | src/modules/rules/migration.ts:94-126 | When a table is clean: every row and its version fields in order, no two rows that clash, one key and a version 1 in each group. |
| `RuleBackfill.Backfill` | src/modules/rules/migration.ts:215-238 | One transaction: all operations in order, each by object id, undone if one breaks a unique index or not every one matched. |
| `RuleBackfill.BackfillFills` | src/modules/rules/migration.ts:215-238 | Writing the plan fills exactly the rows without version fields whose ids are object ids, each with its own data. |
| `MigrationLaws.BackfillLeaves` | src/modules/rules/migration.ts:215-238 | What the backfill leaves of every row, field by field, and how many it matches. |
| `RuleBackfill.AllMatchedIff` | src/modules/rules/migration.ts:234-236 | Every operation finds a row exactly when no planned row holds a null or an id of another type. |
| `RuleBackfill.TextIdIsNeverFound` | src/modules/rules/migration.ts:60-75 | A rule whose `_id` is stored as text is clean, holds no null, and is never found. |
| `RuleBackfill.BackfillIsRefusedIff` | src/modules/rules/migration.ts:215-232 | The writes break a unique index in force on the way exactly when the finished table does. |
| `MigrationLaws.MeetsMeans` | src/modules/rules/indexes.ts:7-25 | When a table meets the three unique indexes: no two rows of a tenant that share a key at version 1, or while current, or a group and version, a missing field counting as null. |
| `RuleBackfill.BackfillIsSound` | src/modules/rules/migration.ts:63-129 | On a clean table the backfill finds every row exactly when no planned row holds a null or an id of another type, and then leaves a clean table with nothing to plan, which meets the three unique indexes exactly when rows whose ids read alike are apart. |
| `RuleBackfill.TwinsCanClash` | src/modules/rules/migration.ts:94-110 | A clean table with nothing to plan on which an index cannot be built. |
| `RuleBackfill.OneGroupPerKey` | src/modules/rules/migration.ts:111-127 | On a clean table two rows of a tenant have the same key exactly when they are in the same group, unless the groups begin with ids that read alike. |
| `RuleMigration.PlanRuleIndexes` | src/modules/rules/migration.ts:132-175 | Legacy names, satisfied, creatable and conflicting targets are exactly those of the observed indexes. |
| `RuleMigration.RulesCollection.CreateTargets` | src/modules/rules/migration.ts:246-252 | The missing targets are created one by one; one is refused only on a table that breaks an index, and nothing is lost then. |
| `RuleMigration.RulesCollection.DropLegacy` | src/modules/rules/migration.ts:258-261 | Every legacy index is dropped, the targets stay. |
| `RuleMigration.RulesCollection.Migrate` | src/modules/rules/migration.ts:203-273 | The outcome for every input; on success a clean table, all targets, no legacy index; and at every step a unique index on tenant and key is in force if one was at the start. |
| `RuleMigration.OutcomeMeans` | src/modules/rules/migration.ts:203-273 | Each outcome of a migration with its exact condition. |
| `RuleMigration.WithoutTwinsOnlyStuckRowsFail` | src/modules/rules/migration.ts:203-273 | Without ids that read alike, a clean table without stuck rows migrates. |
| `CanonicalJson.SortKeysExact` | src/lib/hash.ts:11-29 | Two values sort to the same value exactly when they differ at most in key order and undefined members. |
| `CanonicalJson.SortKeysKeepsMeaning` | src/lib/hash.ts:11-29 | Sorting keys changes nothing but their order. |
| `CanonicalJson.SortKeysIdempotent` | src/lib/hash.ts:11-29 | Sorting twice is sorting once. |
| `CanonicalJson.PrintPrefixFree` | src/lib/hash.ts:7-9 | A printed value can be read back from any text it begins, so printing is injective. |
| `CanonicalJson.CanonicalTextExact` | src/lib/hash.ts:3-9 | Two values have the same canonical text exactly when they mean the same, key order aside. |
| `JsonLaws.TextReadsBack` | src/lib/hash.ts:7-9 | A string is written so that reading it as JSON (RFC 8259, section 7) gives it back. |
| `JsonLaws.PrintMeans` | src/lib/hash.ts:7-9 | How each kind of value is written: literal names, numbers as given, quoted strings, arrays and objects with commas between. |
| `JsonLaws.SortMeans` | src/lib/hash.ts:23-27 | A sorted object has exactly the defined members, with sorted values, in ascending order of their keys. |
| `JsonLaws.TextLessMeans` | src/lib/hash.ts:24 | A key comes before another when it is the beginning of it or has the smaller character where they first differ. |
| `AuditRecords.DecimalIsInjective` | src/modules/audit/service.ts:45-57 | Numbers print injectively. |
| `AuditRecords.HashTextExact` | src/modules/audit/service.ts:45-57 | Behind a previous hash of fixed length, two records hash the same text exactly when they say the same. |
| `AuditLaws.HashTextMeans` | src/modules/audit/service.ts:45-57 | The text hashed for a record: the previous hash, then the object of its fields in the order of their names. |
| `AuditLaws.DecimalMeans` | src/modules/audit/service.ts:45-57 | Numbers are written in decimal without a leading zero. |
| `StoredPayload.KeptExact` | src/modules/audit/model.ts:24 | What is read back of a payload means the same exactly when at no depth a member is an empty object or has a name that is never saved. |
| `StoredPayload.KeptSurvives` | src/modules/audit/model.ts:24 | What was read back once is read back unchanged ever after. |
| `StoredPayload.UpdateSurvives` | src/modules/questions/service.ts:58-65 | The payload of an update is read back whole exactly when its values are, and some patched field had a value before and has one after. |
| `AuditChain.ReferencesAreStable` | src/modules/audit/service.ts:26-42 | A stored session id is always a reference, and redacting it again changes nothing. |
| `AuditChain.WrittenVerifiesIff` | src/modules/audit/service.ts:76-94 | A written record verifies when read back exactly when its tenant id and actor id were spelled as the database gives them back, the actor id was not empty, and its payload is read back whole. |
| `AuditChain.SpellingsThatFail` | src/modules/audit/service.ts:90-92 | Beside every record that verifies, one with the tenant or the actor in capitals, or with an empty actor id, is stored in the same log and does not. |
| `AuditChain.FirstValueFails` | src/modules/questions/service.ts:50-66 | An update that gives a field its first value is recorded with an empty `before`, and that record never verifies. |
| `AuditChain.Verify` | src/modules/audit/service.ts:117-143 | The walk answers ok exactly on good logs, and otherwise the length of the longest good prefix and the first bad number. |
| `AuditChain.VerifyEntries` | src/modules/audit/service.ts:155-173 | Per-record integrity lists the numbers of exactly the tampered records, in order. |
| `AuditChain.NumbersOfExact` | src/modules/audit/service.ts:170 | A number is listed exactly when a bad record carries it. |
| `AuditChain.SharedHashSharedPast` | src/modules/audit/service.ts:117-143 | Two verified logs that share one hash are the same log up to that record. |
| `AuditChain.LastHashFixesTheLog` | src/modules/audit/service.ts:117-143 | Two verified logs end in the same hash exactly when they are equal record for record. |
| `AuditWriters.RunsKeepInv` | src/modules/audit/service.ts:64-109 | Under any interleaving of writers each log stays numbered without gaps and linked, and nothing stored ever changes. |
| `AuditWriters.AnyRunFillsTheLog` | src/modules/audit/service.ts:64-109 | Any run from the empty log keeps the invariant and leaves no gap up to a tenant's newest record. |
| `AuditWriters.LogHasNoGaps` | src/modules/audit/service.ts:73-75 | A tenant's numbers are exactly 1 to its newest record. |
| `AuditWriters.AcknowledgedOnce` | src/modules/audit/service.ts:88-94 | Every acknowledged write is one record, its own, with what it asked to record. |
| `AuditLaws.WrittenSays` | src/modules/audit/service.ts:64-94 | What a written record says, field by field: category, action, role and entity as given, sessions by reference, ids in lower case, no actor for an empty id, its number and the hash before. |
| `AuditLaws.AcknowledgedSays` | src/modules/audit/service.ts:64-109 | In every run each acknowledged write is a record of the log that says just that. |
| `AuditLaws.StorableMeans` | src/modules/audit/model.ts:10-30 | Which inputs can be stored. |
| `AuditWriters.RefusedIfUnstorable` | src/modules/audit/service.ts:88-101 | Only what cannot be stored is refused, and it is never acknowledged, stored or given up. |
| `AuditWriters.GivenUpAfterThreeOthers` | src/modules/audit/service.ts:72-102 | A write is given up only after three others stored a record since it began. |
| `AuditWriters.LogVerifiesIff` | src/modules/audit/service.ts:64-143 | The log of any run verifies exactly when every write to it spelled its ids as the database gives them back and gave a payload that is read back whole. |
| `Sessions.SessionStore.TryPass` | src/modules/auth/service.ts:107-173 | One pass: clean up, then refuse, make room, or take the first free slot. |
| `SessionLaws.PassMeans` | src/modules/auth/service.ts:107-173 | A pass lets the login in with the lowest free slot, refuses it for the sessions there are, or supersedes the least recently seen but `max - 1`; and what becomes of every other session. |
| `Sessions.SessionStore.Create` | src/modules/auth/service.ts:83-178 | The bounded loop of passes equals the two-pass allocation; a refusal changes nothing. |
| `SessionLaws.SignedInMeans` | src/modules/auth/service.ts:83-178 | Each outcome of a login with its exact condition and what it leaves, the limits of the public demo included. |
| `SessionLaws.SatisfiesMeans` | src/modules/auth/service.ts:32-53 | Which assurance counts: a second factor only where it is admitted and verified, a bypass only where it is allowed, the demo only in the demo. |
| `Sessions.SessionStore.Touch` | src/modules/auth/service.ts:181-213 | The refusals, the timeout and the sliding expiry. |
| `SessionLaws.TouchMeans` | src/modules/auth/service.ts:181-213 | A request passes exactly when its session stands and counts, and the session then lasts for the idle time from now or to its absolute limit, whichever is sooner; one that is over times out. |
| `Sessions.SessionStore.TerminateOne` | src/modules/auth/service.ts:216-234 | Ends a session unless it has ended. |
| `Sessions.SessionStore.EndAllForUser` | src/modules/auth/service.ts:237-243 | Ends every open session of a user and counts them. |
| `SessionLaws.EndMeans` | src/modules/auth/service.ts:216-234 | A session still open ends for the reason given, and nothing else changes. |
| `SessionLaws.EndAllMeans` | src/modules/auth/service.ts:237-243 | Every open session of the user ends so, and no other. |
| `Sessions.SlotIsFree` | src/modules/auth/service.ts:132-134 | Fewer live sessions than slots leave a slot free. |
| `Sessions.SecondPassDecides` | src/modules/auth/service.ts:106-175 | With at least one slot the second pass always decides. |
| `Sessions.NeverExhausted` | src/modules/auth/service.ts:175 | The final error is reached exactly when the limit is 0 and logins are not blocked. |
| `Sessions.AgainLeavesFewer` | src/modules/auth/service.ts:119-130 | Making room leaves exactly the most recently seen max - 1 live sessions. |
| `Sessions.LeastRecentlySeenGo` | src/modules/auth/service.ts:107-128 | A live session that is superseded was never seen later than one that stays. |
| `Sessions.GrantKeepsLimit` | src/modules/auth/service.ts:106-174 | A login that is let in leaves at most max open sessions in distinct slots, and others only end. |
| `Sessions.TouchStaysWithin` | src/modules/auth/service.ts:185-210 | A touch succeeds only before the absolute limit and leaves the expiry within it. |
| `Sessions.RunsKeepValid` | src/modules/auth/service.ts:83-244 | Over every run slots are distinct, expiries within their limits, and no ended session is revived or changed. |
| `Sessions.RunsKeepLimit` | src/modules/auth/service.ts:99-178 | Over every run an account never has more open sessions than its logins were held to. |
| `SessionRaces.RunsKeepInv` | src/modules/auth/service.ts:99-178 | Under any interleaving of logins, collisions, requests and logouts open sessions hold distinct slots below the limit. |
| `SessionRaces.RacesKeepLimit` | src/modules/auth/model.ts:47-50 | Whatever logins run at the same time on snapshots of their own, an account never has more open sessions than they were held to. |
| `SessionRaces.CollisionIsANewcomer` | src/modules/auth/service.ts:156-160 | A slot collision means that another login of the account has come in since the snapshot. |
| `SessionRaces.LoggedInOnce` | src/modules/auth/service.ts:136-171 | Every login that was let in has a session of its account, and no other has the same. |
| `SessionRaces.GivenUpAfterFourOthers` | src/lib/db.ts:51-63 | A login is given up only after four others of its account were let in since it began. |
| `Otp.CodeStore.Begin` | src/modules/auth/otp.service.ts:55-72 | Admitted exactly when the lock is free, the cooldown is over and the hour has room; a refusal releases the lock. |
| `Otp.CodeStore.IssueCode` | src/modules/auth/otp.service.ts:83-120 | Supersedes what is active, stores the new code and releases the lock if it is its own. |
| `Otp.CodeStore.VerifyCode` | src/modules/auth/otp.service.ts:124-169 | The verdict on the newest active code, exactly as `Verified` says: accepted only for its own digest, a wrong guess counted, anything else without a change. |
| `Otp.VerifyMeans` | src/modules/auth/otp.service.ts:124-169 | Accepted exactly when the guess is that of the newest active code, unexpired and with fewer than five wrong guesses; each other verdict with its exact condition; and what alone changes. |
| `Otp.AcceptedByOwnDigest` | src/modules/auth/otp.service.ts:135-158 | In every run, for every code that let somebody in somebody gave the digest of that very code. |
| `Otp.StepMeans` | src/modules/auth/otp.service.ts:16-169 | What each step of the protocol does to codes, lock and waiting requests. |
| `Otp.MayIssueMeans` | src/modules/auth/otp.service.ts:60-72 | A code may be sent exactly with fewer than the limit in the last hour and the newest one used or older than the cooldown. |
| `Otp.RunsKeepCodes` | src/modules/auth/otp.service.ts:83-169 | In every run at most one code is active, takes at most five wrong guesses, and lets in at most once, unexpired and not superseded. |
| `Otp.EveryWindowIsBounded` | src/modules/auth/otp.service.ts:55-121 | In every run any window of one hour holds at most `max` codes and those whose request had lost its lock. |
| `Otp.RunsKeepCool` | src/modules/auth/otp.service.ts:60-69 | In every run, of two codes in a row issued under their locks the second follows an unused first only after the cooldown. |
| `Otp.HourlyLimitHolds` | src/modules/auth/otp.service.ts:55-121 | While no mail outlasts the lock, codes `max` places apart are more than an hour apart, and any hour holds at most `max`. |
| `Otp.CooldownHolds` | src/modules/auth/otp.service.ts:60-69 | While no mail outlasts the lock, no code follows an unused one within the cooldown. |
| `Otp.SlowMailMakesStragglers` | src/modules/auth/otp.service.ts:16-42 | A mail that outlasts its lock leaves a request waiting without one. |
| `Otp.StragglersExceedTheLimit` | src/modules/auth/otp.service.ts:55-121 | The bound is reached: from every reachable state the account can receive `max` codes and one for each request waiting without its lock within one hour. |
| `Otp.StragglersBreakTheCooldown` | src/modules/auth/otp.service.ts:60-69 | And while one waits so, a code can follow an unused one within the cooldown. |
| `Otp.SlowMailBreaksTheCooldown` | src/modules/auth/otp.service.ts:16-42 | From the start, for any limits: one mail slower than the lock is enough to break both. |
| `Retention.EnforceExact` | src/modules/retention/service.ts:127-192 | In closed form: exactly the due assessments before the first one that is due and cannot be reconciled are enforced, the others are as they were. |
| `Retention.NeverEarly` | src/modules/retention/service.ts:98-154 | Nothing is flagged inside its window, and nothing enforced before both window and grace period are over. |
| `Retention.SweepIsIdempotent` | src/modules/retention/service.ts:86-192 | A second sweep at the same moment changes nothing, even after a failed one. |
| `Retention.TenantsAreIndependent` | src/modules/retention/service.ts:91-205 | However many tenants are swept in a run, and whichever fail, each one's assessments end up as if it alone had been swept. |
| `Retention.RunIsIdempotent` | src/modules/retention/service.ts:86 | A second run over all tenants at the same moment changes nothing. |
| `Retention.DryRunForetells` | src/modules/retention/service.ts:105-143 | A dry run foretells the outcome of a run exactly when the grace period is positive or nothing is to be flagged, and no plan changed under a half-enforced assessment; the reductions alone exactly under the first condition, the archived ones then exactly under the second. |
| `Retention.PlanChangeMisleads` | src/modules/retention/service.ts:137-157 | A half-reduced assessment of a tenant that has moved to the paid plan is counted as one to archive, and is not archived. |
| `Retention.SweepKeepsInv` | src/modules/retention/service.ts:144-192 | A sweep of a world in order never fails and keeps it in order: closed means decided, archived means in cold storage, completed means recorded once in the audit log. |
| `Retention.SweepLosesNothingArchived` | src/modules/retention/service.ts:155-179 | A message is lost only of an assessment reduced without archiving, and archives are never rewritten. |
| `Retention.ArchiveIsComplete` | src/modules/retention/service.ts:161-167 | Cold storage receives the assessment as it stood with its whole transcript. |
| `Retention.EnforcementIsRecorded` | src/modules/retention/service.ts:180-186 | Every enforcement leaves exactly one entry in the audit log, with its mode and, unless it completes an earlier one, the messages it removed. |
| `Retention.SweepSpares` | src/modules/retention/service.ts:13-59 | Reduction spares who asked, the risk type, the times and the decision. |
| `Retention.RunsKeepInv` | src/modules/retention/service.ts:86-192 | Over every run of openings, messages, closings and sweeps the invariant holds: of an assessment whose enforcement is complete nothing removable is left. |
| `Retention.RetentionStore.SweepTenant` | src/modules/retention/service.ts:98-192 | Flag and enforce leave each assessment as `SweptAsDue` says: exactly the due ones before one that blocks the sweep are reduced to what is kept, the others at most flagged; with its counters and audit entries. |
| `Retention.SweepMeans` | src/modules/retention/service.ts:98-192 | A sweep takes exactly the due assessments before the first that blocks it: details, decision details and transcript gone, archived first if that is its way, recorded; every other is at most flagged; and it fails exactly when one blocks it. |
| `Retention.OutcomeMeans` | src/modules/retention/service.ts:98-192 | The counters are the numbers of assessments flagged, taken and archived and of messages removed. |
| `Retention.RetentionStore.SweepTenants` | src/modules/retention/service.ts:87-209 | The run over all tenants: each in turn, whether or not the one before failed, with its counters. |
| `Retention.RetentionStore.Foretell` | src/modules/retention/service.ts:105-143 | The counters of a dry run, which changes nothing. |

## Left out

- Routes, authorization, masking, transcripts (`say`), views, lists, reports, mail, the model provider and MongoDB: input and
  output. A transaction is one atomic step and a unique index an insert that happens only if the place is free.
- JavaScript's coercions (`normalizeValue`, `Number`, `String`, trimming) and the sheet parsers: total functions given to
  the model, with nothing assumed of them.
- Evidence texts, timing fields, persona vocabulary and the label shown for an answer: no decision of the code reads them.
- Datasets.CrossValidate: takes the complaints of the scoring sheet's parsers as given; which row and column an error is
  reported at is not kept.
- DatasetLifecycle.Desk.ChangeSectors: of the tenant's settings only the sectors are modelled, and of a list of them the set.
- Scoring.Simulate: asks for a scale whose maximum exceeds its minimum, and the theorems for a matrix the schema accepts,
  because matrix patches bypass the schema's refinements (src/modules/scoring/schema.ts:47). Floating point is real arithmetic.
- CanonicalJson.CanonicalTextExact: orders all keys lexicographically; JavaScript lists integer-like keys of an object first
  and treats `__proto__` specially. Dates, object ids and documents have become plain values before, a number is given as
  the text printed for it, and characters are Unicode scalar values, so lone surrogates do not occur.
- PinnedContent.PinQuestions: sorts by code unit where the source uses `localeCompare`.
- Versions.Collection.Update: takes the content that a patch results in rather than the patch; who activated what and when
  is not kept. The same holds of `RuleLifecycle.RuleBook.UpdateRule`.
- RuleLifecycle.RuleBook.ActivateRule: an approval is there as a whole or not at all.
- RulePreflight.PlanRuleBackfill: an issue is a value, not its message, and a map key a tuple, not a text joined by slashes;
  whether there is an issue at all is the same, because ids that could hold a slash are issues themselves.
- RuleMigration.RulesCollection.Migrate: nobody else writes to the collection while it runs, and no other unique index covers
  the version fields.
- AuditWriters.RunsKeepInv: the retry loop is a state machine rather than a method, because other writers act between its
  steps. The in-process queue is left out, and a transaction replayed after a collision is a writer that begins again.
- AuditChain.WrittenVerifiesIff: asks that the hash tells the record as given from the record as stored. Of storing a payload
  the model has what Mongoose leaves out; numbers and texts are taken as the database gives back what it was given.
- AuditChain.LastHashFixesTheLog: freedom from collisions is asked of the texts of the two logs only; a fixed-length hash
  that is injective on all texts does not exist.
- Sessions.SessionStore.Create: one login at a time; `SessionRaces` is the same allocation by many at once, as a state machine
  because other logins act between its steps. The purge of expired sessions is not modelled.
- Otp.CodeStore.VerifyCode: one transaction is one step, so its second look at the code cannot fail; the purge of codes an
  hour after they expired, when no window counts them any more, is left out.
- Retention.RetentionStore.SweepTenant: the audit entry that counts the flagged assessments of a tenant and the report on old
  audit records are left out, and one field stands for all the fields the reduction removes.
- Rate limits, the readiness gate, environment checks, seeds, exports and the escalation directory: small, or plain input and
  output.
