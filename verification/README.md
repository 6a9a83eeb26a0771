# Models of the fraud-detection backend

Dafny models of the parts of the backend whose correctness depends on more than one function at a time, with proofs about all inputs, all runs and all interleavings.

- **Investigator reviews** (`Review.dfy`, `ReviewConcurrent.dfy`, `ReviewTheorems.dfy`, `ReviewOutcomes.dfy`). A review is an idempotent, optimistically locked command. It is modelled once as a sequential transaction over the tables and once as a machine in which any number of transactions step statement by statement beside the rest of the system. The second is proved to do, at each commit, what the first does; exactly-once effects, stable replays and freedom from deadlock follow for every run and every owner; the version guard follows for an owner that never brings a version back, as the decision engine is shown to be. What a call needs, answers and leaves behind is stated once more in the tables alone, both ways.
- **Rule edits** (`RulePaths.dfy`, `RulePlaces.dfy`, `RuleEdits.dfy`, `RuleEditBatches.dfy`, `RuleEditLaws.dfy`, `RuleEditOrder.dfy`, `RuleEditValues.dfy`). The demo server prints a path for every node of a rule and later parses paths back to change constants and operators. A printed path reads back as the place it was printed for, paths are distinct, complete and lead to their nodes, and validated edits are a framed update. Their outcome depends on their order exactly when one of them lies inside a constant that another one replaces. Which places are listed, which edits are accepted and what stands in the tree afterwards is written out for every sort of constant.
- **Session stages** (`SessionStages.dfy`). The ten-stage demo session with single stages, runs of all stages, retries and resets.
- **Formula translation** (`FormulaTranslation.dfy`, `FormulaMeaning.dfy`, `FormulaConditions.dfy`, `FormulaWords.dfy`). A compiler from one rule language to another together with the normalisation of the data, an evaluator for both vocabularies, the proof that meaning is kept, and where it is not, exactly when. The words of the target and the values of both vocabularies are written out.
- **Throughput search** (`ThroughputSearch.dfy`). Doubling, bisection and confirmation against an oracle that may contradict itself. Every trial is tied to the measurements it was made of, and the whole course of the search to their outcomes.
- **Load generators and percentiles** (`LoadMetrics.dfy`, `OpenLoop.dfy`, `ClosedLoop.dfy`, `Percentile.dfy`). Conservation of the counts in every schedule, which requests are counted where, the meaning of the reported results, and value and order laws of the interpolated percentile.
- **Run report** (`RunReport.dfy`). Phase files and a summary, each replaced atomically; every directory that a crash could leave behind is looked at.
- **Rule shapes** (`Spelling.dfy`, `ShapeNodes.dfy`, `ShapeAudit.dfy`, `ShapeReasons.dfy`). Which rules can have their aggregates pushed down, why the others cannot, and which spellings of a name are recognised.

`Common.dfy` holds the two result types. `dafny verify dfyconfig.toml` checks everything.

What the code itself does, as opposed to what it calls, is modelled branch by branch. Calls into other systems are parameters: the owner's review callback, UUID parsing, the number of an advisory lock, the services behind a demo stage, string-to-number conversions, time parsing, string comparison, filters, aggregates, fuzzy scores, the outcome of a load trial or a request, and file system faults.

Points where the code differs from what its names or its documentation suggest:

- `run_all` tests for a failed stage after each call, but `run_stage` raises again when a stage fails, so the `break` is never reached (`RunAll`).
- `require_tenant` fires not only before the tenant stage but also when the tenant service answered with an empty id (`RequireFiresExactly`).
- A rule without a formula still gets a path, and that path leads nowhere (`PathReachesItsNode`).
- A new constant that is an object can no longer be edited, so the same edits are refused a second time exactly if they put one (`EditsValidateAgain`). A list with objects in it stays editable, but adds nodes to the edit model, unless it belongs to a field reference (`PlainIsExact`).
- The translated list test is false for a value that is not a string, where the source fails (`ListTestFailsExactly`); the fuzzy threshold is raised from 80 to 95 (`FuzzyThresholdExactly`).
- A boolean constant is spelled out like the flag, which changes the outcome of most functions (`BooleanOperandExactly`, `BooleanFirstExactly`); a missing `updated_at` reads as null at the source and as the base time at the target (`FieldReadExactly`).
- An edit may lie inside a constant that another edit replaces. If it comes first, it is lost (`InnerFirst`); if it comes second, it is carried out on the new value and fails when that has no such place (`OuterFirst`). `NestedOutcomes` shows both, `OrderFreeExactly` that nothing else makes the order matter.
- A phase called "summary" has the file name of the summary (`PhaseWriteSafeExactly`).
- The summary per virtual user leaves out users without a success (`PerVuSummary`).

## Model

| member | source | states |
|---|---|---|
| ReviewTheorems.AnswersAreAuthorised | backend/investigator/identity.go:12-29 | In every run, a call is answered only in a store whose tables at that very moment hold its session (or none is required), its case and inbox, the actor as admin or member of that inbox, and the link, although they were read statements before. |
| Review.Database.Authorize | backend/investigator/review.go:107-153 | Identity, case, inbox, membership and link decide in this order; the rows read are handed on, and nothing is written. |
| Review.Database.Execute | backend/investigator/review.go:156-220 | Receipt, case state, version and action guards, owner change, receipt and history of an authorised command as one change of the store. |
| Review.Database.Run | backend/investigator/review.go:86-221 | One call takes the store and answers as the sequential specification; an error leaves the store unchanged; the findings come back trimmed. |
| ReviewConcurrent.StatementSound | backend/investigator/review.go:102-220 | From every consistent point of a transaction, the next statement keeps what the transaction knows true and ends it only with the sequential answer. |
| ReviewConcurrent.CommitDisturbsNobody | backend/investigator/review.go:184-220 | A commit leaves everything that other running transactions have read and locked as they read it. |
| ReviewConcurrent.ElsewhereDisturbsNobody | backend/investigator/review.go:107-127 | Changes by other services, which respect the row locks, do not invalidate what a running transaction has read. |
| ReviewConcurrent.NextKeepsSysOk | backend/investigator/review.go:102-220 | Every step of any transaction, a fault or the rest of the system keeps the invariant over all transactions and locks. |
| ReviewConcurrent.MoveIsSerial | backend/investigator/review.go:86-221 | The step that ends a transaction changes the store and answers exactly as the sequential call would in that very store; earlier steps change nothing. |
| ReviewConcurrent.LocksInOrder | backend/investigator/review.go:107-127 | A transaction waits only for a lock of a higher rank than all it holds: identity, advisory, case row, inbox row, resource; it holds at most one per rank. |
| ReviewConcurrent.BlocksExactly | backend/investigator/review.go:107-127 | Identities and inboxes are locked shared: a transaction waits only for an advisory number, a case row or a resource that another holds. |
| ReviewConcurrent.BlockerIsAhead | backend/investigator/review.go:107-127 | Whoever blocks a transaction has got strictly further in the lock order. |
| ReviewConcurrent.NoWaitCycle | backend/investigator/review.go:107-127 | No chain of transactions each blocked by the next returns to its start. |
| ReviewConcurrent.SomebodyCanMove | backend/investigator/review.go:102-220 | If some transaction is unfinished, some transaction can step. |
| ReviewTheorems.RunKeepsStoreOk | backend/investigator/review.go:192-217 | A sequential call keeps receipts, effects and history in step, whatever the owner does. |
| ReviewTheorems.RunInvariant | backend/investigator/review.go:86-221 | Every state of every run satisfies the lock and the store invariant. |
| ReviewTheorems.RunNeverDeadlocks | backend/investigator/review.go:107-127 | In no reachable state are all unfinished transactions stuck. |
| ReviewTheorems.RunIsSerial | backend/investigator/review.go:86-221 | Between two states of a run the store changed by nothing, by the rest of the system, or by one sequential review. |
| ReviewTheorems.ExactlyOnce | backend/investigator/review.go:102-220 | In every reachable state an operation with a receipt has exactly one owner effect and one history event, one without has none. |
| ReviewTheorems.OneReceiptPerResource | backend/decision-engine-service/internal/migrations/metadata/000018_investigator_reviews.up.sql:10 | Under the unique index on the resource, no two receipts of any reachable state have the same resource. |
| ReviewTheorems.VersionGuard | backend/investigator/review.go:184-204 | If in the run so far no version of the resource was brought back, two committed operations on it, through whatever case, expected different versions. |
| ReviewTheorems.RunSpendsVersions | backend/investigator/review.go:189-204 | Under the same condition every committed operation on the resource has spent the version it expected: it is among the past ones for good. |
| ReviewTheorems.CoreReviewIsFresh | backend/decision-engine-service/internal/service/investigator.go:8-24 | A review of a decision moves it to a version that it did not have, although the callback answers "1" to every command. |
| ReviewTheorems.CoreNeverReuses | backend/decision-engine-service/internal/httpapi/investigator.go:25-31 | So the decision engine meets the condition of the version guard in every run in which the other steps leave decisions of its own making. |
| ReviewTheorems.NewReceiptJustified | backend/investigator/review.go:106-220 | A call adds a receipt only under its own operation, with its own payload and answer, and only when every condition held. |
| ReviewTheorems.EveryReceiptJustified | backend/investigator/review.go:106-220 | Every receipt in every reachable state was added in a store whose tables held the session, an open case, an active inbox, the actor as admin or member, the link, and the expected version and action. |
| ReviewTheorems.ReceiptsPersist | backend/investigator/review.go:166-176 | Receipts are never changed or lost. |
| ReviewTheorems.ReplayStable | backend/investigator/review.go:96-101 | After any later history a retry writes nothing and, if still authorised, gets the stored result when actor, case and trimmed command agree and a conflict when any field differs. |
| ReviewTheorems.AloneIsSequential | backend/investigator/review.go:102-220 | From any point, the remaining statements run alone complete the sequential call. |
| ReviewTheorems.MachineRefinesRun | backend/investigator/review.go:86-221 | A call executed alone by the step machine, validation included, is the sequential call. |
| ReviewTheorems.DecisionReviewExactly | backend/decision-engine-service/internal/service/investigator.go:8-24 | The state of a decision for every outcome, status and command: it can be reviewed exactly if its outcome asks for a review and it has had none, only then its version is "0", and a review leaves the action as its status. |
| ReviewOutcomes.ValidatedExactly | backend/investigator/review.go:86-101 | A call is taken up exactly if actor, tenant, case, resource, owner and the trimmed command are as the source demands, and only the findings of the command change. |
| ReviewOutcomes.TrimExactly | backend/investigator/review.go:96-97 | Trimming takes away all white space at both ends of the findings and nothing else. |
| ReviewOutcomes.ReadExactly | backend/investigator/review.go:102-192 | A read is answered exactly if session, case, inbox, membership, link and resource are in the tables, with the state found there, eligible only in an open case. |
| ReviewOutcomes.ReplayExactly | backend/investigator/review.go:164-176 | A repeated command is answered exactly if access still holds and the payload is the stored one, with the stored result. |
| ReviewOutcomes.CommitExactly | backend/investigator/review.go:102-215 | A new review takes place exactly under these conditions on the tables, spelled out from session to unique resource. |
| ReviewOutcomes.CommitLeaves | backend/investigator/review.go:189-220 | Everything it leaves behind, field by field: the row of the owner, one receipt, one effect, one event and the answer. |
| ReviewOutcomes.OutsidersAreRefused | backend/investigator/review.go:128-137 | Whoever is neither admin nor member of the inbox is refused, whatever the command, and nothing is written. |
| ReviewOutcomes.ForbiddenExactly | backend/investigator/review.go:107-153 | A read is forbidden exactly for want of session, case, membership or link. |
| ReviewOutcomes.ConflictExactly | backend/investigator/review.go:164-190 | An authorised command is in conflict exactly if it repeats an operation with another content or expects another version of a resource that can be reviewed. |
| ReviewOutcomes.InvalidExactly | backend/investigator/review.go:178-198 | It is invalid exactly in a closed case, in an inactive inbox or for an action that is not offered. |
| RulePaths.PathGet | backend/ui_test/server.py:900-905 | The cursor loop over the path text walks the tree along the tokens of the text. |
| RulePaths.PathRoundTrip | backend/ui_test/server.py:839-866 | A printed path is tokenised back to its segments exactly when all its keys are identifiers, whatever the number of digits of an index. |
| RulePaths.FullRoundTrip | backend/ui_test/server.py:742-743 | The same equivalence for the whole path from the case, with its rule index. |
| RulePaths.AstNodesListed | backend/ui_test/server.py:839-866 | Item by item, the listing describes the node at its place, under the path printed for that place. |
| RulePaths.ListedExactly | backend/ui_test/server.py:839-866 | A place is listed exactly when it leads to a dictionary without passing a field reference. |
| RulePaths.NodeSegsDistinct | backend/ui_test/server.py:860-865 | No place is listed twice. |
| RulePaths.ModelShowsPlaces | backend/ui_test/server.py:742-743 | The edit model of all rules shows every listed place of every rule, described by the node that is there. |
| RulePaths.EveryPlaceIsShown | backend/ui_test/server.py:742-743 | Completeness over all rules: every such place of every rule has its printed path in the edit model, with the node that is there. |
| RulePaths.PathsDistinct | backend/ui_test/server.py:742-743 | Over all rules, the emitted path texts are pairwise distinct. |
| RulePaths.PathReachesItsNode | backend/ui_test/server.py:900-905 | Parsing and walking an emitted path reaches the very node that emitted it; only a rule without a formula has a path that leads nowhere. |
| RulePlaces.EmitsExactly | backend/ui_test/server.py:839-866 | A place is listed exactly if the way to it leads from dictionary to dictionary through their keys and the indexes of their lists, past no field reference. |
| RulePlaces.NoFormulaExactly | backend/ui_test/server.py:742-743 | A rule without a formula is shown as an empty dictionary with nothing to edit. |
| RulePlaces.ItemExactly | backend/ui_test/server.py:843-853 | What is shown of a node: its path, the names that may replace its own, and whether its constant may be edited. |
| RulePlaces.GroupExactly | backend/ui_test/server.py:48-53 | Two operators may stand for each other exactly if both are comparisons, both connectives, both arithmetic or both text tests, by name. |
| RulePlaces.NameIsRead | backend/ui_test/server.py:900-905 | A name in a path text is read as far as it goes. |
| RulePlaces.IndexIsRead | backend/ui_test/server.py:900-905 | Digits in brackets are read as an index. |
| RulePlaces.OtherIsSkipped | backend/ui_test/server.py:900-905 | A character that starts neither is skipped. |
| RulePlaces.StepExactly | backend/ui_test/server.py:900-905 | One step leads from a dictionary by a key, from a list or a string by an index, and nowhere else. |
| RuleEdits.WalkPut | backend/ui_test/server.py:885-897 | Lens law: what an edit puts at a place is found there. |
| RuleEdits.WalkPutApart | backend/ui_test/server.py:885-897 | Lens law: it is not seen from places apart from that one. |
| RuleEdits.PutPutApart | backend/ui_test/server.py:885-897 | Lens law: edits of places apart from each other commute. |
| RuleEdits.PutThrough | backend/ui_test/server.py:885-897 | Editing below a place is editing the node found there. |
| RuleEdits.RunEdits | backend/ui_test/server.py:885-897 | One loop of edits applies them in sequence and stops with an error at the first that fails. |
| RuleEdits.ApplyRuleEdits | backend/ui_test/server.py:883-897 | Nothing happens unless all edits are valid; then constants come first and operators after them. |
| RuleEditLaws.ValidatedExactly | backend/ui_test/server.py:869-880 | Edits are accepted exactly if each one carries the path printed for its place, leads to a listed node of a formula that has the slot, and replaces a constant that is no object or an operator by one of its group. |
| RuleEditValues.AcceptedExactly | backend/ui_test/server.py:869-880 | Edits are accepted exactly if every constant edit has the path of a visible dictionary with a constant that is no dictionary, and every operator edit that of one whose name is of the same group, by name. |
| RuleEditLaws.ValidatedSlotsDiffer | backend/ui_test/server.py:869-897 | No two validated edits assign the same slot. |
| RuleEditLaws.ValidatedIsBatch | backend/ui_test/server.py:869-897 | The slots of validated edits are apart from each other exactly when no edit addresses something inside the constant that another one replaces. |
| RuleEditLaws.PlainIsBatch | backend/ui_test/server.py:869-897 | That is so whenever nothing is listed below the values that are replaced. |
| RuleEditBatches.SlotsApartExactly | backend/ui_test/server.py:885-897 | Two slots are apart exactly when they differ and neither edit lies inside the other slot. |
| RuleEditBatches.InnerFirst | backend/ui_test/server.py:885-897 | An edit inside the slot of a later one is lost: the later one does what it would have done alone. |
| RuleEditBatches.OuterFirst | backend/ui_test/server.py:885-897 | An edit inside the slot of an earlier one is carried out on the new value, or fails with it. |
| RuleEditLaws.EditsSucceed | backend/ui_test/server.py:883-897 | Validated edits, none inside another, are carried out exactly when every value converts to the type of the constant it replaces. |
| RuleEditLaws.EditsAreFramed | backend/ui_test/server.py:883-897 | Every edited slot holds the value formed from the untouched case, and every place apart from the slots is as before; no edit lies inside another, which `EffectExactly` shows to be necessary. |
| RuleEditValues.ConstantsStored | backend/ui_test/server.py:915-926 | What stands in the edited case, per sort of the old constant: a boolean as given or whether the value says true, the converted number, a list as given or the split strings, nothing for an empty string over nothing, and anything else as given. |
| RuleEditValues.OperatorsStored | backend/ui_test/server.py:889-897 | A new operator stands under "function" where the node has one, and otherwise under "name". |
| RuleEditValues.FailsExactly | backend/ui_test/server.py:915-926 | Accepted edits, none inside another, fail exactly if a value cannot be converted to the number that it replaces. |
| RuleEditValues.ConstantEditExactly | backend/ui_test/server.py:885-888 | One constant edit of any tree, also inside the constant of another edit: when it fails, and what it puts where. |
| RuleEditValues.OperatorEditExactly | backend/ui_test/server.py:889-897 | One operator edit of any tree: it fails without a dictionary, does nothing without a name, and otherwise puts the given name. |
| RuleEditLaws.EditsValidateAgain | backend/ui_test/server.py:869-926 | The same edits, none inside another, are accepted again in the edited case exactly if none of them has put an object into a constant. |
| RuleEditLaws.EditsOrderFree | backend/ui_test/server.py:883-897 | Any order of the edits, none inside another, also across constants and operators, gives the same tree or the same failure. |
| RuleEditOrder.OrderFreeExactly | backend/ui_test/server.py:883-897 | All orders give the same outcome, for all values that edits of these paths may carry, exactly if none of them lies inside a constant that another one replaces. |
| RuleEditOrder.EffectExactly | backend/ui_test/server.py:883-897 | Whatever values they carry and in whatever order they go through, every slot holds the value formed from the untouched case, exactly under the same condition. |
| RuleEditOrder.NestedAccepted | backend/ui_test/server.py:869-880 | An example of two nested edits that are both accepted. |
| RuleEditOrder.NestedOutcomes | backend/ui_test/server.py:885-897 | Its outcomes: lost, kept and failing inner edits, by order and by value. |
| RuleEditLaws.PlainIsExact | backend/ui_test/server.py:839-866 | Over constants that show no nodes, the edit model of the whole case is the same list afterwards exactly if the new constants show none either and none is an object. |
| SessionStages.Session.Body | backend/ui_test/server.py:407-618 | The checks, calls and assignments of each stage in order, also when a later call raises. |
| SessionStages.StoredExactly | backend/ui_test/server.py:407-618 | What each stage stores when it ends or when its first, second or third call fails: the id, the two documents, the fixture, the bundle, the verdict, the decision, and nothing else. |
| SessionStages.RefusedExactly | backend/ui_test/server.py:419-605 | For each stage, which missing data it refuses to run without, and when it leaves itself out; either leaves all data alone. |
| SessionStages.Session.EnsurePriorStages | backend/ui_test/server.py:398-404 | The answer is the first earlier stage that is pending or failed, if there is one. |
| SessionStages.BlockerExactly | backend/ui_test/server.py:398-404 | A stage is blocked exactly if an earlier one is pending or failed, and the first such stage is named. |
| SessionStages.Session.RunStage | backend/ui_test/server.py:376-395 | A stage that may run gets the status of its outcome, one that is done is left alone, one that is blocked changes nothing. |
| SessionStages.Session.RunStageByKey | backend/ui_test/server.py:376-378 | Stages are found by their key; an unknown key changes nothing. |
| SessionStages.Session.RunAll | backend/ui_test/server.py:367-373 | All stages in order, skipping done ones, up to the first that raises. |
| SessionStages.Session.Reset | backend/ui_test/server.py:353-358 | Back to a fresh session, unless the fixture can no longer be loaded. |
| SessionStages.BlockerIsFirst | backend/ui_test/server.py:398-404 | With `n` stages done, exactly the stages up to the next one may run; any later one is refused because of that one. |
| SessionStages.BodyLeavesData | backend/ui_test/server.py:407-618 | The stage that is due leaves exactly the data that its new status promises to later stages. |
| SessionStages.RunStageKeepsInv | backend/ui_test/server.py:376-404 | Running any stage keeps the done stages a prefix, then at most one failed stage, then pending ones. |
| SessionStages.RequireFiresExactly | backend/ui_test/server.py:962-977 | A check for missing data fires only in the stage that is due, and there exactly when an id or table came back empty. |
| SessionStages.DoneStagesRest | backend/ui_test/server.py:381-382 | A done stage does not run again. |
| SessionStages.RunAllOutcome | backend/ui_test/server.py:367-373 | Running all stages completes all of them or stops at the one that raised, which is then the only failed one. |
| SessionStages.HistoryKeepsInv | backend/ui_test/server.py:353-404 | After any sequence of stage runs, runs of all stages and resets, the stages are in shape, each done stage was completed once since the last reset, and its data is set. |
| SessionStages.RequireNeverFires | backend/ui_test/server.py:962-977 | With services that deliver what they promise, no check for missing data ever fires. |
| FormulaMeaning.TranslationKeepsMeaning | backend/stress-tests/marble_demo_full_fraud_scenario_catalog.py:350-409 | Every supported formula translates, and over normalised data its translation has every value that it has over raw data; without list tests it also fails exactly when the formula fails. |
| FormulaMeaning.RebuiltAgrees | backend/stress-tests/marble_demo_full_fraud_scenario_catalog.py:359-409 | The same for one node of each function, given that its children agree. |
| FormulaMeaning.FlagTestAgrees | backend/stress-tests/marble_demo_full_fraud_scenario_catalog.py:323-354 | A comparison of the flag with a boolean constant survives the spelling out of both. |
| FormulaMeaning.FlagMembershipAgrees | backend/stress-tests/marble_demo_full_fraud_scenario_catalog.py:386-389 | So does looking for the flag in a list of booleans, with `in` and with `contains`. |
| FormulaMeaning.HarmlessBoolean | backend/stress-tests/marble_demo_full_fraud_scenario_catalog.py:351-409 | A boolean constant among the operands of `multiply`, or of an ordering when failures need not agree, does no harm whatever the other operands are. |
| FormulaMeaning.ColumnKept | backend/stress-tests/marble_demo_full_fraud_scenario_catalog.py:310-328 | Filters and aggregates over fields that normalisation leaves alone in every row see the same rows and values afterwards. |
| FormulaMeaning.ReadKeptExactly | backend/stress-tests/marble_demo_full_fraud_scenario_catalog.py:323-328 | Normalisation leaves a field of a record as it reads exactly when it is not the boolean flag and not a missing `updated_at`. |
| FormulaMeaning.TranslationIsClean | backend/stress-tests/marble_demo_full_fraud_scenario_catalog.py:350-409 | No translation of any formula contains a function of the source alone or a boolean constant. |
| FormulaConditions.WatchListExactly | backend/stress-tests/marble_demo_full_fraud_scenario_catalog.py:384-385 | The hard-coded address stands in for a list exactly when the list holds it and nothing else. |
| FormulaConditions.ListTestFailsExactly | backend/stress-tests/marble_demo_full_fraud_scenario_catalog.py:384-385 | Source and target of a list test differ exactly for operands that are not strings. |
| FormulaConditions.FuzzyThresholdExactly | backend/stress-tests/marble_demo_full_fraud_scenario_catalog.py:394-395 | The raised threshold changes the outcome exactly for scores from 80 up to 95. |
| FormulaConditions.FieldReadExactly | backend/stress-tests/marble_demo_full_fraud_scenario_catalog.py:323-367 | A field reads the same on both sides exactly when normalisation leaves it as it is: the flag when it is no boolean, `updated_at` when the key is there, any other field always. |
| FormulaConditions.BooleanOperandExactly | backend/stress-tests/marble_demo_full_fraud_scenario_catalog.py:351-409 | For each function of two operands, the exact condition on the first operand's value under which a boolean constant in second place does no harm. |
| FormulaConditions.BooleanFirstExactly | backend/stress-tests/marble_demo_full_fraud_scenario_catalog.py:351-409 | The same for a boolean constant in first place, where other conditions hold. |
| FormulaConditions.BooleanInListExactly | backend/stress-tests/marble_demo_full_fraud_scenario_catalog.py:351-409 | In a list that is searched, a boolean constant does no harm exactly for values that are neither that boolean nor its word. |
| FormulaConditions.BooleanNeverKept | backend/stress-tests/marble_demo_full_fraud_scenario_catalog.py:351-409 | Alone and under `not` it always changes the outcome. |
| FormulaConditions.BooleanListTest | backend/stress-tests/marble_demo_full_fraud_scenario_catalog.py:351-385 | And as the operand of a list test, where the source fails and the target does not. |
| FormulaConditions.NormalizedOnce | backend/stress-tests/marble_demo_full_fraud_scenario_catalog.py:323-328 | Normalising is idempotent and leaves no boolean flag. |
| FormulaWords.ConstantsExactly | backend/stress-tests/marble_demo_full_fraud_scenario_catalog.py:350-354 | A boolean constant becomes the word "true" or "false", every other constant stays. |
| FormulaWords.NormalizedExactly | backend/stress-tests/marble_demo_full_fraud_scenario_catalog.py:323-328 | In every record the flag reads "true" or "false" for a boolean, a missing `updated_at` reads as the base time, and every other field is as it was. |
| FormulaWords.RenamedTargets | backend/stress-tests/marble_demo_full_fraud_scenario_catalog.py:396-409 | The target of every function that is only renamed, over its translated operands. |
| FormulaWords.AtLeastTarget | backend/stress-tests/marble_demo_full_fraud_scenario_catalog.py:391-395 | The target of "at least", with 95 in place of 80 exactly beside a fuzzy score. |
| FormulaWords.OperandTargets | backend/stress-tests/marble_demo_full_fraud_scenario_catalog.py:386-393 | The targets of negation, inequality, membership and text test; the last two fail with fewer than two operands. |
| FormulaWords.FieldAndListTargets | backend/stress-tests/marble_demo_full_fraud_scenario_catalog.py:359-385 | The targets of a field and of a list test, which becomes a membership in the one address. |
| FormulaWords.LinkTarget | backend/stress-tests/marble_demo_full_fraud_scenario_catalog.py:361-367 | The target of a field behind a link, for the five links and no other. |
| FormulaWords.AggregateTarget | backend/stress-tests/marble_demo_full_fraud_scenario_catalog.py:372-381 | The target of an aggregate, with its label and without its percentile. |
| FormulaWords.NoTargetWithout | backend/stress-tests/marble_demo_full_fraud_scenario_catalog.py:356-357 | A formula with an operand that has no target has none. |
| FormulaWords.ConnectivesExactly | backend/decision-engine-service/internal/runtime/ast_eval/evaluator.go:53-82 | A conjunction is decided by its first operand that is not true, a disjunction by its first that is not false. |
| FormulaWords.NumbersCompare | backend/decision-engine-service/internal/runtime/ast_eval/evaluator.go:2170-2308 | The six comparisons of two numbers. |
| FormulaWords.TimesCompare | backend/decision-engine-service/internal/runtime/ast_eval/evaluator.go:2184-2205 | Of two times, also when they are written as strings. |
| FormulaWords.StringsCompare | backend/decision-engine-service/internal/runtime/ast_eval/evaluator.go:2244-2262 | Of other strings. |
| FormulaWords.NullsCompare | backend/decision-engine-service/internal/runtime/ast_eval/evaluator.go:2171-2182 | With null: it equals only null and is in no order with anything. |
| FormulaWords.BooleansCompare | backend/decision-engine-service/internal/runtime/ast_eval/evaluator.go:2229-2243 | Of booleans, which have no order. |
| FormulaWords.MembershipExactly | backend/decision-engine-service/internal/runtime/ast_eval/evaluator.go:1774-1787 | A value is in a list exactly if it equals an item of it. |
| FormulaWords.ContainsExactly | backend/decision-engine-service/internal/runtime/ast_eval/evaluator.go:1753-1772 | What a string and a list contain, and that nothing else contains anything. |
| ThroughputSearch.RunRate | backend/stress-tests/decision_throughput_orchestrator.py:313-336 | The trial is the measurement with min(max(least users, rate times multiplier), most users), written out, or the next one with twice as many users exactly if the first had dropped requests, no failures and no timeouts and there were more users; the number of measurements says which. |
| ThroughputSearch.InTurnAt | backend/stress-tests/decision_throughput_orchestrator.py:313-336 | Every trial in a row of trials began with a measurement of its own, later than all before it. |
| ThroughputSearch.Doubling | backend/stress-tests/decision_throughput_orchestrator.py:353-367 | From the start every rate is twice the one before, up to the target; every trial was taken in its turn as `Taken` says; all but possibly the last are sustainable, and there are at most one plus the least number of doublings that reaches the target. |
| ThroughputSearch.DoublingsIsLeast | backend/stress-tests/decision_throughput_orchestrator.py:339-342 | That number is the least `k` with start * 2^k >= target. |
| ThroughputSearch.Bisection | backend/stress-tests/decision_throughput_orchestrator.py:368-381 | Every trial, taken in its turn, lies in the middle of the bracket that the trials before it left; the bracket ends no wider than the floor, separates all trials into sustainable and failing ones, and takes at most the least number of halvings. |
| ThroughputSearch.HalvingsIsLeast | backend/stress-tests/decision_throughput_orchestrator.py:368-381 | That number is the least `j` with floor * 2^j >= the initial gap. |
| ThroughputSearch.BracketNarrows | backend/stress-tests/decision_throughput_orchestrator.py:373-381 | One bisection trial keeps the bracket. |
| ThroughputSearch.FromTheTopSorts | backend/stress-tests/decision_throughput_orchestrator.py:385 | As candidates rise strictly, reversing them sorts them by falling rate. |
| ThroughputSearch.SortingReverses | backend/stress-tests/decision_throughput_orchestrator.py:385 | Every sorted order of the candidates is that one. |
| ThroughputSearch.Confirm | backend/stress-tests/decision_throughput_orchestrator.py:383-392 | In the only order sorted by falling rate, candidates are measured anew until one is sustainable; the one above it is the new failing one. |
| ThroughputSearch.Search | backend/stress-tests/decision_throughput_orchestrator.py:348-381 | The whole course of the search as its outcomes dictate it: which trials double, which halve and where it stops; candidates, last and failing trial are what the trials have shown, and their number is bounded. |
| ThroughputSearch.FindLimit | backend/stress-tests/decision_throughput_orchestrator.py:345-402 | For any oracle, all trials were taken in turn and recorded, first those of the search, then the attempts at a confirmation; the confirmation is the highest candidate that was sustainable again and the failing rate lies strictly above it; where trials obey a threshold, it is located to within the floor and confirmed at once. |
| ThroughputSearch.UsersDecide | backend/stress-tests/decision_throughput_orchestrator.py:146-336 | For an oracle that needs some number of users for a rate and only drops requests with fewer, the trials obey a threshold exactly if the rates up to it are those that need no more users than a trial ever gets. |
| ThroughputSearch.ThresholdFound | backend/stress-tests/decision_throughput_orchestrator.py:345-402 | The result for a threshold in terms of the record alone: last and failing rate enclose it, and the first attempt confirms. |
| Percentile.SortSorts | backend/stress-tests/decision_throughput_limit.py:63 | Sorting gives a sorted permutation. |
| Percentile.PercentileExactly | backend/stress-tests/decision_throughput_limit.py:60-70 | The value of a percentile: with the samples in any sorted order, the sample on which the percentage falls, or the mixture of the two around it in the proportion of the fraction. |
| Percentile.WithinRange | backend/stress-tests/decision_throughput_limit.py:60-70 | A percentile lies between the least and the greatest sample. |
| Percentile.RangeIsReached | backend/stress-tests/decision_throughput_limit.py:60-70 | Percentiles 0 and 100 are the least and the greatest sample. |
| Percentile.AtMonotone | backend/stress-tests/decision_throughput_limit.py:64-70 | Interpolation rises with the position, within a segment and across segments. |
| Percentile.MonotoneInPercentage | backend/stress-tests/decision_throughput_limit.py:60-70 | A higher percentage never gives a lower percentile. |
| Percentile.ReportedInOrder | backend/stress-tests/decision_throughput_limit.py:512-518 | The reported p50, p95, p99 and maximum are in order. |
| Percentile.OrderDoesNotMatter | backend/stress-tests/decision_throughput_limit.py:63 | Permuted samples have the same percentiles. |
| Percentile.SortDominated | backend/stress-tests/decision_throughput_limit.py:63 | Raising samples pointwise raises the sorted samples pointwise. |
| Percentile.SlowerSamplesRaisePercentiles | backend/stress-tests/decision_throughput_limit.py:60-70 | Raising samples pointwise never lowers a percentile. |
| OpenLoop.Slots | backend/stress-tests/decision_throughput_limit.py:409 | The number of slots is the product of rate and duration without its fraction. |
| LoadMetrics.SampleIsFirstErrors | backend/stress-tests/decision_throughput_limit.py:393-396 | However many errors are added, the sample holds the first twenty, in their order. |
| OpenLoop.Metrics.FinishRequest | backend/stress-tests/decision_throughput_limit.py:370-390 | What a finished request adds to the counts, and nothing if it is not recorded. |
| OpenLoop.Metrics.TakeSlot | backend/stress-tests/decision_throughput_limit.py:419-432 | A slot of the generator is the slot step of the machine: finished requests leave, then the request is dropped or starts. |
| OpenLoop.Metrics.RunConstantArrivalRate | backend/stress-tests/decision_throughput_limit.py:399-438 | In every schedule the generator does what the machine does; at the end every slot was attempted, attempts are completions plus drops and completions are successes plus failures; unrecorded runs count nothing. |
| OpenLoop.EveryScheduleConserves | backend/stress-tests/decision_throughput_limit.py:399-438 | In every reachable state of every schedule at most `vus` requests are in flight, all slots so far are attempted, and attempts are completions plus drops plus the requests under way. |
| OpenLoop.EndsAreCounted | backend/stress-tests/decision_throughput_limit.py:370-390 | In every state of every schedule the latencies are those of the successful requests in the order in which they ended, and successes, timeouts, failures and completions are as many as requests ended so. |
| OpenLoop.DropsExactlyWhenFull | backend/stress-tests/decision_throughput_limit.py:423-428 | In every reachable state, a step drops a request exactly when it is a slot and `vus` requests are under way; otherwise the slot starts its request. |
| OpenLoop.FirstErrorsAreKept | backend/stress-tests/decision_throughput_limit.py:370-396 | In every state of every schedule the errors kept are the first twenty messages of failed and timed-out requests, in the order in which they ended. |
| OpenLoop.SomeSchedule | backend/stress-tests/decision_throughput_limit.py:399-438 | Whatever the number of users and slots, there is a schedule in which all requests end. |
| OpenLoop.SustainableExactly | backend/stress-tests/decision_throughput_limit.py:476 | Sustainable means that every attempt succeeded. |
| OpenLoop.RatesFit | backend/stress-tests/decision_throughput_limit.py:472-474 | Success and error rate add up to one and timeouts are among the errors. |
| OpenLoop.RatesAreShares | backend/stress-tests/decision_throughput_limit.py:472-475 | Which counts the three rates are shares of, and that the achieved rate times the duration is the number of successes. |
| OpenLoop.TargetMetExactly | backend/stress-tests/decision_throughput_limit.py:475-524 | The achieved rate is at most the target rate, and the target is met exactly when the run is sustainable and rate times duration is a whole number. |
| ClosedLoop.Loop.StartRequest | backend/stress-tests/marble_scaling_common.py:974-977 | A request counts as attempted when it starts. |
| ClosedLoop.Loop.FinishRequest | backend/stress-tests/marble_scaling_common.py:978-998 | What each outcome adds to the counts, errors, latencies and the count of its virtual user. |
| ClosedLoop.Loop.RunClosedLoop | backend/stress-tests/marble_scaling_common.py:1001-1015 | A run whose workers have all ended has completed all attempts, and the counts per user add up to the successes. |
| ClosedLoop.EveryInterleavingConserves | backend/stress-tests/marble_scaling_common.py:969-1015 | In every reachable state of every interleaving the counts add up, and attempts minus completions is the number of waiting workers, at most `vus`. |
| ClosedLoop.EndsAreCounted | backend/stress-tests/marble_scaling_common.py:978-998 | In every state of every interleaving the counts and latencies are those of the requests that ended so. |
| ClosedLoop.CreditExactly | backend/stress-tests/marble_scaling_common.py:989-991 | Every success is credited to the virtual user whose request it was; a user without one has no entry. |
| ClosedLoop.FirstErrorsAreKept | backend/stress-tests/marble_scaling_common.py:978-998 | In every state of every interleaving the errors kept are the first twenty that were met, in their order. |
| ClosedLoop.ReportsAgree | backend/stress-tests/marble_decision_closed_loop_vus.py:69 | The test without the skipped decisions and the one with them agree in every reachable state. |
| ClosedLoop.PerVuSummaryAccounts | backend/stress-tests/marble_scaling_common.py:1028-1034 | Least, mean and greatest count per user are in order and the mean accounts for all successes. |
| ClosedLoop.OneCountEach | backend/stress-tests/marble_scaling_common.py:1028-1034 | The summary is made of one count for every user in the map. |
| RunReport.Report.WriteJsonAtomic | backend/stress-tests/production_replay/benchmark_reporting.py:16-27 | At every step, also when one fails, the named files are the old ones or the old ones with the complete new file. |
| RunReport.Report.Enter | backend/stress-tests/production_replay/benchmark_reporting.py:48-50 | From the start of the run its report is on disk, or the problem is handed on. |
| RunReport.Report.Save | backend/stress-tests/production_replay/benchmark_reporting.py:84-89 | Phase file first, then summary; every directory in between is crash-safe if all before it were and the name of the active phase is new. |
| RunReport.Report.Stage | backend/stress-tests/production_replay/benchmark_reporting.py:91-95 | The stage is set in run and phase and shown on disk. |
| RunReport.Report.StartPhase | backend/stress-tests/production_replay/benchmark_reporting.py:97-99 | The phase becomes the active one, whatever its name; if the name is new, every directory stays crash-safe. |
| RunReport.Report.UpdatePhase | backend/stress-tests/production_replay/benchmark_reporting.py:101-105 | Values are merged into the active phase; without one it is an error and nothing changes. Crash safety needs a new name only where the values rename the phase. |
| RunReport.Report.FinishPhase | backend/stress-tests/production_replay/benchmark_reporting.py:107-112 | The file of the finished phase is complete on disk before the summary lists it; if its name is new, every directory stays crash-safe. |
| RunReport.Report.Finish | backend/stress-tests/production_replay/benchmark_reporting.py:114-116 | Acceptance is recorded together with the status completed. |
| RunReport.Report.Exit | backend/stress-tests/production_replay/benchmark_reporting.py:52-82 | An exception marks the run and, with the word "interrupted" or "failed", the phase, takes acceptance back, and a full disk is ignored but no other problem. |
| RunReport.PhaseStepsSafe | backend/stress-tests/production_replay/benchmark_reporting.py:84-89 | Writing the file of a phase with a new name is crash-safe at every step. |
| RunReport.SummaryStepsSafe | backend/stress-tests/production_replay/benchmark_reporting.py:84-89 | Writing a summary whose phases are on disk is crash-safe at every step. |
| RunReport.PhaseWriteSafeExactly | backend/stress-tests/production_replay/benchmark_reporting.py:84-112 | Replacing a phase file is safe exactly when it is not the summary's file and no listed phase has that name with another content. |
| ShapeNodes.WalkNodes | backend/stress-tests/replay_rule_shape_audit.py:64-74 | The recursive walk as a list, over any tree: what is no dictionary is skipped. |
| ShapeNodes.WalkFindsAll | backend/stress-tests/replay_rule_shape_audit.py:64-74 | Every node below the formula, by children and named children, is walked. |
| ShapeNodes.WalkFindsOnly | backend/stress-tests/replay_rule_shape_audit.py:64-74 | Nothing else is. |
| Spelling.CanonExactly | backend/stress-tests/replay_rule_shape_audit.py:57-61 | Stripped and in small letters a text is a name exactly if it is blank space, the name letter by letter in any case, and blank space. |
| Spelling.CapitalsExactly | backend/stress-tests/replay_rule_shape_audit.py:115 | The same for capital letters. |
| ShapeNodes.ConstantExactly | backend/stress-tests/replay_rule_shape_audit.py:77-83 | The constant under a key is that of the first entry with the key, if that is a node without a function or with that of a constant. |
| ShapeAudit.ClassifyFilterNode | backend/stress-tests/replay_rule_shape_audit.py:86-109 | Supported exactly when there are no reasons, and all reasons below groups are collected. |
| ShapeAudit.FilterSupportedExactly | backend/stress-tests/replay_rule_shape_audit.py:86-109 | There are no reasons exactly when every node reached through and, or, not and list meets the conditions on function, operator, list and arity, stated over spellings of names and the entries of the node. |
| ShapeAudit.ClassifyAggregatorNode | backend/stress-tests/replay_rule_shape_audit.py:112-120 | An aggregator is supported exactly when it gives no reasons. |
| ShapeAudit.AggregatorSupportedExactly | backend/stress-tests/replay_rule_shape_audit.py:112-120 | That is when its aggregate is a spelling of one of the six and its filters meet the conditions. |
| ShapeAudit.UsesWhatOccurs | backend/stress-tests/replay_rule_shape_audit.py:124-130 | A function is used exactly when a node anywhere in the formula has a spelling of its name: blank space, the letters in any case, blank space. |
| ShapeAudit.AggregatorsOkExactly | backend/stress-tests/replay_rule_shape_audit.py:132-142 | No walked aggregator gives a reason exactly when every aggregator anywhere, also inside filter values, is as it must be. |
| ShapeAudit.ClassifyRule | backend/stress-tests/replay_rule_shape_audit.py:123-165 | The category in terms of the spellings that occur: the supported shape is reported exactly when no related_count or related_records occurs, some aggregator occurs and every aggregator is supported; the reasons are those of `RuleReasonsExactly`. |
| ShapeReasons.ReasonsExactly | backend/stress-tests/replay_rule_shape_audit.py:86-109 | The reasons given for a filter are exactly those that nodes reached through accepted groups give on their own, each with its condition and what was found. |
| ShapeReasons.RuleReasonsExactly | backend/stress-tests/replay_rule_shape_audit.py:132-142 | The reasons given for a rule are exactly those of its aggregators, wherever they are. |
| ShapeReasons.FunctionsExactly | backend/stress-tests/replay_rule_shape_audit.py:125 | The functions listed are the names written on nodes anywhere in the formula. |
| ShapeReasons.FormulaReadableExactly | backend/stress-tests/replay_rule_shape_audit.py:86-142 | The audit raises exactly if something that is no dictionary is reached through the groups of the filters of a known aggregate. |

## Left out

- HTTP handling, tokens and key loading of the review endpoint; that the handler passes the command's resource on as the resource.
- A commit that fails, or whose outcome stays unknown, after a review: the commit step of the model succeeds.
- The owner's callback is a function of the resource and the command, and reads and writes only rows that the resource lock covers. The core owner itself takes a shared lock on the decision row and relies on the unique index of its receipts; the model assumes an exclusive lock that is held to the end.
- Column checks on the receipt table, and the change of the screening status inside the history function.
- The SHA-256 of the command is taken to be injective.
- Unavailable identity checks, lock timeouts and broken connections are one kind of step that rolls back.
- Review.Database.Run: the caller's command, which the source rewrites in place, is an out-parameter.
- RuleEdits.ApplyRuleEdits: trees are values, so aliasing between parts of one case is not modelled.
- RuleEditLaws.EditsValidateAgain: values whose objects have keys that are no identifiers, whose paths can coincide with others, and edits inside constants that other edits replace.
- A function entry that holds a list or an object makes the source raise; digits other than the ASCII ones count as digits of an index there.
- What `int`, `float` and `str` make of a value in `coerce_constant`.
- The texts that a stage shows, its error text, and the fields, links and rules it records besides what later stages check; two requests on one session at the same time.
- `resolve_placeholders` and the other edits of a fixture.
- FormulaMeaning.TranslationKeepsMeaning: the target engine is not part of the repository. Its evaluator here reads a field behind a missing link as null, as the source does, and takes `*` for multiplication; the repository's own evaluator of these names falls back to the trigger record and rejects `*`. A function that the translator does not know is evaluated from the values of all its children. Which formulas are supported is decided by their shape: a boolean constant that does no harm only beside particular values is left to `BooleanOperandExactly` and `BooleanFirstExactly`, one node at a time.
- The percentile argument of an aggregator, which the translation drops, and the check of a field against the tenant model.
- Floating-point rounding, wall-clock time, cancellation of tasks and the sleeping between slots.
- Health checks that end the search with an exception, and the database diagnostics around a trial.
- Percentages outside 0 to 100, which nothing asks for.
- `default=str` in the report's JSON, time stamps, and the stack frames of an error.
- RunReport.Report.StartPhase: with a name that is not new or is "summary", the phase file is written all the same, and crash safety is not promised; `PhaseWriteSafeExactly` says exactly when such a write breaks it.
- ShapeAudit.ClassifyRule: the source raises for a child of an accepted filter group that is no dictionary; such rules have no answer. Children that are neither missing nor a list are not modelled. Names are ASCII text: only its white space is stripped and only its letters have a case.
- `marble_decision_throughput_orchestrator.py` and the other copies of the percentile, the closed loop and the harness classes.
- Bootstrap, seeding, rule catalogs, comparison reports, the replay matrix, graphs and the load script.
