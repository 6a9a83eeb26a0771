/**
 Safety of whole runs of the review protocol: exactly-once effects, the version guard, justified
 receipts and stable replays, for any number of transactions in any interleaving.
 */
module ReviewTheorems {
  import opened Common
  import opened Review
  import opened ReviewConcurrent
  import opened ReviewOutcomes

  // ---- What every reachable store satisfies --------------------------------------------------------

  function Target(key: OperationKey, r: Receipt): ResourceKey { ResourceKey(key.owner, key.tenant, r.resource) }

  function Expected(r: Receipt): string { r.payload.command.expectedVersion }

  /** The effect and the event describe the same review as the receipt filed under their key. */
  predicate Matches(e: Effect, h: Event, r: Receipt) {
    && e.key == h.key && e.command == r.payload.command && e.resource == Target(e.key, r)
        && e.before.status == r.previousStatus
    && h.caseId == r.caseId && h.actor == r.actor && h.resource == r.resource && h.findings == r.findings
    && h.status == r.status && h.previousStatus == r.previousStatus
  }

  ghost predicate LogsAgree(s: Store) {
    && |s.effects| == |s.history|
    && (forall i :: 0 <= i < |s.effects| ==>
        s.effects[i].key in s.receipts && Matches(s.effects[i], s.history[i], s.receipts[s.effects[i].key]))
    && (forall i, j :: 0 <= i < j < |s.effects| ==> s.effects[i].key != s.effects[j].key)
    && (forall k :: k in s.receipts ==> exists i :: 0 <= i < |s.effects| && s.effects[i].key == k)
  }

  ghost predicate OnePerResource(s: Store) {
    forall j, k :: j in s.receipts && k in s.receipts && j != k ==> Target(j, s.receipts[j]) != Target(k, s.receipts[k])
  }

  ghost predicate StoreOk(cfg: Config, s: Store) {
    LogsAgree(s) && (cfg.uniqueResource ==> OnePerResource(s))
  }

  lemma RecordedEntriesMatch(s: Store, c: Call, before: State, applied: Applied)
    requires c.command.Some? && Resource(c) in s.resources && Operation(c) !in s.receipts && LogsAgree(s)
    ensures var s' := Recorded(s, c, before, applied);
      forall i :: 0 <= i < |s'.effects| ==>
          s'.effects[i].key in s'.receipts && Matches(s'.effects[i], s'.history[i], s'.receipts[s'.effects[i].key])
  {
    var s' := Recorded(s, c, before, applied);
    forall i | 0 <= i < |s'.effects|
      ensures s'.effects[i].key in s'.receipts && Matches(s'.effects[i], s'.history[i], s'.receipts[s'.effects[i].key])
    {
      if i < |s.effects| {
        assert s'.effects[i] == s.effects[i] && s'.history[i] == s.history[i];
        assert s.effects[i].key in s.receipts;
      }
    }
  }

  lemma RecordedKeepsLogs(s: Store, c: Call, before: State, applied: Applied)
    requires c.command.Some? && Resource(c) in s.resources && Operation(c) !in s.receipts && LogsAgree(s)
    ensures LogsAgree(Recorded(s, c, before, applied))
  {
    var s' := Recorded(s, c, before, applied);
    RecordedEntriesMatch(s, c, before, applied);
    forall i, j | 0 <= i < j < |s'.effects| ensures s'.effects[i].key != s'.effects[j].key {
      assert s'.effects[i] == s.effects[i] && s.effects[i].key in s.receipts;
    }
    forall k | k in s'.receipts ensures exists i :: 0 <= i < |s'.effects| && s'.effects[i].key == k {
      if k == Operation(c) {
        assert s'.effects[|s.effects|].key == k;
      } else {
        var i :| 0 <= i < |s.effects| && s.effects[i].key == k;
        assert s'.effects[i].key == k;
      }
    }
  }

  lemma RunKeepsStoreOk(cfg: Config, s: Store, c: Call)
    requires StoreOk(cfg, s)
    ensures StoreOk(cfg, RunChecked(cfg, s, c).0)
  {
    var s' := RunChecked(cfg, s, c).0;
    if s' != s {
      var owned := s.resources[Resource(c)];
      var applied := cfg.apply(Resource(c), owned, c.command.value, c.principal.subject).value;
      assert s' == Recorded(s, c, owned.state, applied);
      RecordedKeepsLogs(s, c, owned.state, applied);
      if cfg.uniqueResource {
        assert !ResourceTaken(s, Resource(c));
      }
    }
  }

  // ---- Runs ------------------------------------------------------------------------------------------

  ghost predicate Initial(sys: Sys) {
    sys.txns == [] && sys.store.receipts == map[] && sys.store.effects == [] && sys.store.history == []
  }

  ghost predicate Stepped(cfg: Config, sys: Sys, sys': Sys) { exists step :: Next(cfg, sys, step, sys') }

  ghost predicate IsRun(cfg: Config, run: seq<Sys>) {
    && |run| > 0 && Initial(run[0])
    && forall i :: 0 <= i < |run| - 1 ==> Stepped(cfg, run[i], run[i + 1])
  }

  lemma StepKeepsStoreOk(cfg: Config, sys: Sys, step: Step, sys': Sys)
    requires SysOk(cfg, sys) && StoreOk(cfg, sys.store) && Next(cfg, sys, step, sys')
    ensures StoreOk(cfg, sys'.store)
  {
    if step.Move? {
      MoveIsSerial(cfg, sys, step.t, sys');
      RunKeepsStoreOk(cfg, sys.store, sys.txns[step.t].call);
    }
  }

  /** Every state of every run satisfies both invariants. */
  lemma {:induction false} RunInvariant(cfg: Config, run: seq<Sys>, i: nat)
    requires IsRun(cfg, run) && i < |run|
    ensures SysOk(cfg, run[i]) && StoreOk(cfg, run[i].store)
  {
    if i > 0 {
      RunInvariant(cfg, run, i - 1);
      assert Stepped(cfg, run[i - 1], run[i - 1 + 1]);
      var step :| Next(cfg, run[i - 1], step, run[i]);
      NextKeepsSysOk(cfg, run[i - 1], step, run[i]);
      StepKeepsStoreOk(cfg, run[i - 1], step, run[i]);
    }
  }

  /** The protocol alone never hangs: no reachable state with an unfinished transaction is stuck. */
  lemma RunNeverDeadlocks(cfg: Config, run: seq<Sys>, i: nat) returns (t: nat)
    requires IsRun(cfg, run) && i < |run|
    requires exists u: nat :: u < |run[i].txns| && !run[i].txns[u].pc.Finished?
    ensures t < |run[i].txns| && CanMove(cfg, run[i], t)
  {
    RunInvariant(cfg, run, i);
    t := SomebodyCanMove(cfg, run[i]);
  }

  /**
   Between two states of a run the store changed by nothing, by the rest of the system, or by one sequential review.
   */
  lemma RunIsSerial(cfg: Config, run: seq<Sys>, i: nat)
    requires IsRun(cfg, run) && i + 1 < |run|
    ensures || run[i + 1].store == run[i].store
            || Elsewhere(run[i], run[i + 1].store)
            || exists t: nat :: t < |run[i].txns| && t < |run[i + 1].txns|
                 && RunChecked(cfg, run[i].store, run[i].txns[t].call) == (run[i + 1].store, run[i + 1].txns[t].answer)
  {
    RunInvariant(cfg, run, i);
    assert Stepped(cfg, run[i], run[i + 1]);
    var step :| Next(cfg, run[i], step, run[i + 1]);
    if step.Move? {
      MoveIsSerial(cfg, run[i], step.t, run[i + 1]);
    }
  }

  // ---- Exactly once ------------------------------------------------------------------------------------

  function EffectsOf(log: seq<Effect>, k: OperationKey): nat {
    if log == [] then 0 else (if log[0].key == k then 1 else 0) + EffectsOf(log[1..], k)
  }

  function EventsOf(log: seq<Event>, k: OperationKey): nat {
    if log == [] then 0 else (if log[0].key == k then 1 else 0) + EventsOf(log[1..], k)
  }

  lemma {:induction false} DistinctCount(effects: seq<Effect>, events: seq<Event>, k: OperationKey)
    requires |effects| == |events|
    requires forall i :: 0 <= i < |effects| ==> effects[i].key == events[i].key
    requires forall i, j :: 0 <= i < j < |effects| ==> effects[i].key != effects[j].key
    ensures EffectsOf(effects, k) == EventsOf(events, k)
    ensures EffectsOf(effects, k) == if exists i :: 0 <= i < |effects| && effects[i].key == k then 1 else 0
  {
    if effects != [] {
      DistinctCount(effects[1..], events[1..], k);
      if i :| 0 <= i < |effects| && effects[i].key == k {
        if i > 0 { assert effects[1..][i - 1].key == k; }
      }
    }
  }

  /**
   In every reachable state the owner effect and the history event of an operation are there once if it has a receipt,
   and not at all otherwise.
   */
  lemma ExactlyOnce(cfg: Config, run: seq<Sys>, i: nat, k: OperationKey)
    requires IsRun(cfg, run) && i < |run|
    ensures EffectsOf(run[i].store.effects, k) == EventsOf(run[i].store.history, k) == if k
        in run[i].store.receipts then 1 else 0
  {
    RunInvariant(cfg, run, i);
    DistinctCount(run[i].store.effects, run[i].store.history, k);
  }

  /**
   Where the receipt table allows one receipt per resource, a resource is reviewed at most once, whatever the owner
   does.
   */
  lemma OneReceiptPerResource(cfg: Config, run: seq<Sys>, i: nat, j: OperationKey, k: OperationKey)
    requires IsRun(cfg, run) && i < |run| && cfg.uniqueResource
    requires j in run[i].store.receipts && k in run[i].store.receipts && j != k
    ensures Target(j, run[i].store.receipts[j]) != Target(k, run[i].store.receipts[k])
  {
    RunInvariant(cfg, run, i);
  }

  // ---- The version guard ---------------------------------------------------------------------------------

  predicate RowOk(row: OwnerRow) { row.state.version !in row.past }

  /** From `s` to `s'` the owner does not lose the versions of a resource and does not bring one of them back. */
  predicate KeepsVersions(s: Store, s': Store, r: ResourceKey) {
    && (r in s.resources ==> r in s'.resources && s.resources[r].past <= s'.resources[r].past)
    && (r in s'.resources ==> RowOk(s'.resources[r]))
  }

  /**
   In the first `n` steps of the run the owner never reuses a version of the resource, neither by a review nor
   otherwise.
   */
  ghost predicate NeverReused(run: seq<Sys>, n: nat, r: ResourceKey)
    requires n < |run|
  {
    && (r in run[0].store.resources ==> RowOk(run[0].store.resources[r]))
    && forall m :: 0 <= m < n ==> KeepsVersions(run[m].store, run[m + 1].store, r)
  }

  /** Each review of the resource has spent the version it expected, and no two expected the same. */
  ghost predicate VersionsSpent(s: Store, r: ResourceKey) {
    && (r in s.resources ==> RowOk(s.resources[r]))
    && (forall k :: k in s.receipts && Target(k, s.receipts[k]) == r ==>
        r in s.resources && Expected(s.receipts[k]) in s.resources[r].past)
    && (forall j, k :: j in s.receipts && k in s.receipts && j != k ==>
          Target(j, s.receipts[j]) == r && Target(k, s.receipts[k]) == r ==>
            Expected(s.receipts[j]) != Expected(s.receipts[k]))
  }

  lemma RunKeepsVersionsSpent(cfg: Config, s: Store, c: Call, r: ResourceKey)
    requires VersionsSpent(s, r) && KeepsVersions(s, RunChecked(cfg, s, c).0, r)
    ensures VersionsSpent(RunChecked(cfg, s, c).0, r)
  {
  }

  /** As long as no receipt is added, keeping versions is all it takes. */
  lemma OthersKeepVersionsSpent(s: Store, s': Store, r: ResourceKey)
    requires VersionsSpent(s, r) && KeepsVersions(s, s', r) && s'.receipts == s.receipts
    ensures VersionsSpent(s', r)
  {
  }

  lemma StepKeepsVersionsSpent(cfg: Config, sys: Sys, step: Step, sys': Sys, r: ResourceKey)
    requires SysOk(cfg, sys) && Next(cfg, sys, step, sys')
    requires VersionsSpent(sys.store, r) && KeepsVersions(sys.store, sys'.store, r)
    ensures VersionsSpent(sys'.store, r)
  {
    if step.Move? {
      MoveIsSerial(cfg, sys, step.t, sys');
      if sys'.store != sys.store {
        RunKeepsVersionsSpent(cfg, sys.store, sys.txns[step.t].call, r);
      }
    } else {
      OthersKeepVersionsSpent(sys.store, sys'.store, r);
    }
  }

  lemma {:induction false} RunSpendsVersions(cfg: Config, run: seq<Sys>, n: nat, r: ResourceKey)
    requires IsRun(cfg, run) && n < |run| && NeverReused(run, n, r)
    ensures VersionsSpent(run[n].store, r)
  {
    if n > 0 {
      RunSpendsVersions(cfg, run, n - 1, r);
      RunInvariant(cfg, run, n - 1);
      assert Stepped(cfg, run[n - 1], run[n - 1 + 1]);
      assert KeepsVersions(run[n - 1].store, run[n - 1 + 1].store, r);
      var step :| Next(cfg, run[n - 1], step, run[n]);
      StepKeepsVersionsSpent(cfg, run[n - 1], step, run[n], r);
    }
  }

  /** Of the commands that name one resource and expect one version, at most one ever takes effect. */
  lemma VersionGuard(cfg: Config, run: seq<Sys>, i: nat, j: OperationKey, k: OperationKey)
    requires IsRun(cfg, run) && i < |run|
    requires j in run[i].store.receipts && k in run[i].store.receipts && j != k
    requires Target(j, run[i].store.receipts[j]) == Target(k, run[i].store.receipts[k])
    requires NeverReused(run, i, Target(j, run[i].store.receipts[j]))
    ensures Expected(run[i].store.receipts[j]) != Expected(run[i].store.receipts[k])
  {
    RunSpendsVersions(cfg, run, i, Target(j, run[i].store.receipts[j]));
  }

  // ---- The core owner ------------------------------------------------------------------------------------------

  /** How the decision engine judges a decision from its machine outcome and its review status, if it has one. */
  function DecisionReview(outcome: string, status: string, command: Option<Command>): State {
    var unreviewed := State("pending", "0", outcome == "review"
        || outcome == "block_and_review", outcome, ["approve", "decline"]);
    var reviewed := if status != "" then unreviewed.(status := status, version := "1", eligible := false)
        else unreviewed;
    var judged := if !reviewed.eligible && reviewed.version == "0" then reviewed.(status := "not_applicable")
        else reviewed;
    if command.Some? then judged.(status := command.value.action, version := "1", eligible := false) else judged
  }

  /**
   A decision can be reviewed exactly if its outcome asks for it and it has not been, and only then its version is "0".
   */
  lemma DecisionReviewExactly(outcome: string, status: string, command: Option<Command>)
    ensures var judged := DecisionReview(outcome, status, command);
      && (judged.eligible <==> command.None? && status == "" && (outcome == "review" || outcome == "block_and_review"))
      && judged.version == (if command.None? && status == "" then "0" else "1")
      && (command.Some? ==> judged.status == command.value.action)
      && (command.None? && status != "" ==> judged.status == status)
      && (command.None? && status == "" ==> judged.status == if judged.eligible then "pending" else "not_applicable")
      && judged.machineOutcome == outcome && judged.actions == ["approve", "decline"]
  {
  }

  /**
   The configuration of the decision engine: its callback computes a state and the receipt table allows one review per
   decision.
   */
  function CoreConfig(requireSession: bool, parseUuid: string -> Option<Uuid>, advisory: OperationKey -> nat): Config {
    Config(requireSession, true, parseUuid,
           (r: ResourceKey, row: OwnerRow, cmd: Command, actor: string) =>
             var next := DecisionReview(row.state.machineOutcome, "", Some(cmd)); Ok(Applied(next, next)),
           advisory)
  }

  /** A decision that has not been reviewed has left no version behind, one that has may have left version "0". */
  predicate CoreRow(row: OwnerRow, status: string) {
    && row.state == DecisionReview(row.state.machineOutcome, status, None)
    && row.past <= (if status == "" then {} else {"0"})
  }

  ghost predicate IsCoreRow(row: OwnerRow) { exists status :: CoreRow(row, status) }

  /** Unless it is a review, a step leaves a decision's row one of the decision engine. */
  ghost predicate KeepsCoreRow(s: Store, s': Store, r: ResourceKey) {
    s'.effects == s.effects ==>
      && (r in s.resources ==> r in s'.resources && s.resources[r].past <= s'.resources[r].past)
      && (r in s'.resources ==> IsCoreRow(s'.resources[r]))
  }

  lemma CoreRowIsOk(row: OwnerRow)
    requires IsCoreRow(row)
    ensures RowOk(row)
  {
  }

  /** A review by the decision engine leaves a row of the decision engine, in a version that it did not have. */
  lemma CoreReviewIsFresh(cfg: Config, s: Store, c: Call, r: ResourceKey)
    requires cfg == CoreConfig(cfg.requireSession, cfg.parseUuid, cfg.advisory)
    requires r in s.resources ==> IsCoreRow(s.resources[r])
    ensures var s' := RunChecked(cfg, s, c).0;
      KeepsVersions(s, s', r) && (r in s'.resources ==> IsCoreRow(s'.resources[r]))
  {
    var s' := RunChecked(cfg, s, c).0;
    if s' != s && r == Resource(c) {
      var row := s.resources[r];
      var action := c.command.value.action;
      assert row.state.eligible && action in row.state.actions;
      assert row.state.version == "0" && action != "";
      assert CoreRow(s'.resources[r], action);
    }
    if r in s'.resources {
      CoreRowIsOk(s'.resources[r]);
    }
  }

  /** One step of a run in which a decision's row starts out as one of the decision engine. */
  lemma CoreStepKeeps(cfg: Config, sys: Sys, step: Step, sys': Sys, r: ResourceKey)
    requires cfg == CoreConfig(cfg.requireSession, cfg.parseUuid, cfg.advisory)
    requires SysOk(cfg, sys) && Next(cfg, sys, step, sys') && KeepsCoreRow(sys.store, sys'.store, r)
    requires r in sys.store.resources ==> IsCoreRow(sys.store.resources[r])
    ensures KeepsVersions(sys.store, sys'.store, r)
        && (r in sys'.store.resources ==> IsCoreRow(sys'.store.resources[r]))
  {
    if step.Move? {
      MoveIsSerial(cfg, sys, step.t, sys');
      if sys'.txns[step.t].pc.Finished? {
        CoreReviewIsFresh(cfg, sys.store, sys.txns[step.t].call, r);
      } else if r in sys'.store.resources {
        CoreRowIsOk(sys'.store.resources[r]);
      }
    } else if r in sys'.store.resources {
      CoreRowIsOk(sys'.store.resources[r]);
    }
  }

  /**
   The decision engine always answers with the versions "0" and "1", and yet it never reuses a version of a decision.
   */
  lemma {:induction false} CoreNeverReuses(cfg: Config, run: seq<Sys>, n: nat, r: ResourceKey)
    requires cfg == CoreConfig(cfg.requireSession, cfg.parseUuid, cfg.advisory)
    requires IsRun(cfg, run) && n < |run|
    requires r in run[0].store.resources ==> IsCoreRow(run[0].store.resources[r])
    requires forall m :: 0 <= m < n ==> KeepsCoreRow(run[m].store, run[m + 1].store, r)
    ensures NeverReused(run, n, r) && (r in run[n].store.resources ==> IsCoreRow(run[n].store.resources[r]))
  {
    if n == 0 {
      if r in run[0].store.resources {
        CoreRowIsOk(run[0].store.resources[r]);
      }
    } else {
      CoreNeverReuses(cfg, run, n - 1, r);
      RunInvariant(cfg, run, n - 1);
      assert Stepped(cfg, run[n - 1], run[n - 1 + 1]);
      assert KeepsCoreRow(run[n - 1].store, run[n - 1 + 1].store, r);
      var step :| Next(cfg, run[n - 1], step, run[n]);
      CoreStepKeeps(cfg, run[n - 1], step, run[n], r);
    }
  }

  // ---- Receipts are justified and permanent ---------------------------------------------------------------

  /** What must hold when a review is committed. */
  ghost predicate Justified(cfg: Config, s: Store, c: Call) {
    && c.command.Some?
    && (if c.principal.session == 0 then !cfg.requireSession else c.principal in s.sessions)
    && (c.tenant, c.caseId) in s.cases
    && var row := s.cases[(c.tenant, c.caseId)];
    && (c.tenant, row.inbox) in s.inboxes && row.status != "closed" && s.inboxes[(c.tenant, row.inbox)] == "active"
    && (c.principal.admin || (c.tenant, row.inbox, c.principal.subject) in s.members)
    && (c.owner == "core" ==>
          && cfg.parseUuid(c.resource).Some?
          && (c.tenant, c.caseId, cfg.parseUuid(c.resource).value) in s.decisionLinks)
    && (c.owner != "core" ==> (c.tenant, c.caseId, c.resource) in s.matchLinks)
    && ResourceKey(c.owner, c.tenant, c.resource) in s.resources
    && var state := s.resources[ResourceKey(c.owner, c.tenant, c.resource)].state;
    && state.eligible && state.version == c.command.value.expectedVersion && c.command.value.action in state.actions
  }

  lemma NewReceiptJustified(cfg: Config, s: Store, c: Call, k: OperationKey)
    requires k in RunChecked(cfg, s, c).0.receipts
    ensures k in s.receipts ==> RunChecked(cfg, s, c).0.receipts[k] == s.receipts[k]
    ensures k !in s.receipts ==>
      && Justified(cfg, s, c) && k == Operation(c) && RunChecked(cfg, s, c).0.receipts[k].payload == PayloadOf(c)
      && RunChecked(cfg, s, c).1 == Ok(RunChecked(cfg, s, c).0.receipts[k].result)
  {
    if k !in s.receipts {
      AccessSplit(cfg, s, c);
    }
  }

  lemma StepKeepsReceipts(cfg: Config, sys: Sys, step: Step, sys': Sys, k: OperationKey)
    requires SysOk(cfg, sys) && Next(cfg, sys, step, sys')
    ensures k in sys.store.receipts ==> k in sys'.store.receipts && sys'.store.receipts[k] == sys.store.receipts[k]
    ensures k in sys'.store.receipts && k !in sys.store.receipts ==>
      exists t: nat :: t < |sys.txns| && Justified(cfg, sys.store, sys.txns[t].call)
        && k == Operation(sys.txns[t].call) && sys'.store.receipts[k].payload == PayloadOf(sys.txns[t].call)
  {
    if step.Move? {
      MoveIsSerial(cfg, sys, step.t, sys');
      if sys'.txns[step.t].pc.Finished? {
        if k in sys'.store.receipts {
          NewReceiptJustified(cfg, sys.store, sys.txns[step.t].call, k);
        }
      }
    }
  }

  /** One step of a run: receipts stay as they are, and a new one is justified where it appears. */
  lemma RunStepReceipts(cfg: Config, run: seq<Sys>, i: nat, k: OperationKey)
    requires IsRun(cfg, run) && i + 1 < |run|
    ensures k in run[i].store.receipts ==>
        k in run[i + 1].store.receipts && run[i + 1].store.receipts[k] == run[i].store.receipts[k]
    ensures k in run[i + 1].store.receipts && k !in run[i].store.receipts ==>
      exists t: nat :: t < |run[i].txns| && Justified(cfg, run[i].store, run[i].txns[t].call)
        && k == Operation(run[i].txns[t].call) && run[i + 1].store.receipts[k].payload == PayloadOf(run[i].txns[t].call)
  {
    RunInvariant(cfg, run, i);
    assert Stepped(cfg, run[i], run[i + 1]);
    var step :| Next(cfg, run[i], step, run[i + 1]);
    StepKeepsReceipts(cfg, run[i], step, run[i + 1], k);
  }

  /** Every receipt was committed by a call that satisfied every condition in the very store it was added to. */
  lemma {:induction false} EveryReceiptJustified(cfg: Config, run: seq<Sys>, n: nat, k: OperationKey)
      returns (i: nat, t: nat)
    requires IsRun(cfg, run) && n < |run| && k in run[n].store.receipts
    ensures i < n && t < |run[i].txns| && k !in run[i].store.receipts
        && Justified(cfg, run[i].store, run[i].txns[t].call)
    ensures k == Operation(run[i].txns[t].call) && run[n].store.receipts[k].payload == PayloadOf(run[i].txns[t].call)
  {
    i := n - 1;
    RunStepReceipts(cfg, run, i, k);
    if k in run[i].store.receipts {
      i, t := EveryReceiptJustified(cfg, run, i, k);
    } else {
      t :| t < |run[i].txns| && Justified(cfg, run[i].store, run[i].txns[t].call)
        && k == Operation(run[i].txns[t].call)
            && run[i + 1].store.receipts[k].payload == PayloadOf(run[i].txns[t].call);
    }
  }

  /**
   An answer, be it a state, a stored result or a new one, is given only in a store in which identity, membership and
   link hold, whatever the rest of the system did after they were checked.
   */
  lemma AnswersAreAuthorised(cfg: Config, run: seq<Sys>, i: nat, t: nat)
    requires IsRun(cfg, run) && i + 1 < |run| && t < |run[i].txns| && !run[i].txns[t].pc.Finished?
    requires t < |run[i + 1].txns| && run[i + 1].txns[t].pc.Finished? && run[i + 1].txns[t].answer.Ok?
    ensures var c, s := run[i].txns[t].call, run[i].store;
      && (if c.principal.session == 0 then !cfg.requireSession else c.principal in s.sessions)
      && (c.tenant, c.caseId) in s.cases
      && (c.principal.admin || (c.tenant, s.cases[(c.tenant, c.caseId)].inbox, c.principal.subject) in s.members)
      && (c.owner == "core" ==>
            && cfg.parseUuid(c.resource).Some?
            && (c.tenant, c.caseId, cfg.parseUuid(c.resource).value) in s.decisionLinks)
      && (c.owner != "core" ==> (c.tenant, c.caseId, c.resource) in s.matchLinks)
  {
    RunInvariant(cfg, run, i);
    assert Stepped(cfg, run[i], run[i + 1]);
    var step :| Next(cfg, run[i], step, run[i + 1]);
    assert step == Move(t);
    MoveIsSerial(cfg, run[i], t, run[i + 1]);
    AccessSplit(cfg, run[i].store, run[i].txns[t].call);
  }

  ghost predicate Kept(s: Store, s': Store, k: OperationKey) {
    k in s.receipts ==> k in s'.receipts && s'.receipts[k] == s.receipts[k]
  }

  lemma {:induction false} KeptAcross(run: seq<Sys>, i: nat, j: nat, k: OperationKey)
    requires i <= j < |run| && forall n :: 0 <= n < |run| - 1 ==> Kept(run[n].store, run[n + 1].store, k)
    ensures Kept(run[i].store, run[j].store, k)
    decreases j - i
  {
    if i < j {
      KeptAcross(run, i, j - 1, k);
      assert Kept(run[j - 1].store, run[j - 1 + 1].store, k);
    }
  }

  lemma ReceiptsPersist(cfg: Config, run: seq<Sys>, i: nat, j: nat, k: OperationKey)
    requires IsRun(cfg, run) && i <= j < |run|
    ensures Kept(run[i].store, run[j].store, k)
  {
    forall n | 0 <= n < |run| - 1 ensures Kept(run[n].store, run[n + 1].store, k) {
      RunStepReceipts(cfg, run, n, k);
    }
    KeptAcross(run, i, j, k);
  }

  /**
   A committed review answers every later retry. In any later state of the run a call under the same
   operation id writes nothing; if it may still see the case it gets exactly the stored answer when
   actor, case and trimmed command are the same and a conflict when any of them differs.
   */
  lemma ReplayStable(cfg: Config, run: seq<Sys>, i: nat, j: nat, original: Call, retry: Call)
    requires IsRun(cfg, run) && i < j < |run|
    requires original.command.Some? && Operation(original) !in run[i].store.receipts
    requires RunChecked(cfg, run[i].store, original).0 == run[i + 1].store
        && RunChecked(cfg, run[i].store, original).1.Ok?
    requires Validate(retry).Ok? && retry.command.Some? && Operation(Validate(retry).value) == Operation(original)
    ensures var (after, answer) := RunSpec(cfg, run[j].store, retry);
      && after == run[j].store
      && answer == (match Access(cfg, run[j].store, Validate(retry).value)
                    case Err(e) => Err(e)
                    case Ok(_) => if PayloadOf(Validate(retry).value) == PayloadOf(original) then
                        RunChecked(cfg, run[i].store, original).1 else Err(Conflict))
  {
    var k := Operation(original);
    NewReceiptJustified(cfg, run[i].store, original, k);
    ReceiptsPersist(cfg, run, i + 1, j, k);
  }

  // ---- The two models agree ---------------------------------------------------------------------------------

  /** A transaction's remaining statements, run with nothing in between. */
  ghost function RunAlone(cfg: Config, s: Store, x: Txn): (Store, Answer)
    requires TxnOk(cfg, s, x) && !x.pc.Finished?
    decreases 12 - Order(x.pc)
  {
    StatementSound(cfg, s, x);
    var (s', x') := Statement(cfg, s, x);
    if x'.pc.Finished? then (s', x'.answer) else RunAlone(cfg, s', x')
  }

  /** From any point the rest of a transaction, run alone, completes the sequential call. */
  lemma {:induction false} AloneIsSequential(cfg: Config, s: Store, x: Txn)
    requires TxnOk(cfg, s, x) && !x.pc.Finished?
    ensures RunAlone(cfg, s, x) == RunChecked(cfg, s, x.call)
    decreases 12 - Order(x.pc)
  {
    StatementSound(cfg, s, x);
    var (s', x') := Statement(cfg, s, x);
    if !x'.pc.Finished? {
      AloneIsSequential(cfg, s', x');
    }
  }

  /** Executed alone from its arrival, the step machine computes `RunSpec`. */
  lemma MachineRefinesRun(cfg: Config, s: Store, c: Call)
    ensures TxnOk(cfg, s, Arrive(c))
    ensures RunSpec(cfg, s, c) == if Arrive(c).pc.Finished? then (s, Arrive(c).answer) else RunAlone(cfg, s, Arrive(c))
  {
    if !Arrive(c).pc.Finished? {
      AloneIsSequential(cfg, s, Arrive(c));
    }
  }
}
