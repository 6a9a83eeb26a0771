/**
 The ten-stage demo session: run one stage, run all stages, reset.

 Calls to other services are a script: whether the n-th call of the stage body comes back in order,
 and what it delivered. A stage body may have assigned some of its results when a later call raises.
 */
module SessionStages {
  import opened Common

  const KEYS := ["tenant", "tables", "fields", "records", "scenario", "rules", "validation", "publish", "evaluation",
      "history"]
  const STAGES := 10

  datatype Status = Pending | Running | Passed | Skipped | Failed

  /** A document created by a service; an empty one counts as missing. */
  datatype Doc = Doc(empty: bool, number: nat)

  datatype Case = Case(expectsInvalid: bool)

  datatype Verdict = Valid | Invalid | Unknown

  /** The session fields that later stages look at. */
  datatype Data = Data(
    tenantId: Option<string>, transactions: Option<Doc>, accounts: Option<Doc>,
    materialized: Option<Case>, bundle: Option<nat>, validation: Option<Verdict>,
    evaluation: Option<bool>)  // whether the evaluation produced a decision

  const NO_DATA := Data(None, None, None, None, None, None, None)

  datatype Script = Script(ok: nat -> bool, id: string, doc: nat -> Doc, fixture: Case, bundle: nat, verdict: Verdict,
      decided: bool)

  datatype Problem =
    | UnknownStage
    | RunFirst(stage: nat)          // an earlier stage is pending
    | CannotContinue(stage: nat)    // an earlier stage failed
    | Missing(what: string)         // a require_* check of the stage body fired
    | ServiceError
    | BadFixture

  datatype Outcome = Finished | LeftOut | Raised(problem: Problem)

  predicate Present(d: Option<Doc>) { d.Some? && !d.value.empty }

  predicate HasTenant(d: Data) { d.tenantId.Some? && d.tenantId.value != "" }

  // ---- What a stage body does ---------------------------------------------------------------------

  /** The first require_* check of stage `k` that fires, if the body gets to it. */
  function Requirement(k: nat, d: Data): Option<string> {
    if k == 0 then None
    else if k <= 2 then
      if !HasTenant(d) then Some("tenant")
      else if k == 2 && !(Present(d.transactions) && Present(d.accounts)) then Some("tables") else None
    else if d.materialized.None? then Some("materialized")
    else if k == 3 || k == 4 then None
    else if k == 8 && d.materialized.value.expectsInvalid then None
    else if d.bundle.None? then Some("bundle")
    else None
  }

  /** Whether stage `k` leaves itself out. */
  predicate LeavesOut(k: nat, d: Data) {
    || (k == 7 && d.validation == Some(Invalid))
    || (k == 8 && d.materialized.Some? && d.materialized.value.expectsInvalid)
    || (k == 9 && d.evaluation != Some(true))
  }

  function BodySpec(k: nat, d: Data, r: Script): (Data, Outcome)
    requires k < STAGES
  {
    if Requirement(k, d).Some? then (d, Raised(Missing(Requirement(k, d).value)))
    else if LeavesOut(k, d) then (d, LeftOut)
    else if !r.ok(0) then (d, Raised(ServiceError))
    else
      var first := match k
        case 0 => d.(tenantId := Some(r.id))
        case 1 => d.(transactions := Some(r.doc(0)))
        case 4 => d.(bundle := Some(r.bundle))
        case 6 => d.(validation := Some(r.verdict))
        case 8 => d.(evaluation := Some(r.decided))
        case _ => d;
      if !r.ok(1) then (first, Raised(ServiceError))
      else
        var second := match k
          case 1 => first.(accounts := Some(r.doc(1)))
          case 2 => first.(materialized := Some(r.fixture))
          case _ => first;
        (second, if r.ok(2) then Finished else Raised(ServiceError))
  }

  /** The keys of the stages, in order. */
  lemma KeysExactly(k: nat)
    requires k < STAGES
    ensures KEYS[k] == match k
      case 0 => "tenant"
      case 1 => "tables"
      case 2 => "fields"
      case 3 => "records"
      case 4 => "scenario"
      case 5 => "rules"
      case 6 => "validation"
      case 7 => "publish"
      case 8 => "evaluation"
      case _ => "history"
    ensures STAGES == |KEYS| == 10
  {
  }

  /** Which check fires, and which stages leave themselves out; either leaves all data alone. */
  lemma RefusedExactly(k: nat, d: Data, r: Script)
    requires k < STAGES
    ensures var noTenant := d.tenantId == None || d.tenantId == Some("");
      var noTables := d.transactions.None? || d.transactions.value.empty || d.accounts.None? || d.accounts.value.empty;
      var (data, outcome) := BodySpec(k, d, r);
      && (outcome == Raised(Missing("tenant")) <==> (k == 1 || k == 2) && noTenant)
      && (outcome == Raised(Missing("tables")) <==> k == 2 && !noTenant && noTables)
      && (outcome == Raised(Missing("materialized")) <==> k >= 3 && d.materialized.None?)
      && (outcome == Raised(Missing("bundle")) <==>
            k >= 5 && d.materialized.Some? && d.bundle.None? && (k != 8 || !d.materialized.value.expectsInvalid))
      && (outcome == LeftOut <==>
            || (k == 7 && d.materialized.Some? && d.bundle.Some? && d.validation == Some(Invalid))
            || (k == 8 && d.materialized.Some? && d.materialized.value.expectsInvalid)
            || (k == 9 && d.materialized.Some? && d.bundle.Some? && d.evaluation != Some(true)))
      && (outcome == LeftOut || (outcome.Raised? && outcome.problem.Missing?) ==> data == d)
  {
  }

  /** What a stage body stores, and in which of the three cases of a failing service it has stored it already. */
  lemma StoredExactly(k: nat, d: Data, r: Script)
    requires k < STAGES
    ensures var (data, outcome) := BodySpec(k, d, r);
      outcome == Finished || outcome == Raised(ServiceError) ==>
        && (outcome == Finished <==> r.ok(0) && r.ok(1) && r.ok(2))
        && (!r.ok(0) ==> data == d)
        && (r.ok(0) && k == 0 ==> data == d.(tenantId := Some(r.id)))
        && (r.ok(0) && k == 1 && !r.ok(1) ==> data == d.(transactions := Some(r.doc(0))))
        && (r.ok(0) && k == 1 && r.ok(1) ==>
              data == d.(transactions := Some(r.doc(0)), accounts := Some(r.doc(1))))
        && (r.ok(0) && k == 2 ==> data == if r.ok(1) then d.(materialized := Some(r.fixture)) else d)
        && (r.ok(0) && k == 4 ==> data == d.(bundle := Some(r.bundle)))
        && (r.ok(0) && k == 6 ==> data == d.(validation := Some(r.verdict)))
        && (r.ok(0) && k == 8 ==> data == d.(evaluation := Some(r.decided)))
        && (k in {3, 5, 7, 9} ==> data == d)
  {
  }

  // ---- Stages, runs and resets on values ------------------------------------------------------------

  /** `completed` lists the stages whose body has come to its end since the last reset. */
  datatype State = State(status: seq<Status>, data: Data, completed: seq<nat>)

  predicate Done(s: Status) { s.Passed? || s.Skipped? }

  function Fresh(): State { State(seq(STAGES, _ => Pending), NO_DATA, []) }

  /** The first earlier stage that has not been run or has failed. */
  function Blocker(status: seq<Status>, k: nat, from: nat): Option<Problem>
    requires k <= |status|
    decreases k - from
  {
    if from >= k then None
    else if status[from].Pending? then Some(RunFirst(from))
    else if status[from].Failed? then Some(CannotContinue(from))
    else Blocker(status, k, from + 1)
  }

  function RunStageSpec(s: State, k: nat, r: Script): (result: (State, Option<Problem>))
    requires |s.status| == STAGES && k < STAGES
    ensures |result.0.status| == STAGES
  {
    if Blocker(s.status, k, 0).Some? then (s, Blocker(s.status, k, 0))
    else if Done(s.status[k]) then (s, None)
    else
      var (data, outcome) := BodySpec(k, s.data, r);
      match outcome
      case Finished => (State(s.status[k := Passed], data, s.completed + [k]), None)
      case LeftOut => (State(s.status[k := Skipped], data, s.completed + [k]), None)
      case Raised(p) => (State(s.status[k := Failed], data, s.completed), Some(p))
  }

  /**
   A stage that may run gets the status of its outcome; all other stages, and a stage that may not, are left alone.
   */
  lemma StageRunsExactly(s: State, k: nat, r: Script)
    requires |s.status| == STAGES && k < STAGES
    ensures var (s', p) := RunStageSpec(s, k, r);
      var (data, outcome) := BodySpec(k, s.data, r);
      if Blocker(s.status, k, 0).Some? then s' == s && p == Blocker(s.status, k, 0)
      else if s.status[k] == Passed || s.status[k] == Skipped then s' == s && p == None
      else
        && s'.data == data && (forall i :: 0 <= i < STAGES && i != k ==> s'.status[i] == s.status[i])
        && (outcome == Finished ==> s'.status[k] == Passed && p == None)
        && (outcome == LeftOut ==> s'.status[k] == Skipped && p == None)
        && (outcome.Raised? ==> s'.status[k] == Failed && p == Some(outcome.problem))
  {
  }

  /** The first stage before `k` that is pending or has failed. */
  lemma {:induction false} BlockerExactly(status: seq<Status>, k: nat, from: nat)
    requires from <= k <= |status|
    ensures Blocker(status, k, from) == None <==>
      forall i :: from <= i < k ==> status[i] != Pending && status[i] != Failed
    ensures forall i :: from <= i < k && (forall j :: from <= j < i ==> status[j] != Pending && status[j] != Failed) ==>
      && (status[i] == Pending ==> Blocker(status, k, from) == Some(RunFirst(i)))
      && (status[i] == Failed ==> Blocker(status, k, from) == Some(CannotContinue(i)))
    decreases k - from
  {
    if from < k && !status[from].Pending? && !status[from].Failed? {
      BlockerExactly(status, k, from + 1);
    }
  }

  function RunAllSpec(s: State, scripts: seq<Script>, from: nat): (result: (State, Option<Problem>))
    requires |s.status| == STAGES && |scripts| == STAGES && from <= STAGES
    ensures |result.0.status| == STAGES
    decreases STAGES - from
  {
    if from == STAGES then (s, None)
    else
      var (s', p) := RunStageSpec(s, from, scripts[from]);
      if Done(s.status[from]) then RunAllSpec(s, scripts, from + 1)
      else if p.Some? then (s', p)
      else RunAllSpec(s', scripts, from + 1)
  }

  // ---- The session object -------------------------------------------------------------------------------

  class Session {
    var status: seq<Status>
    var tenantId: Option<string>
    var transactions: Option<Doc>
    var accounts: Option<Doc>
    var materialized: Option<Case>
    var bundle: Option<nat>
    var validation: Option<Verdict>
    var evaluation: Option<bool>
    ghost var completed: seq<nat>

    ghost function Contents(): State
      reads this
    {
      State(status, Data(tenantId, transactions, accounts, materialized, bundle, validation, evaluation), completed)
    }

    constructor ()
      ensures Contents() == Fresh()
    {
      status := seq(STAGES, _ => Pending);
      tenantId, transactions, accounts, materialized := None, None, None, None;
      bundle, validation, evaluation := None, None, None;
      completed := [];
    }

    /** The body of stage `k`: checks, calls and assignments in the order of the source. */
    method Body(k: nat, r: Script) returns (outcome: Outcome)
      requires k < STAGES
      modifies this`tenantId, this`transactions, this`accounts, this`materialized, this`bundle, this`validation,
          this`evaluation
      ensures (Contents().data, outcome) == BodySpec(k, old(Contents().data), r)
    {
      if k == 1 || k == 2 {
        if tenantId.None? || tenantId.value == "" {
          return Raised(Missing("tenant"));
        }
      }
      if k == 2 {
        if !Present(transactions) || !Present(accounts) {
          return Raised(Missing("tables"));
        }
      }
      if k >= 3 {
        if materialized.None? {
          return Raised(Missing("materialized"));
        }
        if k == 8 && materialized.value.expectsInvalid {
          return LeftOut;
        }
        if k >= 5 && bundle.None? {
          return Raised(Missing("bundle"));
        }
        if k == 7 && validation == Some(Invalid) {
          return LeftOut;
        }
        if k == 9 && evaluation != Some(true) {
          return LeftOut;
        }
      }
      if !r.ok(0) {
        return Raised(ServiceError);
      }
      match k {
        case 0 => tenantId := Some(r.id);
        case 1 => transactions := Some(r.doc(0));
        case 4 => bundle := Some(r.bundle);
        case 6 => validation := Some(r.verdict);
        case 8 => evaluation := Some(r.decided);
        case _ =>
      }
      if !r.ok(1) {
        return Raised(ServiceError);
      }
      match k {
        case 1 => accounts := Some(r.doc(1));
        case 2 => materialized := Some(r.fixture);
        case _ =>
      }
      if !r.ok(2) {
        return Raised(ServiceError);
      }
      return Finished;
    }

    method EnsurePriorStages(k: nat) returns (p: Option<Problem>)
      requires k <= |status|
      ensures p == Blocker(status, k, 0)
    {
      for prior := 0 to k
        invariant Blocker(status, k, 0) == Blocker(status, k, prior)
      {
        if status[prior].Pending? {
          return Some(RunFirst(prior));
        }
        if status[prior].Failed? {
          return Some(CannotContinue(prior));
        }
      }
      return None;
    }

    method RunStage(k: nat, r: Script) returns (p: Option<Problem>)
      requires |status| == STAGES && k < STAGES
      modifies this
      ensures |status| == STAGES && (Contents(), p) == RunStageSpec(old(Contents()), k, r)
    {
      p := EnsurePriorStages(k);
      if p.Some? {
        return;
      }
      if Done(status[k]) {
        return None;
      }
      ghost var before := status;
      status := status[k := Running];
      var outcome := Body(k, r);
      match outcome {
        case Finished => status := status[k := Passed]; completed := completed + [k];
        case LeftOut => status := status[k := Skipped]; completed := completed + [k];
        case Raised(problem) => status := status[k := Failed]; p := Some(problem);
      }
      assert status == before[k := status[k]];
    }

    /** The stage is named by its key; an unknown key is an error. */
    method RunStageByKey(key: string, r: Script) returns (p: Option<Problem>)
      requires |status| == STAGES
      modifies this
      ensures |status| == STAGES
      ensures key !in KEYS ==> p == Some(UnknownStage) && Contents() == old(Contents())
      ensures forall k :: 0 <= k < STAGES && KEYS[k] == key ==> (Contents(), p) == RunStageSpec(old(Contents()), k, r)
    {
      if k :| 0 <= k < |KEYS| && KEYS[k] == key {
        p := RunStage(k, r);
      } else {
        p := Some(UnknownStage);
      }
    }

    /** A raising stage ends the loop at once, so the source's test for a failed stage after the call is never true. */
    method RunAll(scripts: seq<Script>) returns (p: Option<Problem>)
      requires |status| == STAGES && |scripts| == STAGES
      modifies this
      ensures |status| == STAGES && (Contents(), p) == RunAllSpec(old(Contents()), scripts, 0)
    {
      for k := 0 to STAGES
        invariant |status| == STAGES
        invariant RunAllSpec(old(Contents()), scripts, 0) == RunAllSpec(Contents(), scripts, k)
      {
        if !Done(status[k]) {
          p := RunStage(k, scripts[k]);
          if p.Some? {
            return;
          }
          assert !status[k].Failed?;
        }
      }
      return None;
    }

    /** Loading or validating the fixture may fail; then stages and data are left as they were. */
    method Reset(fixtureOk: bool) returns (p: Option<Problem>)
      modifies this
      ensures if fixtureOk then p.None? && Contents() == Fresh()
          else p == Some(BadFixture) && Contents() == old(Contents())
    {
      if !fixtureOk {
        return Some(BadFixture);
      }
      status := seq(STAGES, _ => Pending);
      tenantId, transactions, accounts, materialized := None, None, None, None;
      bundle, validation, evaluation := None, None, None;
      completed := [];
      return None;
    }
  }

  // ---- Every history of a session -------------------------------------------------------------------------

  datatype Request = RunOne(stage: nat, script: Script) | RunEvery(scripts: seq<Script>) | StartOver(fixtureOk: bool)

  predicate WellFormed(q: Request) { (q.RunOne? ==> q.stage < STAGES) && (q.RunEvery? ==> |q.scripts| == STAGES) }

  function Serve(s: State, q: Request): (s': State)
    requires |s.status| == STAGES && WellFormed(q)
    ensures |s'.status| == STAGES
  {
    match q
    case RunOne(k, r) => RunStageSpec(s, k, r).0
    case RunEvery(scripts) => RunAllSpec(s, scripts, 0).0
    case StartOver(ok) => if ok then Fresh() else s
  }

  /** The first `n` stages are done, at most the next one has failed, all others are pending. */
  predicate Shape(status: seq<Status>, n: nat) {
    && |status| == STAGES && n <= STAGES
    && (forall i :: 0 <= i < n ==> Done(status[i]))
    && (n < STAGES ==> status[n].Pending? || status[n].Failed?)
    && (forall i :: n < i < STAGES ==> status[i].Pending?)
  }

  /** Which data the done stages have left behind. */
  predicate DataOf(n: nat, status: seq<Status>, d: Data)
    requires n <= |status| == STAGES
  {
    && (forall i :: 0 <= i < n && status[i].Skipped? ==> i >= 7)
    && (n > 0 ==> d.tenantId.Some?)
    && (n > 1 ==> d.transactions.Some? && d.accounts.Some?)
    && (n > 2 ==> d.materialized.Some?)
    && (n > 4 ==> d.bundle.Some?)
    && (n > 6 ==> d.validation.Some?)
    && (n > 7 ==> (status[7].Skipped? <==> d.validation == Some(Invalid)))
    && (n > 8 ==>
        (status[8].Skipped? <==> d.materialized.value.expectsInvalid) && (status[8].Passed? <==> d.evaluation.Some?))
    && (n < 8 || d.materialized.value.expectsInvalid ==> d.evaluation.None?)
    && (n > 9 ==> (status[9].Passed? <==> d.evaluation == Some(true)))
  }

  predicate Inv(s: State) {
    && Shape(s.status, |s.completed|)
    && (forall i :: 0 <= i < |s.completed| ==> s.completed[i] == i)  // each done stage was completed once, in order
    && DataOf(|s.completed|, s.status, s.data)
  }

  /** The services deliver ids and documents that are not empty. */
  ghost predicate GoodScript(r: Script) { r.id != "" && forall i: nat :: !r.doc(i).empty }

  ghost predicate GoodRequest(q: Request) {
    && (q.RunOne? ==> GoodScript(q.script))
    && (q.RunEvery? ==> forall k :: 0 <= k < |q.scripts| ==> GoodScript(q.scripts[k]))
  }

  predicate Supplied(s: State) {
    && (|s.completed| > 0 ==> HasTenant(s.data))
    && (|s.completed| > 1 ==> Present(s.data.transactions) && Present(s.data.accounts))
  }

  lemma {:induction false} BlockerIsFirst(status: seq<Status>, n: nat, k: nat, from: nat)
    requires Shape(status, n) && k < STAGES && from <= n
    ensures Blocker(status, k, from) == if k <= n then None
        else Some(if status[n].Pending? then RunFirst(n) else CannotContinue(n))
    decreases k - from
  {
    if from < k && from < n {
      BlockerIsFirst(status, n, k, from + 1);
    }
  }

  /** Running the stage that is due leaves exactly the data that its new status promises. */
  lemma BodyLeavesData(status: seq<Status>, n: nat, d: Data, r: Script)
    requires Shape(status, n) && n < STAGES && DataOf(n, status, d)
    ensures var (d', outcome) := BodySpec(n, d, r);
      match outcome
      case Finished => DataOf(n + 1, status[n := Passed], d')
      case LeftOut => DataOf(n + 1, status[n := Skipped], d')
      case Raised(_) => DataOf(n, status[n := Failed], d')
  {
    if n == 0 {} else if n == 1 {} else if n == 2 {} else if n == 4 {} else if n == 6 {} else if n == 7 {}
        else if n == 8 {} else if n == 9 {}
  }

  lemma RunStageKeepsInv(s: State, k: nat, r: Script)
    requires Inv(s) && k < STAGES
    ensures Inv(RunStageSpec(s, k, r).0)
  {
    BlockerIsFirst(s.status, |s.completed|, k, 0);
    if k == |s.completed| {
      BodyLeavesData(s.status, k, s.data, r);
    }
  }

  lemma RunStageKeepsSupplied(s: State, k: nat, r: Script)
    requires Inv(s) && Supplied(s) && GoodScript(r) && k < STAGES
    ensures Supplied(RunStageSpec(s, k, r).0)
  {
    BlockerIsFirst(s.status, |s.completed|, k, 0);
  }

  /** An earlier stage came back with an empty id or an empty table that stage `k` needs. */
  predicate NeedsWhatIsEmpty(k: nat, d: Data) {
    || ((k == 1 || k == 2) && d.tenantId == Some(""))
    || (k == 2 && ((d.transactions.Some? && d.transactions.value.empty)
        || (d.accounts.Some? && d.accounts.value.empty)))
  }

  predicate RequireFired(p: Option<Problem>) { p.Some? && p.value.Missing? }

  /**
   A require_* check can fire only in the stage that is due, and there exactly when an id or a table came back empty.
   */
  lemma RequireFiresExactly(s: State, k: nat, r: Script)
    requires Inv(s) && k < STAGES
    ensures RequireFired(RunStageSpec(s, k, r).1) <==> k == |s.completed| && NeedsWhatIsEmpty(k, s.data)
  {
    BlockerIsFirst(s.status, |s.completed|, k, 0);
    if k == |s.completed| {
      assert Requirement(k, s.data).Some? <==> NeedsWhatIsEmpty(k, s.data);
      assert RequireFired(RunStageSpec(s, k, r).1) <==> Requirement(k, s.data).Some?;
    }
  }

  /** A done stage does not run again: the request changes nothing. */
  lemma DoneStagesRest(s: State, k: nat, r: Script)
    requires Inv(s) && k < STAGES && Done(s.status[k])
    ensures RunStageSpec(s, k, r) == (s, None)
  {
    BlockerIsFirst(s.status, |s.completed|, k, 0);
  }

  /** A stage that may run either gets done or is the one that has now failed. */
  lemma RunStageOutcome(s: State, k: nat, r: Script)
    requires Inv(s) && k < STAGES && k <= |s.completed|
    ensures var (s', p) := RunStageSpec(s, k, r);
      && |s.completed| <= |s'.completed|
      && (if p.None? then k < |s'.completed| else k == |s'.completed| && s'.status[k].Failed?)
  {
    BlockerIsFirst(s.status, |s.completed|, k, 0);
  }

  /** Running everything either completes all stages or stops at the stage that raised, which is the only failed one. */
  lemma {:induction false} RunAllOutcome(s: State, scripts: seq<Script>, from: nat)
    requires Inv(s) && |scripts| == STAGES && from <= STAGES && from <= |s.completed|
    ensures var (s', p) := RunAllSpec(s, scripts, from);
      && Inv(s') && |s.completed| <= |s'.completed|
      && (p.None? ==> |s'.completed| == STAGES)
      && (p.Some? ==> |s'.completed| < STAGES && s'.status[|s'.completed|].Failed?)
    decreases STAGES - from
  {
    if from < STAGES {
      if Done(s.status[from]) {
        RunAllOutcome(s, scripts, from + 1);
      } else {
        RunStageOutcome(s, from, scripts[from]);
        RunStageKeepsInv(s, from, scripts[from]);
        var (s', p) := RunStageSpec(s, from, scripts[from]);
        if p.None? {
          RunAllOutcome(s', scripts, from + 1);
        }
      }
    }
  }

  lemma {:induction false} RunAllSupplied(s: State, scripts: seq<Script>, from: nat)
    requires Inv(s) && |scripts| == STAGES && from <= STAGES && from <= |s.completed|
    requires Supplied(s) && forall k :: 0 <= k < STAGES ==> GoodScript(scripts[k])
    ensures Supplied(RunAllSpec(s, scripts, from).0) && !RequireFired(RunAllSpec(s, scripts, from).1)
    decreases STAGES - from
  {
    if from < STAGES {
      if Done(s.status[from]) {
        RunAllSupplied(s, scripts, from + 1);
      } else {
        RunStageOutcome(s, from, scripts[from]);
        RunStageKeepsInv(s, from, scripts[from]);
        RunStageKeepsSupplied(s, from, scripts[from]);
        RequireFiresExactly(s, from, scripts[from]);
        var (s', p) := RunStageSpec(s, from, scripts[from]);
        if p.None? {
          RunAllSupplied(s', scripts, from + 1);
        }
      }
    }
  }

  function ServeAll(s: State, qs: seq<Request>): (s': State)
    requires |s.status| == STAGES && forall i :: 0 <= i < |qs| ==> WellFormed(qs[i])
    ensures |s'.status| == STAGES
    decreases |qs|
  {
    if qs == [] then s else Serve(ServeAll(s, qs[..|qs| - 1]), qs[|qs| - 1])
  }

  /** After any sequence of requests the stage machine is in shape and the data of every done stage is there. */
  lemma {:induction false} HistoryKeepsInv(qs: seq<Request>)
    requires forall i :: 0 <= i < |qs| ==> WellFormed(qs[i])
    ensures Inv(ServeAll(Fresh(), qs))
    ensures (forall i :: 0 <= i < |qs| ==> GoodRequest(qs[i])) ==> Supplied(ServeAll(Fresh(), qs))
    decreases |qs|
  {
    if qs != [] {
      HistoryKeepsInv(qs[..|qs| - 1]);
      var s := ServeAll(Fresh(), qs[..|qs| - 1]);
      match qs[|qs| - 1]
      case RunOne(k, r) =>
        RunStageKeepsInv(s, k, r);
        if Supplied(s) && GoodScript(r) {
          RunStageKeepsSupplied(s, k, r);
        }
      case RunEvery(scripts) =>
        RunAllOutcome(s, scripts, 0);
        if Supplied(s) && forall i :: 0 <= i < STAGES ==> GoodScript(scripts[i]) {
          RunAllSupplied(s, scripts, 0);
        }
      case StartOver(_) =>
    }
  }

  /** With services that deliver what they promise, no require_* check ever fires, in one stage or in all of them. */
  lemma RequireNeverFires(qs: seq<Request>, k: nat, r: Script, scripts: seq<Script>)
    requires forall i :: 0 <= i < |qs| ==> WellFormed(qs[i]) && GoodRequest(qs[i])
    requires k < STAGES && |scripts| == STAGES && GoodRequest(RunEvery(scripts))
    ensures !RequireFired(RunStageSpec(ServeAll(Fresh(), qs), k, r).1)
    ensures !RequireFired(RunAllSpec(ServeAll(Fresh(), qs), scripts, 0).1)
  {
    HistoryKeepsInv(qs);
    RequireFiresExactly(ServeAll(Fresh(), qs), k, r);
    RunAllSupplied(ServeAll(Fresh(), qs), scripts, 0);
  }
}
