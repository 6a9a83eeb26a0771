/**
 The closed-loop load generator: each virtual user sends its next request when the previous one has come
 back. The workers of the event loop interleave at their awaits, so a run is any sequence of steps in which
 a worker that waits for nothing starts a request and one that waits has it finished.
 */
module ClosedLoop {
  import opened LoadMetrics

  datatype Outcome = Created(latency: real) | NotCreated | Timeout(message: string) | Failure(message: string)

  datatype Counts = Counts(attempted: nat, completed: nat, successes: nat, failures: nat, timeouts: nat, skipped: nat,
                           latencies: seq<real>, errors: seq<string>, perVu: map<nat, nat>)

  const NOT_CREATED := "scenario trigger condition did not match"

  const NOTHING := Counts(0, 0, 0, 0, 0, 0, [], [], map[])

  function Get(m: map<nat, nat>, k: nat): nat { if k in m then m[k] else 0 }

  function Recorded(c: Counts, vu: nat, o: Outcome): Counts {
    match o
    case Created(l) =>
      c.(completed := c.completed + 1, successes := c.successes + 1, latencies := c.latencies + [l],
          perVu := c.perVu[vu := Get(c.perVu, vu) + 1])
    case NotCreated =>
      c.(completed := c.completed + 1, failures := c.failures + 1, skipped := c.skipped + 1,
         errors := AddError(c.errors, NOT_CREATED))
    case Timeout(m) =>
      c.(completed := c.completed + 1, failures := c.failures + 1, timeouts := c.timeouts + 1,
          errors := AddError(c.errors, m))
    case Failure(m) => c.(completed := c.completed + 1, failures := c.failures + 1, errors := AddError(c.errors, m))
  }

  /** The counts and the virtual users that wait for an answer. */
  datatype State = State(counts: Counts, active: set<nat>)

  datatype Step = Start(vu: nat) | Finish(vu: nat, outcome: Outcome)

  predicate Enabled(vus: nat, s: State, step: Step) {
    match step
    case Start(vu) => vu < vus && vu !in s.active
    case Finish(vu, _) => vu in s.active
  }

  function Next(s: State, step: Step): State {
    match step
    case Start(vu) => State(s.counts.(attempted := s.counts.attempted + 1), s.active + {vu})
    case Finish(vu, o) => State(Recorded(s.counts, vu, o), s.active - {vu})
  }

  predicate Possible(vus: nat, s: State, steps: seq<Step>)
    decreases |steps|
  {
    steps == [] || (Enabled(vus, s, steps[0]) && Possible(vus, Next(s, steps[0]), steps[1..]))
  }

  function Run(s: State, steps: seq<Step>): State
    decreases |steps|
  {
    if steps == [] then s else Run(Next(s, steps[0]), steps[1..])
  }

  const IDLE := State(NOTHING, {})

  // ---- What holds in every reachable state --------------------------------------------------------------------

  /** The successes of the virtual users below `n`. */
  function Total(perVu: map<nat, nat>, n: nat): nat { if n == 0 then 0 else Total(perVu, n - 1) + Get(perVu, n - 1) }

  predicate Inv(vus: nat, s: State) {
    var c := s.counts;
    && (forall vu :: vu in s.active ==> vu < vus)
    && (forall vu :: vu in c.perVu ==> vu < vus && c.perVu[vu] > 0)
    && Total(c.perVu, vus) == c.successes
    && c.completed == c.successes + c.failures
    && c.timeouts + c.skipped <= c.failures
    && c.attempted == c.completed + |s.active|
    && |c.latencies| == c.successes
    && |c.errors| == if c.failures < MAX_ERRORS then c.failures else MAX_ERRORS
  }

  lemma {:induction false} TotalAfter(m: map<nat, nat>, vu: nat, n: nat)
    ensures Total(m[vu := Get(m, vu) + 1], n) == Total(m, n) + if vu < n then 1 else 0
  {
    if n > 0 {
      TotalAfter(m, vu, n - 1);
    }
  }

  lemma StepKeepsInv(vus: nat, s: State, step: Step)
    requires Inv(vus, s) && Enabled(vus, s, step)
    ensures Inv(vus, Next(s, step))
  {
    if step.Finish? {
      TotalAfter(s.counts.perVu, step.vu, vus);
    }
  }

  lemma {:induction false} RunKeepsInv(vus: nat, s: State, steps: seq<Step>)
    requires Inv(vus, s) && Possible(vus, s, steps)
    ensures Inv(vus, Run(s, steps))
    decreases |steps|
  {
    if steps != [] {
      StepKeepsInv(vus, s, steps[0]);
      RunKeepsInv(vus, Next(s, steps[0]), steps[1..]);
    }
  }

  lemma IdleInv(vus: nat)
    ensures Inv(vus, IDLE)
  {
    TotalOfNothing(vus);
  }

  lemma {:induction false} TotalOfNothing(n: nat)
    ensures Total(map[], n) == 0
  {
    if n > 0 {
      TotalOfNothing(n - 1);
    }
  }

  lemma {:induction false} BoundedActive(active: set<nat>, n: nat)
    requires forall vu :: vu in active ==> vu < n
    ensures |active| <= n
  {
    if n > 0 {
      BoundedActive(active - {n - 1}, n - 1);
    }
  }

  /**
   In every interleaving of the workers the counts add up, and what is under way is exactly what the active workers
   wait for.
   */
  lemma EveryInterleavingConserves(vus: nat, steps: seq<Step>)
    requires Possible(vus, IDLE, steps)
    ensures Inv(vus, Run(IDLE, steps))
    ensures var s := Run(IDLE, steps); s.counts.attempted - s.counts.completed == |s.active| <= vus
  {
    IdleInv(vus);
    RunKeepsInv(vus, IDLE, steps);
    BoundedActive(Run(IDLE, steps).active, vus);
  }

  /** The messages of the requests that ended in an error, in the order in which they ended. */
  function Messages(steps: seq<Step>): seq<string>
    decreases |steps|
  {
    if steps == [] then []
    else
      match steps[0]
      case Finish(_, NotCreated) => ["scenario trigger condition did not match"] + Messages(steps[1..])
      case Finish(_, Timeout(m)) => [m] + Messages(steps[1..])
      case Finish(_, Failure(m)) => [m] + Messages(steps[1..])
      case _ => Messages(steps[1..])
  }

  lemma {:induction false} RunAddsErrors(s: State, steps: seq<Step>)
    ensures Run(s, steps).counts.errors == AddErrors(s.counts.errors, Messages(steps))
    decreases |steps|
  {
    if steps != [] {
      RunAddsErrors(Next(s, steps[0]), steps[1..]);
      match steps[0] {
        case Finish(_, NotCreated) => assert Messages(steps)[1..] == Messages(steps[1..]);
        case Finish(_, Timeout(m)) => assert Messages(steps)[1..] == Messages(steps[1..]);
        case Finish(_, Failure(m)) => assert Messages(steps)[1..] == Messages(steps[1..]);
        case _ =>
      }
    }
  }

  /** In every state of every interleaving the errors kept are the first twenty that were met, in their order. */
  lemma FirstErrorsAreKept(steps: seq<Step>)
    ensures var all := Messages(steps);
      Run(IDLE, steps).counts.errors == if |all| < 20 then all else all[..20]
  {
    RunAddsErrors(IDLE, steps);
    SampleIsFirstErrors([], Messages(steps));
    assert [] + Messages(steps) == Messages(steps);
  }

  /** How long the successful requests took, in the order in which they ended. */
  function Times(steps: seq<Step>): seq<real>
    decreases |steps|
  {
    if steps == [] then []
    else
      match steps[0]
      case Finish(_, Created(l)) => [l] + Times(steps[1..])
      case _ => Times(steps[1..])
  }

  /** How many requests ended in a timeout, and how many had been left out by the scenario. */
  function TimedOut(steps: seq<Step>): nat
    decreases |steps|
  {
    if steps == [] then 0
    else TimedOut(steps[1..]) + if steps[0].Finish? && steps[0].outcome.Timeout? then 1 else 0
  }

  function LeftOut(steps: seq<Step>): nat
    decreases |steps|
  {
    if steps == [] then 0
    else LeftOut(steps[1..]) + if steps[0].Finish? && steps[0].outcome.NotCreated? then 1 else 0
  }

  /** How many requests of one virtual user were successful. */
  function CreatedBy(vu: nat, steps: seq<Step>): nat
    decreases |steps|
  {
    if steps == [] then 0
    else
      CreatedBy(vu, steps[1..])
      + if steps[0].Finish? && steps[0].vu == vu && steps[0].outcome.Created? then 1 else 0
  }

  /** In every state of every interleaving the counts are those of the requests that have started and ended. */
  lemma {:induction false} EndsAreCounted(s: State, steps: seq<Step>)
    ensures var c, now := s.counts, Run(s, steps).counts;
      && now.latencies == c.latencies + Times(steps) && now.successes == c.successes + |Times(steps)|
      && now.timeouts == c.timeouts + TimedOut(steps) && now.skipped == c.skipped + LeftOut(steps)
      && now.failures == c.failures + |Messages(steps)|
      && now.completed == c.completed + |Times(steps)| + |Messages(steps)|
    decreases |steps|
  {
    if steps != [] {
      EndsAreCounted(Next(s, steps[0]), steps[1..]);
      match steps[0] {
        case Finish(_, Created(l)) =>
          assert (s.counts.latencies + [l]) + Times(steps[1..]) == s.counts.latencies + Times(steps);
        case _ =>
      }
    }
  }

  /** Every success is credited to the virtual user whose request it was, and users without one have no entry. */
  lemma {:induction false} SuccessesAreCredited(s: State, vu: nat, steps: seq<Step>)
    ensures var before, now := s.counts.perVu, Run(s, steps).counts.perVu;
      && (vu in now <==> vu in before || CreatedBy(vu, steps) > 0)
      && (vu in now ==> now[vu] == (if vu in before then before[vu] else 0) + CreatedBy(vu, steps))
    decreases |steps|
  {
    if steps != [] {
      SuccessesAreCredited(Next(s, steps[0]), vu, steps[1..]);
    }
  }

  /** In a run from the beginning a virtual user has an entry exactly if it was successful, and it says how often. */
  lemma CreditExactly(vu: nat, steps: seq<Step>)
    ensures var perVu := Run(IDLE, steps).counts.perVu;
      (vu in perVu <==> CreatedBy(vu, steps) > 0) && (vu in perVu ==> perVu[vu] == CreatedBy(vu, steps))
  {
    SuccessesAreCredited(IDLE, vu, steps);
  }

  // ---- The two reports -------------------------------------------------------------------------------------------

  /** The test of the report on numbers of virtual users does not look at skipped decisions. */
  predicate SustainableByVus(c: Counts) { c.failures == 0 && c.timeouts == 0 }

  predicate SustainableByVolume(c: Counts) { c.failures == 0 && c.timeouts == 0 && c.skipped == 0 }

  /** The two tests agree in every reachable state, and mean that every completed request succeeded. */
  lemma ReportsAgree(vus: nat, steps: seq<Step>)
    requires Possible(vus, IDLE, steps)
    ensures var c := Run(IDLE, steps).counts;
      (SustainableByVus(c) <==> SustainableByVolume(c)) && (SustainableByVus(c) <==> c.successes == c.completed)
  {
    EveryInterleavingConserves(vus, steps);
  }

  // ---- Successes per virtual user ---------------------------------------------------------------------------------

  /** The counts in the map, of the virtual users below `n` that have one. */
  function PerVuCounts(m: map<nat, nat>, n: nat): (cs: seq<nat>)
    ensures |cs| <= n
  {
    if n == 0 then []
    else if n - 1 in m then PerVuCounts(m, n - 1) + [m[n - 1]]
    else PerVuCounts(m, n - 1)
  }

  /** One count for every virtual user in the map. */
  lemma {:induction false} OneCountEach(m: map<nat, nat>, n: nat)
    ensures |PerVuCounts(m, n)| == |set vu | vu in m && vu < n|
    ensures forall vu :: vu in m && vu < n ==> m[vu] in PerVuCounts(m, n)
  {
    if n == 0 {
      assert (set vu | vu in m && vu < 0) == {};
    } else {
      OneCountEach(m, n - 1);
      var before, now := set vu | vu in m && vu < n - 1, set vu | vu in m && vu < n;
      assert now == if n - 1 in m then before + {n - 1} else before;
    }
  }

  function Sum(cs: seq<nat>): nat { if cs == [] then 0 else Sum(cs[..|cs| - 1]) + cs[|cs| - 1] }

  function Least(cs: seq<nat>): nat
    requires cs != []
  {
    if |cs| == 1 then cs[0]
    else
      var rest := Least(cs[..|cs| - 1]);
      if cs[|cs| - 1] < rest then cs[|cs| - 1] else rest
  }

  function Greatest(cs: seq<nat>): nat
    requires cs != []
  {
    if |cs| == 1 then cs[0]
    else
      var rest := Greatest(cs[..|cs| - 1]);
      if rest < cs[|cs| - 1] then cs[|cs| - 1] else rest
  }

  datatype PerVu = PerVu(min: nat, max: nat, avg: real)

  /** Virtual users without a success are not in the map and so not in the summary. */
  function PerVuSummary(cs: seq<nat>): PerVu {
    if cs == [] then PerVu(0, 0, 0.0) else PerVu(Least(cs), Greatest(cs), Sum(cs) as real / |cs| as real)
  }

  lemma {:induction false} SumOfPerVu(m: map<nat, nat>, n: nat)
    ensures Sum(PerVuCounts(m, n)) == Total(m, n)
  {
    if n > 0 {
      SumOfPerVu(m, n - 1);
      if n - 1 in m {
        var cs := PerVuCounts(m, n);
        assert cs[..|cs| - 1] == PerVuCounts(m, n - 1);
      }
    }
  }

  lemma {:induction false} Extremes(cs: seq<nat>)
    requires cs != []
    ensures forall i :: 0 <= i < |cs| ==> Least(cs) <= cs[i] <= Greatest(cs)
    ensures Least(cs) in cs && Greatest(cs) in cs
  {
    if |cs| > 1 {
      Extremes(cs[..|cs| - 1]);
    }
  }

  lemma {:induction false} SumBetween(cs: seq<nat>, low: nat, high: nat)
    requires forall i :: 0 <= i < |cs| ==> low <= cs[i] <= high
    ensures low * |cs| <= Sum(cs) <= high * |cs|
  {
    if cs != [] {
      var n := |cs| - 1;
      SumBetween(cs[..n], low, high);
      assert low * |cs| == low * n + low && high * |cs| == high * n + high;
    }
  }

  lemma MeanBetween(low: nat, sum: nat, high: nat, n: nat)
    requires n > 0 && low * n <= sum <= high * n
    ensures low as real <= sum as real / n as real <= high as real
  {
    DividesInOrder((low * n) as real, sum as real, n as real);
    DividesInOrder(sum as real, (high * n) as real, n as real);
    assert (low * n) as real == low as real * n as real && (high * n) as real == high as real * n as real;
  }

  /** Least, mean and greatest are in order. */
  predicate InOrder(p: PerVu) { p.min as real <= p.avg <= p.max as real }

  lemma SummaryInOrder(cs: seq<nat>)
    ensures InOrder(PerVuSummary(cs))
  {
    if cs != [] {
      Extremes(cs);
      SumBetween(cs, Least(cs), Greatest(cs));
      MeanBetween(Least(cs), Sum(cs), Greatest(cs), |cs|);
    }
  }

  lemma TimesBack(a: real, d: real)
    requires d != 0.0
    ensures a / d * d == a
  {}

  lemma MeanTimesNumber(cs: seq<nat>)
    ensures PerVuSummary(cs).avg * |cs| as real == Sum(cs) as real
  {
    if cs != [] {
      TimesBack(Sum(cs) as real, |cs| as real);
    }
  }

  /** The summary accounts for `total` successes: its mean times the number of users in it is their total. */
  predicate Accounts(vus: nat, cs: seq<nat>, total: nat) {
    && InOrder(PerVuSummary(cs)) && |cs| <= vus
    && PerVuSummary(cs).avg * |cs| as real == total as real
    && (total > 0 ==> PerVuSummary(cs).min > 0)
  }

  lemma SummaryAccounts(vus: nat, cs: seq<nat>)
    requires |cs| <= vus && forall i :: 0 <= i < |cs| ==> cs[i] > 0
    ensures Accounts(vus, cs, Sum(cs))
  {
    SummaryInOrder(cs);
    MeanTimesNumber(cs);
    if cs != [] {
      Extremes(cs);
    }
  }

  /** In every interleaving the summary per virtual user accounts for all successes. */
  lemma PerVuSummaryAccounts(vus: nat, steps: seq<Step>)
    requires Possible(vus, IDLE, steps)
    ensures var c := Run(IDLE, steps).counts; Accounts(vus, PerVuCounts(c.perVu, vus), c.successes)
  {
    EveryInterleavingConserves(vus, steps);
    var c := Run(IDLE, steps).counts;
    SumOfPerVu(c.perVu, vus);
    CountsPositive(c.perVu, vus);
    SummaryAccounts(vus, PerVuCounts(c.perVu, vus));
  }

  lemma {:induction false} CountsPositive(m: map<nat, nat>, n: nat)
    requires forall vu :: vu in m ==> m[vu] > 0
    ensures forall i :: 0 <= i < |PerVuCounts(m, n)| ==> PerVuCounts(m, n)[i] > 0
  {
    if n > 0 {
      CountsPositive(m, n - 1);
    }
  }

  // ---- The objects ----------------------------------------------------------------------------------------

  class Loop {
    const vus: nat
    var attempted: nat
    var completed: nat
    var successes: nat
    var failures: nat
    var timeouts: nat
    var skipped: nat
    var latencies: seq<real>
    var errors: seq<string>
    var perVu: map<nat, nat>
    var active: set<nat>

    ghost function Contents(): State
      reads this
    {
      State(Counts(attempted, completed, successes, failures, timeouts, skipped, latencies, errors, perVu), active)
    }

    constructor (vus: nat)
      ensures Contents() == IDLE && this.vus == vus
    {
      this.vus := vus;
      attempted, completed, successes, failures, timeouts, skipped := 0, 0, 0, 0, 0, 0;
      latencies, errors, perVu, active := [], [], map[], {};
    }

    method Add(error: string)
      modifies this`errors
      ensures errors == AddError(old(errors), error)
    {
      if |errors| < MAX_ERRORS {
        errors := errors + [error];
      }
    }

    /** The head of a request, up to its await. */
    method StartRequest(vu: nat)
      modifies this
      ensures Contents() == Next(old(Contents()), Start(vu))
    {
      attempted := attempted + 1;
      active := active + {vu};
    }

    /** The tail of a request. */
    method FinishRequest(vu: nat, outcome: Outcome)
      modifies this
      ensures Contents() == Next(old(Contents()), Finish(vu, outcome))
    {
      active := active - {vu};
      completed := completed + 1;
      match outcome {
        case Timeout(m) =>
          failures, timeouts := failures + 1, timeouts + 1;
          Add(m);
        case Failure(m) =>
          failures := failures + 1;
          Add(m);
        case Created(l) =>
          successes := successes + 1;
          latencies := latencies + [l];
          perVu := perVu[vu := (if vu in perVu then perVu[vu] else 0) + 1];
        case NotCreated =>
          failures, skipped := failures + 1, skipped + 1;
          Add(NOT_CREATED);
      }
    }

    /** One run of the event loop: the workers step in the given order, and at the end none of them waits. */
    method RunClosedLoop(steps: seq<Step>)
      requires Contents() == IDLE && Possible(vus, IDLE, steps) && Run(IDLE, steps).active == {}
      modifies this
      ensures Contents() == Run(IDLE, steps)
      ensures attempted == completed == successes + failures && timeouts + skipped <= failures
      ensures Total(perVu, vus) == successes == |latencies|
    {
      for i := 0 to |steps|
        invariant Possible(vus, Contents(), steps[i..])
        invariant Run(Contents(), steps[i..]) == Run(IDLE, steps)
      {
        assert steps[i..][1..] == steps[i + 1..];
        match steps[i] {
          case Start(vu) => StartRequest(vu);
          case Finish(vu, outcome) => FinishRequest(vu, outcome);
        }
      }
      EveryInterleavingConserves(vus, steps);
    }
  }
}
