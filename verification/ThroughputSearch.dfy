/**
 The search for the highest sustainable rate: doubling, then bisection, then confirmation from the top.

 A trial is measured by an oracle that is asked with a running number, so that it may contradict itself:
 the same rate may be sustainable the first time and not the next.
 */
module ThroughputSearch {
  import opened Common

  datatype Config = Config(target: int, start: int, floor: int, minVus: int, multiplier: int, maxVus: int)

  /** The bounds that the command line is checked against. */
  predicate Valid(cfg: Config) {
    && 0 < cfg.start <= cfg.target && 0 < cfg.floor
    && 0 < cfg.minVus <= cfg.maxVus && 0 < cfg.multiplier
  }

  datatype Measured = Measured(sustainable: bool, failures: nat, timeouts: nat, dropped: nat)

  datatype Trial = Trial(rate: int, vus: int, result: Measured)

  /** Number of the run, rate, virtual users. */
  type Oracle = (nat, int, int) -> Measured

  function Min(a: int, b: int): int { if a < b then a else b }

  function Max(a: int, b: int): int { if a < b then b else a }

  function ChooseVus(cfg: Config, rate: int): (vus: int)
    requires Valid(cfg)
    ensures cfg.minVus <= vus <= cfg.maxVus
    ensures cfg.minVus <= rate * cfg.multiplier <= cfg.maxVus ==> vus == rate * cfg.multiplier
    ensures vus < rate * cfg.multiplier ==> vus == cfg.maxVus
  {
    Min(Max(cfg.minVus, rate * cfg.multiplier), cfg.maxVus)
  }

  predicate FailedOnlyFromDrops(m: Measured) { m.failures == 0 && m.timeouts == 0 && m.dropped > 0 }

  function NextExponentialRate(current: int, target: int): (next: int)
    requires 0 < current
    ensures next <= target && (current < target ==> current < next)
  {
    if current >= target then target else Min(current * 2, target)
  }

  /**
   The trial is what measurement `n` led to. The rate asks for a multiple of users within the two bounds; if requests
   were only dropped then, and there are more users to be had, it is the measurement that follows, with twice as
   many of them.
   */
  predicate Taken(cfg: Config, oracle: Oracle, n: nat, t: Trial) {
    var wanted := t.rate * cfg.multiplier;
    var users := if wanted < cfg.minVus then cfg.minVus else if wanted > cfg.maxVus then cfg.maxVus else wanted;
    var first := oracle(n, t.rate, users);
    if users < cfg.maxVus && first.dropped > 0 && first.failures == 0 && first.timeouts == 0 then
      && t.vus == (if 2 * users < cfg.maxVus then 2 * users else cfg.maxVus)
      && t.result == oracle(n + 1, t.rate, t.vus)
    else
      t.vus == users && t.result == first
  }

  /** Measurement `n` is followed by one with more users. */
  predicate Retried(cfg: Config, oracle: Oracle, n: nat, rate: int) {
    var wanted := rate * cfg.multiplier;
    var users := if wanted < cfg.minVus then cfg.minVus else if wanted > cfg.maxVus then cfg.maxVus else wanted;
    var first := oracle(n, rate, users);
    users < cfg.maxVus && first.dropped > 0 && first.failures == 0 && first.timeouts == 0
  }

  /** The number of the measurement that follows these trials, the first of which began with measurement `n`. */
  function After(cfg: Config, oracle: Oracle, n: nat, ts: seq<Trial>): nat {
    if ts == [] then n
    else
      var last := After(cfg, oracle, n, ts[..|ts| - 1]);
      if Retried(cfg, oracle, last, ts[|ts| - 1].rate) then last + 2 else last + 1
  }

  /** The trials were taken one after the other. */
  predicate InTurn(cfg: Config, oracle: Oracle, n: nat, ts: seq<Trial>) {
    ts == [] ||
    var before := ts[..|ts| - 1];
    InTurn(cfg, oracle, n, before) && Taken(cfg, oracle, After(cfg, oracle, n, before), ts[|ts| - 1])
  }

  lemma InTurnExtends(cfg: Config, oracle: Oracle, n: nat, ts: seq<Trial>, t: Trial)
    requires InTurn(cfg, oracle, n, ts) && Taken(cfg, oracle, After(cfg, oracle, n, ts), t)
    ensures InTurn(cfg, oracle, n, ts + [t])
    ensures var last := After(cfg, oracle, n, ts);
      After(cfg, oracle, n, ts + [t]) == if Retried(cfg, oracle, last, t.rate) then last + 2 else last + 1
  {
    assert (ts + [t])[..|ts|] == ts;
  }

  lemma {:induction false} InTurnJoins(cfg: Config, oracle: Oracle, n: nat, ts: seq<Trial>, more: seq<Trial>)
    requires InTurn(cfg, oracle, n, ts) && InTurn(cfg, oracle, After(cfg, oracle, n, ts), more)
    ensures InTurn(cfg, oracle, n, ts + more)
    ensures After(cfg, oracle, n, ts + more) == After(cfg, oracle, After(cfg, oracle, n, ts), more)
    decreases |more|
  {
    if more == [] {
      assert ts + more == ts;
    } else {
      var before, t := more[..|more| - 1], more[|more| - 1];
      InTurnJoins(cfg, oracle, n, ts, before);
      InTurnExtends(cfg, oracle, n, ts + before, t);
      assert (ts + before) + [t] == ts + more;
    }
  }

  /** Every trial began with a measurement of its own, later than those of all trials before it. */
  lemma {:induction false} InTurnAt(cfg: Config, oracle: Oracle, n: nat, ts: seq<Trial>, i: nat)
    requires InTurn(cfg, oracle, n, ts) && i < |ts|
    ensures Taken(cfg, oracle, After(cfg, oracle, n, ts[..i]), ts[i])
    ensures After(cfg, oracle, n, ts[..i]) < After(cfg, oracle, n, ts)
    decreases |ts|
  {
    var before := ts[..|ts| - 1];
    if i < |before| {
      InTurnAt(cfg, oracle, n, before, i);
      assert before[..i] == ts[..i];
    }
  }

  /** One trial, repeated once with more virtual users if it failed only because requests were dropped. */
  method RunRate(cfg: Config, oracle: Oracle, runs: nat, rate: int) returns (trial: Trial, runs': nat)
    requires Valid(cfg)
    ensures trial.rate == rate && cfg.minVus <= trial.vus <= cfg.maxVus
    ensures Taken(cfg, oracle, runs, trial)
    ensures runs' == if Retried(cfg, oracle, runs, rate) then runs + 2 else runs + 1
  {
    var vus := ChooseVus(cfg, rate);
    trial := Trial(rate, vus, oracle(runs, rate, vus));
    runs' := runs + 1;
    if FailedOnlyFromDrops(trial.result) && vus < cfg.maxVus {
      var retryVus := Min(vus * 2, cfg.maxVus);
      trial := Trial(rate, retryVus, oracle(runs', rate, retryVus));
      runs' := runs' + 1;
    }
  }

  // ---- Doubling ----------------------------------------------------------------------------------------

  function Pow2(k: nat): (p: int)
    ensures p > 0
  {
    if k == 0 then 1 else 2 * Pow2(k - 1)
  }

  /** How often `rate` must be doubled to reach `target`. */
  function Doublings(rate: int, target: int): nat
    requires 0 < rate
    decreases target - rate
  {
    if rate >= target then 0 else 1 + Doublings(2 * rate, target)
  }

  /** Which is the least number of doublings that does it. */
  lemma {:induction false} DoublingsIsLeast(rate: int, target: int, k: nat)
    requires 0 < rate
    ensures rate * Pow2(k) >= target <==> k >= Doublings(rate, target)
    decreases k
  {
    if k == 0 {
      assert rate * Pow2(0) == rate;
    } else {
      assert rate * Pow2(k) == (2 * rate) * Pow2(k - 1);
      if rate >= target {
        MulMonotone(rate, 1, Pow2(k));
      } else {
        DoublingsIsLeast(2 * rate, target, k - 1);
      }
    }
  }

  lemma MulMonotone(a: int, b: int, c: int)
    requires 0 < a && b <= c
    ensures a * b <= a * c
  {}

  predicate Rising(ts: seq<Trial>) { forall i, j :: 0 <= i < j < |ts| ==> ts[i].rate < ts[j].rate }

  predicate AllSustainable(ts: seq<Trial>) { forall i :: 0 <= i < |ts| ==> ts[i].result.sustainable }

  function LastOf(ts: seq<Trial>): Option<Trial> { if ts == [] then None else Some(ts[|ts| - 1]) }

  /** Twice the rate, or the target. */
  function DoubleOf(cfg: Config, rate: int): int { if 2 * rate < cfg.target then 2 * rate else cfg.target }

  /** From the start every rate is twice the one before, up to the target; only the last trial may have failed. */
  predicate Doubled(cfg: Config, ts: seq<Trial>) {
    && (ts != [] ==> ts[0].rate == cfg.start)
    && (forall i :: 0 < i < |ts| ==> ts[i].rate == DoubleOf(cfg, ts[i - 1].rate))
    && (forall i :: 0 <= i < |ts| - 1 ==> ts[i].result.sustainable)
  }

  /** The sustainable ones among the trials, in their order. */
  function Sustained(ts: seq<Trial>): seq<Trial> {
    if ts == [] then []
    else
      var t := ts[|ts| - 1];
      Sustained(ts[..|ts| - 1]) + if t.result.sustainable then [t] else []
  }

  lemma SustainedExtends(ts: seq<Trial>, t: Trial)
    ensures Sustained(ts + [t]) == Sustained(ts) + if t.result.sustainable then [t] else []
  {
    assert (ts + [t])[..|ts|] == ts;
  }

  lemma {:induction false} SustainedJoins(ts: seq<Trial>, more: seq<Trial>)
    ensures Sustained(ts + more) == Sustained(ts) + Sustained(more)
    decreases |more|
  {
    if more == [] {
      assert ts + more == ts;
    } else {
      var n := |more| - 1;
      SustainedJoins(ts, more[..n]);
      assert ts + more == (ts + more[..n]) + [more[n]] && more == more[..n] + [more[n]];
      SustainedExtends(ts + more[..n], more[n]);
      SustainedExtends(more[..n], more[n]);
    }
  }

  lemma {:induction false} AllSustained(ts: seq<Trial>)
    requires AllSustainable(ts)
    ensures Sustained(ts) == ts
  {
    if ts != [] {
      AllSustained(ts[..|ts| - 1]);
    }
  }

  /** The latest sustainable trial, and the latest that was not, with what was known before these trials. */
  function LastAfter(before: Option<Trial>, ts: seq<Trial>): Option<Trial> {
    if ts == [] then before
    else if ts[|ts| - 1].result.sustainable then Some(ts[|ts| - 1])
    else LastAfter(before, ts[..|ts| - 1])
  }

  function FailingAfter(before: Option<Trial>, ts: seq<Trial>): Option<Trial> {
    if ts == [] then before
    else if !ts[|ts| - 1].result.sustainable then Some(ts[|ts| - 1])
    else FailingAfter(before, ts[..|ts| - 1])
  }

  lemma AfterExtends(before: Option<Trial>, ts: seq<Trial>, t: Trial)
    ensures LastAfter(before, ts + [t]) == if t.result.sustainable then Some(t) else LastAfter(before, ts)
    ensures FailingAfter(before, ts + [t]) == if t.result.sustainable then FailingAfter(before, ts) else Some(t)
  {
    assert (ts + [t])[..|ts|] == ts;
  }

  lemma {:induction false} AfterJoins(ts: seq<Trial>, more: seq<Trial>)
    ensures LastAfter(None, ts + more) == LastAfter(LastAfter(None, ts), more)
    ensures FailingAfter(None, ts + more) == FailingAfter(FailingAfter(None, ts), more)
    decreases |more|
  {
    if more == [] {
      assert ts + more == ts;
    } else {
      var n := |more| - 1;
      AfterJoins(ts, more[..n]);
      assert ts + more == (ts + more[..n]) + [more[n]] && more == more[..n] + [more[n]];
      AfterExtends(None, ts + more[..n], more[n]);
      AfterExtends(LastAfter(None, ts), more[..n], more[n]);
      AfterExtends(FailingAfter(None, ts), more[..n], more[n]);
    }
  }

  lemma {:induction false} AfterSustainable(before: Option<Trial>, ts: seq<Trial>)
    requires AllSustainable(ts)
    ensures FailingAfter(before, ts) == before && LastAfter(before, ts) == if ts == [] then before else LastOf(ts)
  {
    if ts != [] {
      AfterSustainable(before, ts[..|ts| - 1]);
    }
  }

  lemma {:induction false} AfterFailing(before: Option<Trial>, ts: seq<Trial>)
    requires forall i :: 0 <= i < |ts| ==> !ts[i].result.sustainable
    ensures LastAfter(before, ts) == before && FailingAfter(before, ts) == if ts == [] then before else LastOf(ts)
  {
    if ts != [] {
      AfterFailing(before, ts[..|ts| - 1]);
    }
  }

  /** The trials so far, all sustainable, and the next rate above them. */
  predicate DoublingSoFar(cfg: Config, oracle: Oracle, runs: nat, trials: seq<Trial>, rate: int) {
    && InTurn(cfg, oracle, runs, trials) && Doubled(cfg, trials) && AllSustainable(trials) && Rising(trials)
    && 0 < rate <= cfg.target && rate == (if trials == [] then cfg.start else DoubleOf(cfg, trials[|trials| - 1].rate))
    && forall i :: 0 <= i < |trials| ==> trials[i].rate < rate
  }

  lemma DoublingGoesOn(cfg: Config, oracle: Oracle, runs: nat, trials: seq<Trial>, t: Trial)
    requires DoublingSoFar(cfg, oracle, runs, trials, t.rate)
    requires Taken(cfg, oracle, After(cfg, oracle, runs, trials), t)
    ensures InTurn(cfg, oracle, runs, trials + [t]) && Doubled(cfg, trials + [t])
    ensures t.result.sustainable ==> AllSustainable(trials + [t]) && Rising(trials + [t])
    ensures t.result.sustainable && t.rate < cfg.target ==>
      DoublingSoFar(cfg, oracle, runs, trials + [t], DoubleOf(cfg, t.rate))
    ensures var last := After(cfg, oracle, runs, trials);
      After(cfg, oracle, runs, trials + [t]) == if Retried(cfg, oracle, last, t.rate) then last + 2 else last + 1
  {
    InTurnExtends(cfg, oracle, runs, trials, t);
  }

  /** The trials of the doubling phase, all sustainable unless it is the last one that failed. */
  predicate DoublingDone(cfg: Config, last: Option<Trial>, failing: Option<Trial>, trials: seq<Trial>,
      candidates: seq<Trial>) {
    && trials != [] && Doubled(cfg, trials)
    && candidates == (if failing.None? then trials else trials[..|trials| - 1])
    && AllSustainable(candidates) && Rising(candidates) && last == LastOf(candidates)
    && (failing.Some? ==> failing == LastOf(trials) && !failing.value.result.sustainable)
    && (failing.None? ==> last.Some? && last.value.rate == cfg.target)
    && (last.Some? && failing.Some? ==> last.value.rate < failing.value.rate)
  }

  /** Doubles the rate until a trial fails or the target is reached. */
  method Doubling(cfg: Config, oracle: Oracle, runs: nat)
      returns (last: Option<Trial>, failing: Option<Trial>, trials: seq<Trial>, candidates: seq<Trial>, runs': nat)
    requires Valid(cfg)
    ensures DoublingDone(cfg, last, failing, trials, candidates)
    ensures InTurn(cfg, oracle, runs, trials) && runs' == After(cfg, oracle, runs, trials)
    ensures |trials| <= 1 + Doublings(cfg.start, cfg.target)
  {
    last, failing, trials, candidates, runs' := None, None, [], [], runs;
    var rate := cfg.start;
    while true
      invariant DoublingSoFar(cfg, oracle, runs, trials, rate) && runs' == After(cfg, oracle, runs, trials)
      invariant trials == candidates && last == LastOf(trials) && failing.None?
      invariant |trials| + Doublings(rate, cfg.target) <= Doublings(cfg.start, cfg.target)
      decreases cfg.target - rate
    {
      var trial: Trial;
      trial, runs' := RunRate(cfg, oracle, runs', rate);
      DoublingGoesOn(cfg, oracle, runs, trials, trial);
      trials := trials + [trial];
      if trial.result.sustainable {
        last := Some(trial);
        candidates := candidates + [trial];
        if rate >= cfg.target {
          break;
        }
        rate := NextExponentialRate(rate, cfg.target);
      } else {
        failing := Some(trial);
        break;
      }
    }
  }

  // ---- Bisection ---------------------------------------------------------------------------------------------

  /** How often a gap must be halved, rounding up, to come down to the floor. */
  function Halvings(floor: int, gap: int): nat
    requires 0 < floor
    decreases gap
  {
    if gap <= floor then 0 else 1 + Halvings(floor, (gap + 1) / 2)
  }

  lemma {:induction false} HalvingsMonotone(floor: int, a: int, b: int)
    requires 0 < floor && a <= b
    ensures Halvings(floor, a) <= Halvings(floor, b)
    decreases b
  {
    if a > floor {
      HalvingsMonotone(floor, (a + 1) / 2, (b + 1) / 2);
    }
  }

  /** Which is the least number of doublings of the floor that covers the gap. */
  lemma {:induction false} HalvingsIsLeast(floor: int, gap: int, j: nat)
    requires 0 < floor
    ensures floor * Pow2(j) >= gap <==> j >= Halvings(floor, gap)
    decreases j
  {
    if j == 0 {
      assert floor * Pow2(0) == floor;
    } else {
      assert floor * Pow2(j) == 2 * (floor * Pow2(j - 1));
      if gap <= floor {
        MulMonotone(floor, 1, Pow2(j));
      } else {
        HalvingsIsLeast(floor, (gap + 1) / 2, j - 1);
      }
    }
  }

  /** The trial lies in the middle of the bracket, rounded down, and the bracket is wider than the floor. */
  predicate Midpoint(cfg: Config, last: Option<Trial>, failing: Option<Trial>, t: Trial) {
    && last.Some? && failing.Some? && failing.value.rate - last.value.rate > cfg.floor
    && t.rate == (last.value.rate + failing.value.rate) / 2
  }

  /** Every trial halves the bracket that the ones before it have left. */
  predicate Halved(cfg: Config, last: Option<Trial>, failing: Option<Trial>, ts: seq<Trial>) {
    ts == [] ||
    var before := ts[..|ts| - 1];
    && Halved(cfg, last, failing, before)
    && Midpoint(cfg, LastAfter(last, before), FailingAfter(failing, before), ts[|ts| - 1])
  }

  lemma HalvedExtends(cfg: Config, last: Option<Trial>, failing: Option<Trial>, ts: seq<Trial>, t: Trial)
    requires Halved(cfg, last, failing, ts) && Midpoint(cfg, LastAfter(last, ts), FailingAfter(failing, ts), t)
    ensures Halved(cfg, last, failing, ts + [t])
  {
    assert (ts + [t])[..|ts|] == ts;
  }

  /** Every sustainable trial is at or below `last`, every other one at or above `failing`. */
  predicate Separates(last: Trial, failing: Trial, ts: seq<Trial>) {
    forall i :: 0 <= i < |ts| ==>
        if ts[i].result.sustainable then ts[i].rate <= last.rate else failing.rate <= ts[i].rate
  }

  predicate RatesBetween(low: int, high: int, ts: seq<Trial>) {
    forall i :: 0 <= i < |ts| ==> low < ts[i].rate < high
  }

  /** What bisection between `last0` and `failing0` has established so far. */
  predicate Bracketed(last0: Trial, failing0: Trial, last: Trial, failing: Trial,
      trials: seq<Trial>, candidates: seq<Trial>) {
    && last0.rate <= last.rate < failing.rate <= failing0.rate
    && last.result.sustainable && !failing.result.sustainable
    && last == (if candidates == [] then last0 else candidates[|candidates| - 1])
    && RatesBetween(last0.rate, failing0.rate, trials) && Separates(last, failing, trials)
    && AllSustainable(candidates) && Rising(candidates) && RatesBetween(last0.rate, failing0.rate, candidates)
  }

  lemma BracketNarrows(last0: Trial, failing0: Trial, last: Trial, failing: Trial, trials: seq<Trial>,
      candidates: seq<Trial>, t: Trial)
    requires Bracketed(last0, failing0, last, failing, trials, candidates)
    requires last.rate < t.rate < failing.rate
    ensures t.result.sustainable ==> Bracketed(last0, failing0, t, failing, trials + [t], candidates + [t])
    ensures !t.result.sustainable ==> Bracketed(last0, failing0, last, t, trials + [t], candidates)
  {
    if t.result.sustainable && candidates != [] {
      RisingExtends(candidates, t);
    }
  }

  /** A bracket, and the trials that narrowed it. */
  predicate Bisected(cfg: Config, last0: Trial, failing0: Trial, last: Trial, failing: Trial, trials: seq<Trial>,
      candidates: seq<Trial>) {
    && Bracketed(last0, failing0, last, failing, trials, candidates)
    && Halved(cfg, Some(last0), Some(failing0), trials) && candidates == Sustained(trials)
    && LastAfter(Some(last0), trials) == Some(last) && FailingAfter(Some(failing0), trials) == Some(failing)
  }

  /** What is known between two trials of bisection, also of its cost. */
  predicate BisectingSoFar(cfg: Config, oracle: Oracle, runs: nat, last0: Trial, failing0: Trial, last: Trial,
      failing: Trial, trials: seq<Trial>, candidates: seq<Trial>)
    requires Valid(cfg)
  {
    && Bisected(cfg, last0, failing0, last, failing, trials, candidates) && InTurn(cfg, oracle, runs, trials)
    && |trials| + Halvings(cfg.floor, failing.rate - last.rate) <= Halvings(cfg.floor, failing0.rate - last0.rate)
  }

  lemma BracketHalves(cfg: Config, last0: Trial, failing0: Trial, last: Trial, failing: Trial, trials: seq<Trial>,
      candidates: seq<Trial>, t: Trial)
    requires Valid(cfg) && Bisected(cfg, last0, failing0, last, failing, trials, candidates)
    requires failing.rate - last.rate > cfg.floor && t.rate == (last.rate + failing.rate) / 2
    ensures t.result.sustainable ==> Bisected(cfg, last0, failing0, t, failing, trials + [t], candidates + [t])
    ensures !t.result.sustainable ==> Bisected(cfg, last0, failing0, last, t, trials + [t], candidates)
  {
    BracketNarrows(last0, failing0, last, failing, trials, candidates, t);
    HalvedExtends(cfg, Some(last0), Some(failing0), trials, t);
    SustainedExtends(trials, t);
    AfterExtends(Some(last0), trials, t);
    AfterExtends(Some(failing0), trials, t);
    assert t.result.sustainable || candidates + [] == candidates;
  }

  /** What one more trial in the middle of the bracket costs. */
  lemma HalvingsLeft(floor: int, low: int, high: int)
    requires 0 < floor < high - low
    ensures var mid := (low + high) / 2;
      && low < mid < high
      && 1 + Halvings(floor, mid - low) <= Halvings(floor, high - low)
      && 1 + Halvings(floor, high - mid) <= Halvings(floor, high - low)
  {
    var mid := (low + high) / 2;
    HalvingsMonotone(floor, mid - low, (high - low + 1) / 2);
    HalvingsMonotone(floor, high - mid, (high - low + 1) / 2);
  }

  lemma BisectionGoesOn(cfg: Config, oracle: Oracle, runs: nat, last0: Trial, failing0: Trial, last: Trial,
      failing: Trial, trials: seq<Trial>, candidates: seq<Trial>, t: Trial)
    requires Valid(cfg) && BisectingSoFar(cfg, oracle, runs, last0, failing0, last, failing, trials, candidates)
    requires Taken(cfg, oracle, After(cfg, oracle, runs, trials), t)
    requires failing.rate - last.rate > cfg.floor && t.rate == (last.rate + failing.rate) / 2
    ensures t.result.sustainable ==>
      BisectingSoFar(cfg, oracle, runs, last0, failing0, t, failing, trials + [t], candidates + [t])
    ensures !t.result.sustainable ==>
      BisectingSoFar(cfg, oracle, runs, last0, failing0, last, t, trials + [t], candidates)
    ensures var last := After(cfg, oracle, runs, trials);
      After(cfg, oracle, runs, trials + [t]) == if Retried(cfg, oracle, last, t.rate) then last + 2 else last + 1
  {
    HalvingsLeft(cfg.floor, last.rate, failing.rate);
    InTurnExtends(cfg, oracle, runs, trials, t);
    BracketHalves(cfg, last0, failing0, last, failing, trials, candidates, t);
  }

  method Bisection(cfg: Config, oracle: Oracle, runs: nat, last0: Trial, failing0: Trial)
      returns (last: Trial, failing: Trial, trials: seq<Trial>, candidates: seq<Trial>, runs': nat)
    requires Valid(cfg) && last0.result.sustainable && !failing0.result.sustainable && last0.rate < failing0.rate
    ensures Bisected(cfg, last0, failing0, last, failing, trials, candidates) && failing.rate - last.rate <= cfg.floor
    ensures InTurn(cfg, oracle, runs, trials) && runs' == After(cfg, oracle, runs, trials)
    ensures |trials| <= Halvings(cfg.floor, failing0.rate - last0.rate)
  {
    last, failing, trials, candidates, runs' := last0, failing0, [], [], runs;
    var low := last.rate;
    var high := failing.rate;
    while high - low > cfg.floor
      invariant low == last.rate && high == failing.rate && runs' == After(cfg, oracle, runs, trials)
      invariant BisectingSoFar(cfg, oracle, runs, last0, failing0, last, failing, trials, candidates)
      decreases high - low
    {
      var mid := (low + high) / 2;
      var trial: Trial;
      trial, runs' := RunRate(cfg, oracle, runs', mid);
      BisectionGoesOn(cfg, oracle, runs, last0, failing0, last, failing, trials, candidates, trial);
      trials := trials + [trial];
      if trial.result.sustainable {
        last := trial;
        candidates := candidates + [trial];
        low := mid;
      } else {
        failing := trial;
        high := mid;
      }
    }
  }

  lemma RisingExtends(ts: seq<Trial>, t: Trial)
    requires Rising(ts) && ts != [] && ts[|ts| - 1].rate < t.rate
    ensures Rising(ts + [t])
  {}

  // ---- Confirmation ---------------------------------------------------------------------------------------------

  function FromTheTop(ts: seq<Trial>): (r: seq<Trial>)
    ensures |r| == |ts| && forall i :: 0 <= i < |ts| ==> r[i] == ts[|ts| - 1 - i]
  {
    seq(|ts|, i requires 0 <= i < |ts| => ts[|ts| - 1 - i])
  }

  /** A list sorted by rate, the highest first. */
  predicate SortedDown(order: seq<Trial>, ts: seq<Trial>) {
    && (forall i, j :: 0 <= i < j < |order| ==> order[i].rate >= order[j].rate)
    && multiset(order) == multiset(ts)
  }

  lemma {:induction false} FromTheTopSorts(ts: seq<Trial>)
    requires Rising(ts)
    ensures SortedDown(FromTheTop(ts), ts)
  {
    if ts != [] {
      var n := |ts| - 1;
      FromTheTopSorts(ts[..n]);
      assert FromTheTop(ts) == [ts[n]] + FromTheTop(ts[..n]);
      assert ts == ts[..n] + [ts[n]];
    }
  }

  lemma HighestIsFirst(ts: seq<Trial>, order: seq<Trial>)
    requires Rising(ts) && ts != [] && SortedDown(order, ts)
    ensures order != [] && order[0] == ts[|ts| - 1]
  {
    var top := ts[|ts| - 1];
    assert top in multiset(order);
    assert order[0] in multiset(ts);
    var i :| 0 <= i < |order| && order[i] == top;
    var j :| 0 <= j < |ts| && ts[j] == order[0];
  }

  /** Behind its first element a sorted list sorts the others. */
  lemma RestSortedDown(ts: seq<Trial>, order: seq<Trial>)
    requires Rising(ts) && ts != [] && SortedDown(order, ts)
    ensures order != [] && order == [ts[|ts| - 1]] + order[1..]
    ensures SortedDown(order[1..], ts[..|ts| - 1])
  {
    var n := |ts| - 1;
    HighestIsFirst(ts, order);
    assert ts == ts[..n] + [ts[n]];
    assert order == [order[0]] + order[1..];
    assert multiset(order) == multiset{order[0]} + multiset(order[1..]);
    assert multiset(ts) == multiset(ts[..n]) + multiset{ts[n]};
    assert multiset(order[1..]) == multiset(order) - multiset{order[0]};
    assert multiset(ts[..n]) == multiset(ts) - multiset{ts[n]};
  }

  lemma FromTheTopSplits(ts: seq<Trial>)
    requires ts != []
    ensures FromTheTop(ts) == [ts[|ts| - 1]] + FromTheTop(ts[..|ts| - 1])
  {
  }

  /** There is only one way to sort the candidates: reversing them. */
  lemma {:induction false} SortingReverses(ts: seq<Trial>, order: seq<Trial>)
    requires Rising(ts) && SortedDown(order, ts)
    ensures order == FromTheTop(ts)
    decreases |ts|
  {
    if ts == [] {
      assert |multiset(order)| == |order|;
    } else {
      RestSortedDown(ts, order);
      SortingReverses(ts[..|ts| - 1], order[1..]);
      FromTheTopSplits(ts);
    }
  }

  /** The attempts repeat the first rates of the order. */
  predicate Follows(attempts: seq<Trial>, order: seq<Trial>) {
    |attempts| <= |order| && forall i :: 0 <= i < |attempts| ==> attempts[i].rate == order[i].rate
  }

  /**
   The confirmation is the highest candidate that was sustainable when repeated: all higher ones were tried and
   failed.
   */
  predicate HighestConfirmed(candidates: seq<Trial>, attempts: seq<Trial>, confirmation: Option<Trial>) {
    && |attempts| <= |candidates|
    && (forall i :: 0 <= i < |attempts| ==> attempts[i].rate == candidates[|candidates| - 1 - i].rate)
    && (forall i :: 0 <= i < |attempts| - 1 ==> !attempts[i].result.sustainable)
    && (if attempts != [] && attempts[|attempts| - 1].result.sustainable then confirmation == LastOf(attempts)
        else confirmation.None? && |attempts| == |candidates|)
  }

  /** The failing trial is the attempt above the confirmation, or the last one, or what was known before them all. */
  predicate FailingIsAbove(attempts: seq<Trial>, confirmation: Option<Trial>, before: Option<Trial>,
      failing: Option<Trial>) {
    var n := if confirmation.Some? then |attempts| - 1 else |attempts|;
    failing == if n <= 0 then before else Some(attempts[n - 1])
  }

  /** However the candidates are sorted by falling rate, the attempts repeat the first of them. */
  ghost predicate FollowsSorted(candidates: seq<Trial>, attempts: seq<Trial>) {
    && (exists order :: SortedDown(order, candidates))
    && forall order :: SortedDown(order, candidates) ==> Follows(attempts, order)
  }

  lemma OrderIsSorted(candidates: seq<Trial>, attempts: seq<Trial>, confirmation: Option<Trial>)
    requires Rising(candidates) && HighestConfirmed(candidates, attempts, confirmation)
    ensures FollowsSorted(candidates, attempts)
  {
    FromTheTopSorts(candidates);
    forall sorted | SortedDown(sorted, candidates)
      ensures Follows(attempts, sorted)
    {
      SortingReverses(candidates, sorted);
    }
  }

  /** The attempts so far, which all failed again. */
  predicate AttemptsSoFar(candidates: seq<Trial>, attempts: seq<Trial>) {
    && |attempts| <= |candidates|
    && forall i :: 0 <= i < |attempts| ==>
         attempts[i].rate == candidates[|candidates| - 1 - i].rate && !attempts[i].result.sustainable
  }

  lemma AttemptsGoOn(candidates: seq<Trial>, attempts: seq<Trial>, before: Option<Trial>, failing: Option<Trial>,
      t: Trial)
    requires AttemptsSoFar(candidates, attempts) && |attempts| < |candidates|
    requires FailingIsAbove(attempts, None, before, failing)
    requires t.rate == candidates[|candidates| - 1 - |attempts|].rate
    ensures t.result.sustainable ==>
      && HighestConfirmed(candidates, attempts + [t], Some(t))
      && FailingIsAbove(attempts + [t], Some(t), before, failing)
    ensures !t.result.sustainable ==> AttemptsSoFar(candidates, attempts + [t])
  {
  }

  /** Repeats the candidates from the top until one is sustainable again. */
  method Confirm(cfg: Config, oracle: Oracle, runs: nat, candidates: seq<Trial>, failing0: Option<Trial>)
      returns (confirmation: Option<Trial>, failing: Option<Trial>, attempts: seq<Trial>)
    requires Valid(cfg) && Rising(candidates)
    ensures FollowsSorted(candidates, attempts)
    ensures InTurn(cfg, oracle, runs, attempts)
    ensures HighestConfirmed(candidates, attempts, confirmation)
    ensures FailingIsAbove(attempts, confirmation, failing0, failing)
  {
    confirmation, failing, attempts := None, failing0, [];
    var order := FromTheTop(candidates);
    var runs' := runs;
    for i := 0 to |order|
      invariant |attempts| == i && confirmation.None? && AttemptsSoFar(candidates, attempts)
      invariant InTurn(cfg, oracle, runs, attempts) && runs' == After(cfg, oracle, runs, attempts)
      invariant FailingIsAbove(attempts, None, failing0, failing)
    {
      var attempt: Trial;
      attempt, runs' := RunRate(cfg, oracle, runs', order[i].rate);
      InTurnExtends(cfg, oracle, runs, attempts, attempt);
      AttemptsGoOn(candidates, attempts, failing0, failing, attempt);
      attempts := attempts + [attempt];
      if attempt.result.sustainable {
        confirmation := Some(attempt);
        break;
      }
      failing := Some(attempt);
    }
    OrderIsSorted(candidates, attempts, confirmation);
  }

  // ---- The whole search --------------------------------------------------------------------------------------------

  datatype Found = Found(last: Option<Trial>, failing: Option<Trial>, trials: seq<Trial>, confirmation: Option<Trial>,
      attempts: seq<Trial>)

  datatype Advice = Inconclusive | TargetMet | InvestigateBottleneck

  function Recommendation(cfg: Config, confirmed: Option<Trial>): Advice {
    if confirmed.None? then Inconclusive
    else if confirmed.value.rate >= cfg.target then TargetMet
    else InvestigateBottleneck
  }

  predicate RatesInRange(cfg: Config, ts: seq<Trial>) {
    forall i :: 0 <= i < |ts| ==> cfg.start <= ts[i].rate <= cfg.target
  }

  /** What the search phase has established, before any confirmation. */
  predicate Searched(cfg: Config, last: Option<Trial>, failing: Option<Trial>, candidates: seq<Trial>) {
    && AllSustainable(candidates) && Rising(candidates) && last == LastOf(candidates) && RatesInRange(cfg, candidates)
    && (failing.Some? ==> !failing.value.result.sustainable && cfg.start <= failing.value.rate <= cfg.target)
    && (last.Some? && failing.Some? ==> last.value.rate < failing.value.rate <= last.value.rate + cfg.floor)
    && (failing.None? ==> last.Some? && last.value.rate == cfg.target)
    && (last.None? ==> failing.Some? && failing.value.rate == cfg.start)
  }

  lemma {:induction false} DoubledInRange(cfg: Config, ts: seq<Trial>, i: nat)
    requires Valid(cfg) && Doubled(cfg, ts) && i < |ts|
    ensures cfg.start <= ts[i].rate <= cfg.target
    decreases i
  {
    if i > 0 {
      DoubledInRange(cfg, ts, i - 1);
    }
  }

  /**
   The course of the search: the first `k` trials double the rate until one fails or the target is sustained, and
   all others halve the bracket until it is no wider than the floor.
   */
  predicate Course(cfg: Config, ts: seq<Trial>, k: nat) {
    && 0 < k <= |ts| && Doubled(cfg, ts[..k]) && (ts[k - 1].result.sustainable ==> ts[k - 1].rate == cfg.target)
    && Halved(cfg, LastAfter(None, ts[..k]), FailingAfter(None, ts[..k]), ts[k..])
    && var last, failing := LastAfter(None, ts), FailingAfter(None, ts);
    last.Some? && failing.Some? ==> failing.value.rate - last.value.rate <= cfg.floor
  }

  /** What is known after the search is what its trials have shown. */
  predicate Reported(cfg: Config, ts: seq<Trial>, k: nat, last: Option<Trial>, failing: Option<Trial>,
      candidates: seq<Trial>) {
    && Course(cfg, ts, k) && RatesInRange(cfg, ts) && candidates == Sustained(ts)
    && last == LastAfter(None, ts) && failing == FailingAfter(None, ts)
  }

  /** Doubling and then, if it stopped between two rates, bisection. */
  method Search(cfg: Config, oracle: Oracle)
      returns (last: Option<Trial>, failing: Option<Trial>, trials: seq<Trial>, candidates: seq<Trial>, runs: nat,
        ghost doubled: nat)
    requires Valid(cfg)
    ensures Searched(cfg, last, failing, candidates)
    ensures Reported(cfg, trials, doubled, last, failing, candidates) && |trials| <= SearchCost(cfg)
    ensures InTurn(cfg, oracle, 0, trials) && runs == After(cfg, oracle, 0, trials)
  {
    last, failing, trials, candidates, runs := Doubling(cfg, oracle, 0);
    doubled := |trials|;
    DoublingReport(cfg, last, failing, trials, candidates);
    if last.Some? && failing.Some? {
      var low, high, more, found;
      low, high, more, found, runs := Bisection(cfg, oracle, runs, last.value, failing.value);
      HalvingsMonotone(cfg.floor, failing.value.rate - last.value.rate, cfg.target - cfg.start);
      assert |trials + more| <= SearchCost(cfg);
      InTurnJoins(cfg, oracle, 0, trials, more);
      SearchJoins(cfg, last.value, failing.value, low, high, trials, candidates, more, found);
      last, failing, trials, candidates := Some(low), Some(high), trials + more, candidates + found;
    }
  }

  lemma DoublingLatest(cfg: Config, last: Option<Trial>, failing: Option<Trial>, trials: seq<Trial>,
      candidates: seq<Trial>)
    requires DoublingDone(cfg, last, failing, trials, candidates)
    ensures candidates == Sustained(trials)
    ensures last == LastAfter(None, trials) && failing == FailingAfter(None, trials)
  {
    AllSustained(candidates);
    AfterSustainable(None, candidates);
    if failing.Some? {
      assert trials == candidates + [failing.value];
      SustainedExtends(candidates, failing.value);
      AfterExtends(None, candidates, failing.value);
    }
  }

  lemma DoublingReport(cfg: Config, last: Option<Trial>, failing: Option<Trial>, trials: seq<Trial>,
      candidates: seq<Trial>)
    requires Valid(cfg) && DoublingDone(cfg, last, failing, trials, candidates)
    ensures last.None? || failing.None? ==>
      Searched(cfg, last, failing, candidates) && Reported(cfg, trials, |trials|, last, failing, candidates)
    ensures last.Some? ==> cfg.start <= last.value.rate <= cfg.target
    ensures failing.Some? ==> cfg.start <= failing.value.rate <= cfg.target
  {
    forall i | 0 <= i < |trials|
      ensures cfg.start <= trials[i].rate <= cfg.target
    {
      DoubledInRange(cfg, trials, i);
    }
    DoublingLatest(cfg, last, failing, trials, candidates);
    assert trials[..|trials|] == trials;
  }

  /** The report of a bisection after a doubling phase that stopped between two rates. */
  lemma ReportsJoin(cfg: Config, last0: Trial, failing0: Trial, last: Trial, failing: Trial, trials: seq<Trial>,
      candidates: seq<Trial>, more: seq<Trial>, found: seq<Trial>)
    requires Valid(cfg) && DoublingDone(cfg, Some(last0), Some(failing0), trials, candidates)
    requires Bisected(cfg, last0, failing0, last, failing, more, found) && failing.rate - last.rate <= cfg.floor
    ensures Reported(cfg, trials + more, |trials|, Some(last), Some(failing), candidates + found)
  {
    var all, k := trials + more, |trials|;
    assert all[..k] == trials && all[k..] == more;
    AfterJoins(trials, more);
    SustainedJoins(trials, more);
    DoublingLatest(cfg, Some(last0), Some(failing0), trials, candidates);
    RangesJoin(cfg, last0, failing0, trials, candidates, more);
  }

  lemma RangesJoin(cfg: Config, last0: Trial, failing0: Trial, trials: seq<Trial>, candidates: seq<Trial>,
      more: seq<Trial>)
    requires Valid(cfg) && DoublingDone(cfg, Some(last0), Some(failing0), trials, candidates)
    requires RatesBetween(last0.rate, failing0.rate, more)
    ensures RatesInRange(cfg, trials + more)
  {
    forall i | 0 <= i < |trials|
      ensures cfg.start <= trials[i].rate <= cfg.target
    {
      DoubledInRange(cfg, trials, i);
    }
  }

  lemma SearchJoins(cfg: Config, last0: Trial, failing0: Trial, last: Trial, failing: Trial, trials: seq<Trial>,
      candidates: seq<Trial>, more: seq<Trial>, found: seq<Trial>)
    requires Valid(cfg) && DoublingDone(cfg, Some(last0), Some(failing0), trials, candidates)
    requires Bisected(cfg, last0, failing0, last, failing, more, found) && failing.rate - last.rate <= cfg.floor
    ensures Reported(cfg, trials + more, |trials|, Some(last), Some(failing), candidates + found)
    ensures Searched(cfg, Some(last), Some(failing), candidates + found)
  {
    ReportsJoin(cfg, last0, failing0, last, failing, trials, candidates, more, found);
    RisingJoins(candidates, found);
    RangesJoin(cfg, last0, failing0, trials, candidates, found);
    DoubledInRange(cfg, trials, |trials| - 1);
  }

  function SearchCost(cfg: Config): nat
    requires Valid(cfg)
  {
    1 + Doublings(cfg.start, cfg.target) + Halvings(cfg.floor, cfg.target - cfg.start)
  }

  lemma RisingJoins(ts: seq<Trial>, more: seq<Trial>)
    requires ts != [] && Rising(ts) && Rising(more) && forall i :: 0 <= i < |more| ==> ts[|ts| - 1].rate < more[i].rate
    ensures Rising(ts + more)
  {}

  /** A trial between start and target, whenever it is taken, is sustainable exactly for the rates up to `t`. */
  ghost predicate Threshold(cfg: Config, oracle: Oracle, t: int) {
    forall n: nat, trial: Trial :: Taken(cfg, oracle, n, trial) ==>
      cfg.start <= trial.rate <= cfg.target ==> (trial.result.sustainable <==> trial.rate <= t)
  }

  /** Every rate needs a number of users, and requests are dropped when there are fewer. */
  ghost predicate NeedsUsers(oracle: Oracle, need: int -> int) {
    forall n: nat, rate: int, vus: int :: var m := oracle(n, rate, vus);
      && (m.sustainable <==> need(rate) <= vus)
      && (!m.sustainable ==> m.dropped > 0 && m.failures == 0 && m.timeouts == 0)
  }

  /** As many users as a trial of the rate ever gets. */
  function MostUsers(cfg: Config, rate: int): int {
    var wanted := rate * cfg.multiplier;
    if wanted < cfg.minVus then (if 2 * cfg.minVus < cfg.maxVus then 2 * cfg.minVus else cfg.maxVus)
    else if 2 * wanted < cfg.maxVus then 2 * wanted
    else cfg.maxVus
  }

  lemma TrialWithUsers(cfg: Config, oracle: Oracle, need: int -> int, n: nat, t: Trial)
    requires Valid(cfg) && NeedsUsers(oracle, need) && Taken(cfg, oracle, n, t)
    ensures t.result.sustainable <==> need(t.rate) <= MostUsers(cfg, t.rate)
  {
    var wanted := t.rate * cfg.multiplier;
    var users := if wanted < cfg.minVus then cfg.minVus else if wanted > cfg.maxVus then cfg.maxVus else wanted;
    var first, second := oracle(n, t.rate, users), oracle(n + 1, t.rate, t.vus);
    assert first.sustainable <==> need(t.rate) <= users;
    assert second.sustainable <==> need(t.rate) <= t.vus;
  }

  /** Where users decide, the threshold lies exactly between the rates that need no more and those that need more. */
  lemma UsersDecide(cfg: Config, oracle: Oracle, need: int -> int, t: int)
    requires Valid(cfg) && NeedsUsers(oracle, need)
    ensures Threshold(cfg, oracle, t) <==>
      forall rate :: cfg.start <= rate <= cfg.target ==> (need(rate) <= MostUsers(cfg, rate) <==> rate <= t)
  {
    if Threshold(cfg, oracle, t) {
      forall rate | cfg.start <= rate <= cfg.target
        ensures need(rate) <= MostUsers(cfg, rate) <==> rate <= t
      {
        var trial := SomeTrial(cfg, oracle, 0, rate);
        TrialWithUsers(cfg, oracle, need, 0, trial);
      }
    }
    forall n: nat, trial: Trial | Taken(cfg, oracle, n, trial)
      ensures trial.result.sustainable <==> need(trial.rate) <= MostUsers(cfg, trial.rate)
    {
      TrialWithUsers(cfg, oracle, need, n, trial);
    }
  }

  lemma SomeTrial(cfg: Config, oracle: Oracle, n: nat, rate: int) returns (t: Trial)
    ensures t.rate == rate && Taken(cfg, oracle, n, t)
  {
    var wanted := rate * cfg.multiplier;
    var users := if wanted < cfg.minVus then cfg.minVus else if wanted > cfg.maxVus then cfg.maxVus else wanted;
    var more := if 2 * users < cfg.maxVus then 2 * users else cfg.maxVus;
    t := if Retried(cfg, oracle, n, rate) then Trial(rate, more, oracle(n + 1, rate, more))
      else Trial(rate, users, oracle(n, rate, users));
  }

  /** What holds of the answer for every oracle, even one that contradicts itself. */
  predicate Sound(cfg: Config, f: Found) {
    && RatesInRange(cfg, f.trials)
    && (f.confirmation.Some? ==>
          && f.confirmation.value.result.sustainable && f.last.Some? && f.confirmation.value.rate <= f.last.value.rate
          && (f.failing.Some? ==> f.confirmation.value.rate < f.failing.value.rate)
          && (f.failing.Some? && f.confirmation.value.rate == f.last.value.rate ==>
              f.failing.value.rate <= f.last.value.rate + cfg.floor)
          && (f.failing.None? ==> f.confirmation.value.rate == cfg.target))
    && (Recommendation(cfg, f.confirmation).TargetMet? ==> f.confirmation.value.rate == cfg.target && f.failing.None?)
    && (f.confirmation.None? ==> f.failing.Some?)
  }

  /** What holds besides for an oracle with threshold `t`: it is found up to the floor and confirmed at once. */
  predicate Exact(cfg: Config, f: Found, t: int) {
    && (f.last.Some? <==> cfg.start <= t) && (f.failing.None? <==> cfg.target <= t)
    && (f.last.Some? ==>
        f.last.value.rate <= t && f.confirmation.Some? && f.confirmation.value.rate == f.last.value.rate
        && |f.attempts| == 1)
    && (f.failing.Some? ==> t < f.failing.value.rate)
    && (f.last.Some? && f.failing.Some? ==> f.failing.value.rate - f.last.value.rate <= cfg.floor)
  }

  /** What is recommended tells on which side of start and target the threshold lies. */
  lemma AdviceExactly(cfg: Config, f: Found, t: int)
    requires Valid(cfg) && Sound(cfg, f) && Exact(cfg, f, t)
    ensures Recommendation(cfg, f.confirmation) ==
      if t < cfg.start then Inconclusive else if t < cfg.target then InvestigateBottleneck else TargetMet
  {
  }

  /** The trials are those of the search and, after them, the attempts at a confirmation. */
  predicate Recorded(cfg: Config, f: Found, candidates: seq<Trial>, doubled: nat) {
    && |f.attempts| <= |f.trials|
    && var n := |f.trials| - |f.attempts|;
    && f.trials[n..] == f.attempts && f.failing == FailingAfter(None, f.trials)
    && Reported(cfg, f.trials[..n], doubled, f.last, FailingAfter(None, f.trials[..n]), candidates)
  }

  /** The latest failing trial after the attempts at a confirmation. */
  lemma AttemptsFail(attempts: seq<Trial>, confirmation: Option<Trial>, before: Option<Trial>, failing: Option<Trial>,
      candidates: seq<Trial>)
    requires HighestConfirmed(candidates, attempts, confirmation)
    requires FailingIsAbove(attempts, confirmation, before, failing)
    ensures failing == FailingAfter(before, attempts)
  {
    if attempts != [] {
      AfterFailing(before, attempts[..|attempts| - 1]);
    }
  }

  /** The trials behave as the threshold says. */
  predicate Obeys(ts: seq<Trial>, t: int) {
    forall i :: 0 <= i < |ts| ==> (ts[i].result.sustainable <==> ts[i].rate <= t)
  }

  lemma ThresholdObeyed(cfg: Config, oracle: Oracle, t: int, ts: seq<Trial>)
    requires Threshold(cfg, oracle, t) && InTurn(cfg, oracle, 0, ts) && RatesInRange(cfg, ts)
    ensures Obeys(ts, t)
  {
    forall i | 0 <= i < |ts|
      ensures ts[i].result.sustainable <==> ts[i].rate <= t
    {
      InTurnAt(cfg, oracle, 0, ts, i);
    }
  }

  lemma {:induction false} LatestObey(ts: seq<Trial>, t: int)
    requires Obeys(ts, t)
    ensures LastAfter(None, ts).Some? ==> LastAfter(None, ts).value.rate <= t
    ensures FailingAfter(None, ts).Some? ==> t < FailingAfter(None, ts).value.rate
  {
    if ts != [] {
      LatestObey(ts[..|ts| - 1], t);
    }
  }

  /** The report of a search and the attempts at a confirmation after it. */
  predicate Concluded(cfg: Config, f: Found, trials: seq<Trial>, candidates: seq<Trial>, failing: Option<Trial>,
      doubled: nat) {
    && f.trials == trials + f.attempts && Searched(cfg, f.last, failing, candidates)
    && Reported(cfg, trials, doubled, f.last, failing, candidates)
    && HighestConfirmed(candidates, f.attempts, f.confirmation)
    && FailingIsAbove(f.attempts, f.confirmation, failing, f.failing)
  }

  /** An oracle with a threshold confirms the first candidate, and all that is known lies where it says. */
  lemma ThresholdFound(cfg: Config, f: Found, trials: seq<Trial>, candidates: seq<Trial>, failing: Option<Trial>,
      doubled: nat, t: int)
    requires Concluded(cfg, f, trials, candidates, failing, doubled) && Obeys(f.trials, t)
    ensures Exact(cfg, f, t)
  {
    forall i | 0 <= i < |trials|
      ensures trials[i].result.sustainable <==> trials[i].rate <= t
    {
      assert f.trials[i] == trials[i];
    }
    LatestObey(trials, t);
    if f.attempts != [] {
      assert f.trials[|trials|] == f.attempts[0];
      assert f.attempts[0].rate == candidates[|candidates| - 1].rate == f.last.value.rate <= t;
    }
  }

  lemma ConfirmedSound(cfg: Config, f: Found, trials: seq<Trial>, candidates: seq<Trial>, failing: Option<Trial>,
      doubled: nat)
    requires Concluded(cfg, f, trials, candidates, failing, doubled)
    ensures Sound(cfg, f)
  {
    forall i | 0 <= i < |f.attempts|
      ensures cfg.start <= f.attempts[i].rate <= cfg.target
    {
      assert f.attempts[i].rate == candidates[|candidates| - 1 - i].rate;
    }
  }

  lemma AllRecorded(cfg: Config, f: Found, trials: seq<Trial>, candidates: seq<Trial>, failing: Option<Trial>,
      doubled: nat)
    requires Concluded(cfg, f, trials, candidates, failing, doubled)
    ensures Recorded(cfg, f, candidates, doubled)
  {
    AfterJoins(trials, f.attempts);
    AttemptsFail(f.attempts, f.confirmation, failing, f.failing, candidates);
    assert f.trials[..|trials|] == trials && f.trials[|trials|..] == f.attempts;
  }

  method FindLimit(cfg: Config, oracle: Oracle) returns (f: Found, candidates: seq<Trial>, ghost doubled: nat)
    requires Valid(cfg)
    ensures Sound(cfg, f)
    ensures AllSustainable(candidates) && Rising(candidates) && f.last == LastOf(candidates)
    ensures HighestConfirmed(candidates, f.attempts, f.confirmation)
    ensures Recorded(cfg, f, candidates, doubled) && InTurn(cfg, oracle, 0, f.trials)
    ensures |f.trials| <= SearchCost(cfg) + |f.attempts|
    ensures forall t :: Threshold(cfg, oracle, t) ==> Exact(cfg, f, t)
  {
    var last, failing, trials, found, runs;
    last, failing, trials, found, runs, doubled := Search(cfg, oracle);
    var confirmation, failing', attempts := Confirm(cfg, oracle, runs, found, failing);
    candidates := found;
    f := Found(last, failing', trials + attempts, confirmation, attempts);
    assert Concluded(cfg, f, trials, candidates, failing, doubled);
    InTurnJoins(cfg, oracle, 0, trials, attempts);
    ConfirmedSound(cfg, f, trials, candidates, failing, doubled);
    AllRecorded(cfg, f, trials, candidates, failing, doubled);
    forall t | Threshold(cfg, oracle, t)
      ensures Exact(cfg, f, t)
    {
      ThresholdObeyed(cfg, oracle, t, f.trials);
      ThresholdFound(cfg, f, trials, candidates, failing, doubled, t);
    }
  }
}
