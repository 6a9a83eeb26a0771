/**
 The open-loop load generator: one slot per arrival, dropped when all virtual users are busy.

 The event loop is a machine whose steps are the slots of the generator and the ends of requests. A
 schedule is any sequence of such steps; the generator decides what a slot does, the rest of the world
 which requests end when and how.
 */
module OpenLoop {
  import opened LoadMetrics

  datatype Outcome = Success(latency: real) | Timeout(message: string) | Failure(message: string)

  datatype Counts = Counts(attempted: nat, completed: nat, successes: nat, failures: nat, timeouts: nat, dropped: nat,
                           latencies: seq<real>, errors: seq<string>)

  const NOTHING := Counts(0, 0, 0, 0, 0, 0, [], [])

  /** The counts after a request has come to its end. */
  function Recorded(c: Counts, o: Outcome): Counts {
    match o
    case Success(l) => c.(completed := c.completed + 1, successes := c.successes + 1, latencies := c.latencies + [l])
    case Timeout(m) =>
        c.(completed := c.completed + 1, failures := c.failures + 1, timeouts := c.timeouts + 1,
        errors := AddError(c.errors, m))
    case Failure(m) => c.(completed := c.completed + 1, failures := c.failures + 1, errors := AddError(c.errors, m))
  }

  /** Every attempt is dropped, completed or still on its way; a completed one has succeeded or failed. */
  predicate Conserved(c: Counts, underway: nat) {
    && c.attempted == c.completed + c.dropped + underway
    && c.completed == c.successes + c.failures
    && c.timeouts <= c.failures
    && |c.latencies| == c.successes
    && |c.errors| == if c.failures < MAX_ERRORS then c.failures else MAX_ERRORS
  }

  /** A truncation; negative products give no slots. */
  function Slots(rate: int, duration: real): (n: nat)
    ensures var product := rate as real * duration;
      if product < 1.0 then n == 0 else n as real <= product < (n + 1) as real
  {
    var product := rate as real * duration;
    if product < 1.0 then 0 else product.Floor
  }

  // ---- The machine ---------------------------------------------------------------------------------------

  /** Requests are named by their slots. The finished ones stay in flight until the next slot takes them out. */
  datatype State = State(counts: Counts, slot: nat, inFlight: set<nat>, done: set<nat>)

  datatype Step = Slot | Finish(task: nat, outcome: Outcome)

  datatype Setup = Setup(vus: nat, record: bool)

  predicate Enabled(s: State, step: Step) { step.Finish? ==> step.task in s.inFlight - s.done }

  function Next(g: Setup, s: State, step: Step): State {
    match step
    case Slot =>
      var running := s.inFlight - s.done;
      if |running| >= g.vus then
        State(if g.record then s.counts.(attempted := s.counts.attempted + 1, dropped := s.counts.dropped + 1)
            else s.counts, s.slot + 1, running, {})
      else
        State(if g.record then s.counts.(attempted := s.counts.attempted + 1)
            else s.counts, s.slot + 1, running + {s.slot}, {})
    case Finish(t, o) =>
      s.(counts := if g.record then Recorded(s.counts, o) else s.counts, done := s.done + {t})
  }

  predicate Possible(g: Setup, s: State, steps: seq<Step>)
    decreases |steps|
  {
    steps == [] || (Enabled(s, steps[0]) && Possible(g, Next(g, s, steps[0]), steps[1..]))
  }

  function Run(g: Setup, s: State, steps: seq<Step>): State
    decreases |steps|
  {
    if steps == [] then s else Run(g, Next(g, s, steps[0]), steps[1..])
  }

  function Started(c: Counts): State { State(c, 0, {}, {}) }

  /** What holds in every reachable state of a run that began with the counts `c`. */
  predicate Inv(g: Setup, c: Counts, s: State) {
    && s.done <= s.inFlight && |s.inFlight| <= g.vus
    && (forall t :: t in s.inFlight ==> t < s.slot)
    && (if g.record
        then Conserved(s.counts, |s.inFlight - s.done|) && s.counts.attempted == c.attempted + s.slot
            && c.dropped <= s.counts.dropped
        else s.counts == c)
  }

  lemma Fewer(a: set<nat>, b: set<nat>)
    requires a <= b
    ensures |a| <= |b|
  {
    assert b == a + (b - a);
    assert |a + (b - a)| == |a| + |b - a|;
  }

  lemma FinishKeepsInv(g: Setup, c: Counts, s: State, t: nat, o: Outcome)
    requires Inv(g, c, s) && Enabled(s, Finish(t, o))
    ensures Inv(g, c, Next(g, s, Finish(t, o)))
  {
    assert s.inFlight - (s.done + {t}) == (s.inFlight - s.done) - {t};
  }

  lemma SlotKeepsInv(g: Setup, c: Counts, s: State)
    requires Inv(g, c, s)
    ensures Inv(g, c, Next(g, s, Slot))
  {
    var running := s.inFlight - s.done;
    Fewer(running, s.inFlight);
    assert s.slot !in running;
    assert running - {} == running && (running + {s.slot}) - {} == running + {s.slot};
  }

  lemma {:induction false} RunKeepsInv(g: Setup, c: Counts, s: State, steps: seq<Step>)
    requires Inv(g, c, s) && Possible(g, s, steps)
    ensures Inv(g, c, Run(g, s, steps))
    decreases |steps|
  {
    if steps != [] {
      match steps[0] {
        case Slot => SlotKeepsInv(g, c, s);
        case Finish(t, o) => FinishKeepsInv(g, c, s, t, o);
      }
      RunKeepsInv(g, c, Next(g, s, steps[0]), steps[1..]);
    }
  }

  /**
   In every state of every schedule at most `vus` requests are in flight, and the counts account for all slots so far.
   */
  lemma EveryScheduleConserves(g: Setup, c: Counts, steps: seq<Step>)
    requires Conserved(c, 0) && Possible(g, Started(c), steps)
    ensures var s := Run(g, Started(c), steps);
      && |s.inFlight| <= g.vus
      && (g.record ==> Conserved(s.counts, |s.inFlight - s.done|) && s.counts.attempted == c.attempted + s.slot)
      && (!g.record ==> s.counts == c)
  {
    RunKeepsInv(g, c, Started(c), steps);
  }

  /** The messages of the requests that ended in an error, in the order in which they ended. */
  function Messages(steps: seq<Step>): seq<string>
    decreases |steps|
  {
    if steps == [] then []
    else
      match steps[0]
      case Finish(_, Timeout(m)) => [m] + Messages(steps[1..])
      case Finish(_, Failure(m)) => [m] + Messages(steps[1..])
      case _ => Messages(steps[1..])
  }

  lemma {:induction false} RunAddsErrors(g: Setup, s: State, steps: seq<Step>)
    ensures Run(g, s, steps).counts.errors == if g.record then AddErrors(s.counts.errors, Messages(steps))
        else s.counts.errors
    decreases |steps|
  {
    if steps != [] {
      RunAddsErrors(g, Next(g, s, steps[0]), steps[1..]);
      match steps[0] {
        case Finish(_, Timeout(m)) => assert Messages(steps)[1..] == Messages(steps[1..]);
        case Finish(_, Failure(m)) => assert Messages(steps)[1..] == Messages(steps[1..]);
        case _ =>
      }
    }
  }

  /** In every state of every schedule the errors kept are the first twenty that were met, in their order. */
  lemma FirstErrorsAreKept(g: Setup, c: Counts, steps: seq<Step>)
    requires Conserved(c, 0) && g.record
    ensures var all := c.errors + Messages(steps);
      Run(g, Started(c), steps).counts.errors == if |all| < 20 then all else all[..20]
  {
    RunAddsErrors(g, Started(c), steps);
    SampleIsFirstErrors(c.errors, Messages(steps));
  }

  /** How long the successful requests took, in the order in which they ended. */
  function Times(steps: seq<Step>): seq<real>
    decreases |steps|
  {
    if steps == [] then []
    else
      match steps[0]
      case Finish(_, Success(l)) => [l] + Times(steps[1..])
      case _ => Times(steps[1..])
  }

  /** How many requests ended in a timeout. */
  function TimedOut(steps: seq<Step>): nat
    decreases |steps|
  {
    if steps == [] then 0
    else TimedOut(steps[1..]) + if steps[0].Finish? && steps[0].outcome.Timeout? then 1 else 0
  }

  /**
   In every state of every schedule the counts are those of the requests that have ended: every success with its
   latency, every timeout, and every error with its message.
   */
  lemma {:induction false} EndsAreCounted(g: Setup, s: State, steps: seq<Step>)
    requires g.record
    ensures var c, now := s.counts, Run(g, s, steps).counts;
      && now.latencies == c.latencies + Times(steps) && now.successes == c.successes + |Times(steps)|
      && now.timeouts == c.timeouts + TimedOut(steps) && now.failures == c.failures + |Messages(steps)|
      && now.completed == c.completed + |Times(steps)| + |Messages(steps)|
    decreases |steps|
  {
    if steps != [] {
      EndsAreCounted(g, Next(g, s, steps[0]), steps[1..]);
      match steps[0] {
        case Finish(_, Success(l)) =>
          assert (s.counts.latencies + [l]) + Times(steps[1..]) == s.counts.latencies + Times(steps);
        case _ =>
      }
    }
  }

  /**
   In every state of every schedule, a step drops a request exactly if it is a slot and all virtual users are busy.
   */
  lemma DropsExactlyWhenFull(g: Setup, c: Counts, steps: seq<Step>, step: Step)
    requires Conserved(c, 0) && Possible(g, Started(c), steps) && g.record && Enabled(Run(g, Started(c), steps), step)
    ensures var s := Run(g, Started(c), steps);
      && Next(g, s, step).counts.dropped == s.counts.dropped + (if step.Slot? && |s.inFlight - s.done| == g.vus then 1
          else 0)
      && (step.Slot? && |s.inFlight - s.done| < g.vus ==> Next(g, s, step).inFlight == (s.inFlight - s.done) + {s.slot})
  {
    RunKeepsInv(g, c, Started(c), steps);
    var s := Run(g, Started(c), steps);
    Fewer(s.inFlight - s.done, s.inFlight);
  }

  // ---- The generator ----------------------------------------------------------------------------------------

  /** Which requests end, and how, before each slot and after the last one. */
  datatype Schedule = Schedule(before: seq<seq<(nat, Outcome)>>, after: seq<(nat, Outcome)>)

  function Finishes(ends: seq<(nat, Outcome)>): seq<Step> {
    seq(|ends|, i requires 0 <= i < |ends| => Finish(ends[i].0, ends[i].1))
  }

  /** The steps up to and including slot `n - 1`. */
  function StepsTo(before: seq<seq<(nat, Outcome)>>, n: nat): seq<Step>
    requires n <= |before|
  {
    if n == 0 then [] else StepsTo(before, n - 1) + Finishes(before[n - 1]) + [Slot]
  }

  function Steps(w: Schedule): seq<Step> { StepsTo(w.before, |w.before|) + Finishes(w.after) }

  /** A schedule the event loop can follow for so many slots: only running requests end, and all do in the end. */
  predicate Follows(g: Setup, c: Counts, w: Schedule, slots: nat) {
    && |w.before| == slots && Possible(g, Started(c), Steps(w))
    && var s := Run(g, Started(c), Steps(w)); s.inFlight <= s.done
  }

  lemma {:induction false} RunAppend(g: Setup, s: State, a: seq<Step>, b: seq<Step>)
    ensures Run(g, s, a + b) == Run(g, Run(g, s, a), b)
    ensures Possible(g, s, a + b) <==> Possible(g, s, a) && Possible(g, Run(g, s, a), b)
    decreases |a|
  {
    if a == [] {
      assert a + b == b;
    } else {
      assert (a + b)[0] == a[0] && (a + b)[1..] == a[1..] + b;
      RunAppend(g, Next(g, s, a[0]), a[1..], b);
    }
  }

  lemma OneMoreSlot(g: Setup, s: State, before: seq<seq<(nat, Outcome)>>, n: nat)
    requires n < |before|
    ensures Run(g, s, StepsTo(before, n + 1))
        == Next(g, Run(g, Run(g, s, StepsTo(before, n)), Finishes(before[n])), Slot)
  {
    RunAppend(g, s, StepsTo(before, n), Finishes(before[n]));
    RunAppend(g, s, StepsTo(before, n) + Finishes(before[n]), [Slot]);
  }

  /** Requests that are under way can always end, one after the other. */
  lemma {:induction false} Drain(g: Setup, s: State) returns (ends: seq<(nat, Outcome)>)
    ensures Possible(g, s, Finishes(ends))
    ensures var s' := Run(g, s, Finishes(ends)); s'.inFlight <= s'.done
    decreases |s.inFlight - s.done|
  {
    if s.inFlight <= s.done {
      ends := [];
    } else {
      var t :| t in s.inFlight && t !in s.done;
      var s' := Next(g, s, Finish(t, Failure("")));
      assert s'.inFlight - s'.done == (s.inFlight - s.done) - {t};
      var rest := Drain(g, s');
      ends := [(t, Failure(""))] + rest;
      assert Finishes(ends)[0] == Finish(t, Failure("")) && Finishes(ends)[1..] == Finishes(rest);
    }
  }

  lemma SlotIsPossible(g: Setup, s: State)
    ensures Possible(g, s, [Slot])
  {
    assert [Slot][1..] == [];
  }

  lemma JustASlot(before: seq<seq<(nat, Outcome)>>, n: nat)
    requires 0 < n <= |before| && before[n - 1] == []
    ensures StepsTo(before, n) == StepsTo(before, n - 1) + [Slot]
  {
    assert Finishes([]) == [];
    assert StepsTo(before, n - 1) + [] == StepsTo(before, n - 1);
  }

  lemma {:induction false} SlotsArePossible(g: Setup, s: State, before: seq<seq<(nat, Outcome)>>, n: nat)
    requires n <= |before| && forall i :: 0 <= i < |before| ==> before[i] == []
    ensures Possible(g, s, StepsTo(before, n))
  {
    if n > 0 {
      SlotsArePossible(g, s, before, n - 1);
      JustASlot(before, n);
      RunAppend(g, s, StepsTo(before, n - 1), [Slot]);
      SlotIsPossible(g, Run(g, s, StepsTo(before, n - 1)));
    }
  }

  /** Whatever the setup and the number of slots, there is a schedule. */
  lemma SomeSchedule(g: Setup, c: Counts, slots: nat) returns (w: Schedule)
    ensures Follows(g, c, w, slots)
  {
    var before := seq(slots, _ => []);
    SlotsArePossible(g, Started(c), before, slots);
    var ends := Drain(g, Run(g, Started(c), StepsTo(before, slots)));
    w := Schedule(before, ends);
    RunAppend(g, Started(c), StepsTo(before, slots), Finishes(ends));
  }

  class Metrics {
    var attempted: nat
    var completed: nat
    var successes: nat
    var failures: nat
    var timeouts: nat
    var dropped: nat
    var latencies: seq<real>
    var errors: seq<string>

    ghost function Contents(): Counts
      reads this
    {
      Counts(attempted, completed, successes, failures, timeouts, dropped, latencies, errors)
    }

    constructor ()
      ensures Contents() == NOTHING
    {
      attempted, completed, successes, failures, timeouts, dropped := 0, 0, 0, 0, 0, 0;
      latencies, errors := [], [];
    }

    method Add(error: string)
      modifies this`errors
      ensures errors == AddError(old(errors), error)
    {
      if |errors| < MAX_ERRORS {
        errors := errors + [error];
      }
    }

    /** The tail of a request: what it records once the evaluation has returned or raised. */
    method FinishRequest(outcome: Outcome, record: bool)
      modifies this
      ensures Contents() == if record then Recorded(old(Contents()), outcome) else old(Contents())
    {
      match outcome {
        case Timeout(m) =>
          if record {
            completed, failures, timeouts := completed + 1, failures + 1, timeouts + 1;
            Add(m);
          }
        case Failure(m) =>
          if record {
            completed, failures := completed + 1, failures + 1;
            Add(m);
          }
        case Success(l) =>
          if record {
            completed, successes := completed + 1, successes + 1;
            latencies := latencies + [l];
          }
      }
    }

    /** Requests end one after the other while the generator sleeps or gathers. */
    method LetFinish(ends: seq<(nat, Outcome)>, record: bool, done: set<nat>, ghost g: Setup, ghost s: State)
        returns (done': set<nat>, ghost s': State)
      requires g.record == record && s.counts == Contents() && s.done == done
      modifies this
      ensures s' == Run(g, s, Finishes(ends)) && s'.counts == Contents() && s'.done == done'
      ensures s'.inFlight == s.inFlight && s'.slot == s.slot
    {
      done' := done;
      s' := s;
      for i := 0 to |ends|
        invariant s'.counts == Contents() && s'.done == done' && s'.inFlight == s.inFlight && s'.slot == s.slot
        invariant Run(g, s', Finishes(ends)[i..]) == Run(g, s, Finishes(ends))
      {
        assert Finishes(ends)[i..][0] == Finish(ends[i].0, ends[i].1)
            && Finishes(ends)[i..][1..] == Finishes(ends)[i + 1..];
        s' := Next(g, s', Finish(ends[i].0, ends[i].1));
        FinishRequest(ends[i].1, record);
        done' := done' + {ends[i].0};
      }
    }

    /** A slot takes the finished requests out and starts a new one if a virtual user is free. */
    method TakeSlot(slot: nat, vus: nat, record: bool, inFlight: set<nat>, done: set<nat>) returns (inFlight': set<nat>)
      modifies this
      ensures State(Contents(), slot + 1, inFlight', {})
          == Next(Setup(vus, record), State(old(Contents()), slot, inFlight, done), Slot)
    {
      inFlight' := inFlight - done;
      if |inFlight'| >= vus {
        if record {
          attempted := attempted + 1;
          dropped := dropped + 1;
        }
      } else {
        if record {
          attempted := attempted + 1;
        }
        inFlight' := inFlight' + {slot};
      }
    }

    /** For every schedule the generator does what the machine does; without time it does nothing. */
    method RunConstantArrivalRate(rate: int, duration: real, vus: nat, record: bool, w: Schedule)
      requires Conserved(Contents(), 0)
          && (duration > 0.0 ==> Follows(Setup(vus, record), Contents(), w, Slots(rate, duration)))
      modifies this
      ensures Contents() == if duration > 0.0 then Run(Setup(vus, record), Started(old(Contents())), Steps(w)).counts
          else old(Contents())
      ensures Conserved(Contents(), 0)
      ensures if record && duration > 0.0 then attempted == old(attempted) + Slots(rate, duration)
          else Contents() == old(Contents())
    {
      if duration <= 0.0 {
        return;
      }
      var slots := Slots(rate, duration);
      ghost var g := Setup(vus, record);
      ghost var s0 := Started(Contents());
      ghost var s := s0;
      var inFlight: set<nat> := {};
      var done: set<nat> := {};
      for slot := 0 to slots
        invariant s == Run(g, s0, StepsTo(w.before, slot))
        invariant s == State(Contents(), slot, inFlight, done)
      {
        OneMoreSlot(g, s0, w.before, slot);
        done, s := LetFinish(w.before[slot], record, done, g, s);
        inFlight := TakeSlot(slot, vus, record, inFlight, done);
        s := Next(g, s, Slot);
        done := {};
      }
      RunAppend(g, s0, StepsTo(w.before, slots), Finishes(w.after));
      done, s := LetFinish(w.after, record, done, g, s);
      AfterAll(g, s0.counts, w, slots);
    }
  }

  /** At the end of a schedule nothing is under way. */
  lemma AfterAll(g: Setup, c: Counts, w: Schedule, slots: nat)
    requires Conserved(c, 0) && Follows(g, c, w, slots)
    ensures var s := Run(g, Started(c), Steps(w));
      s.slot == slots
          && (if g.record then Conserved(s.counts, 0) && s.counts.attempted == c.attempted + slots else s.counts == c)
  {
    var s := Run(g, Started(c), Steps(w));
    RunKeepsInv(g, c, Started(c), Steps(w));
    assert s.inFlight - s.done == {};
    SlotsTaken(g, Started(c), w.before, slots);
    RunAppend(g, Started(c), StepsTo(w.before, slots), Finishes(w.after));
    FinishesTakeNoSlot(g, Run(g, Started(c), StepsTo(w.before, slots)), Finishes(w.after));
  }

  lemma {:induction false} FinishesTakeNoSlot(g: Setup, s: State, steps: seq<Step>)
    requires forall i :: 0 <= i < |steps| ==> steps[i].Finish?
    ensures Run(g, s, steps).slot == s.slot
    decreases |steps|
  {
    if steps != [] {
      FinishesTakeNoSlot(g, Next(g, s, steps[0]), steps[1..]);
    }
  }

  lemma {:induction false} SlotsTaken(g: Setup, s: State, before: seq<seq<(nat, Outcome)>>, n: nat)
    requires n <= |before|
    ensures Run(g, s, StepsTo(before, n)).slot == s.slot + n
  {
    if n > 0 {
      SlotsTaken(g, s, before, n - 1);
      OneMoreSlot(g, s, before, n - 1);
      FinishesTakeNoSlot(g, Run(g, s, StepsTo(before, n - 1)), Finishes(before[n - 1]));
    }
  }

  // ---- The report ----------------------------------------------------------------------------------------------

  predicate Sustainable(c: Counts) { c.failures == 0 && c.timeouts == 0 && c.dropped == 0 }

  function AchievedRate(c: Counts, duration: real): real {
    if duration > 0.0 then c.successes as real / duration else 0.0
  }

  predicate TargetMet(c: Counts, rate: int, duration: real) {
    Sustainable(c) && AchievedRate(c, duration) >= rate as real
  }

  function SuccessRate(c: Counts): real { if c.attempted == 0 then 0.0 else c.successes as real / c.attempted as real }

  function ErrorRate(c: Counts): real {
    if c.attempted == 0 then 0.0 else (c.failures + c.dropped) as real / c.attempted as real
  }

  function TimeoutRate(c: Counts): real { if c.attempted == 0 then 0.0 else c.timeouts as real / c.attempted as real }

  /** The counts of a measured run that started from nothing. */
  predicate Measured(c: Counts, rate: int, duration: real) {
    rate > 0 && duration > 0.0 && Conserved(c, 0) && c.attempted == Slots(rate, duration)
  }

  /** Sustainable means that every attempt succeeded. */
  lemma SustainableExactly(c: Counts)
    requires Conserved(c, 0)
    ensures Sustainable(c) <==> c.successes == c.attempted
  {}

  lemma SharesAddUp(a: nat, b: nat, whole: nat)
    requires a + b == whole && whole > 0
    ensures a as real / whole as real + b as real / whole as real == 1.0
  {
    assert a as real / whole as real + b as real / whole as real == (a + b) as real / whole as real;
  }

  /** What the rates are shares of: attempts, and in the case of the achieved rate the time. */
  lemma RatesAreShares(c: Counts, duration: real)
    ensures c.attempted > 0 ==>
      && SuccessRate(c) * c.attempted as real == c.successes as real
      && ErrorRate(c) * c.attempted as real == (c.failures + c.dropped) as real
      && TimeoutRate(c) * c.attempted as real == c.timeouts as real
    ensures c.attempted == 0 ==> SuccessRate(c) == 0.0 && ErrorRate(c) == 0.0 && TimeoutRate(c) == 0.0
    ensures if duration > 0.0 then AchievedRate(c, duration) * duration == c.successes as real
      else AchievedRate(c, duration) == 0.0
  {
    if c.attempted > 0 {
      TimesBack(c.successes as real, c.attempted as real);
      TimesBack((c.failures + c.dropped) as real, c.attempted as real);
      TimesBack(c.timeouts as real, c.attempted as real);
    }
    if duration > 0.0 {
      TimesBack(c.successes as real, duration);
    }
  }

  lemma TimesBack(a: real, d: real)
    requires d != 0.0
    ensures a / d * d == a
  {}

  /** The three rates of the report fit together. */
  lemma RatesFit(c: Counts)
    requires Conserved(c, 0)
    ensures TimeoutRate(c) <= ErrorRate(c)
    ensures c.attempted > 0 ==> SuccessRate(c) + ErrorRate(c) == 1.0
  {
    if c.attempted > 0 {
      SharesAddUp(c.successes, c.failures + c.dropped, c.attempted);
      DividesInOrder(c.timeouts as real, (c.failures + c.dropped) as real, c.attempted as real);
    }
  }

  lemma DividesBack(a: real, r: real, d: real)
    requires d > 0.0
    ensures a <= r * d <==> a / d <= r
    ensures a >= r * d <==> a / d >= r
  {
    assert a == a / d * d;
    if a / d <= r {
      assert a / d * d <= r * d;
    } else {
      assert a / d * d > r * d;
    }
    if a / d >= r {
      assert a / d * d >= r * d;
    } else {
      assert a / d * d < r * d;
    }
  }

  predicate WholeNumber(x: real) { x == x.Floor as real }

  /**
   No run achieves more than its rate, and the target is met exactly when all succeed and no fraction of a slot was
   cut off.
   */
  lemma TargetMetExactly(c: Counts, rate: int, duration: real)
    requires Measured(c, rate, duration)
    ensures AchievedRate(c, duration) <= rate as real
    ensures TargetMet(c, rate, duration) <==> Sustainable(c) && WholeNumber(rate as real * duration)
  {
    var product := rate as real * duration;
    assert product > 0.0;
    SustainableExactly(c);
    DividesBack(c.successes as real, rate as real, duration);
    assert c.attempted as real <= product;
    if TargetMet(c, rate, duration) {
      assert c.successes as real >= product;
      assert c.attempted as real == product;
    }
    if Sustainable(c) && WholeNumber(product) {
      assert c.attempted == product.Floor;
    }
  }
}
