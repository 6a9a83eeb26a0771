/**
 The crash-consistent report of a long benchmark run: phase files and a summary, each replaced atomically.

 The directory is part of the model, and so is every intermediate directory a crash could leave behind:
 only four methods change the directory, and each adds what it leaves to `history`.
 */
module RunReport {
  import opened Common

  const SUMMARY := "summary.json"

  /** A phase as a dictionary; its entry "phase" is its name. */
  type Doc = map<string, string>

  datatype Status = Running | Completed | Failed | Interrupted

  datatype Acceptance = Acceptance(passed: bool, evaluated: bool)

  datatype State = State(status: Status, stage: string, phases: seq<Doc>, acceptance: Acceptance,
      currentPhase: Option<Doc>, error: Option<string>)

  datatype Content = Partial | PhaseFile(doc: Doc) | Summary(state: State)

  /** Files under their own names, and temporary files. */
  datatype Disk = Disk(named: map<string, Content>, temps: map<nat, Content>)

  /** `OtherError` is any exception that is not an OSError, such as a value that cannot be encoded. */
  datatype Problem = OsError | OtherError | NoActivePhase | NoPhaseName

  function FileName(name: string): string { name + ".json" }

  lemma FilesExactly(d: Doc)
    requires "phase" in d
    ensures SUMMARY == "summary.json" && HasName(d) && FileName(NameOf(d)) == d["phase"] + ".json"
  {
  }

  predicate HasName(d: Doc) { "phase" in d }

  function NameOf(d: Doc): string
    requires HasName(d)
  {
    d["phase"]
  }

  // ---- What a reader finds after a crash ------------------------------------------------------------------

  /** Each phase in the list has its file, with the same content. */
  predicate PhasesOnDisk(named: map<string, Content>, phases: seq<Doc>) {
    forall i :: 0 <= i < |phases| ==>
      HasName(phases[i]) && FileName(NameOf(phases[i])) in named
          && named[FileName(NameOf(phases[i]))] == PhaseFile(phases[i])
  }

  /** A state that may be shown: acceptance passed only when the run is completed. */
  predicate Honest(s: State) { s.acceptance.passed ==> s.status.Completed? }

  /** The summary, if there is one, is a complete snapshot that was saved, is honest, and its phases are on disk. */
  predicate CrashSafe(d: Disk, saved: seq<State>) {
    SUMMARY in d.named ==>
      && d.named[SUMMARY].Summary?
      && d.named[SUMMARY].state in saved
      && Honest(d.named[SUMMARY].state)
      && PhasesOnDisk(d.named, d.named[SUMMARY].state.phases)
  }

  predicate AllCrashSafe(history: seq<Disk>, saved: seq<State>) {
    forall i :: 0 <= i < |history| ==> CrashSafe(history[i], saved)
  }

  /** A name whose file no finished phase and not the summary has. */
  predicate FreshName(phases: seq<Doc>, name: string) {
    && FileName(name) != SUMMARY
    && forall i :: 0 <= i < |phases| ==> HasName(phases[i]) && NameOf(phases[i]) != name
  }

  lemma FileNamesDiffer(a: string, b: string)
    requires a != b
    ensures FileName(a) != FileName(b)
  {
    if |a| == |b| {
      var i :| 0 <= i < |a| && a[i] != b[i];
      assert FileName(a)[i] != FileName(b)[i];
    }
  }

  /**
   Exactly when replacing a phase file is safe: it must not be the summary's own name, and no phase listed
   in the summary may have that name with another content.
   */
  lemma PhaseWriteSafeExactly(d: Disk, saved: seq<State>, name: string, doc: Doc)
    requires CrashSafe(d, saved) && SUMMARY in d.named
    ensures var s := d.named[SUMMARY].state;
      CrashSafe(Disk(d.named[FileName(name) := PhaseFile(doc)], d.temps), saved)
      <==> FileName(name) != SUMMARY && forall i :: 0 <= i < |s.phases| ==>
          NameOf(s.phases[i]) != name || s.phases[i] == doc
  {
    var s := d.named[SUMMARY].state;
    var named := d.named[FileName(name) := PhaseFile(doc)];
    if FileName(name) != SUMMARY {
      forall i | 0 <= i < |s.phases|
        ensures (FileName(NameOf(s.phases[i])) in named
            && named[FileName(NameOf(s.phases[i]))] == PhaseFile(s.phases[i]))
          <==> (NameOf(s.phases[i]) != name || s.phases[i] == doc)
      {
        if NameOf(s.phases[i]) != name {
          FileNamesDiffer(NameOf(s.phases[i]), name);
        }
      }
      assert PhasesOnDisk(named, s.phases) <==>
          forall i :: 0 <= i < |s.phases| ==> NameOf(s.phases[i]) != name || s.phases[i] == doc;
    }
  }

  lemma FreshKeepsPhases(named: map<string, Content>, phases: seq<Doc>, name: string, doc: Doc)
    requires PhasesOnDisk(named, phases) && FreshName(phases, name)
    ensures PhasesOnDisk(named[FileName(name) := PhaseFile(doc)], phases)
  {
    forall i | 0 <= i < |phases|
      ensures FileName(NameOf(phases[i])) != FileName(name)
    {
      FileNamesDiffer(NameOf(phases[i]), name);
    }
  }

  /** Replacing the summary keeps the phase files, as none of them has its name. */
  lemma SummaryKeepsPhases(named: map<string, Content>, phases: seq<Doc>, s: State)
    requires PhasesOnDisk(named, phases) && (SUMMARY in named ==> named[SUMMARY].Summary?)
    ensures PhasesOnDisk(named[SUMMARY := Summary(s)], phases)
  {}

  lemma SavedGrows(history: seq<Disk>, saved: seq<State>, s: State)
    requires AllCrashSafe(history, saved)
    ensures AllCrashSafe(history, saved + [s])
  {
    assert forall t :: t in saved ==> t in saved + [s];
  }

  /** Every step of an atomic write shows the named files as they were or as they will be. */
  predicate Between(step: Disk, before: map<string, Content>, target: string, value: Content) {
    step.named == before || step.named == before[target := value]
  }

  lemma PhaseStepsSafe(earlier: seq<Disk>, history: seq<Disk>, before: Disk, saved: seq<State>, phases: seq<Doc>,
      name: string, doc: Doc)
    requires AllCrashSafe(earlier, saved) && CrashSafe(before, saved) && earlier <= history
    requires PhasesOnDisk(before.named, phases) && FreshName(phases, name)
    requires SUMMARY in before.named ==> before.named[SUMMARY].Summary? && before.named[SUMMARY].state.phases <= phases
    requires forall i :: |earlier| <= i < |history| ==>
        Between(history[i], before.named, FileName(name), PhaseFile(doc))
    ensures AllCrashSafe(history, saved)
    ensures PhasesOnDisk(before.named[FileName(name) := PhaseFile(doc)], phases)
  {
    FreshKeepsPhases(before.named, phases, name, doc);
    if SUMMARY in before.named {
      FreshKeepsPhases(before.named, before.named[SUMMARY].state.phases, name, doc);
    }
    forall i | 0 <= i < |history|
      ensures CrashSafe(history[i], saved)
    {
      if i < |earlier| {
        assert history[i] == earlier[i];
      } else {
        assert Between(history[i], before.named, FileName(name), PhaseFile(doc));
      }
    }
  }

  lemma SummaryStepsSafe(earlier: seq<Disk>, history: seq<Disk>, before: Disk, saved: seq<State>, s: State)
    requires AllCrashSafe(earlier, saved) && CrashSafe(before, saved) && earlier <= history
    requires PhasesOnDisk(before.named, s.phases) && Honest(s) && s in saved
    requires forall i :: |earlier| <= i < |history| ==> Between(history[i], before.named, SUMMARY, Summary(s))
    ensures AllCrashSafe(history, saved)
    ensures PhasesOnDisk(before.named[SUMMARY := Summary(s)], s.phases)
  {
    SummaryKeepsPhases(before.named, s.phases, s);
    forall i | 0 <= i < |history|
      ensures CrashSafe(history[i], saved)
    {
      if i < |earlier| {
        assert history[i] == earlier[i];
      } else {
        assert Between(history[i], before.named, SUMMARY, Summary(s));
      }
    }
  }

  /** A name for a temporary file that no other has. */
  lemma UnusedId(used: set<nat>) returns (id: nat)
    ensures forall k :: k in used ==> k < id
  {
    if used == {} {
      id := 0;
    } else {
      var k :| k in used;
      var rest := UnusedId(used - {k});
      id := if k < rest then rest else k + 1;
      assert used == (used - {k}) + {k};
    }
  }

  // ---- The report ----------------------------------------------------------------------------------------------

  class Report {
    var disk: Disk
    var state: State
    var phase: Option<Doc>
    ghost var history: seq<Disk>
    ghost var saved: seq<State>

    /** The directory is the last one in the history, and the active phase has a name. */
    ghost predicate Valid()
      reads this
    {
      && history != [] && history[|history| - 1] == disk
      && (phase.Some? ==> HasName(phase.value))
    }

    /** Every directory so far is crash-safe, and no file that the summary needs will be written again. */
    ghost predicate Safe()
      reads this
    {
      && Valid() && AllCrashSafe(history, saved) && Honest(state)
      && PhasesOnDisk(disk.named, state.phases)
      && (SUMMARY in disk.named ==> disk.named[SUMMARY].Summary? && disk.named[SUMMARY].state.phases <= state.phases)
      && (phase.Some? ==> FreshName(state.phases, NameOf(phase.value)))
    }

    constructor (disk: Disk)
      ensures Valid() && this.disk == disk && history == [disk] && saved == [] && phase.None? && state.phases == []
      ensures state == State(Running, "preparing", [], Acceptance(false, false), None, None)
      ensures SUMMARY !in disk.named ==> Safe()
    {
      this.disk := disk;
      state := State(Running, "preparing", [], Acceptance(false, false), None, None);
      phase := None;
      history := [disk];
      saved := [];
    }

    // The steps on the file system. Each leaves one more directory that a crash could leave behind.

    method CreateTemp() returns (id: nat)
      modifies this`disk, this`history
      ensures id !in old(disk).temps && disk == Disk(old(disk).named, old(disk).temps[id := Partial])
      ensures history == old(history) + [disk]
    {
      ghost var unused := UnusedId(disk.temps.Keys);
      assert unused !in disk.temps;
      id :| id !in disk.temps;
      disk := Disk(disk.named, disk.temps[id := Partial]);
      history := history + [disk];
    }

    method FillTemp(id: nat, value: Content)
      requires id in disk.temps
      modifies this`disk, this`history
      ensures disk == Disk(old(disk).named, old(disk).temps[id := value]) && history == old(history) + [disk]
    {
      disk := Disk(disk.named, disk.temps[id := value]);
      history := history + [disk];
    }

    /** Replaces the target by the temporary file in one step. */
    method MoveTemp(id: nat, target: string)
      requires id in disk.temps
      modifies this`disk, this`history
      ensures disk == Disk(old(disk).named[target := old(disk).temps[id]], old(disk).temps - {id})
          && history == old(history) + [disk]
    {
      disk := Disk(disk.named[target := disk.temps[id]], disk.temps - {id});
      history := history + [disk];
    }

    method RemoveTemp(id: nat)
      modifies this`disk, this`history
      ensures disk == Disk(old(disk).named, old(disk).temps - {id}) && history == old(history) + [disk]
    {
      disk := Disk(disk.named, disk.temps - {id});
      history := history + [disk];
    }

    /** Creates a temporary file, fills it bit by bit, moves it over the target; any step may fail or be the last. */
    method WriteJsonAtomic(target: string, value: Content) returns (problem: Option<Problem>)
      requires history != [] && history[|history| - 1] == disk
      modifies this`disk, this`history
      ensures old(history) <= history && history[|history| - 1] == disk
      ensures forall i :: |old(history)| <= i < |history| ==> Between(history[i], old(disk).named, target, value)
      ensures disk.named == if problem.None? then old(disk).named[target := value] else old(disk).named
      ensures problem.None? ==> disk.temps == old(disk).temps
      ensures problem.Some? ==> problem.value in {OsError, OtherError}
    {
      if * {
        return Some(OsError);  // no temporary file
      }
      var id := CreateTemp();
      var failed: Option<Problem> := *;
      if failed.Some? {
        problem := if failed.value.OtherError? then failed else Some(OsError);
      } else {
        FillTemp(id, value);
        if * {
          MoveTemp(id, target);
          problem := None;
        } else {
          problem := Some(OsError);
        }
      }
      if id in disk.temps {
        if * {
          RemoveTemp(id);
        } else {
          problem := Some(OsError);
        }
      }
    }

    /** First the file of the active phase, then the summary. */
    method Save() returns (problem: Option<Problem>)
      requires Valid()
      modifies this
      ensures Valid() && phase == old(phase) && state == old(state).(currentPhase := phase)
      ensures old(history) <= history && old(saved) <= saved
      ensures old(Safe()) ==> Safe()
      ensures problem.None? ==> Shown()
      ensures problem.Some? ==> problem.value in {OsError, OtherError}
    {
      ghost var safe := Safe();
      state := state.(currentPhase := phase);
      if phase.Some? {
        var name := NameOf(phase.value);
        ghost var before := disk;
        problem := WriteJsonAtomic(FileName(name), PhaseFile(phase.value));
        if safe {
          PhaseStepsSafe(old(history), history, before, saved, state.phases, name, phase.value);
        }
        if problem.Some? {
          return;
        }
      }
      ghost var before := disk;
      ghost var earlier := history;
      if safe {
        SavedGrows(history, saved, state);
      }
      saved := saved + [state];
      problem := WriteJsonAtomic(SUMMARY, Summary(state));
      if safe {
        SummaryStepsSafe(earlier, history, before, saved, state);
      }
    }

    /** What is on disk is what is in memory; a phase file with the name of the summary has been written over. */
    ghost predicate Shown()
      reads this
    {
      && SUMMARY in disk.named && disk.named[SUMMARY] == Summary(state) && state.currentPhase == phase
      && (phase.Some? ==>
            && HasName(phase.value)
            && var file := FileName(NameOf(phase.value));
            file != SUMMARY ==> file in disk.named && disk.named[file] == PhaseFile(phase.value))
    }

    /** Entering the run: the report of a run that is being prepared is there from the start. */
    method Enter() returns (problem: Option<Problem>)
      requires Valid()
      modifies this
      ensures Valid() && phase == old(phase) && state == old(state).(currentPhase := phase)
      ensures (old(Safe()) ==> Safe()) && (problem.None? ==> Shown())
      ensures problem.Some? ==> problem.value in {OsError, OtherError}
    {
      problem := Save();
    }

    method Stage(name: string) returns (problem: Option<Problem>)
      requires Valid()
      modifies this
      ensures Valid() && (old(Safe()) ==> Safe()) && (problem.None? ==> Shown())
      ensures phase == if old(phase).Some? then Some(old(phase).value["stage" := name]) else None
      ensures state == old(state).(stage := name, currentPhase := phase)
    {
      state := state.(stage := name);
      if phase.Some? {
        phase := Some(phase.value["stage" := name]);
      }
      problem := Save();
    }

    /** Every directory stays crash-safe if the name is new: if no file of a finished phase is written again. */
    method StartPhase(name: string, description: string) returns (problem: Option<Problem>)
      requires Valid()
      modifies this
      ensures Valid() && (old(Safe()) && FreshName(old(state).phases, name) ==> Safe()) && (problem.None? ==> Shown())
      ensures phase
          == Some(map["phase" := name, "description" := description, "status" := "running",
          "stage" := "database_reset"])
      ensures state == old(state).(stage := "database_reset", currentPhase := phase)
    {
      phase := Some(map["phase" := name, "description" := description, "status" := "running"]);
      problem := Stage("database_reset");
    }

    method UpdatePhase(values: Doc) returns (problem: Option<Problem>)
      requires Valid()
      modifies this
      ensures Valid()
      ensures old(Safe()) && (HasName(values) ==> FreshName(old(state).phases, NameOf(values))) ==> Safe()
      ensures old(phase).None? ==>
        problem == Some(NoActivePhase) && disk == old(disk) && state == old(state) && phase.None?
      ensures old(phase).Some? ==>
        && phase == Some(old(phase).value + values) && state == old(state).(currentPhase := phase)
        && (problem.None? ==> Shown())
    {
      if phase.None? {
        return Some(NoActivePhase);
      }
      phase := Some(phase.value + values);
      problem := Save();
    }

    /** The file of the finished phase is on disk before the summary lists it. */
    method FinishPhase(result: Doc) returns (problem: Option<Problem>)
      requires Valid()
      modifies this
      ensures Valid() && (problem.None? ==> Shown())
      ensures old(Safe()) && (HasName(result) ==> FreshName(old(state).phases, NameOf(result))) ==> Safe()
      ensures problem.None? ==> phase.None? && |state.phases| == |old(state).phases| + 1
      ensures state == old(state) ||
        state == old(state).(phases := old(state).phases + [result["status" := "completed"]], currentPhase := None)
      ensures !HasName(result) ==> problem == Some(NoPhaseName) && disk == old(disk) && state == old(state)
    {
      var completed := result["status" := "completed"];
      if !HasName(result) {
        return Some(NoPhaseName);
      }
      var name := NameOf(result);
      ghost var before := disk;
      ghost var safe := Safe() && FreshName(state.phases, name);
      problem := WriteJsonAtomic(FileName(name), PhaseFile(completed));
      if safe {
        PhaseStepsSafe(old(history), history, before, saved, state.phases, name, completed);
      }
      if problem.Some? {
        return;
      }
      state := state.(phases := state.phases + [completed]);
      phase := None;
      problem := Save();
    }

    method Finish(acceptance: Acceptance) returns (problem: Option<Problem>)
      requires Valid()
      modifies this
      ensures Valid() && (old(Safe()) ==> Safe()) && (problem.None? ==> Shown())
      ensures phase == old(phase)
      ensures state
          == old(state).(status := Completed, stage := "finished", acceptance := acceptance, currentPhase := phase)
    {
      state := state.(status := Completed, stage := "finished", acceptance := acceptance);
      problem := Save();
    }

    /**
     Leaving the run; with an exception the report says so and takes any acceptance back. A failing disk is ignored.
     */
    method Exit(exc: Option<string>, interrupted: bool) returns (problem: Option<Problem>)
      requires Valid()
      modifies this
      ensures Valid() && (old(Safe()) ==> Safe()) && problem != Some(OsError)
      ensures exc.None? ==> problem.None? && state == old(state) && disk == old(disk) && phase == old(phase)
      ensures exc.Some? ==>
        state == old(state).(status := if interrupted then Interrupted else Failed, error := exc,
                             acceptance := Acceptance(false, false), currentPhase := phase)
      ensures exc.Some? ==>
        phase == if old(phase).None? then None
                 else Some(old(phase).value["status" := if interrupted then "interrupted" else "failed"]
                           ["error" := exc.value])
    {
      if exc.None? {
        return None;
      }
      var status := if interrupted then Interrupted else Failed;
      state := state.(status := status, error := exc, acceptance := Acceptance(false, false));
      if phase.Some? {
        phase := Some(phase.value["status" := StatusWord(state.status)]["error" := exc.value]);
      }
      problem := Save();
      if problem == Some(OsError) {
        problem := None;
      }
    }
  }

  function StatusWord(s: Status): string {
    match s
    case Running => "running"
    case Completed => "completed"
    case Failed => "failed"
    case Interrupted => "interrupted"
  }
}
