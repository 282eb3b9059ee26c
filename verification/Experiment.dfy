/** The experiment driver: one render-standup-smoketest-run-teardown cycle per setup treatment. */
module Experiment {
  import opened Results
  import opened ExperimentRules

  // ----- one cycle -----

  /** The phase whose exception leaves the driver: anything but a PhaseError, except while rendering. */
  function Crash(s: Settings, t: Treatment): Option<Phase> {
    if !t.render.Done? then None
    else if t.standup.OtherException? then Some(Standup)
    else if t.standup.Done? && t.smoketest.OtherException? then Some(Smoketest)
    else if t.standup.Done? && t.smoketest.Done? && t.run.OtherException? then Some(RunPhase)
    else if !s.skipTeardown && t.teardown.OtherException? then Some(Teardown)
    else None
  }

  function CycleEvents(s: Settings, t: Treatment): seq<Event> {
    var dir := TreatmentDir(s, t);
    var render, standup := Event(Render, dir), Event(Standup, dir);
    var smoketest, run := Event(Smoketest, dir), Event(RunPhase, dir);
    var teardown := if s.skipTeardown then [] else [Event(Teardown, dir)];
    if !t.render.Done? then [render]
    else if t.standup.OtherException? then [render, standup]
    else if t.standup.PhaseError? then [render, standup] + teardown
    else if t.smoketest.OtherException? then [render, standup, smoketest]
    else if t.smoketest.PhaseError? then [render, standup, smoketest] + teardown
    else if t.run.OtherException? then [render, standup, smoketest, run]
    else [render, standup, smoketest, run] + teardown
  }

  function Message(o: Outcome): string {
    match o
    case Done => ""
    case PhaseError(message) => message
    case OtherException(text) => text
  }

  function FailedAt(s: Settings, t: Treatment, phase: Phase, error: string, completed: nat): Record {
    Record(t.name, Failed(phase), error, completed, s.totalRun, TreatmentDir(s, t))
  }

  /** What the summary says of a cycle that did not crash. */
  function CycleRecord(s: Settings, t: Treatment): Record {
    if !t.render.Done? then FailedAt(s, t, Render, Message(t.render), 0)
    else if !t.standup.Done? then FailedAt(s, t, Standup, Message(t.standup), 0)
    else if !t.smoketest.Done? then FailedAt(s, t, Smoketest, Message(t.smoketest), 0)
    else if !t.run.Done? then FailedAt(s, t, RunPhase, Message(t.run), 0)
    else if !s.skipTeardown && Message(t.teardown) != "" then
      FailedAt(s, t, Teardown, Message(t.teardown), s.totalRun)
    else Record(t.name, Success, "", s.totalRun, s.totalRun, TreatmentDir(s, t))
  }

  /** The failures that end the experiment under `stop_on_error`. */
  predicate Stops(t: Treatment) {
    !t.render.Done? || !t.standup.Done? || !t.smoketest.Done? || !t.run.Done?
  }

  // ----- a cycle follows the rules -----

  /** The trace of a cycle is the one trace that follows the rules. */
  lemma CycleExactly(s: Settings, t: Treatment, events: seq<Event>)
    ensures CycleOf(s, t, events) <==> events == CycleEvents(s, t)
  {
    CycleFollowsRules(s, t);
    if CycleOf(s, t, events) {
      OneCycle(s, t, events, CycleEvents(s, t));
    }
  }

  lemma CycleFollowsRules(s: Settings, t: Treatment)
    ensures CycleOf(s, t, CycleEvents(s, t))
  {
    hide TreatmentDir;
    var e := CycleEvents(s, t);
    assert e[0].phase == Render;
    assert t.render.Done? ==> e[1].phase == Standup;
    assert t.render.Done? && t.standup.Done? ==> e[2].phase == Smoketest;
    assert t.render.Done? && t.standup.Done? && t.smoketest.Done? ==> e[3].phase == RunPhase;
    assert Attempted(e, Teardown) <==> e[|e| - 1].phase == Teardown;
    ContainedMeans(e, t);
  }

  lemma ContainedMeans(events: seq<Event>, t: Treatment)
    ensures Contained(events, t) <==>
      && (Attempted(events, Standup) ==> !t.standup.OtherException?)
      && (Attempted(events, Smoketest) ==> !t.smoketest.OtherException?)
      && (Attempted(events, RunPhase) ==> !t.run.OtherException?)
  {
    hide Attempted;
    assert OutcomeOf(t, Standup) == t.standup;
    assert OutcomeOf(t, Smoketest) == t.smoketest && OutcomeOf(t, RunPhase) == t.run;
  }

  lemma OneCycle(s: Settings, t: Treatment, a: seq<Event>, b: seq<Event>)
    requires CycleOf(s, t, a) && CycleOf(s, t, b)
    ensures a == b
  {
    hide TreatmentDir;
    assert forall phase :: Attempted(a, phase) <==> Attempted(b, phase);
    SamePhases(a, b, TreatmentDir(s, t));
  }

  lemma {:induction false} SamePhases(a: seq<Event>, b: seq<Event>, dir: string)
    requires InPhaseOrder(a) && InPhaseOrder(b)
    requires forall e :: e in a || e in b ==> e.workspace == dir
    requires forall phase :: Attempted(a, phase) <==> Attempted(b, phase)
    ensures a == b
  {
    if a == [] || b == [] {
      assert a != [] ==> Attempted(a, a[0].phase);
      assert b != [] ==> Attempted(b, b[0].phase);
    } else {
      assert Attempted(a, a[0].phase) && Attempted(b, b[0].phase);
      assert a[0] in a && b[0] in b;
      var i :| 0 <= i < |b| && b[i].phase == a[0].phase;
      var j :| 0 <= j < |a| && a[j].phase == b[0].phase;
      assert a[0] == b[0];
      RestAttempted(a);
      RestAttempted(b);
      SamePhases(a[1..], b[1..], dir);
    }
  }

  lemma RestAttempted(a: seq<Event>)
    requires InPhaseOrder(a) && a != []
    ensures forall phase :: Attempted(a[1..], phase) <==> Attempted(a, phase) && phase != a[0].phase
    ensures InPhaseOrder(a[1..])
  {
    forall phase ensures Attempted(a[1..], phase) <==> Attempted(a, phase) && phase != a[0].phase {
      if i :| 0 <= i < |a| && a[i].phase == phase {
        assert i > 0 ==> a[1..][i - 1].phase == phase;
      }
    }
  }

  /** An exception leaves the driver exactly if a phase other than the rendering was attempted and raised it. */
  lemma CrashExactly(s: Settings, t: Treatment, events: seq<Event>, phase: Phase)
    requires CycleOf(s, t, events)
    ensures Crash(s, t) == Some(phase) <==>
      phase != Render && Attempted(events, phase) && OutcomeOf(t, phase).OtherException?
  {
    hide TreatmentDir;
  }

  /** The record of a cycle names the first phase that failed, and counts the run if only the teardown did. */
  lemma RecordExactly(s: Settings, t: Treatment, r: Record)
    requires Crash(s, t).None?
    ensures RecordOf(s, t, r) <==> r == CycleRecord(s, t)
  {
    hide TreatmentDir;
    var c := CycleRecord(s, t);
    assert Rank(Render) == 0 && Rank(Standup) == 1 && Rank(Smoketest) == 2 && Rank(RunPhase) == 3;
    forall phase ensures c.status == Failed(phase) <==> FailsFirst(s, t, phase) {
      assert FailsFirst(s, t, phase) ==> !Fails(s, t, Render) || phase == Render;
    }
    if RecordOf(s, t, r) {
      assert r.status.Failed? ==> FailsFirst(s, t, r.status.phase);
    }
  }

  lemma CycleInItsPlace(s: Settings, t: Treatment, events: seq<Event>, records: seq<Record>)
    ensures CycleOf(s, t, (events + CycleEvents(s, t))[|events|..])
    ensures Crash(s, t).None? ==> RecordOf(s, t, (records + [CycleRecord(s, t)])[|records|])
  {
    CycleFollowsRules(s, t);
    if Crash(s, t).None? {
      RecordExactly(s, t, CycleRecord(s, t));
    }
    hide *;
    assert (events + CycleEvents(s, t))[|events|..] == CycleEvents(s, t);
  }

  /** An experiment told to stop does so exactly after a phase before the teardown was attempted and failed. */
  lemma StopsExactly(s: Settings, t: Treatment, events: seq<Event>)
    requires CycleOf(s, t, events)
    ensures Stops(t) <==> exists phase :: phase != Teardown && Attempted(events, phase) && !OutcomeOf(t, phase).Done?
  {
    hide TreatmentDir, InPhaseOrder, Attempted;
  }

  // ----- the whole experiment -----

  /** How many treatments are started: up to the first that crashes, or stops when told to stop. */
  function Started(s: Settings, ts: seq<Treatment>): nat {
    if ts == [] then 0
    else if Crash(s, ts[0]).Some? || (s.stopOnError && Stops(ts[0])) then 1
    else 1 + Started(s, ts[1..])
  }

  /** No exception but a PhaseError (or one while rendering) comes out of the last treatment started. */
  predicate Finishes(s: Settings, ts: seq<Treatment>) {
    var n := Started(s, ts);
    0 < n <= |ts| ==> Crash(s, ts[n - 1]).None?
  }

  function AllEvents(s: Settings, ts: seq<Treatment>): seq<Event> {
    if ts == [] then [] else AllEvents(s, ts[..|ts| - 1]) + CycleEvents(s, ts[|ts| - 1])
  }

  function AllRecords(s: Settings, ts: seq<Treatment>): seq<Record> {
    seq(|ts|, i requires 0 <= i < |ts| => CycleRecord(s, ts[i]))
  }

  lemma OneMoreCycle(s: Settings, ts: seq<Treatment>, i: nat)
    requires i < |ts|
    ensures AllEvents(s, ts[..i + 1]) == AllEvents(s, ts[..i]) + CycleEvents(s, ts[i])
    ensures AllRecords(s, ts[..i + 1]) == AllRecords(s, ts[..i]) + [CycleRecord(s, ts[i])]
    ensures Started(s, ts[i..]) ==
      if Crash(s, ts[i]).Some? || (s.stopOnError && Stops(ts[i])) then 1 else 1 + Started(s, ts[i + 1..])
  {
    assert ts[..i + 1][..i] == ts[..i];
    assert ts[i..][1..] == ts[i + 1..];
  }

  lemma NothingYet(s: Settings, ts: seq<Treatment>)
    ensures AllEvents(s, ts[..0]) == [] && AllRecords(s, ts[..0]) == []
  {}

  /** The trace of an experiment is the one made of cycles that follow the rules, one for each treatment in turn. */
  lemma {:induction false} CyclesExactly(s: Settings, ts: seq<Treatment>, events: seq<Event>)
    ensures CyclesOf(s, ts, events) <==> events == AllEvents(s, ts)
  {
    hide CycleOf, CycleEvents;
    if ts == [] {
      NoCycles(s);
      assert forall pieces: seq<seq<Event>> :: |pieces| == 0 ==> Joined(pieces) == [];
    } else {
      var rest, last := ts[..|ts| - 1], ts[|ts| - 1];
      assert ts == rest + [last];
      CyclesExactly(s, rest, AllEvents(s, rest));
      CycleFollowsRules(s, last);
      AnotherCycle(s, rest, AllEvents(s, rest), last, CycleEvents(s, last));
      if CyclesOf(s, ts, events) {
        var cycle := LastCycle(s, rest, last, events);
        CyclesExactly(s, rest, events[..|events| - |cycle|]);
        CycleExactly(s, last, cycle);
      }
    }
  }

  /** The records of an experiment that no exception left say of each treatment what they have to. */
  lemma RecordsFollowRules(s: Settings, ts: seq<Treatment>)
    ensures |AllRecords(s, ts)| == |ts|
    ensures forall i :: 0 <= i < |ts| && Crash(s, ts[i]).None? ==> RecordOf(s, ts[i], AllRecords(s, ts)[i])
  {
    forall i | 0 <= i < |ts| && Crash(s, ts[i]).None? ensures RecordOf(s, ts[i], AllRecords(s, ts)[i]) {
      RecordExactly(s, ts[i], CycleRecord(s, ts[i]));
    }
  }

  lemma EverythingFollowsRules(s: Settings, ts: seq<Treatment>, n: nat)
    requires n <= |ts|
    ensures CyclesOf(s, ts[..n], AllEvents(s, ts[..n])) && |AllRecords(s, ts[..n])| == n
    ensures forall i :: 0 <= i < n && Crash(s, ts[i]).None? ==> RecordOf(s, ts[i], AllRecords(s, ts[..n])[i])
  {
    hide CyclesOf, RecordOf, Crash, AllRecords, AllEvents;
    CyclesExactly(s, ts[..n], AllEvents(s, ts[..n]));
    RecordsFollowRules(s, ts[..n]);
  }

  lemma NeverTheBase(s: Settings, ts: seq<Treatment>)
    ensures forall t :: t in ts ==> TreatmentDir(s, t) != s.base
  {
    forall t | t in ts ensures TreatmentDir(s, t) != s.base {
      assert |TreatmentDir(s, t)| > |s.base|;
    }
  }

  class Driver {
    var workspace: string  // config.workspace
    var planDir: string    // config.plan_dir
    var events: seq<Event>
    var records: seq<Record>

    constructor (workspace: string, planDir: string)
      ensures this.workspace == workspace && this.planDir == planDir && events == [] && records == []
    {
      this.workspace := workspace;
      this.planDir := planDir;
      events := [];
      records := [];
    }

    method Attempt(phase: Phase)
      modifies this`events
      ensures events == old(events) + [Event(phase, workspace)]
    {
      events := events + [Event(phase, workspace)];
    }

    method Note(r: Record)
      modifies this`records
      ensures records == old(records) + [r]
    {
      records := records + [r];
    }

    /** The cleanup after a failed standup or smoketest: a PhaseError is swallowed. */
    method Cleanup(s: Settings, t: Treatment) returns (crashed: bool)
      modifies this`events
      ensures crashed <==> !s.skipTeardown && t.teardown.OtherException?
      ensures events == old(events) + if s.skipTeardown then [] else [Event(Teardown, workspace)]
    {
      crashed := false;
      if !s.skipTeardown {
        Attempt(Teardown);
        crashed := t.teardown.OtherException?;
      }
    }

    /** What follows a PhaseError of a standup or smoketest: the cleanup, the record, and the question to go on. */
    method CleanUpAfter(s: Settings, t: Treatment, phase: Phase, error: string)
      returns (crash: Option<Phase>, stop: bool)
      requires workspace == TreatmentDir(s, t)
      modifies this`events, this`records
      ensures crash == if !s.skipTeardown && t.teardown.OtherException? then Some(Teardown) else None
      ensures crash.None? ==> stop == s.stopOnError
      ensures events == old(events) + if s.skipTeardown then [] else [Event(Teardown, workspace)]
      ensures records == old(records) + if crash.None? then [FailedAt(s, t, phase, error, 0)] else []
    {
      var crashed := Cleanup(s, t);
      if crashed {
        return Some(Teardown), false;
      }
      Note(Record(t.name, Failed(phase), error, 0, s.totalRun, workspace));
      return None, s.stopOnError;
    }

    /** The last part of the loop body: the run, the teardown and the record of the two. */
    method RunAndTearDown(s: Settings, t: Treatment) returns (crash: Option<Phase>, stop: bool)
      requires workspace == TreatmentDir(s, t) && t.render.Done? && t.standup.Done? && t.smoketest.Done?
      modifies this`events, this`records
      ensures crash == Crash(s, t)
      ensures crash.None? ==> stop == (s.stopOnError && Stops(t))
      ensures events == old(events) + [Event(RunPhase, workspace)]
        + if t.run.OtherException? || s.skipTeardown then [] else [Event(Teardown, workspace)]
      ensures records == old(records) + if crash.None? then [CycleRecord(s, t)] else []
    {
      hide TreatmentDir;
      crash, stop := None, false;
      Attempt(RunPhase);
      if t.run.OtherException? {
        return Some(RunPhase), false;
      }
      var runSucceeded := t.run.Done?;
      var teardownError := "";
      if !s.skipTeardown {
        Attempt(Teardown);
        if t.teardown.OtherException? {
          return Some(Teardown), false;
        }
        if t.teardown.PhaseError? {
          teardownError := t.teardown.message;
        }
      }
      if runSucceeded && teardownError == "" {
        Note(Record(t.name, Success, "", s.totalRun, s.totalRun, workspace));
      } else if runSucceeded {
        Note(Record(t.name, Failed(Teardown), teardownError, s.totalRun, s.totalRun, workspace));
      } else {
        Note(Record(t.name, Failed(RunPhase), t.run.message, 0, s.totalRun, workspace));
      }
      stop := !runSucceeded && s.stopOnError;
    }

    /** The loop body behind a standup that succeeded. */
    method SmoketestAndRun(s: Settings, t: Treatment) returns (crash: Option<Phase>, stop: bool)
      requires workspace == TreatmentDir(s, t) && t.render.Done? && t.standup.Done?
      modifies this`events, this`records
      ensures crash == Crash(s, t)
      ensures crash.None? ==> stop == (s.stopOnError && Stops(t))
      ensures events == old(events) + CycleEvents(s, t)[2..]
      ensures records == old(records) + if crash.None? then [CycleRecord(s, t)] else []
    {
      hide TreatmentDir;
      crash, stop := None, false;
      Attempt(Smoketest);
      if t.smoketest.OtherException? {
        return Some(Smoketest), false;
      }
      if t.smoketest.PhaseError? {
        crash, stop := CleanUpAfter(s, t, Smoketest, t.smoketest.message);
        return;
      }
      crash, stop := RunAndTearDown(s, t);
    }

    /** One pass of the loop; `stop` asks to leave it, and a crash leaves the driver. */
    method Cycle(s: Settings, t: Treatment) returns (crash: Option<Phase>, stop: bool)
      modifies this
      ensures crash == Crash(s, t)
      ensures crash.None? ==> stop == (s.stopOnError && Stops(t))
      ensures events == old(events) + CycleEvents(s, t)
      ensures records == old(records) + if crash.None? then [CycleRecord(s, t)] else []
      ensures CycleOf(s, t, events[|old(events)|..])
      ensures crash.None? ==> |records| == |old(records)| + 1 && RecordOf(s, t, records[|old(records)|])
      ensures workspace == TreatmentDir(s, t) && planDir == TreatmentDir(s, t) + "/plan"
    {
      hide TreatmentDir, CycleOf, RecordOf;
      CycleInItsPlace(s, t, events, records);
      workspace := TreatmentDir(s, t);
      planDir := TreatmentDir(s, t) + "/plan";
      crash, stop := None, false;
      Attempt(Render);
      if !t.render.Done? {
        Note(Record(t.name, Failed(Render), Message(t.render), 0, s.totalRun, workspace));
        return None, s.stopOnError;
      }
      Attempt(Standup);
      if t.standup.OtherException? {
        return Some(Standup), false;
      }
      if t.standup.PhaseError? {
        crash, stop := CleanUpAfter(s, t, Standup, t.standup.message);
        return;
      }
      crash, stop := SmoketestAndRun(s, t);
    }

    method ExecuteExperiment(s: Settings, ts: seq<Treatment>) returns (crash: Option<Phase>)
      requires s.base == workspace && s.basePlan == planDir && events == [] && records == []
      modifies this
      ensures crash.None? <==> Finishes(s, ts)
      ensures workspace == s.base <==> Finishes(s, ts)
      ensures var n := Started(s, ts);
        && n <= |ts|
        && events == AllEvents(s, ts[..n]) && CyclesOf(s, ts[..n], events)
        && |records| == (if crash.None? then n else n - 1)
        && (forall i :: 0 <= i < |records| ==> RecordOf(s, ts[i], records[i]))
        && (crash.Some? ==> n > 0 && crash == Crash(s, ts[n - 1]) && records == AllRecords(s, ts[..n - 1])
                            && workspace == TreatmentDir(s, ts[n - 1]) && planDir == workspace + "/plan")
        && (crash.None? ==> (forall i :: 0 <= i < n ==> Crash(s, ts[i]).None?) && records == AllRecords(s, ts[..n])
                            && workspace == s.base && planDir == s.basePlan)
    {
      hide TreatmentDir, Crash, Stops, CycleEvents, CycleRecord, AllEvents, AllRecords, CyclesOf, CycleOf, RecordOf;
      NothingYet(s, ts);
      EverythingFollowsRules(s, ts, 0);
      NeverTheBase(s, ts);
      var i := 0;
      while i < |ts|
        invariant 0 <= i <= |ts|
        invariant Started(s, ts) == i + Started(s, ts[i..])
        invariant events == AllEvents(s, ts[..i]) && records == AllRecords(s, ts[..i])
        invariant CyclesOf(s, ts[..i], events)
        invariant |records| == i && forall j :: 0 <= j < i ==> RecordOf(s, ts[j], records[j])
        invariant forall j :: 0 <= j < i ==> Crash(s, ts[j]).None?
      {
        var c, stop := Cycle(s, ts[i]);
        OneMoreCycle(s, ts, i);
        EverythingFollowsRules(s, ts, i + 1);
        if c.Some? {
          return c;
        }
        i := i + 1;
        if stop {
          break;
        }
      }
      workspace := s.base;
      planDir := s.basePlan;
      crash := None;
    }
  }
}
