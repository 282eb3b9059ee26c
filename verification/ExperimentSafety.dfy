/** What every run of an experiment satisfies, over all phase outcomes. */
module ExperimentSafety {
  import opened Results
  import opened ExperimentRules
  import opened Experiment

  ghost function Attempts(events: seq<Event>, phase: Phase): nat {
    if events == [] then 0
    else Attempts(events[..|events| - 1], phase) + (if events[|events| - 1].phase == phase then 1 else 0)
  }

  /** At every moment the teardowns attempted are as many as the standups, or one fewer. */
  ghost predicate Alternating(events: seq<Event>) {
    forall n :: 0 <= n <= |events| ==>
      Attempts(events[..n], Teardown) <= Attempts(events[..n], Standup) <= Attempts(events[..n], Teardown) + 1
  }

  ghost predicate Balanced(events: seq<Event>) {
    Attempts(events, Standup) == Attempts(events, Teardown)
  }

  lemma {:induction false} AttemptsAppend(a: seq<Event>, b: seq<Event>, phase: Phase)
    ensures Attempts(a + b, phase) == Attempts(a, phase) + Attempts(b, phase)
  {
    if b == [] {
      assert a + b == a;
    } else {
      assert (a + b)[..|a + b| - 1] == a + b[..|b| - 1];
      AttemptsAppend(a, b[..|b| - 1], phase);
    }
  }

  lemma AppendAlternating(a: seq<Event>, b: seq<Event>)
    requires Alternating(a) && Balanced(a) && Alternating(b)
    ensures Alternating(a + b) && (Balanced(a + b) <==> Balanced(b))
  {
    forall n | 0 <= n <= |a + b|
      ensures var p := (a + b)[..n];
        Attempts(p, Teardown) <= Attempts(p, Standup) <= Attempts(p, Teardown) + 1
    {
      if n <= |a| {
        assert (a + b)[..n] == a[..n];
      } else {
        assert (a + b)[..n] == a + b[..n - |a|];
        AttemptsAppend(a, b[..n - |a|], Teardown);
        AttemptsAppend(a, b[..n - |a|], Standup);
      }
    }
    AttemptsAppend(a, b, Teardown);
    AttemptsAppend(a, b, Standup);
  }

  /** The phases a cycle can run through, one after the other. */
  lemma CycleAlternates(s: Settings, t: Treatment)
    requires !s.skipTeardown
    ensures Alternating(CycleEvents(s, t))
    ensures Balanced(CycleEvents(s, t)) <==> Crash(s, t).None? || Crash(s, t) == Some(Teardown)
  {
    var e := CycleEvents(s, t);
    forall n | 0 <= n <= |e|
      ensures Attempts(e[..n], Standup) == (if n >= 2 then 1 else 0)
      ensures Attempts(e[..n], Teardown) == (if n > 0 && e[n - 1].phase == Teardown then 1 else 0)
    {
      PrefixAttempts(e, n);
    }
    assert e[..|e|] == e;
  }

  lemma {:induction false} PrefixAttempts(e: seq<Event>, n: nat)
    requires n <= |e|
    requires forall i :: 0 <= i < |e| ==> (e[i].phase == Standup <==> i == 1)
    requires forall i :: 0 <= i < |e| && e[i].phase == Teardown ==> i == |e| - 1
    ensures Attempts(e[..n], Standup) == (if n >= 2 then 1 else 0)
    ensures Attempts(e[..n], Teardown) == (if n > 0 && e[n - 1].phase == Teardown then 1 else 0)
  {
    if n > 0 {
      PrefixAttempts(e, n - 1);
      assert e[..n][..n - 1] == e[..n - 1];
    }
  }

  /**
   With teardown enabled, every standup attempt is followed by exactly one teardown attempt before
   the next standup; the last one too, unless something other than a PhaseError (or the teardown
   itself) ended the experiment in between.
   */
  lemma {:induction false} StandupThenTeardown(s: Settings, ts: seq<Treatment>, n: nat)
    requires !s.skipTeardown && n <= |ts|
    requires forall i :: 0 <= i < n - 1 ==> Crash(s, ts[i]).None?
    ensures Alternating(AllEvents(s, ts[..n]))
    ensures Balanced(AllEvents(s, ts[..n])) <==>
      n == 0 || Crash(s, ts[n - 1]).None? || Crash(s, ts[n - 1]) == Some(Teardown)
  {
    if n > 0 {
      StandupThenTeardown(s, ts, n - 1);
      OneMoreCycle(s, ts, n - 1);
      CycleAlternates(s, ts[n - 1]);
      AppendAlternating(AllEvents(s, ts[..n - 1]), CycleEvents(s, ts[n - 1]));
    }
  }

  lemma {:induction false} SkippedTeardownNeverHappens(s: Settings, ts: seq<Treatment>)
    requires s.skipTeardown
    ensures forall e :: e in AllEvents(s, ts) ==> e.phase != Teardown
  {
    if ts != [] {
      SkippedTeardownNeverHappens(s, ts[..|ts| - 1]);
    }
  }

  ghost function Workspaces(s: Settings, ts: seq<Treatment>): set<string> {
    set t | t in ts :: TreatmentDir(s, t)
  }

  /** Every phase runs with the configuration pointing into the workspace of a treatment started. */
  lemma {:induction false} PhasesRunAtHome(s: Settings, ts: seq<Treatment>)
    ensures forall e :: e in AllEvents(s, ts) ==> e.workspace in Workspaces(s, ts)
  {
    if ts != [] {
      var rest, last := ts[..|ts| - 1], ts[|ts| - 1];
      PhasesRunAtHome(s, rest);
      assert forall w :: w in Workspaces(s, rest) ==> w in Workspaces(s, ts);
      assert TreatmentDir(s, last) in Workspaces(s, ts);
      CycleAtHome(s, last);
      hide CycleEvents, Workspaces;
    }
  }

  /** Two treatments share a workspace exactly if they share their name. */
  lemma OwnWorkspaces(s: Settings, t: Treatment, u: Treatment)
    ensures TreatmentDir(s, t) == TreatmentDir(s, u) <==> t.name == u.name
  {
    var before := s.base + "/setup-treatment-";
    assert TreatmentDir(s, t)[|before|..] == t.name && TreatmentDir(s, u)[|before|..] == u.name;
  }

  lemma CycleAtHome(s: Settings, t: Treatment)
    ensures forall e :: e in CycleEvents(s, t) ==> e.workspace == TreatmentDir(s, t)
  {
    hide TreatmentDir;
  }

  /** Which treatments are started: all before the last one started went on, and the last one ended it. */
  lemma {:induction false} StartedExactly(s: Settings, ts: seq<Treatment>)
    ensures Started(s, ts) <= |ts|
    ensures forall i :: 0 <= i < Started(s, ts) - 1 ==> Crash(s, ts[i]).None? && !(s.stopOnError && Stops(ts[i]))
    ensures Started(s, ts) < |ts| ==>
      var last := Started(s, ts) - 1;
      last >= 0 && (Crash(s, ts[last]).Some? || (s.stopOnError && Stops(ts[last])))
  {
    if ts != [] && !(Crash(s, ts[0]).Some? || (s.stopOnError && Stops(ts[0]))) {
      StartedExactly(s, ts[1..]);
    }
  }

  /** A success is recorded exactly when every phase succeeded, an unworded teardown failure aside. */
  lemma SuccessMeansAllDone(s: Settings, t: Treatment)
    requires Crash(s, t).None?
    ensures CycleRecord(s, t).status == Success <==>
      && t.render.Done? && t.standup.Done? && t.smoketest.Done? && t.run.Done?
      && (s.skipTeardown || t.teardown.Done? || t.teardown == PhaseError(""))
    ensures CycleRecord(s, t).status != Success && CycleRecord(s, t).status != Failed(Teardown) <==> Stops(t)
  {}

  /**
   With `stop_on_error` every record before the last is a success or a failed teardown; without it
   every treatment is recorded, in order, unless the experiment crashed.
   */
  lemma {:induction false} RecordsOfARun(s: Settings, ts: seq<Treatment>, n: nat, records: seq<Record>)
    requires n == Started(s, ts) && n <= |ts| && records == AllRecords(s, ts[..n])
    requires forall i :: 0 <= i < n ==> Crash(s, ts[i]).None?
    ensures |records| == n
    ensures forall i :: 0 <= i < n ==> records[i].treatment == ts[i].name
    ensures s.stopOnError ==>
      forall i :: 0 <= i < n - 1 ==> records[i].status == Success || records[i].status == Failed(Teardown)
    ensures !s.stopOnError ==> n == |ts|
    ensures n < |ts| ==> n > 0 && records[n - 1].status != Success && records[n - 1].status != Failed(Teardown)
  {
    StartedExactly(s, ts);
    forall i | 0 <= i < n
      ensures records[i].treatment == ts[i].name
      ensures records[i].status != Success && records[i].status != Failed(Teardown) <==> Stops(ts[i])
    {
      SuccessMeansAllDone(s, ts[i]);
    }
  }

  /**
   An exception of the run phase that is no PhaseError: the standup gets no teardown, and the
   experiment does not finish, so the workspace is not restored (ExecuteExperiment).
   */
  lemma RunExceptionSkipsTeardown(s: Settings, name: string, text: string)
    requires !s.skipTeardown
    ensures var t := Treatment(name, Done, Done, Done, OtherException(text), Done);
      && Crash(s, t) == Some(RunPhase)
      && AllEvents(s, [t]) == CycleEvents(s, t) && !Balanced(AllEvents(s, [t]))
      && !Finishes(s, [t])
  {
    var t := Treatment(name, Done, Done, Done, OtherException(text), Done);
    StandupThenTeardown(s, [t], 1);
    assert [t][..1] == [t] && [t][..0] == [];
    OneMoreCycle(s, [t], 0);
    assert AllEvents(s, [t][..0]) + CycleEvents(s, t) == CycleEvents(s, t);
    assert [t][0..] == [t];
  }
}
