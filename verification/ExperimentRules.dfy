/** What a cycle may attempt and what its record says, from the outcomes of its phases alone. */
module ExperimentRules {

  datatype Phase = Render | Standup | Smoketest | RunPhase | Teardown

  /** How a phase ends: it returns, raises PhaseError, or raises anything else. */
  datatype Outcome = Done | PhaseError(message: string) | OtherException(text: string)

  datatype Treatment = Treatment(
    name: string, render: Outcome, standup: Outcome, smoketest: Outcome, run: Outcome, teardown: Outcome)

  datatype Settings = Settings(base: string, basePlan: string, stopOnError: bool, skipTeardown: bool, totalRun: nat)

  /** A phase attempted, with the workspace the configuration pointed at. */
  datatype Event = Event(phase: Phase, workspace: string)

  datatype Status = Success | Failed(phase: Phase)

  datatype Record = Record(treatment: string, status: Status, error: string, runCompleted: nat, runTotal: nat,
                           workspaceDir: string)

  function TreatmentDir(s: Settings, t: Treatment): string {
    s.base + "/setup-treatment-" + t.name
  }

  // ----- the trace of a cycle -----

  /** The fixed order of the phases. */
  function Rank(phase: Phase): nat {
    match phase
    case Render => 0
    case Standup => 1
    case Smoketest => 2
    case RunPhase => 3
    case Teardown => 4
  }

  function OutcomeOf(t: Treatment, phase: Phase): Outcome {
    match phase
    case Render => t.render
    case Standup => t.standup
    case Smoketest => t.smoketest
    case RunPhase => t.run
    case Teardown => t.teardown
  }

  predicate Attempted(events: seq<Event>, phase: Phase) {
    exists i :: 0 <= i < |events| && events[i].phase == phase
  }

  /** Each phase at most once, in the fixed order. */
  predicate InPhaseOrder(events: seq<Event>) {
    forall i, j :: 0 <= i < j < |events| ==> Rank(events[i].phase) < Rank(events[j].phase)
  }

  /** Nothing but a PhaseError has come out of the phases attempted before the teardown. */
  predicate Contained(events: seq<Event>, t: Treatment) {
    forall phase :: phase != Render && phase != Teardown && Attempted(events, phase) ==>
      !OutcomeOf(t, phase).OtherException?
  }

  /** The trace of one cycle. */
  predicate CycleOf(s: Settings, t: Treatment, events: seq<Event>) {
    && InPhaseOrder(events)
    && (forall i :: 0 <= i < |events| ==> events[i].workspace == TreatmentDir(s, t))
    && Attempted(events, Render)
    && (Attempted(events, Standup) <==> t.render.Done?)
    && (Attempted(events, Smoketest) <==> t.render.Done? && t.standup.Done?)
    && (Attempted(events, RunPhase) <==> t.render.Done? && t.standup.Done? && t.smoketest.Done?)
    && (Attempted(events, Teardown) <==> !s.skipTeardown && Attempted(events, Standup) && Contained(events, t))
  }

  function Joined(pieces: seq<seq<Event>>): seq<Event> {
    if pieces == [] then [] else Joined(pieces[..|pieces| - 1]) + pieces[|pieces| - 1]
  }

  /** One cycle after the other, for these treatments. */
  ghost predicate CyclesOf(s: Settings, ts: seq<Treatment>, events: seq<Event>) {
    exists pieces ::
      && |pieces| == |ts| && Joined(pieces) == events
      && forall i :: 0 <= i < |ts| ==> CycleOf(s, ts[i], pieces[i])
  }

  lemma NoCycles(s: Settings)
    ensures CyclesOf(s, [], [])
  {
    assert Joined([]) == [];
  }

  lemma AnotherCycle(s: Settings, ts: seq<Treatment>, events: seq<Event>, t: Treatment, cycle: seq<Event>)
    requires CyclesOf(s, ts, events) && CycleOf(s, t, cycle)
    ensures CyclesOf(s, ts + [t], events + cycle)
  {
    hide CycleOf;
    var pieces :| && |pieces| == |ts| && Joined(pieces) == events
                  && forall i :: 0 <= i < |ts| ==> CycleOf(s, ts[i], pieces[i]);
    assert (pieces + [cycle])[..|pieces|] == pieces;
    assert Joined(pieces + [cycle]) == events + cycle;
  }

  lemma LastCycle(s: Settings, ts: seq<Treatment>, t: Treatment, events: seq<Event>) returns (cycle: seq<Event>)
    requires CyclesOf(s, ts + [t], events)
    ensures CycleOf(s, t, cycle) && |cycle| <= |events|
    ensures events == events[..|events| - |cycle|] + cycle && CyclesOf(s, ts, events[..|events| - |cycle|])
  {
    hide CycleOf;
    var all := ts + [t];
    var pieces :| && |pieces| == |all| && Joined(pieces) == events
                  && forall i :: 0 <= i < |all| ==> CycleOf(s, all[i], pieces[i]);
    var rest := pieces[..|ts|];
    cycle := pieces[|ts|];
    assert all[|ts|] == t;
    assert events[..|events| - |cycle|] == Joined(rest);
    assert forall i :: 0 <= i < |ts| ==> all[i] == ts[i] && rest[i] == pieces[i];
  }

  // ----- the record of a cycle -----

  /** A phase spoils the cycle by any exception, the teardown only if it is enabled and says why. */
  predicate Fails(s: Settings, t: Treatment, phase: Phase) {
    if phase == Teardown then !s.skipTeardown && t.teardown.PhaseError? && t.teardown.message != ""
    else !OutcomeOf(t, phase).Done?
  }

  predicate FailsFirst(s: Settings, t: Treatment, phase: Phase) {
    Fails(s, t, phase) && forall earlier :: Rank(earlier) < Rank(phase) ==> !Fails(s, t, earlier)
  }

  /** What is recorded of a cycle that no exception left. */
  predicate RecordOf(s: Settings, t: Treatment, r: Record) {
    && r.treatment == t.name && r.runTotal == s.totalRun && r.workspaceDir == TreatmentDir(s, t)
    && (r.status == Success <==> forall phase :: !Fails(s, t, phase))
    && (forall phase :: r.status == Failed(phase) <==> FailsFirst(s, t, phase))
    && r.error == (match r.status
                   case Success => ""
                   case Failed(phase) =>
                     match OutcomeOf(t, phase) case PhaseError(m) => m case OtherException(m) => m case Done => "")
    && r.runCompleted == (if r.status == Success || r.status == Failed(Teardown) then s.totalRun else 0)
  }
}
