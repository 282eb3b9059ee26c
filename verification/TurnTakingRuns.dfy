/** What holds of every run of a session, from its start or from any state it can reach. */
module TurnTakingRuns {
  import opened Results
  import opened UserSession
  import opened TurnTaking

  /** The state after the events, if each was possible when it came. */
  ghost function From(r: Run, events: seq<Event>): Option<Run>
    decreases events
  {
    if events == [] then Some(r)
    else if Enabled(r, events[0]) then From(Step(r, events[0]), events[1..])
    else None
  }

  ghost predicate Reachable(context: Tokens, r: Run) {
    exists events :: From(Start(context), events) == Some(r)
  }

  lemma {:induction false} RunKeepsInv(context: Tokens, r: Run, events: seq<Event>)
    requires Inv(context, r) && From(r, events).Some?
    ensures Inv(context, From(r, events).value)
    decreases events
  {
    if events != [] {
      StepKeepsInv(context, r, events[0]);
      RunKeepsInv(context, Step(r, events[0]), events[1..]);
    }
  }

  lemma ReachableIsInv(context: Tokens, r: Run)
    requires Reachable(context, r)
    ensures Inv(context, r)
  {
    var events :| From(Start(context), events) == Some(r);
    StartIsInv(context);
    RunKeepsInv(context, Start(context), events);
  }

  // ----- safety -----

  /** At most one turn is in flight, and the lock is held exactly while one is. */
  lemma MutualExclusion(context: Tokens, r: Run, t: TaskId, u: TaskId)
    requires Reachable(context, r)
    ensures InPhase(r, t, InFlight) && InPhase(r, u, InFlight) ==> t == u
    ensures r.session.locked <==> exists v :: InPhase(r, v, InFlight)
  {
    ReachableIsInv(context, r);
  }

  /** A turn in flight can always end: it holds the lock it releases and the context it extends. */
  lemma InFlightCanEnd(context: Tokens, r: Run, t: TaskId)
    requires Reachable(context, r) && InPhase(r, t, InFlight)
    ensures r.session.locked && Enabled(r, Failure(t)) && forall output :: Enabled(r, Respond(t, output))
  {
    ReachableIsInv(context, r);
    assert t in r.acquired;
  }

  /** While a turn waits in the queue, somebody holds the lock, waits for it, or is about to ask for it. */
  lemma NoLostWakeUp(context: Tokens, r: Run)
    requires Reachable(context, r) && r.session.queue != []
    ensures r.session.locked || r.session.waiters != [] || exists t :: InPhase(r, t, Woken)
  {
    ReachableIsInv(context, r);
  }

  /** While a turn waits inside a free lock, the first of them has been woken. */
  lemma NoLostLockWakeUp(context: Tokens, r: Run)
    requires Reachable(context, r) && r.session.waiters != [] && !r.session.locked
    ensures r.session.waiters[0].woken && Enabled(r, ResumeLock(r.session.waiters[0].task))
  {
    ReachableIsInv(context, r);
    WokenHeadCanResume(context, r);
  }

  lemma WokenHeadCanResume(context: Tokens, r: Run)
    requires Inv(context, r) && r.session.waiters != [] && !r.session.locked
    ensures r.session.waiters[0].woken && Enabled(r, ResumeLock(r.session.waiters[0].task))
  {
    var head := r.session.waiters[0];
    assert head == Waiter(head.task, true);
    assert InWaiters(r.session, head.task);
  }

  /**
   The context is the prompts and outputs of the turns that succeeded, in the order they took the
   lock; every turn was handed the history of the turns before it; while a turn is in flight the
   context is still the one it was handed; and `_current_round` counts the acquisitions.
   */
  lemma LinearHistory(context: Tokens, r: Run)
    requires Reachable(context, r)
    ensures r.session.contexts == History(context, r.acquired, r.prompts, r.outputs)
    ensures forall i :: 0 <= i < |r.acquired| ==> SavedIsHistory(context, r, i)
    ensures forall t :: InPhase(r, t, InFlight) ==> t in r.saved && r.saved[t] == r.session.contexts
    ensures r.session.round == |r.acquired|
    ensures forall i, j :: 0 <= i < j < |r.acquired| ==> r.acquired[i] != r.acquired[j]
  {
    ReachableIsInv(context, r);
    forall t | InPhase(r, t, InFlight) ensures t in r.saved && r.saved[t] == r.session.contexts {
      assert t in r.acquired;
      var last := |r.acquired| - 1;
      assert SavedIsHistory(context, r, last);
      assert r.acquired == r.acquired[..last] + [t];
      FailedOrPendingAddsNothing(context, r.acquired[..last], t, r.prompts, r.outputs);
    }
  }

  // ----- no turn is stranded -----

  ghost function Turns(phase: map<TaskId, Phase>, p: Phase): set<TaskId> {
    set t | t in phase && phase[t] == p
  }

  /** The stretches the turns that have arrived still need, at most. */
  ghost function Rank(phase: map<TaskId, Phase>): nat {
    4 * |Turns(phase, Queued)| + 3 * |Turns(phase, Woken)| + 2 * |Turns(phase, Waiting)| + |Turns(phase, InFlight)|
  }

  ghost function Weight(p: Phase): nat {
    match p
    case Queued => 4
    case Woken => 3
    case Waiting => 2
    case InFlight => 1
    case Over => 0
  }

  lemma MovedTurn(phase: map<TaskId, Phase>, t: TaskId, p: Phase)
    requires t in phase && phase[t] != p
    ensures Rank(phase[t := p]) == Rank(phase) - Weight(phase[t]) + Weight(p)
  {
    MovedSize(phase, t, p, Queued);
    MovedSize(phase, t, p, Woken);
    MovedSize(phase, t, p, Waiting);
    MovedSize(phase, t, p, InFlight);
  }

  lemma MovedSize(phase: map<TaskId, Phase>, t: TaskId, p: Phase, q: Phase)
    requires t in phase && phase[t] != p
    ensures |Turns(phase[t := p], q)|
         == |Turns(phase, q)| + (if q == p then 1 else 0) - (if q == phase[t] then 1 else 0)
  {
    var before, after := Turns(phase, q), Turns(phase[t := p], q);
    if q == p {
      assert after == before + {t};
    } else if q == phase[t] {
      assert before == after + {t};
    } else {
      assert after == before;
    }
  }

  lemma StepLowersRank(context: Tokens, r: Run, e: Event)
    requires Inv(context, r) && Enabled(r, e) && !e.Arrive?
    ensures Rank(Step(r, e).phase) < Rank(r.phase)
  {
    match e
    case Resume(t) => MovedTurn(r.phase, t, if Acquire(r.session, t).1.InLock? then Waiting else InFlight);
    case ResumeLock(t) => MovedTurn(r.phase, t, InFlight);
    case Respond(t, _) => UpdateLowersRank(r, t);
    case Failure(t) => UpdateLowersRank(r, t);
  }

  lemma UpdateLowersRank(r: Run, t: TaskId)
    requires PhaseInv(r) && InPhase(r, t, InFlight)
    ensures forall response, output :: Rank(AfterUpdate(r, t, response, output).phase) < Rank(r.phase)
  {
    MovedTurn(r.phase, t, Over);
    if r.session.queue != [] {
      assert InPhase(r, r.session.queue[0], Queued);
      MovedTurn(r.phase[t := Over], r.session.queue[0], Woken);
    }
  }

  /** Without new arrivals a session comes to rest: no run is longer than the rank it starts from. */
  lemma {:induction false} RunsEnd(context: Tokens, r: Run, events: seq<Event>)
    requires Inv(context, r) && From(r, events).Some?
    requires forall i :: 0 <= i < |events| ==> !events[i].Arrive?
    ensures |events| + Rank(From(r, events).value.phase) <= Rank(r.phase)
    decreases events
  {
    if events != [] {
      StepKeepsInv(context, r, events[0]);
      StepLowersRank(context, r, events[0]);
      RunsEnd(context, Step(r, events[0]), events[1..]);
    }
  }

  ghost predicate AtRest(r: Run) {
    forall e :: Enabled(r, e) ==> e.Arrive?
  }

  /** At rest every turn that arrived has taken the lock and is over. */
  lemma RestMeansAllServed(context: Tokens, r: Run)
    requires Inv(context, r) && AtRest(r)
    ensures forall t :: t in r.phase ==> InPhase(r, t, Over) && t in r.acquired
  {
    if t :| InPhase(r, t, InFlight) {
      assert t in r.acquired;
      assert Enabled(r, Failure(t));
    }
    if r.session.waiters != [] {
      WokenHeadCanResume(context, r);
    }
    if t :| InPhase(r, t, Woken) {
      assert Enabled(r, Resume(t));
    }
    forall t | t in r.phase ensures InPhase(r, t, Over) && t in r.acquired {
      assert !InPhase(r, t, Queued) && !InPhase(r, t, Waiting) && !InPhase(r, t, Woken) && !InPhase(r, t, InFlight);
    }
  }

  /**
   No interleaving strands a turn: from any reachable state, any run without new arrivals that
   cannot go on takes at most `Rank` stretches and ends with every turn served.
   */
  lemma NoTurnStranded(context: Tokens, r: Run, events: seq<Event>)
    requires Reachable(context, r) && From(r, events).Some? && AtRest(From(r, events).value)
    requires forall i :: 0 <= i < |events| ==> !events[i].Arrive?
    ensures |events| <= Rank(r.phase)
    ensures var end := From(r, events).value; forall t :: t in end.phase ==> InPhase(end, t, Over) && t in end.acquired
  {
    ReachableIsInv(context, r);
    RunKeepsInv(context, r, events);
    RunsEnd(context, r, events);
    RestMeansAllServed(context, From(r, events).value);
  }

  /** Turns need not run in the order they arrived: 3 passes 2 between the release and 2's resumption. */
  lemma ArrivalOrderNotKept()
    ensures var events := [Arrive(1, [10]), Arrive(2, [20]), Failure(1), Arrive(3, [30])];
            var end := From(Start([]), events);
            end.Some? && end.value.acquired == [1, 3] && InPhase(end.value, 2, Woken)
  {
    var r0 := Start([]);
    var r1 := Step(r0, Arrive(1, [10]));
    var r2 := Step(r1, Arrive(2, [20]));
    var r3 := Step(r2, Failure(1));
    var r4 := Step(r3, Arrive(3, [30]));
    assert From(r4, []) == Some(r4);
    assert From(r3, [Arrive(3, [30])]) == Some(r4);
    assert From(r2, [Failure(1), Arrive(3, [30])]) == Some(r4);
    assert From(r1, [Arrive(2, [20]), Failure(1), Arrive(3, [30])]) == Some(r4);
  }
}
