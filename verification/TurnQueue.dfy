/** The order in which queued turns are woken, read off the phases of the turns before and after each step. */
module TurnQueue {
  import opened Results
  import opened UserSession
  import opened TurnTaking
  import opened TurnTakingRuns

  predicate BecomesQueued(before: Run, after: Run, t: TaskId) {
    !InPhase(before, t, Queued) && InPhase(after, t, Queued)
  }

  predicate BecomesWoken(before: Run, after: Run, t: TaskId) {
    InPhase(before, t, Queued) && InPhase(after, t, Woken)
  }

  /** The turn that went into the queue, if one did. */
  ghost function Queueing(before: Run, after: Run): seq<TaskId> {
    if t :| BecomesQueued(before, after, t) then [t] else []
  }

  /** The queued turn that was woken, if one was. */
  ghost function Waking(before: Run, after: Run): seq<TaskId> {
    if t :| BecomesWoken(before, after, t) then [t] else []
  }

  /** The turns in the order they went into the queue during a run. */
  ghost function Queueings(r: Run, events: seq<Event>): seq<TaskId>
    decreases events
  {
    if events == [] || !Enabled(r, events[0]) then []
    else Queueing(r, Step(r, events[0])) + Queueings(Step(r, events[0]), events[1..])
  }

  /** The turns in the order they were woken from the queue during a run. */
  ghost function Wakings(r: Run, events: seq<Event>): seq<TaskId>
    decreases events
  {
    if events == [] || !Enabled(r, events[0]) then []
    else Waking(r, Step(r, events[0])) + Wakings(Step(r, events[0]), events[1..])
  }

  // ----- one step -----

  /** A step that moves the turn `t` alone, and not out of the queue. */
  lemma OneMoves(before: Run, after: Run, t: TaskId, p: Phase)
    requires after.phase == before.phase[t := p] && !InPhase(before, t, Queued)
    ensures Waking(before, after) == []
    ensures Queueing(before, after) == if p == Queued then [t] else []
  {
    assert forall u, q :: u != t ==> (InPhase(after, u, q) <==> InPhase(before, u, q));
    assert InPhase(after, t, p);
    assert p == Queued ==> BecomesQueued(before, after, t);
  }

  /** A step that ends the turn `t` in flight and wakes the queued turn `head`. */
  lemma HeadWakes(before: Run, after: Run, t: TaskId, head: TaskId)
    requires InPhase(before, t, InFlight) && InPhase(before, head, Queued)
    requires after.phase == before.phase[t := Over][head := Woken]
    ensures Queueing(before, after) == [] && Waking(before, after) == [head]
  {
    assert forall u, q :: u != t && u != head ==> (InPhase(after, u, q) <==> InPhase(before, u, q));
    assert InPhase(after, t, Over) && InPhase(after, head, Woken);
    assert BecomesWoken(before, after, head);
  }

  lemma StretchMoves(r: Run, t: TaskId, next: (Session, Stretch))
    ensures AfterStretch(r, t, next).session == next.0
    ensures AfterStretch(r, t, next).phase ==
      r.phase[t := match next.1 case OnFuture => Queued case InLock => Waiting case Acquired => InFlight]
  {}

  lemma LockLeavesTheQueue(s: Session, t: TaskId)
    ensures Acquire(s, t).0.queue == s.queue && !Acquire(s, t).1.OnFuture?
    ensures ResumeInLock(s, t).queue == s.queue
    ensures Enter(s, t).1.OnFuture? ==> Enter(s, t).0.queue == s.queue + [t]
    ensures !Enter(s, t).1.OnFuture? ==> Enter(s, t).0.queue == s.queue
  {}

  lemma EndingWakes(r: Run, t: TaskId, response: Tokens, output: Option<Tokens>)
    requires PhaseInv(r) && InPhase(r, t, InFlight)
    ensures var next := AfterUpdate(r, t, response, output);
      && Queueing(r, next) == []
      && r.session.queue == Waking(r, next) + next.session.queue
      && (r.session.queue != [] ==> Waking(r, next) != [])
  {
    var next := AfterUpdate(r, t, response, output);
    if r.session.queue == [] {
      OneMoves(r, next, t, Over);
    } else {
      var head := r.session.queue[0];
      assert head in r.session.queue && InPhase(r, head, Queued);
      HeadWakes(r, next, t, head);
      assert r.session.queue == [head] + r.session.queue[1..];
    }
  }

  /** What a step puts into the queue comes in at its end, and what it wakes leaves it at its front. */
  lemma StepQueuesInOrder(context: Tokens, r: Run, e: Event)
    requires Inv(context, r) && Enabled(r, e)
    ensures r.session.queue + Queueing(r, Step(r, e)) == Waking(r, Step(r, e)) + Step(r, e).session.queue
  {
    hide LockInv, WakeUpInv, BookInv, HistoryInv;
    hide Queueing, Waking, Enter, Acquire, ResumeInLock, AfterStretch, AfterUpdate;
    match e
    case Arrive(t, prompt) =>
      var r0 := r.(prompts := r.prompts[t := prompt]);
      StretchMoves(r0, t, Enter(r.session, t));
      LockLeavesTheQueue(r.session, t);
      OneMoves(r, Step(r, e), t, Step(r, e).phase[t]);
    case Resume(t) =>
      StretchMoves(r, t, Acquire(r.session, t));
      LockLeavesTheQueue(r.session, t);
      OneMoves(r, Step(r, e), t, Step(r, e).phase[t]);
    case ResumeLock(t) =>
      StretchMoves(r, t, (ResumeInLock(r.session, t), Acquired));
      LockLeavesTheQueue(r.session, t);
      OneMoves(r, Step(r, e), t, Step(r, e).phase[t]);
    case Respond(t, output) => EndingWakes(r, t, Response(r, t, Some(output)), Some(output));
    case Failure(t) => EndingWakes(r, t, Response(r, t, None), None);
  }

  // ----- over whole runs -----

  /** From any state: the turns woken, then those still queued, are those that queued, in the order they did. */
  lemma {:induction false} QueueServesInOrder(context: Tokens, r: Run, events: seq<Event>)
    requires Inv(context, r) && From(r, events).Some?
    ensures r.session.queue + Queueings(r, events) == Wakings(r, events) + From(r, events).value.session.queue
    decreases events
  {
    hide Inv, Queueing, Waking, Step, Enabled;
    if events != [] {
      var next := Step(r, events[0]);
      StepQueuesInOrder(context, r, events[0]);
      StepKeepsInv(context, r, events[0]);
      QueueServesInOrder(context, next, events[1..]);
      var end := From(next, events[1..]).value.session.queue;
      var first, woken := Queueing(r, next), Waking(r, next);
      assert r.session.queue + (first + Queueings(next, events[1..]))
          == r.session.queue + first + Queueings(next, events[1..]);
      assert woken + next.session.queue + Queueings(next, events[1..])
          == woken + (next.session.queue + Queueings(next, events[1..]));
      assert woken + (Wakings(next, events[1..]) + end) == woken + Wakings(next, events[1..]) + end;
    }
  }

  /** From the start: those that queued first have been woken, in that order, and the rest are still queued. */
  lemma WokenInQueueingOrder(context: Tokens, events: seq<Event>)
    requires From(Start(context), events).Some?
    ensures var queued, woken := Queueings(Start(context), events), Wakings(Start(context), events);
      && woken <= queued
      && forall t :: t in queued[|woken|..] <==> InPhase(From(Start(context), events).value, t, Queued)
  {
    var queued, woken := Queueings(Start(context), events), Wakings(Start(context), events);
    var end := From(Start(context), events).value;
    StartIsInv(context);
    QueueServesInOrder(context, Start(context), events);
    RunKeepsInv(context, Start(context), events);
    assert [] + queued == queued;
    assert queued[|woken|..] == end.session.queue;
  }

  // ----- who queues, and who wakes -----

  /** An arriving turn queues exactly behind a turn in flight or queued; it is in flight at once if it is alone. */
  lemma ArrivalQueuesExactly(context: Tokens, r: Run, t: TaskId, prompt: Tokens)
    requires Inv(context, r) && Enabled(r, Arrive(t, prompt))
    ensures var next := Step(r, Arrive(t, prompt));
      && (InPhase(next, t, Queued) <==> exists u :: InPhase(r, u, InFlight) || InPhase(r, u, Queued))
      && (InPhase(next, t, InFlight) <==>
            !exists u :: InPhase(r, u, InFlight) || InPhase(r, u, Queued) || InPhase(r, u, Waiting))
  {
    hide WakeUpInv, BookInv, HistoryInv;
    var s := r.session;
    assert s.queue != [] ==> s.queue[0] in s.queue;
    assert s.waiters != [] ==> InWaiters(s, s.waiters[0].task);
  }

  /** The end of a turn wakes a queued turn exactly if there is one. */
  lemma EndWakesExactly(context: Tokens, r: Run, e: Event)
    requires Inv(context, r) && Enabled(r, e) && (e.Respond? || e.Failure?)
    ensures (exists t :: BecomesWoken(r, Step(r, e), t)) <==> exists t :: InPhase(r, t, Queued)
  {
    hide LockInv, WakeUpInv, BookInv, HistoryInv, AfterUpdate, Response;
    var output := if e.Respond? then Some(e.output) else None;
    var next := AfterUpdate(r, e.t, Response(r, e.t, output), output);
    EndingWakes(r, e.t, Response(r, e.t, output), output);
    assert Step(r, e) == next;
    if Waking(r, next) != [] {
      assert BecomesWoken(r, next, Waking(r, next)[0]);
    }
  }
}
