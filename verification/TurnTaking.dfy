/**
 Every interleaving of the turns of one session: mutual exclusion, no lost wake-up, and a
 linear history of the context.
 */
module TurnTaking {
  import opened Results
  import opened UserSession

  /** Where a turn stands: on its future, its future resolved, inside the lock, in flight, or over. */
  datatype Phase = Queued | Woken | Waiting | InFlight | Over

  datatype Run = Run(
    session: Session,
    phase: map<TaskId, Phase>,
    prompts: map<TaskId, Tokens>,
    saved: map<TaskId, Tokens>,           // what get_context returned to each turn
    outputs: map<TaskId, Option<Tokens>>, // the response of each finished turn; None if it failed
    acquired: seq<TaskId>                 // the turns in the order they took the lock
  )

  datatype Event =
    | Arrive(t: TaskId, prompt: Tokens)
    | Resume(t: TaskId)                   // the future in waiting_rounds was resolved
    | ResumeLock(t: TaskId)               // the future inside the lock was resolved
    | Respond(t: TaskId, output: Tokens)  // process_response
    | Failure(t: TaskId)                  // process_failure

  predicate InPhase(r: Run, t: TaskId, p: Phase) {
    t in r.phase && r.phase[t] == p
  }

  predicate Enabled(r: Run, e: Event) {
    match e
    case Arrive(t, _) => t !in r.phase
    case Resume(t) => InPhase(r, t, Woken)
    case ResumeLock(t) => InPhase(r, t, Waiting) && Waiter(t, true) in r.session.waiters
    case Respond(t, _) => InPhase(r, t, InFlight) && t in r.saved && t in r.prompts
    case Failure(t) => InPhase(r, t, InFlight) && t in r.saved && t in r.prompts
  }

  /** A stretch of `get_context` for `t` ended; a turn that acquired is handed the context. */
  function AfterStretch(r: Run, t: TaskId, next: (Session, Stretch)): Run {
    match next.1
    case OnFuture => r.(session := next.0, phase := r.phase[t := Queued])
    case InLock => r.(session := next.0, phase := r.phase[t := Waiting])
    case Acquired =>
      r.(session := next.0, phase := r.phase[t := InFlight],
         saved := r.saved[t := next.0.contexts], acquired := r.acquired + [t])
  }

  /** `update_context` called by `t`; the turn whose future it resolves becomes resumable. */
  function AfterUpdate(r: Run, t: TaskId, response: Tokens, output: Option<Tokens>): Run {
    var (session, resolved) := Update(r.session, response);
    var over := r.phase[t := Over];
    r.(session := session, outputs := r.outputs[t := output],
       phase := if resolved.Some? then over[resolved.value := Woken] else over)
  }

  /** The response of a turn: what it was handed, and its own prompt and output when it succeeded. */
  function Response(r: Run, t: TaskId, output: Option<Tokens>): Tokens
    requires t in r.saved && t in r.prompts
  {
    match output
    case None => r.saved[t]
    case Some(tokens) => r.saved[t] + r.prompts[t] + tokens
  }

  /** The effect of an enabled event. */
  function Step(r: Run, e: Event): Run
    requires Enabled(r, e)
  {
    match e
    case Arrive(t, prompt) => AfterStretch(r.(prompts := r.prompts[t := prompt]), t, Enter(r.session, t))
    case Resume(t) => AfterStretch(r, t, Acquire(r.session, t))
    case ResumeLock(t) => AfterStretch(r, t, (ResumeInLock(r.session, t), Acquired))
    case Respond(t, output) => AfterUpdate(r, t, Response(r, t, Some(output)), Some(output))
    case Failure(t) => AfterUpdate(r, t, Response(r, t, None), None)
  }

  function Start(context: Tokens): Run {
    Run(Session(context, 0, false, [], []), map[], map[], map[], map[], [])
  }

  /** What the session should hold after the turns `turns`, in this order: only successes contribute. */
  function History(context: Tokens, turns: seq<TaskId>, prompts: map<TaskId, Tokens>,
                   outputs: map<TaskId, Option<Tokens>>): Tokens
  {
    if turns == [] then context
    else
      var t := turns[|turns| - 1];
      History(context, turns[..|turns| - 1], prompts, outputs)
      + (if t in prompts && t in outputs && outputs[t].Some? then prompts[t] + outputs[t].value else [])
  }

  // ----- the invariant -----

  /** The phases agree with the session's lock, its waiters and its queue. */
  ghost predicate PhaseInv(r: Run) {
    && r.phase.Keys == r.prompts.Keys
    && (forall t :: InPhase(r, t, Queued) <==> t in r.session.queue)
    && (forall t :: InPhase(r, t, Waiting) <==> InWaiters(r.session, t))
    && (r.session.locked <==> exists t :: InPhase(r, t, InFlight))
    && (forall t, u :: InPhase(r, t, InFlight) && InPhase(r, u, InFlight) ==> t == u)
  }

  /** No queued turn is ever left without somebody to wake it. */
  ghost predicate WakeUpInv(r: Run) {
    r.session.queue != [] ==>
      r.session.locked || r.session.waiters != [] || exists t :: InPhase(r, t, Woken)
  }

  /** The books: which turns took the lock, which are over, and which one is in flight. */
  ghost predicate BookInv(r: Run) {
    && r.session.round == |r.acquired|
    && (forall t :: t in r.acquired <==> InPhase(r, t, InFlight) || InPhase(r, t, Over))
    && (forall t :: t in r.outputs <==> InPhase(r, t, Over))
    && r.saved.Keys == (set t | t in r.acquired)
    && (forall i, j :: 0 <= i < j < |r.acquired| ==> r.acquired[i] != r.acquired[j])
    && (forall t :: InPhase(r, t, InFlight) ==> r.acquired[|r.acquired| - 1] == t)
  }

  /** The context handed to the i-th turn is the history of the turns before it. */
  ghost predicate SavedIsHistory(context: Tokens, r: Run, i: nat)
    requires i < |r.acquired|
  {
    && r.acquired[i] in r.saved
    && r.saved[r.acquired[i]] == History(context, r.acquired[..i], r.prompts, r.outputs)
  }

  ghost predicate HistoryInv(context: Tokens, r: Run) {
    && r.session.contexts == History(context, r.acquired, r.prompts, r.outputs)
    && forall i :: 0 <= i < |r.acquired| ==> SavedIsHistory(context, r, i)
  }

  ghost predicate Inv(context: Tokens, r: Run) {
    LockInv(r.session) && PhaseInv(r) && WakeUpInv(r) && BookInv(r) && HistoryInv(context, r)
  }

  // ----- every step keeps it -----

  lemma {:induction false} HistoryIgnores(context: Tokens, turns: seq<TaskId>, prompts: map<TaskId, Tokens>,
      outputs: map<TaskId, Option<Tokens>>, prompts': map<TaskId, Tokens>, outputs': map<TaskId, Option<Tokens>>)
    requires forall t :: t in turns ==>
      && (t in prompts <==> t in prompts') && (t in prompts ==> prompts[t] == prompts'[t])
      && (t in outputs <==> t in outputs') && (t in outputs ==> outputs[t] == outputs'[t])
    ensures History(context, turns, prompts, outputs) == History(context, turns, prompts', outputs')
  {
    if turns != [] {
      assert turns[|turns| - 1] in turns;
      HistoryIgnores(context, turns[..|turns| - 1], prompts, outputs, prompts', outputs');
    }
  }

  lemma StretchKeepsPhases(r: Run, t: TaskId, next: (Session, Stretch))
    requires t in r.prompts && r.phase.Keys + {t} == r.prompts.Keys
    requires !InPhase(r, t, Queued) && !InPhase(r, t, Waiting) && !InPhase(r, t, InFlight)
    requires forall u :: InPhase(r, u, Queued) <==> u in r.session.queue
    requires forall u :: InPhase(r, u, InFlight) ==> r.session.locked
    requires forall u, v :: InPhase(r, u, InFlight) && InPhase(r, v, InFlight) ==> u == v
    requires forall u :: u in next.0.queue <==> u in r.session.queue || (u == t && next.1.OnFuture?)
    requires forall u :: InWaiters(next.0, u) <==> InPhase(r, u, Waiting) || (u == t && next.1.InLock?)
    requires next.0.locked <==> r.session.locked || next.1.Acquired?
    requires r.session.locked ==> !next.1.Acquired? && exists u :: InPhase(r, u, InFlight)
    ensures PhaseInv(AfterStretch(r, t, next))
  {
    var r' := AfterStretch(r, t, next);
    assert forall u, p :: u != t ==> (InPhase(r', u, p) <==> InPhase(r, u, p));
    if r.session.locked {
      var u :| InPhase(r, u, InFlight);
      assert InPhase(r', u, InFlight);
    } else if next.1.Acquired? {
      assert InPhase(r', t, InFlight);
    }
  }

  lemma UpdateKeepsPhases(r: Run, t: TaskId, response: Tokens, output: Option<Tokens>)
    requires LockInv(r.session) && PhaseInv(r) && InPhase(r, t, InFlight)
    ensures PhaseInv(AfterUpdate(r, t, response, output))
  {
    var r' := AfterUpdate(r, t, response, output);
    UpdateKeeps(r.session, response);
    var resolved := Update(r.session, response).1;
    assert forall u, p :: u != t && resolved != Some(u) ==> (InPhase(r', u, p) <==> InPhase(r, u, p));
    assert resolved.Some? ==> InPhase(r, resolved.value, Queued) && InPhase(r', resolved.value, Woken);
    assert InPhase(r', t, Over);
  }

  lemma StretchKeepsBooks(r: Run, t: TaskId, next: (Session, Stretch))
    requires BookInv(r) && t !in r.acquired
    requires next.0.round == r.session.round + if next.1.Acquired? then 1 else 0
    requires next.1.Acquired? ==> forall u :: !InPhase(r, u, InFlight)
    ensures BookInv(AfterStretch(r, t, next))
  {
    assert !InPhase(r, t, Over) && !InPhase(r, t, InFlight);
    if next.1.Acquired? {
      AcquiringKeepsBooks(r, t, next.0);
    } else {
      var r' := AfterStretch(r, t, next);
      assert forall u, p :: u != t ==> (InPhase(r', u, p) <==> InPhase(r, u, p));
    }
  }

  lemma AcquiringKeepsBooks(r: Run, t: TaskId, s: Session)
    requires BookInv(r) && t !in r.acquired && s.round == r.session.round + 1
    requires forall u :: !InPhase(r, u, InFlight)
    ensures BookInv(AfterStretch(r, t, (s, Acquired)))
  {
    var r' := AfterStretch(r, t, (s, Acquired));
    assert forall u :: u in r'.acquired <==> u in r.acquired || u == t;
    forall u ensures u in r'.acquired <==> InPhase(r', u, InFlight) || InPhase(r', u, Over) {
      assert u in r.acquired <==> InPhase(r, u, InFlight) || InPhase(r, u, Over);
    }
    forall u ensures u in r'.outputs <==> InPhase(r', u, Over) {
      assert u in r.outputs <==> InPhase(r, u, Over);
    }
  }

  lemma UpdateKeepsBooks(r: Run, t: TaskId, response: Tokens, output: Option<Tokens>)
    requires BookInv(r) && PhaseInv(r) && InPhase(r, t, InFlight)
    ensures BookInv(AfterUpdate(r, t, response, output))
  {
    var r' := AfterUpdate(r, t, response, output);
    var resolved := Update(r.session, response).1;
    assert forall u, p :: u != t && resolved != Some(u) ==> (InPhase(r', u, p) <==> InPhase(r, u, p));
    assert resolved.Some? ==> InPhase(r, resolved.value, Queued) && InPhase(r', resolved.value, Woken);
    assert InPhase(r', t, Over);
  }

  lemma StretchKeepsHistory(context: Tokens, r: Run, t: TaskId, next: (Session, Stretch))
    requires HistoryInv(context, r) && t !in r.acquired && t !in r.outputs
    requires next.0.contexts == r.session.contexts
    ensures HistoryInv(context, AfterStretch(r, t, next))
  {
    var r', n := AfterStretch(r, t, next), |r.acquired|;
    hide History;
    forall i | 0 <= i < |r'.acquired| ensures SavedIsHistory(context, r', i) {
      assert r'.acquired[..i] == r.acquired[..i];
      if i < n {
        assert SavedIsHistory(context, r, i);
      } else {
        assert r.acquired[..n] == r.acquired;
      }
    }
    if next.1.Acquired? {
      FailedOrPendingAddsNothing(context, r.acquired, t, r.prompts, r.outputs);
    }
  }

  lemma FailedOrPendingAddsNothing(context: Tokens, turns: seq<TaskId>, t: TaskId, prompts: map<TaskId, Tokens>,
                                   outputs: map<TaskId, Option<Tokens>>)
    requires t !in outputs || outputs[t].None?
    ensures History(context, turns + [t], prompts, outputs) == History(context, turns, prompts, outputs)
  {
    assert (turns + [t])[..|turns|] == turns;
  }

  lemma PromptKeepsHistory(context: Tokens, r: Run, t: TaskId, prompt: Tokens)
    requires HistoryInv(context, r) && t !in r.acquired
    ensures HistoryInv(context, r.(prompts := r.prompts[t := prompt]))
  {
    var r' := r.(prompts := r.prompts[t := prompt]);
    HistoryIgnores(context, r.acquired, r.prompts, r.outputs, r'.prompts, r.outputs);
    forall i | 0 <= i < |r.acquired| ensures SavedIsHistory(context, r', i) {
      assert SavedIsHistory(context, r, i);
      HistoryIgnores(context, r.acquired[..i], r.prompts, r.outputs, r'.prompts, r.outputs);
    }
  }

  lemma UpdateKeepsHistory(context: Tokens, r: Run, t: TaskId, output: Option<Tokens>)
    requires BookInv(r) && HistoryInv(context, r) && InPhase(r, t, InFlight) && t in r.prompts
    ensures t in r.saved && HistoryInv(context, AfterUpdate(r, t, Response(r, t, output), output))
  {
    var last := |r.acquired| - 1;
    assert t in r.acquired && r.acquired[last] == t;
    var r' := AfterUpdate(r, t, Response(r, t, output), output);
    forall i | 0 <= i <= last ensures SavedIsHistory(context, r', i) {
      assert SavedIsHistory(context, r, i);
      HistoryIgnores(context, r.acquired[..i], r.prompts, r.outputs, r.prompts, r'.outputs);
    }
    assert SavedIsHistory(context, r', last);
  }

  lemma StartIsInv(context: Tokens)
    ensures Inv(context, Start(context))
  {}

  lemma ArriveKeepsInv(context: Tokens, r: Run, t: TaskId, prompt: Tokens)
    requires Inv(context, r) && t !in r.phase
    ensures Inv(context, Step(r, Arrive(t, prompt)))
  {
    NewcomerIsNowhere(r, t);
    ArriveKeepsTurns(r, t, prompt);
    ArriveKeepsPast(context, r, t, prompt);
  }

  lemma NewcomerIsNowhere(r: Run, t: TaskId)
    requires PhaseInv(r) && BookInv(r) && t !in r.phase
    ensures forall p :: !InPhase(r, t, p)
    ensures t !in r.acquired && t !in r.outputs && t !in r.session.queue && !InWaiters(r.session, t)
  {
    assert !InPhase(r, t, Queued) && !InPhase(r, t, Waiting) && !InPhase(r, t, InFlight) && !InPhase(r, t, Over);
  }

  lemma ArriveKeepsTurns(r: Run, t: TaskId, prompt: Tokens)
    requires LockInv(r.session) && PhaseInv(r) && WakeUpInv(r) && t !in r.phase
    requires t !in r.session.queue && !InWaiters(r.session, t)
    ensures var r' := Step(r, Arrive(t, prompt)); LockInv(r'.session) && PhaseInv(r') && WakeUpInv(r')
  {
    var r0 := r.(prompts := r.prompts[t := prompt]);
    var next := Enter(r.session, t);
    assert forall u, p :: InPhase(r0, u, p) == InPhase(r, u, p);
    AcquireKeeps(r.session, t);
    StretchKeepsPhases(r0, t, next);
    StretchKeepsWakeUps(r0, t, next);
  }

  lemma ArriveKeepsPast(context: Tokens, r: Run, t: TaskId, prompt: Tokens)
    requires PhaseInv(r) && BookInv(r) && HistoryInv(context, r)
    requires t !in r.phase && t !in r.acquired && t !in r.outputs
    ensures var r' := Step(r, Arrive(t, prompt)); BookInv(r') && HistoryInv(context, r')
  {
    var r0 := r.(prompts := r.prompts[t := prompt]);
    var next := Enter(r.session, t);
    assert forall u, p :: InPhase(r0, u, p) == InPhase(r, u, p);
    PromptKeepsHistory(context, r, t, prompt);
    StretchKeepsBooks(r0, t, next);
    StretchKeepsHistory(context, r0, t, next);
  }

  lemma StretchKeepsWakeUps(r: Run, t: TaskId, next: (Session, Stretch))
    requires WakeUpInv(r) && !InPhase(r, t, Woken)
    requires next.0.queue == r.session.queue || next.0.locked || r.session.queue != []
    requires r.session.locked ==> next.0.locked
    requires r.session.waiters != [] ==> next.0.waiters != []
    ensures WakeUpInv(AfterStretch(r, t, next))
  {
    var r' := AfterStretch(r, t, next);
    assert forall u :: InPhase(r, u, Woken) ==> InPhase(r', u, Woken);
  }

  lemma ResumeKeepsInv(context: Tokens, r: Run, t: TaskId)
    requires Inv(context, r) && Enabled(r, Resume(t))
    ensures Inv(context, Step(r, Resume(t)))
  {
    var next := Acquire(r.session, t);
    assert !InPhase(r, t, Queued) && !InPhase(r, t, Waiting) && !InPhase(r, t, InFlight) && !InPhase(r, t, Over);
    AcquireKeeps(r.session, t);
    StretchKeepsPhases(r, t, next);
    StretchKeepsBooks(r, t, next);
    StretchKeepsHistory(context, r, t, next);
  }

  lemma ResumeLockKeepsInv(context: Tokens, r: Run, t: TaskId)
    requires Inv(context, r) && Enabled(r, ResumeLock(t))
    ensures Inv(context, Step(r, ResumeLock(t)))
  {
    var next := (ResumeInLock(r.session, t), Acquired);
    assert !InPhase(r, t, Over);
    HeadResumes(r.session, t);
    ResumeLockKeepsPhases(r, t);
    StretchKeepsBooks(r, t, next);
    StretchKeepsHistory(context, r, t, next);
  }

  lemma ResumeLockKeepsPhases(r: Run, t: TaskId)
    requires LockInv(r.session) && PhaseInv(r) && Enabled(r, ResumeLock(t))
    ensures PhaseInv(Step(r, ResumeLock(t)))
  {
    var r' := Step(r, ResumeLock(t));
    HeadResumes(r.session, t);
    assert forall u, p :: u != t ==> (InPhase(r', u, p) <==> InPhase(r, u, p));
    assert InPhase(r', t, InFlight);
  }

  lemma UpdateKeepsInv(context: Tokens, r: Run, t: TaskId, output: Option<Tokens>)
    requires Inv(context, r) && InPhase(r, t, InFlight)
    ensures t in r.saved && t in r.prompts
    ensures Inv(context, AfterUpdate(r, t, Response(r, t, output), output))
  {
    assert t in r.acquired;
    var response := Response(r, t, output);
    var r' := AfterUpdate(r, t, response, output);
    UpdateKeeps(r.session, response);
    UpdateKeepsPhases(r, t, response, output);
    UpdateKeepsBooks(r, t, response, output);
    UpdateKeepsHistory(context, r, t, output);
    var resolved := Update(r.session, response).1;
    assert resolved.Some? ==> InPhase(r', resolved.value, Woken);
  }

  lemma StepKeepsInv(context: Tokens, r: Run, e: Event)
    requires Inv(context, r) && Enabled(r, e)
    ensures Inv(context, Step(r, e))
  {
    match e
    case Arrive(t, prompt) => ArriveKeepsInv(context, r, t, prompt);
    case Resume(t) => ResumeKeepsInv(context, r, t);
    case ResumeLock(t) => ResumeLockKeepsInv(context, r, t);
    case Respond(t, output) => UpdateKeepsInv(context, r, t, Some(output));
    case Failure(t) => UpdateKeepsInv(context, r, t, None);
  }
}
