/**
 The per-user session: `get_context` and `update_context`, cut at their await points.

 `get_context` may suspend twice: on a future put into `waiting_rounds`, and inside the
 acquisition of `in_flight`. Each stretch between two awaits runs without interruption and is
 one operation here. The lock is asyncio's: a waiter is woken by `release`, but takes the lock
 only when it resumes, and nobody is let in while there are waiters.
 */
module UserSession {
  import opened Results

  type TaskId = nat

  type Tokens = seq<int>

  /** A task suspended inside `in_flight.acquire()`; `woken` once its future is resolved. */
  datatype Waiter = Waiter(task: TaskId, woken: bool)

  datatype Session = Session(
    contexts: Tokens,
    round: nat,
    locked: bool,
    waiters: seq<Waiter>,
    queue: seq<TaskId>
  )

  /** How a stretch of `get_context` ends: on the future, inside the lock, or holding it. */
  datatype Stretch = OnFuture | InLock | Acquired

  function Acquire(s: Session, t: TaskId): (Session, Stretch) {
    if !s.locked && s.waiters == [] then (Taken(s), Acquired)
    else (s.(waiters := s.waiters + [Waiter(t, false)]), InLock)
  }

  /** `in_flight` is held and `_current_round` counts it. */
  function Taken(s: Session): Session {
    s.(locked := true, round := s.round + 1)
  }

  function Enter(s: Session, t: TaskId): (Session, Stretch) {
    if s.queue != [] || s.locked then (s.(queue := s.queue + [t]), OnFuture)
    else Acquire(s, t)
  }

  function Without(waiters: seq<Waiter>, t: TaskId): (r: seq<Waiter>)
    ensures |r| <= |waiters|
  {
    if waiters == [] then []
    else if waiters[0].task == t then waiters[1..]
    else [waiters[0]] + Without(waiters[1..], t)
  }

  function ResumeInLock(s: Session, t: TaskId): Session {
    Taken(s.(waiters := Without(s.waiters, t)))
  }

  function WakeFirst(waiters: seq<Waiter>): seq<Waiter> {
    if waiters == [] then [] else [waiters[0].(woken := true)] + waiters[1..]
  }

  /** `update_context`: the new session and the task whose future is resolved, if any. */
  function Update(s: Session, response: Tokens): (Session, Option<TaskId>) {
    var popped := if s.queue == [] then s else s.(queue := s.queue[1..]);
    (popped.(contexts := response, locked := false, waiters := WakeFirst(s.waiters)),
     if s.queue == [] then None else Some(s.queue[0]))
  }

  // ----- what every stretch keeps -----

  /**
   No waiter of a held lock is woken, of a free one the first; nobody waits twice, in the lock or in the queue.
   */
  ghost predicate LockInv(s: Session) {
    && (s.locked ==> forall i :: 0 <= i < |s.waiters| ==> !s.waiters[i].woken)
    && (!s.locked ==> forall i :: 0 <= i < |s.waiters| ==> (s.waiters[i].woken <==> i == 0))
    && (forall i, j :: 0 <= i < j < |s.waiters| ==> s.waiters[i].task != s.waiters[j].task)
    && (forall i, j :: 0 <= i < j < |s.queue| ==> s.queue[i] != s.queue[j])
  }

  ghost predicate InWaiters(s: Session, t: TaskId) {
    exists i :: 0 <= i < |s.waiters| && s.waiters[i].task == t
  }

  lemma AcquireKeeps(s: Session, t: TaskId)
    requires LockInv(s) && !InWaiters(s, t)
    ensures LockInv(Acquire(s, t).0)
    ensures forall u :: InWaiters(Acquire(s, t).0, u) <==> InWaiters(s, u) || (u == t && Acquire(s, t).1.InLock?)
  {
    var s' := Acquire(s, t).0;
    if Acquire(s, t).1.InLock? {
      assert s'.waiters[|s.waiters|].task == t;
      forall u | InWaiters(s, u) ensures InWaiters(s', u) {
        var i :| 0 <= i < |s.waiters| && s.waiters[i].task == u;
        assert s'.waiters[i].task == u;
      }
    }
  }

  lemma HeadResumes(s: Session, t: TaskId)
    requires LockInv(s) && Waiter(t, true) in s.waiters
    ensures !s.locked && s.waiters != [] && s.waiters[0].task == t
    ensures Without(s.waiters, t) == s.waiters[1..] && LockInv(ResumeInLock(s, t))
    ensures forall u :: InWaiters(ResumeInLock(s, t), u) <==> InWaiters(s, u) && u != t
  {
    var i :| 0 <= i < |s.waiters| && s.waiters[i] == Waiter(t, true);
    assert i == 0;
    forall u | InWaiters(s, u) && u != t ensures InWaiters(ResumeInLock(s, t), u) {
      var j :| 0 <= j < |s.waiters| && s.waiters[j].task == u;
      assert s.waiters[1..][j - 1].task == u;
    }
  }

  lemma UpdateKeeps(s: Session, response: Tokens)
    requires LockInv(s) && s.locked
    ensures LockInv(Update(s, response).0)
    ensures forall u :: InWaiters(Update(s, response).0, u) <==> InWaiters(s, u)
    ensures forall u :: u in Update(s, response).0.queue <==> u in s.queue && Some(u) != Update(s, response).1
  {
    var s' := Update(s, response).0;
    forall u ensures InWaiters(s', u) <==> InWaiters(s, u) {
      if i :| 0 <= i < |s.waiters| && s.waiters[i].task == u {
        assert s'.waiters[i].task == u;
      }
    }
    if s.queue != [] {
      assert s.queue == [s.queue[0]] + s'.queue;
    }
  }

  lemma EnterKeeps(s: Session, t: TaskId)
    requires LockInv(s) && !InWaiters(s, t) && t !in s.queue
    ensures LockInv(Enter(s, t).0)
  {
    AcquireKeeps(s, t);
  }

  class TokenBasedLocalUserSession {
    var contexts: Tokens
    var currentRound: nat
    var locked: bool
    var waiters: seq<Waiter>
    var waitingRounds: seq<TaskId>

    function View(): Session
      reads this
    {
      Session(contexts, currentRound, locked, waiters, waitingRounds)
    }

    constructor (context: Option<Tokens>)
      ensures View() == Session(if context.Some? then context.value else [], 0, false, [], [])
    {
      contexts := if context.Some? then context.value else [];
      currentRound := 0;
      locked := false;
      waiters := [];
      waitingRounds := [];
    }

    /** `in_flight.acquire()` up to its await, and what follows when it does not wait. */
    method AcquireInFlight(t: TaskId) returns (stretch: Stretch)
      modifies this
      ensures (View(), stretch) == Acquire(old(View()), t)
      ensures old(LockInv(View()) && !InWaiters(View(), t)) ==> LockInv(View())
    {
      if LockInv(View()) && !InWaiters(View(), t) {
        AcquireKeeps(View(), t);
      }
      if !locked && waiters == [] {
        locked := true;
        currentRound := currentRound + 1;
        stretch := Acquired;
      } else {
        waiters := waiters + [Waiter(t, false)];
        stretch := InLock;
      }
    }

    /** `get_context` from its call. */
    method GetContext(t: TaskId) returns (stretch: Stretch)
      modifies this
      ensures (View(), stretch) == Enter(old(View()), t)
      ensures old(LockInv(View()) && !InWaiters(View(), t)) && t !in old(waitingRounds) ==> LockInv(View())
    {
      if LockInv(View()) && !InWaiters(View(), t) && t !in waitingRounds {
        EnterKeeps(View(), t);
      }
      if waitingRounds != [] || locked {
        waitingRounds := waitingRounds + [t];
        stretch := OnFuture;
      } else {
        stretch := AcquireInFlight(t);
      }
    }

    /** `get_context` from the resumption of a task woken inside the lock. */
    method FinishAcquire(t: TaskId)
      modifies this
      ensures View() == ResumeInLock(old(View()), t)
      ensures old(LockInv(View())) && Waiter(t, true) in old(waiters) ==>
        LockInv(View()) && !old(locked) && waiters == old(waiters)[1..]
    {
      if LockInv(View()) && Waiter(t, true) in waiters {
        HeadResumes(View(), t);
      }
      waiters := Without(waiters, t);
      locked := true;
      currentRound := currentRound + 1;
    }

    method UpdateContext(response: Tokens) returns (resolved: Option<TaskId>)
      modifies this
      ensures (View(), resolved) == Update(old(View()), response)
      ensures old(LockInv(View()) && locked) ==> LockInv(View())
    {
      if LockInv(View()) && locked {
        UpdateKeeps(View(), response);
      }
      contexts := response;
      resolved := None;
      if waitingRounds != [] {
        resolved := Some(waitingRounds[0]);
        waitingRounds := waitingRounds[1..];
      }
      locked := false;
      waiters := WakeFirst(waiters);
    }
  }
}
