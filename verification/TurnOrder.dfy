/** The order in which turns take the lock: the order they ask for it, and when that is the order they arrive. */
module TurnOrder {
  import opened Results
  import opened UserSession
  import opened TurnTaking
  import opened TurnTakingRuns

  function Tasks(waiters: seq<Waiter>): (tasks: seq<TaskId>)
    ensures |tasks| == |waiters| && forall i :: 0 <= i < |waiters| ==> tasks[i] == waiters[i].task
  {
    seq(|waiters|, i requires 0 <= i < |waiters| => waiters[i].task)
  }

  /** The turns that have gone for the lock: those that took it and those that wait for it. */
  function Order(r: Run): seq<TaskId> {
    r.acquired + Tasks(r.session.waiters)
  }

  /** The turn that reaches `in_flight.acquire()` in this step, if any. */
  function Asks(r: Run, e: Event): seq<TaskId> {
    match e
    case Arrive(t, _) => if r.session.queue == [] && !r.session.locked then [t] else []
    case Resume(t) => [t]
    case _ => []
  }

  function Arrives(e: Event): seq<TaskId> {
    match e
    case Arrive(t, _) => [t]
    case _ => []
  }

  /** The turns in the order they reach the lock during a run. */
  ghost function Asked(r: Run, events: seq<Event>): seq<TaskId>
    decreases events
  {
    if events == [] || !Enabled(r, events[0]) then []
    else Asks(r, events[0]) + Asked(Step(r, events[0]), events[1..])
  }

  function Arrived(events: seq<Event>): seq<TaskId> {
    if events == [] then [] else Arrives(events[0]) + Arrived(events[1..])
  }

  // ----- the lock serves in the order it is asked -----

  lemma WakingKeepsTasks(waiters: seq<Waiter>)
    ensures Tasks(WakeFirst(waiters)) == Tasks(waiters)
  {}

  lemma StepServesInOrder(context: Tokens, r: Run, e: Event)
    requires Inv(context, r) && Enabled(r, e)
    ensures Order(Step(r, e)) == Order(r) + Asks(r, e)
  {
    hide Inv, Order, Acquire, AfterStretch, AfterUpdate, ResumeInLock, Response;
    assert LockInv(r.session) by { InvMeansLockInv(context, r); }
    assert Order(r) + [] == Order(r);
    match e
    case Arrive(t, prompt) => ArrivingServes(r, t, prompt);
    case Resume(t) => AskingServes(r, t);
    case ResumeLock(t) => TakingServes(r, t);
    case Respond(t, output) => UpdatingServes(r, t, Response(r, t, Some(output)), Some(output));
    case Failure(t) => UpdatingServes(r, t, Response(r, t, None), None);
  }

  lemma InvMeansLockInv(context: Tokens, r: Run)
    requires Inv(context, r)
    ensures LockInv(r.session)
  {}

  lemma AskingServes(r: Run, t: TaskId)
    ensures Order(AfterStretch(r, t, Acquire(r.session, t))) == Order(r) + [t]
  {
    AcquireAppends(r.session, t);
    hide Tasks, Acquire;
    assert r.acquired + (Tasks(r.session.waiters) + [t]) == r.acquired + Tasks(r.session.waiters) + [t];
    NoTasks();
    assert r.acquired + [t] + [] == r.acquired + [] + [t];
  }

  lemma NoTasks()
    ensures Tasks([]) == []
  {}

  lemma ArrivingServes(r: Run, t: TaskId, prompt: Tokens)
    requires Enabled(r, Arrive(t, prompt))
    ensures Order(Step(r, Arrive(t, prompt))) == Order(r) + Asks(r, Arrive(t, prompt))
  {
    hide Acquire;
    var r0 := r.(prompts := r.prompts[t := prompt]);
    assert Order(r) + [] == Order(r);
    if r.session.queue == [] && !r.session.locked {
      AskingServes(r0, t);
    }
  }

  lemma TakingServes(r: Run, t: TaskId)
    requires LockInv(r.session) && Waiter(t, true) in r.session.waiters
    ensures Order(AfterStretch(r, t, (ResumeInLock(r.session, t), Acquired))) == Order(r)
  {
    hide LockInv, Without, Tasks;
    HeadResumes(r.session, t);
    HeadMoves(r.session.waiters);
    assert r.acquired + [t] + Tasks(r.session.waiters[1..]) == r.acquired + ([t] + Tasks(r.session.waiters[1..]));
  }

  lemma UpdatingServes(r: Run, t: TaskId, response: Tokens, output: Option<Tokens>)
    ensures Order(AfterUpdate(r, t, response, output)) == Order(r)
  {
    WakingKeepsTasks(r.session.waiters);
  }

  lemma AcquireAppends(s: Session, t: TaskId)
    ensures var (next, stretch) := Acquire(s, t);
      Tasks(next.waiters) == if stretch.InLock? then Tasks(s.waiters) + [t] else []
    ensures !Acquire(s, t).1.OnFuture? && (Acquire(s, t).1.Acquired? ==> s.waiters == [])
  {}

  lemma HeadMoves(waiters: seq<Waiter>)
    requires waiters != []
    ensures [waiters[0].task] + Tasks(waiters[1..]) == Tasks(waiters)
  {}

  /** From any state: turns take the lock in the order they ask for it, behind those that asked before. */
  lemma {:induction false} LockServesInAskingOrder(context: Tokens, r: Run, events: seq<Event>)
    requires Inv(context, r) && From(r, events).Some?
    ensures Order(From(r, events).value) == Order(r) + Asked(r, events)
    decreases events
  {
    hide Inv, Order, Asks, Step;
    if events == [] {
      assert Order(r) + [] == Order(r);
    } else {
      StepServesInOrder(context, r, events[0]);
      StepKeepsInv(context, r, events[0]);
      LockServesInAskingOrder(context, Step(r, events[0]), events[1..]);
      assert Order(r) + Asks(r, events[0]) + Asked(Step(r, events[0]), events[1..]) == Order(r) + Asked(r, events);
    }
  }

  /** Over runs from the start: those that took the lock, then those waiting for it, are those that asked, in order. */
  lemma TakenInAskingOrder(context: Tokens, events: seq<Event>)
    requires From(Start(context), events).Some?
    ensures var end := From(Start(context), events).value;
      end.acquired + Tasks(end.session.waiters) == Asked(Start(context), events)
  {
    StartIsInv(context);
    LockServesInAskingOrder(context, Start(context), events);
    assert Order(Start(context)) == [];
  }

  // ----- when they ask in the order they arrive -----

  ghost predicate Distinct(ts: seq<TaskId>) {
    forall i, j :: 0 <= i < j < |ts| ==> ts[i] != ts[j]
  }

  ghost predicate Pending(r: Run, t: TaskId) {
    InPhase(r, t, Queued) || InPhase(r, t, Woken)
  }

  /** A turn reaches the lock while a turn that arrived before it is still queued, or woken and not resumed. */
  ghost predicate Passes(r: Run, arrived: seq<TaskId>, e: Event) {
    var known := arrived + Arrives(e);
    exists i, j :: 0 <= i < j < |known| && Asks(r, e) == [known[j]] && Pending(r, known[i])
  }

  /** Some step of the run passes an earlier arrival. */
  ghost predicate SomePass(r: Run, arrived: seq<TaskId>, events: seq<Event>)
    decreases events
  {
    && events != [] && Enabled(r, events[0])
    && (Passes(r, arrived, events[0]) || SomePass(Step(r, events[0]), arrived + Arrives(events[0]), events[1..]))
  }

  /** `arrived` lists the turns of the session, each once. */
  ghost predicate Lists(arrived: seq<TaskId>, r: Run) {
    Distinct(arrived) && forall t :: t in arrived <==> t in r.phase
  }

  /** A turn has gone for the lock unless it is still pending. */
  lemma OrderIs(context: Tokens, r: Run)
    requires Inv(context, r)
    ensures Distinct(Order(r)) && forall t :: t in Order(r) <==> t in r.phase && !Pending(r, t)
  {
    TasksAre(r.session);
    forall t ensures t in Order(r) <==> t in r.phase && !Pending(r, t) {
      assert t in Order(r) <==> t in r.acquired || t in Tasks(r.session.waiters);
      assert t in r.acquired <==> InPhase(r, t, InFlight) || InPhase(r, t, Over);
      assert t in Tasks(r.session.waiters) <==> InPhase(r, t, Waiting);
    }
    var n := |r.acquired|;
    forall i, j | 0 <= i < j < |Order(r)| ensures Order(r)[i] != Order(r)[j] {
      if i < n <= j {
        assert r.acquired[i] in r.acquired && Tasks(r.session.waiters)[j - n] in Tasks(r.session.waiters);
      }
    }
  }

  lemma TasksAre(s: Session)
    ensures forall t :: t in Tasks(s.waiters) <==> InWaiters(s, t)
  {
    forall t ensures t in Tasks(s.waiters) <==> InWaiters(s, t) {
      if InWaiters(s, t) {
        var i :| 0 <= i < |s.waiters| && s.waiters[i].task == t;
        assert Tasks(s.waiters)[i] == t;
      }
    }
  }

  lemma StepKeys(r: Run, e: Event)
    requires PhaseInv(r) && Enabled(r, e)
    ensures forall t :: t in Step(r, e).phase <==> t in r.phase || t in Arrives(e)
  {
    hide Enter, Acquire, ResumeInLock, Response;
    match e
    case Arrive(_, _) =>
    case Resume(_) =>
    case ResumeLock(_) =>
    case Respond(t, output) => UpdateKeys(r, t, Response(r, t, Some(output)), Some(output));
    case Failure(t) => UpdateKeys(r, t, Response(r, t, None), None);
  }

  lemma UpdateKeys(r: Run, t: TaskId, response: Tokens, output: Option<Tokens>)
    requires PhaseInv(r) && t in r.phase
    ensures AfterUpdate(r, t, response, output).phase.Keys == r.phase.Keys
  {
    assert r.session.queue != [] ==> InPhase(r, r.session.queue[0], Queued);
  }

  lemma StepListsArrivals(context: Tokens, r: Run, arrived: seq<TaskId>, e: Event)
    requires Inv(context, r) && Enabled(r, e) && Lists(arrived, r)
    ensures Lists(arrived + Arrives(e), Step(r, e))
  {
    hide Step, LockInv, WakeUpInv, BookInv, HistoryInv, PhaseInv;
    StepKeys(r, e);
    DistinctConcat(arrived, Arrives(e));
    forall t ensures t in arrived + Arrives(e) <==> t in arrived || t in Arrives(e) {}
  }

  lemma DistinctConcat(a: seq<TaskId>, b: seq<TaskId>)
    requires Distinct(a) && Distinct(b) && forall t :: t in b ==> t !in a
    ensures Distinct(a + b)
  {
    var s := a + b;
    forall i, j | 0 <= i < j < |s| ensures s[i] != s[j] {
      assert j >= |a| ==> s[j] in b;
      assert i < |a| ==> s[i] in a;
    }
  }

  /** The turn that asks is next in the order of arrival, or some earlier arrival is still pending. */
  lemma NextOrPassed(order: seq<TaskId>, known: seq<TaskId>, t: TaskId)
    requires Distinct(known) && order <= known && t in known && t !in order
    ensures |order| < |known|
    ensures order + [t] <= known <==> known[|order|] == t
    ensures known[|order|] != t ==> exists j :: |order| < j < |known| && known[j] == t
    ensures known[|order|] !in order
  {
    forall i | 0 <= i < |order| ensures known[i] == order[i] && order[i] != t && known[i] in order {
      assert order[i] in order;
    }
    assert |order| == |known| ==> order == known;
    var n := |order|;
    forall i | 0 <= i < n ensures order[i] != known[n] {
      assert known[i] != known[n];
    }
    assert known[..n] == order;
    assert (order + [t])[n] == t;
  }

  lemma AskerIsPending(context: Tokens, r: Run, e: Event)
    requires Inv(context, r) && Enabled(r, e)
    ensures Asks(r, e) == [] || (|Asks(r, e)| == 1 && Asks(r, e)[0] !in Order(r))
    ensures e.Arrive? && Asks(r, e) != [] ==> Asks(r, e) == Arrives(e)
    ensures !e.Arrive? && Asks(r, e) != [] ==> Asks(r, e)[0] in r.phase
  {
    OrderIs(context, r);
  }

  lemma StepKeepsOrderExactly(context: Tokens, r: Run, arrived: seq<TaskId>, e: Event)
    requires Inv(context, r) && Enabled(r, e) && Lists(arrived, r) && Order(r) <= arrived
    ensures Order(Step(r, e)) <= arrived + Arrives(e) <==> !Passes(r, arrived, e)
  {
    hide Inv, Order, Step, Asks;
    StepServesInOrder(context, r, e);
    AskerIsPending(context, r, e);
    OrderIs(context, r);
    StepListsArrivals(context, r, arrived, e);
    var order, known := Order(r), arrived + Arrives(e);
    assert order <= known;
    if Asks(r, e) == [] {
      assert order + [] == order;
    } else {
      var t := Asks(r, e)[0];
      assert Asks(r, e) == [t];
      AskerIsKnown(r, arrived, e, t);
      NextOrPassed(order, known, t);
      if known[|order|] == t {
        NobodyPassed(r, order, known, t);
      } else {
        var j :| |order| < j < |known| && known[j] == t;
        PassedIsPending(r, arrived, e, order, j);
      }
    }
  }

  lemma AskerIsKnown(r: Run, arrived: seq<TaskId>, e: Event, t: TaskId)
    requires Lists(arrived, r) && (if e.Arrive? then Arrives(e) == [t] else t in r.phase)
    ensures t in arrived + Arrives(e)
  {}

  lemma NobodyPassed(r: Run, order: seq<TaskId>, known: seq<TaskId>, t: TaskId)
    requires Distinct(known) && order <= known && |order| < |known| && known[|order|] == t
    requires forall u :: u in order ==> !Pending(r, u)
    ensures forall i, j :: 0 <= i < j < |known| && known[j] == t ==> !Pending(r, known[i])
  {
    forall i, j | 0 <= i < j < |known| && known[j] == t ensures !Pending(r, known[i]) {
      assert j == |order| && known[i] == order[i] && order[i] in order;
    }
  }

  lemma PassedIsPending(r: Run, arrived: seq<TaskId>, e: Event, order: seq<TaskId>, j: nat)
    requires Lists(arrived, r) && order <= arrived
    requires forall t :: t in order <==> t in r.phase && !Pending(r, t)
    requires var known := arrived + Arrives(e);
      |order| < j < |known| && known[|order|] !in order && Asks(r, e) == [known[j]]
    ensures Passes(r, arrived, e)
  {
    var known := arrived + Arrives(e);
    assert |Arrives(e)| <= 1;
    assert |order| < |arrived| && known[|order|] == arrived[|order|] && arrived[|order|] in arrived;
    assert Pending(r, known[|order|]);
  }

  // ----- over whole runs -----

  /** Once the order is lost it stays lost. */
  lemma LostOrderStaysLost(order: seq<TaskId>, arrived: seq<TaskId>, asked: seq<TaskId>, later: seq<TaskId>)
    requires Distinct(arrived + later) && forall t :: t in order ==> t in arrived
    requires order + asked <= arrived + later
    ensures order <= arrived
  {
    var all := arrived + later;
    assert order == (order + asked)[..|order|] == all[..|order|];
    if order != [] {
      var last := |order| - 1;
      assert order[last] in order && order[last] == all[last];
      var i :| 0 <= i < |arrived| && arrived[i] == order[last];
      assert all[i] == all[last] && i == last;
    }
    assert all[..|order|] == arrived[..|order|];
  }

  lemma {:induction false} RunListsArrivals(context: Tokens, r: Run, arrived: seq<TaskId>, events: seq<Event>)
    requires Inv(context, r) && From(r, events).Some? && Lists(arrived, r)
    ensures Lists(arrived + Arrived(events), From(r, events).value)
    decreases events
  {
    hide Inv, Step, Lists, Enabled;
    if events == [] {
      assert arrived + [] == arrived;
    } else {
      StepListsArrivals(context, r, arrived, events[0]);
      StepKeepsInv(context, r, events[0]);
      RunListsArrivals(context, Step(r, events[0]), arrived + Arrives(events[0]), events[1..]);
      assert arrived + Arrives(events[0]) + Arrived(events[1..]) == arrived + Arrived(events);
    }
  }

  lemma {:induction false} OrderKeptExactly(context: Tokens, r: Run, arrived: seq<TaskId>, events: seq<Event>)
    requires Inv(context, r) && From(r, events).Some? && Lists(arrived, r) && Order(r) <= arrived
    ensures Order(From(r, events).value) <= arrived + Arrived(events) <==> !SomePass(r, arrived, events)
    decreases events
  {
    hide Inv, Order, Step, Asks, Passes, Lists, Enabled, Arrives;
    if events == [] {
      assert arrived + [] == arrived;
    } else {
      var e, next := events[0], Step(r, events[0]);
      var known := arrived + Arrives(e);
      StepKeepsOrderExactly(context, r, arrived, e);
      StepListsArrivals(context, r, arrived, e);
      StepKeepsInv(context, r, e);
      assert known + Arrived(events[1..]) == arrived + Arrived(events);
      if Order(next) <= known {
        OrderKeptExactly(context, next, known, events[1..]);
      } else {
        LostForGood(context, next, known, events[1..]);
      }
    }
  }

  lemma LostForGood(context: Tokens, r: Run, arrived: seq<TaskId>, events: seq<Event>)
    requires Inv(context, r) && From(r, events).Some? && Lists(arrived, r)
    ensures Order(From(r, events).value) <= arrived + Arrived(events) ==> Order(r) <= arrived
  {
    hide Inv, Order, Step, Asks;
    LockServesInAskingOrder(context, r, events);
    RunListsArrivals(context, r, arrived, events);
    OrderIs(context, r);
    if Order(From(r, events).value) <= arrived + Arrived(events) {
      LostOrderStaysLost(Order(r), arrived, Asked(r, events), Arrived(events));
    }
  }

  /** Turns ask for the lock in the order they arrived if and only if no step of the run passes an earlier arrival. */
  lemma AskedInArrivalOrderExactly(context: Tokens, events: seq<Event>)
    requires From(Start(context), events).Some?
    ensures Asked(Start(context), events) <= Arrived(events) <==> !SomePass(Start(context), [], events)
  {
    StartIsInv(context);
    TakenInAskingOrder(context, events);
    OrderKeptExactly(context, Start(context), [], events);
    assert [] + Arrived(events) == Arrived(events);
  }

  /** So when every turn has been served, they took the lock in the order they arrived if and only if no step passed. */
  lemma ServedInArrivalOrderExactly(context: Tokens, events: seq<Event>)
    requires From(Start(context), events).Some? && AtRest(From(Start(context), events).value)
    ensures From(Start(context), events).value.acquired == Arrived(events) <==> !SomePass(Start(context), [], events)
  {
    var end := From(Start(context), events).value;
    StartIsInv(context);
    RunKeepsInv(context, Start(context), events);
    RestMeansAllServed(context, end);
    TakenInAskingOrder(context, events);
    AskedInArrivalOrderExactly(context, events);
    RunListsArrivals(context, Start(context), [], events);
    NobodyWaits(context, end);
    assert [] + Arrived(events) == Arrived(events);
    if end.acquired <= Arrived(events) {
      AllOfThem(end.acquired, Arrived(events));
    }
  }

  lemma NobodyWaits(context: Tokens, r: Run)
    requires Inv(context, r) && forall t :: t in r.phase ==> InPhase(r, t, Over)
    ensures Tasks(r.session.waiters) == []
  {
    assert r.session.waiters == [] || InWaiters(r.session, r.session.waiters[0].task);
  }

  lemma AllOfThem(some: seq<TaskId>, all: seq<TaskId>)
    requires some <= all && Distinct(all) && forall t :: t in all ==> t in some
    ensures some == all
  {
    if all != [] {
      var last := |all| - 1;
      assert all[last] in all;
      var i :| 0 <= i < |some| && some[i] == all[last];
      assert all[i] == all[last] && i == last;
    }
  }

  /** In the run of ArrivalOrderNotKept the third turn asks before the second, by passing it. */
  lemma ThirdPassesSecond()
    ensures var events := [Arrive(1, [10]), Arrive(2, [20]), Failure(1), Arrive(3, [30])];
      && Arrived(events) == [1, 2, 3]
      && From(Start([]), events).Some? && Asked(Start([]), events)[..2] == [1, 3]
      && SomePass(Start([]), [], events)
  {
    var events := [Arrive(1, [10]), Arrive(2, [20]), Failure(1), Arrive(3, [30])];
    hide Asked, SomePass, From, Step;
    ArrivalOrderNotKept();
    TakenInAskingOrder([], events);
    ThreeArrive();
    AskedInArrivalOrderExactly([], events);
    assert Asked(Start([]), events)[..2][1] == 3;
    assert Arrived(events)[1] == 2;
  }

  lemma ThreeArrive()
    ensures Arrived([Arrive(1, [10]), Arrive(2, [20]), Failure(1), Arrive(3, [30])]) == [1, 2, 3]
  {
    assert Arrived([]) == [];
    assert Arrived([Arrive(3, [30])]) == [3];
    assert Arrived([Failure(1), Arrive(3, [30])]) == [3];
    assert Arrived([Arrive(2, [20]), Failure(1), Arrive(3, [30])]) == [2, 3];
  }
}
