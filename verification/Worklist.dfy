/**
 A breadth-first worklist over any finite graph whose nodes are known by a key. The queue may hold
 a node more than once; a node is marked when it is taken off the queue, not when it is put on.
 */
module Worklist {

  datatype Graph<!N(==)> = Graph(succ: N -> seq<N>, key: N -> string)

  ghost function Keys<N>(g: Graph<N>, nodes: seq<N>): set<string> {
    set n | n in nodes :: g.key(n)
  }

  /** A finite set of nodes that no successor leaves. */
  ghost predicate Closed<N>(g: Graph<N>, universe: set<N>) {
    forall n, m :: n in universe && m in g.succ(n) ==> m in universe
  }

  ghost predicate Inside<N>(universe: set<N>, nodes: seq<N>) {
    forall n :: n in nodes ==> n in universe
  }

  /** The keys of the universe not yet marked: what makes the loop end. */
  ghost function Unmarked<N>(g: Graph<N>, universe: set<N>, marked: set<string>): set<string> {
    (set n | n in universe :: g.key(n)) - marked
  }

  lemma MarkingShrinks<N>(g: Graph<N>, universe: set<N>, marked: set<string>, n: N)
    requires n in universe && g.key(n) !in marked
    ensures |Unmarked(g, universe, marked + {g.key(n)})| < |Unmarked(g, universe, marked)|
  {
    assert Unmarked(g, universe, marked) == Unmarked(g, universe, marked + {g.key(n)}) + {g.key(n)};
  }

  /** The nodes processed, in order, once the loop has emptied `queue` with `done` behind it. */
  ghost function Processed<N>(g: Graph<N>, universe: set<N>, queue: seq<N>, done: seq<N>): seq<N>
    requires Closed(g, universe) && Inside(universe, queue)
    decreases |Unmarked(g, universe, Keys(g, done))|, |queue|
  {
    if queue == [] then done
    else
      var n := queue[0];
      if g.key(n) in Keys(g, done) then Processed(g, universe, queue[1..], done)
      else
        KeysAppend(g, done, n);
        MarkingShrinks(g, universe, Keys(g, done), n);
        Processed(g, universe, queue[1..] + g.succ(n), done + [n])
  }

  lemma KeysAppend<N>(g: Graph<N>, nodes: seq<N>, n: N)
    ensures Keys(g, nodes + [n]) == Keys(g, nodes) + {g.key(n)}
  {
    forall m | m in nodes ensures g.key(m) in Keys(g, nodes + [n]) {
      assert m in nodes + [n];
    }
    assert n in nodes + [n];
  }

  /** One turn of the loop. */
  lemma ProcessedStep<N>(g: Graph<N>, universe: set<N>, queue: seq<N>, done: seq<N>)
    requires Closed(g, universe) && Inside(universe, queue) && queue != []
    ensures Inside(universe, queue[1..]) && Inside(universe, queue[1..] + g.succ(queue[0]))
    ensures g.key(queue[0]) in Keys(g, done) ==>
      Processed(g, universe, queue, done) == Processed(g, universe, queue[1..], done)
    ensures g.key(queue[0]) !in Keys(g, done) ==>
      && Processed(g, universe, queue, done) == Processed(g, universe, queue[1..] + g.succ(queue[0]), done + [queue[0]])
      && Keys(g, done + [queue[0]]) == Keys(g, done) + {g.key(queue[0])}
      && |Unmarked(g, universe, Keys(g, done + [queue[0]]))| < |Unmarked(g, universe, Keys(g, done))|
  {
    KeysAppend(g, done, queue[0]);
    if g.key(queue[0]) !in Keys(g, done) {
      MarkingShrinks(g, universe, Keys(g, done), queue[0]);
    }
  }

  // ----- hop distance -----

  /** `n` is at most `d` hops from `entry`. */
  ghost predicate Near<N(!new)>(g: Graph<N>, entry: N, d: nat, n: N) {
    if d == 0 then n == entry
    else Near(g, entry, d - 1, n) || exists m :: Near(g, entry, d - 1, m) && n in g.succ(m)
  }

  ghost predicate Reachable<N(!new)>(g: Graph<N>, entry: N, n: N) {
    exists d: nat :: Near(g, entry, d, n)
  }

  lemma {:induction false} NearMonotone<N(!new)>(g: Graph<N>, entry: N, d: nat, e: nat, n: N)
    requires d <= e && Near(g, entry, d, n)
    ensures Near(g, entry, e, n)
  {
    if d < e {
      NearMonotone(g, entry, d, e - 1, n);
    }
  }

  lemma SuccessorReachable<N(!new)>(g: Graph<N>, entry: N, m: N, n: N)
    requires Reachable(g, entry, m) && n in g.succ(m)
    ensures Reachable(g, entry, n)
  {
    var d: nat :| Near(g, entry, d, m);
    assert Near(g, entry, d + 1, n);
  }

  lemma {:induction false} NearInside<N(!new)>(g: Graph<N>, home: set<N>, entry: N, d: nat, n: N)
    requires Closed(g, home) && entry in home && Near(g, entry, d, n)
    ensures n in home
  {
    if d > 0 {
      if Near(g, entry, d - 1, n) {
        NearInside(g, home, entry, d - 1, n);
      } else {
        var m :| Near(g, entry, d - 1, m) && n in g.succ(m);
        NearInside(g, home, entry, d - 1, m);
      }
    }
  }

  /** A trace never leaves a set of nodes that is closed under successors. */
  lemma ReachableInside<N(!new)>(g: Graph<N>, home: set<N>, entry: N)
    requires Closed(g, home) && entry in home
    ensures forall n :: Reachable(g, entry, n) ==> n in home
  {
    forall n | Reachable(g, entry, n) ensures n in home {
      var d: nat :| Near(g, entry, d, n);
      NearInside(g, home, entry, d, n);
    }
  }

  // ----- what holds with any keys -----

  ghost predicate DistinctKeys<N>(g: Graph<N>, nodes: seq<N>) {
    forall i, j :: 0 <= i < j < |nodes| ==> g.key(nodes[i]) != g.key(nodes[j])
  }

  ghost predicate AllReachable<N(!new)>(g: Graph<N>, entry: N, nodes: seq<N>) {
    forall n :: n in nodes ==> Reachable(g, entry, n)
  }

  /** Every successor of a processed node is still queued, or a node of its key has been processed. */
  ghost predicate Covered<N(!new)>(g: Graph<N>, queue: seq<N>, done: seq<N>) {
    forall m, n :: m in done && n in g.succ(m) ==> n in queue || g.key(n) in Keys(g, done)
  }

  ghost predicate SoundState<N(!new)>(g: Graph<N>, entry: N, queue: seq<N>, done: seq<N>) {
    && DistinctKeys(g, done) && Covered(g, queue, done)
    && AllReachable(g, entry, queue) && AllReachable(g, entry, done)
  }

  lemma SkipKeepsSound<N(!new)>(g: Graph<N>, entry: N, queue: seq<N>, done: seq<N>)
    requires SoundState(g, entry, queue, done) && queue != [] && g.key(queue[0]) in Keys(g, done)
    ensures SoundState(g, entry, queue[1..], done)
  {
    assert queue == [queue[0]] + queue[1..];
  }

  lemma VisitKeepsSound<N(!new)>(g: Graph<N>, entry: N, queue: seq<N>, done: seq<N>)
    requires SoundState(g, entry, queue, done) && queue != [] && g.key(queue[0]) !in Keys(g, done)
    ensures SoundState(g, entry, queue[1..] + g.succ(queue[0]), done + [queue[0]])
  {
    var n := queue[0];
    assert queue == [n] + queue[1..];
    KeysAppend(g, done, n);
    forall i | 0 <= i < |done| ensures g.key(done[i]) != g.key(n) {
      assert done[i] in done;
    }
    forall m | m in g.succ(n) ensures Reachable(g, entry, m) {
      SuccessorReachable(g, entry, n, m);
    }
  }

  /** Each key is processed once, only reachable nodes are processed, and nothing they lead to is forgotten. */
  lemma {:induction false} ProcessedSound<N(!new)>(g: Graph<N>, universe: set<N>, entry: N, queue: seq<N>, done: seq<N>)
    requires Closed(g, universe) && Inside(universe, queue) && SoundState(g, entry, queue, done)
    ensures SoundState(g, entry, [], Processed(g, universe, queue, done))
    decreases |Unmarked(g, universe, Keys(g, done))|, |queue|
  {
    if queue != [] {
      var n := queue[0];
      if g.key(n) in Keys(g, done) {
        SkipKeepsSound(g, entry, queue, done);
        ProcessedSound(g, universe, entry, queue[1..], done);
      } else {
        KeysAppend(g, done, n);
        MarkingShrinks(g, universe, Keys(g, done), n);
        VisitKeepsSound(g, entry, queue, done);
        ProcessedSound(g, universe, entry, queue[1..] + g.succ(n), done + [n]);
      }
    }
  }

  lemma {:induction false} ProcessedExtends<N>(g: Graph<N>, universe: set<N>, queue: seq<N>, done: seq<N>)
    requires Closed(g, universe) && Inside(universe, queue)
    ensures done <= Processed(g, universe, queue, done)
    decreases |Unmarked(g, universe, Keys(g, done))|, |queue|
  {
    if queue != [] {
      var n := queue[0];
      if g.key(n) in Keys(g, done) {
        ProcessedExtends(g, universe, queue[1..], done);
      } else {
        KeysAppend(g, done, n);
        MarkingShrinks(g, universe, Keys(g, done), n);
        ProcessedExtends(g, universe, queue[1..] + g.succ(n), done + [n]);
      }
    }
  }

  /** The worklist started on the entry point alone. */
  ghost function Trace<N>(g: Graph<N>, universe: set<N>, entry: N): seq<N>
    requires Closed(g, universe) && entry in universe
  {
    Processed(g, universe, [entry], [])
  }

  lemma TraceStarts<N(!new)>(g: Graph<N>, universe: set<N>, entry: N)
    requires Closed(g, universe) && entry in universe
    ensures SoundState(g, entry, [], Trace(g, universe, entry))
    ensures entry in Trace(g, universe, entry)
  {
    assert Near(g, entry, 0, entry);
    assert [entry][1..] + g.succ(entry) == g.succ(entry);
    ProcessedSound(g, universe, entry, [entry], []);
    ProcessedExtends(g, universe, g.succ(entry), [entry]);
    assert Keys(g, []) == {};
    assert [] + [entry] == [entry];
    assert Trace(g, universe, entry) == Processed(g, universe, g.succ(entry), [entry]);
    assert Trace(g, universe, entry)[0] == entry;
  }

  // ----- exactness -----

  /** No two reachable nodes share a key. */
  ghost predicate KeysIdentify<N(!new)>(g: Graph<N>, entry: N) {
    forall m, n :: Reachable(g, entry, m) && Reachable(g, entry, n) && g.key(m) == g.key(n) ==> m == n
  }

  lemma {:induction false} NearProcessed<N(!new)>(g: Graph<N>, universe: set<N>, entry: N, d: nat, n: N)
    requires Closed(g, universe) && entry in universe && KeysIdentify(g, entry) && Near(g, entry, d, n)
    ensures n in Trace(g, universe, entry)
  {
    var order := Trace(g, universe, entry);
    TraceStarts(g, universe, entry);
    if d > 0 {
      if Near(g, entry, d - 1, n) {
        NearProcessed(g, universe, entry, d - 1, n);
      } else {
        var m :| Near(g, entry, d - 1, m) && n in g.succ(m);
        NearProcessed(g, universe, entry, d - 1, m);
        var k :| k in order && g.key(k) == g.key(n);
        assert Reachable(g, entry, n) && Reachable(g, entry, k);
      }
    }
  }

  /** The trace visits exactly the reachable nodes, if and only if no two of them share a key. */
  lemma TraceExact<N(!new)>(g: Graph<N>, universe: set<N>, entry: N)
    requires Closed(g, universe) && entry in universe
    ensures (forall n :: n in Trace(g, universe, entry) <==> Reachable(g, entry, n)) <==> KeysIdentify(g, entry)
  {
    var order := Trace(g, universe, entry);
    TraceStarts(g, universe, entry);
    if KeysIdentify(g, entry) {
      forall n | Reachable(g, entry, n) ensures n in order {
        var d: nat :| Near(g, entry, d, n);
        NearProcessed(g, universe, entry, d, n);
      }
    }
  }

  lemma TwinsLoseOne<N(!new)>(g: Graph<N>, universe: set<N>, entry: N, m: N, n: N)
    requires Closed(g, universe) && entry in universe
    requires m in g.succ(entry) && n in g.succ(entry) && m != n && g.key(m) == g.key(n)
    ensures exists lost :: Reachable(g, entry, lost) && lost !in Trace(g, universe, entry)
  {
    assert Near(g, entry, 0, entry);
    SuccessorReachable(g, entry, entry, m);
    SuccessorReachable(g, entry, entry, n);
    TraceExact(g, universe, entry);
    TraceStarts(g, universe, entry);
  }

  // ----- level order -----

  /** Whoever comes later is at least as many hops away. */
  ghost predicate LevelOrder<N(!new)>(g: Graph<N>, entry: N, nodes: seq<N>) {
    forall i, j, d: nat :: 0 <= i < j < |nodes| && Near(g, entry, d, nodes[j]) ==> Near(g, entry, d, nodes[i])
  }

  ghost predicate AllNear<N(!new)>(g: Graph<N>, entry: N, d: nat, nodes: seq<N>) {
    forall n :: n in nodes ==> Near(g, entry, d, n)
  }

  /** The queue is the rest of level `d` followed by what has been found of level `d + 1`. */
  ghost predicate LevelState<N(!new)>(g: Graph<N>, entry: N, d: nat, level: seq<N>, next: seq<N>, done: seq<N>) {
    && LevelOrder(g, entry, done)
    && AllNear(g, entry, d, level) && AllNear(g, entry, d + 1, next) && AllNear(g, entry, d, done)
    && (forall n :: Near(g, entry, d, n) ==> n in done || n in level)
    && (d > 0 ==> forall n :: Near(g, entry, d - 1, n) ==> n in done)
    && (forall m, n :: m in done && n in g.succ(m) ==> n in done || n in level || n in next)
  }

  lemma NextLevel<N(!new)>(g: Graph<N>, entry: N, d: nat, next: seq<N>, done: seq<N>)
    requires LevelState(g, entry, d, [], next, done)
    ensures LevelState(g, entry, d + 1, next, [], done)
  {
    forall n | n in done ensures Near(g, entry, d + 1, n) {
      NearMonotone(g, entry, d, d + 1, n);
    }
  }

  lemma SkipKeepsLevels<N(!new)>(g: Graph<N>, entry: N, d: nat, level: seq<N>, next: seq<N>, done: seq<N>)
    requires LevelState(g, entry, d, level, next, done) && KeysIdentify(g, entry)
    requires level != [] && g.key(level[0]) in Keys(g, done)
    ensures LevelState(g, entry, d, level[1..], next, done)
  {
    assert level == [level[0]] + level[1..];
    var twin :| twin in done && g.key(twin) == g.key(level[0]);
    assert Near(g, entry, d, twin) && Near(g, entry, d, level[0]);
    assert twin == level[0];
  }

  lemma VisitKeepsLevels<N(!new)>(g: Graph<N>, entry: N, d: nat, level: seq<N>, next: seq<N>, done: seq<N>)
    requires LevelState(g, entry, d, level, next, done)
    requires level != [] && level[0] !in done
    ensures LevelState(g, entry, d, level[1..], next + g.succ(level[0]), done + [level[0]])
  {
    var n := level[0];
    assert level == [n] + level[1..];
    var more := done + [n];
    forall i, j, e: nat | 0 <= i < j < |more| && Near(g, entry, e, more[j]) ensures Near(g, entry, e, more[i]) {
      if j == |done| {
        if e < d {
          NearMonotone(g, entry, e, d - 1, n);
        }
        assert more[i] in done;
        NearMonotone(g, entry, d, e, more[i]);
      }
    }
  }

  lemma Regroup<N>(level: seq<N>, next: seq<N>, found: seq<N>)
    requires level != []
    ensures (level + next)[0] == level[0] && (level + next)[1..] == level[1..] + next
    ensures (level + next)[1..] + found == level[1..] + (next + found)
  {}

  lemma {:induction false} ProcessedInLevelOrder<N(!new)>(g: Graph<N>, universe: set<N>, entry: N, d: nat,
                                                          level: seq<N>, next: seq<N>, done: seq<N>)
    requires Closed(g, universe) && Inside(universe, level + next) && KeysIdentify(g, entry)
    requires LevelState(g, entry, d, level, next, done)
    ensures LevelOrder(g, entry, Processed(g, universe, level + next, done))
    decreases |Unmarked(g, universe, Keys(g, done))|, |level + next|, if level == [] then 1 else 0
  {
    if level == [] {
      assert level + next == next;
      if next != [] {
        NextLevel(g, entry, d, next, done);
        assert next + [] == next;
        ProcessedInLevelOrder(g, universe, entry, d + 1, next, [], done);
      }
    } else {
      var n := level[0];
      Regroup(level, next, g.succ(n));
      if g.key(n) in Keys(g, done) {
        SkipKeepsLevels(g, entry, d, level, next, done);
        ProcessedInLevelOrder(g, universe, entry, d, level[1..], next, done);
      } else {
        KeysAppend(g, done, n);
        MarkingShrinks(g, universe, Keys(g, done), n);
        VisitKeepsLevels(g, entry, d, level, next, done);
        ProcessedInLevelOrder(g, universe, entry, d, level[1..], next + g.succ(n), done + [n]);
      }
    }
  }

  /** Nodes come out in nondecreasing hop distance from the entry point. */
  lemma TraceInLevelOrder<N(!new)>(g: Graph<N>, universe: set<N>, entry: N)
    requires Closed(g, universe) && entry in universe && KeysIdentify(g, entry)
    ensures LevelOrder(g, entry, Trace(g, universe, entry))
  {
    assert [entry] + [] == [entry];
    assert Near(g, entry, 0, entry);
    ProcessedInLevelOrder(g, universe, entry, 0, [entry], [], []);
  }
}
