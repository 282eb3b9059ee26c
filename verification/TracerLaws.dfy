/** What the trace finds in a cluster: exactly the reachable resources, once each, nearest first. */
module TracerLaws {
  import opened Results
  import opened Worklist
  import opened Cluster
  import opened ClusterEdges
  import opened StackTracer

  ghost predicate PlainName(s: string) {
    s != "" && '/' !in s
  }

  const BUILTIN_KINDS := ["Route", "Gateway", "HTTPRoute", "InferenceModel", "InferencePool", "Service", "Pod"]

  ghost predicate NamesNamespace(ref: Ref) {
    ref.namespace != Some("")
  }

  /** What the API server guarantees of one object. */
  ghost predicate WellFormedResource(r: Resource) {
    && PlainName(r.name) && PlainName(r.namespace)
    && (r.spec.Other? ==> '/' !in r.spec.otherKind && r.spec.otherKind !in BUILTIN_KINDS)
    && (r.spec.HTTPRoute? ==> forall b :: b in Flatten(r.spec.rules) ==> NamesNamespace(b.ref))
  }

  ghost predicate SameIdentity(r: Resource, s: Resource) {
    KindOf(r.spec) == KindOf(s.spec) && r.namespace == s.namespace && r.name == s.name
  }

  /** ... and of all of them: one object per kind, namespace and name. */
  ghost predicate WellFormed(all: Inventory) {
    && (forall r :: r in all ==> WellFormedResource(r))
    && (forall r, s :: r in all && s in all && SameIdentity(r, s) ==> r == s)
  }

  /** A resource of the cluster in its own namespace. */
  ghost predicate AtHome(all: Inventory, n: Node) {
    n.resource in all && n.ns == n.resource.namespace
  }

  // ----- the key string identifies kind, namespace and name -----

  lemma SplitAtSlash(a: string, b: string, a': string, b': string)
    requires '/' !in a && '/' !in a' && a + "/" + b == a' + "/" + b'
    ensures a == a' && b == b'
  {
    var s := a + "/" + b;
    assert s[|a|] == '/' && s[|a'|] == '/';
    assert forall i :: 0 <= i < |a| ==> s[i] == a[i];
    assert forall i :: 0 <= i < |a'| ==> s[i] == a'[i];
    assert a == s[..|a|] == a';
    assert b == s[|a| + 1..] == b';
  }

  lemma KindNameInjective(x: Spec, y: Spec)
    requires x.Other? ==> x.otherKind !in BUILTIN_KINDS
    requires y.Other? ==> y.otherKind !in BUILTIN_KINDS
    requires KindName(KindOf(x)) == KindName(KindOf(y))
    ensures KindOf(x) == KindOf(y)
  {
    assert "Route" in BUILTIN_KINDS && "Gateway" in BUILTIN_KINDS && "HTTPRoute" in BUILTIN_KINDS
        && "InferenceModel" in BUILTIN_KINDS && "InferencePool" in BUILTIN_KINDS
        && "Service" in BUILTIN_KINDS && "Pod" in BUILTIN_KINDS;
    assert |"Route"| == 5 && |"Gateway"| == 7 && |"HTTPRoute"| == 9 && |"InferenceModel"| == 14
        && |"InferencePool"| == 13 && |"Service"| == 7 && |"Pod"| == 3 && "Gateway"[0] == 'G' && "Service"[0] == 'S';
  }

  lemma KeyInjective(m: Node, n: Node)
    requires WellFormedResource(m.resource) && WellFormedResource(n.resource)
    requires '/' !in m.ns && '/' !in n.ns && Key(m) == Key(n)
    ensures KindOf(m.resource.spec) == KindOf(n.resource.spec) && m.ns == n.ns && m.resource.name == n.resource.name
  {
    var km, kn := KindName(KindOf(m.resource.spec)), KindName(KindOf(n.resource.spec));
    var rm, rn := m.ns + "/" + m.resource.name, n.ns + "/" + n.resource.name;
    assert Key(m) == km + "/" + rm && Key(n) == kn + "/" + rn;
    SplitAtSlash(km, rm, kn, rn);
    SplitAtSlash(m.ns, m.resource.name, n.ns, n.resource.name);
    KindNameInjective(m.resource.spec, n.resource.spec);
  }

  // ----- a trace stays at home -----

  lemma {:induction false} BackendsAtHome(all: Inventory, refs: seq<BackendRef>, ns: string)
    requires ns != "" && forall b :: b in refs ==> NamesNamespace(b.ref)
    ensures forall m :: m in HttpRouteBackends(all, refs, ns) ==> AtHome(all, m)
  {
    if refs != [] {
      BackendsAtHome(all, refs[..|refs| - 1], ns);
      var b := refs[|refs| - 1];
      assert NamesNamespace(b.ref);
    }
  }

  lemma SuccessorsAtHome(all: Inventory, n: Node)
    requires WellFormed(all) && AtHome(all, n)
    ensures forall m :: m in Successors(all, n) ==> AtHome(all, m)
  {
    assert WellFormedResource(n.resource);
    match n.resource.spec
    case HTTPRoute(_, rules) => BackendsAtHome(all, Flatten(rules), n.ns);
    case InferencePool(_, _, _, _, _) => PoolServicesListed(all, n.resource.spec.backends, n.ns);
    case _ =>
  }

  lemma ReachableAtHome(all: Inventory, entry: Node)
    requires WellFormed(all) && AtHome(all, entry)
    ensures forall n :: Reachable(GraphOf(all), entry, n) ==> AtHome(all, n)
  {
    var home := set r | r in all :: Node(r, r.namespace);
    forall m, n | m in home && n in GraphOf(all).succ(m) ensures n in home {
      SuccessorsAtHome(all, m);
    }
    ReachableInside(GraphOf(all), home, entry);
  }

  /** In a well-formed cluster the key names one resource only. */
  lemma ClusterKeysIdentify(all: Inventory, entry: Node)
    requires WellFormed(all) && AtHome(all, entry)
    ensures KeysIdentify(GraphOf(all), entry)
  {
    var g := GraphOf(all);
    ReachableAtHome(all, entry);
    forall m, n | Reachable(g, entry, m) && Reachable(g, entry, n) && g.key(m) == g.key(n) ensures m == n {
      KeyInjective(m, n);
      assert SameIdentity(m.resource, n.resource);
    }
  }

  // ----- reachable, said of paths -----

  /** Every resource of the path leads to the next. */
  ghost predicate Path(all: Inventory, path: seq<Node>) {
    path != [] && forall i :: 0 <= i < |path| - 1 ==> LeadsTo(all, path[i], path[i + 1])
  }

  /** A path leads from the entry point to `n` in at most `hops` hops. */
  ghost predicate Within(all: Inventory, entry: Node, hops: nat, n: Node) {
    exists path :: Path(all, path) && |path| <= hops + 1 && path[0] == entry && path[|path| - 1] == n
  }

  ghost predicate Reaches(all: Inventory, entry: Node, n: Node) {
    exists path :: Path(all, path) && path[0] == entry && path[|path| - 1] == n
  }

  /** Whoever comes later is at least as many hops away. */
  ghost predicate NearestFirst(all: Inventory, entry: Node, nodes: seq<Node>) {
    forall i, j, hops: nat ::
      0 <= i < j < |nodes| && Within(all, entry, hops, nodes[j]) ==> Within(all, entry, hops, nodes[i])
  }

  ghost predicate KeysTellApart(all: Inventory, entry: Node) {
    forall m, n :: Reaches(all, entry, m) && Reaches(all, entry, n) && Key(m) == Key(n) ==> m == n
  }

  lemma {:induction false} PathIsNear(all: Inventory, entry: Node, path: seq<Node>, hops: nat)
    requires Path(all, path) && |path| <= hops + 1 && path[0] == entry
    ensures Near(GraphOf(all), entry, hops, path[|path| - 1])
  {
    hide LeadsTo, Successors;
    var last := |path| - 1;
    if last == 0 {
      NearMonotone(GraphOf(all), entry, 0, hops, entry);
    } else {
      PathIsNear(all, entry, path[..last], hops - 1);
      assert LeadsTo(all, path[last - 1], path[last - 1 + 1]);
      SuccessorsExactly(all, path[last - 1], path[last]);
      assert path[..last][last - 1] == path[last - 1] && path[last] in GraphOf(all).succ(path[last - 1]);
    }
  }

  lemma {:induction false} NearIsPath(all: Inventory, entry: Node, hops: nat, n: Node)
    requires Near(GraphOf(all), entry, hops, n)
    ensures Within(all, entry, hops, n)
  {
    hide LeadsTo, Successors;
    if hops == 0 {
      assert Path(all, [entry]);
    } else if Near(GraphOf(all), entry, hops - 1, n) {
      NearIsPath(all, entry, hops - 1, n);
    } else {
      var m :| Near(GraphOf(all), entry, hops - 1, m) && n in GraphOf(all).succ(m);
      NearIsPath(all, entry, hops - 1, m);
      SuccessorsExactly(all, m, n);
      var path :| Path(all, path) && |path| <= hops && path[0] == entry && path[|path| - 1] == m;
      assert Path(all, path + [n]);
    }
  }

  /** Hops in the graph of successors are hops along what leads where. */
  lemma NearExactly(all: Inventory, entry: Node)
    ensures forall hops: nat, n :: Near(GraphOf(all), entry, hops, n) <==> Within(all, entry, hops, n)
    ensures forall n :: Reachable(GraphOf(all), entry, n) <==> Reaches(all, entry, n)
  {
    hide Near, LeadsTo;
    forall hops: nat, n ensures Near(GraphOf(all), entry, hops, n) <==> Within(all, entry, hops, n) {
      if Near(GraphOf(all), entry, hops, n) {
        NearIsPath(all, entry, hops, n);
      }
      if Within(all, entry, hops, n) {
        var path :| Path(all, path) && |path| <= hops + 1 && path[0] == entry && path[|path| - 1] == n;
        PathIsNear(all, entry, path, hops);
      }
    }
    forall n ensures Reachable(GraphOf(all), entry, n) <==> Reaches(all, entry, n) {
      if Reachable(GraphOf(all), entry, n) {
        var hops: nat :| Near(GraphOf(all), entry, hops, n);
        assert Within(all, entry, hops, n);
      }
      if path :| Path(all, path) && path[0] == entry && path[|path| - 1] == n {
        assert Within(all, entry, |path|, n);
      }
    }
  }

  lemma KeysExactly(all: Inventory, entry: Node)
    ensures KeysIdentify(GraphOf(all), entry) <==> KeysTellApart(all, entry)
  {
    hide Reaches, Reachable, Successors, Key;
    NearExactly(all, entry);
    assert forall n :: GraphOf(all).key(n) == Key(n);
  }

  // ----- the main results -----

  /** Whatever the cluster: every key at most once, nothing unreachable, and the entry point itself. */
  lemma TraceSound(all: Inventory, entry: Node)
    ensures DistinctKeys(GraphOf(all), TraceOrder(all, entry))
    ensures forall n :: n in TraceOrder(all, entry) ==> Reaches(all, entry, n)
    ensures entry in TraceOrder(all, entry)
  {
    UniverseClosed(all, entry);
    TraceStarts(GraphOf(all), UniverseOf(all, entry), entry);
    NearExactly(all, entry);
  }

  /** The trace visits exactly what is reachable if and only if no two reachable resources share a key. */
  lemma TraceExactly(all: Inventory, entry: Node)
    ensures (forall n :: n in TraceOrder(all, entry) <==> Reaches(all, entry, n)) <==> KeysTellApart(all, entry)
  {
    hide Reaches, Reachable, Trace, Successors, Key;
    KeysExactly(all, entry);
    NearExactly(all, entry);
    UniverseClosed(all, entry);
    TraceExact(GraphOf(all), UniverseOf(all, entry), entry);
  }

  /** In a well-formed cluster: exactly the reachable resources, once each, in nondecreasing hop distance. */
  lemma ClusterTrace(all: Inventory, entry: Node)
    requires WellFormed(all) && AtHome(all, entry)
    ensures forall n :: n in TraceOrder(all, entry) <==> Reaches(all, entry, n)
    ensures DistinctKeys(GraphOf(all), TraceOrder(all, entry))
    ensures NearestFirst(all, entry, TraceOrder(all, entry))
    ensures forall n :: n in TraceOrder(all, entry) ==> AtHome(all, n)
  {
    hide WellFormed, Reaches, Within, Near;
    ClusterKeysIdentify(all, entry);
    TraceSound(all, entry);
    NearExactly(all, entry);
    UniverseClosed(all, entry);
    TraceExact(GraphOf(all), UniverseOf(all, entry), entry);
    TraceInLevelOrder(GraphOf(all), UniverseOf(all, entry), entry);
    ReachableAtHome(all, entry);
  }

  /** If two resources the entry point leads to share a key, the trace loses a reachable resource. */
  lemma SharedKeyLosesOne(all: Inventory, entry: Node, m: Node, n: Node)
    requires LeadsTo(all, entry, m) && LeadsTo(all, entry, n) && m != n && Key(m) == Key(n)
    ensures exists lost :: Reaches(all, entry, lost) && lost !in TraceOrder(all, entry)
  {
    hide LeadsTo, Successors, Reaches;
    SuccessorsExactly(all, entry, m);
    SuccessorsExactly(all, entry, n);
    UniverseClosed(all, entry);
    TwinsLoseOne(GraphOf(all), UniverseOf(all, entry), entry, m, n);
    NearExactly(all, entry);
  }

  function Twin(name: string, ns: string): Resource {
    Resource(name, ns, FALLBACK_SELECTOR, Pod)
  }

  const LOST_POOL := BackendRef(Some("InferencePool"), Ref("pool", Some("")))

  /**
   Why WellFormed asks backendRefs not to name an empty namespace: one that did would fall back to the
   pods of all namespaces, under keys without a namespace, and two pods of one name would be one.
   */
  lemma FallbackCanLoseAPod(name: string, a: string, b: string)
    requires a != b
    ensures var all := [Twin(name, a), Twin(name, b)];
            var entry := Node(Resource("route", a, map[], HTTPRoute([], [[LOST_POOL]])), a);
            exists lost :: Reaches(all, entry, lost) && lost !in TraceOrder(all, entry)
  {
    var all := [Twin(name, a), Twin(name, b)];
    var entry := Node(Resource("route", a, map[], HTTPRoute([], [[LOST_POOL]])), a);
    assert Twin(name, a) in all && Twin(name, b) in all;
    forall home | Twin(name, home) in all ensures LeadsTo(all, entry, Node(Twin(name, home), "")) {
      assert BackendLeads(all, [[LOST_POOL]][0][0], a, Node(Twin(name, home), ""));
    }
    SharedKeyLosesOne(all, entry, Node(Twin(name, a), ""), Node(Twin(name, b), ""));
  }

  // ----- what is reported of a resource -----

  /** The report on a resource comes from the collector of its kind, on a pod from the first that knows it. */
  ghost predicate Reports(c: Collectors, r: Resource, x: Component) {
    match r.spec
    case Route(_, _) => c.gateway(r) == Some(x)
    case Gateway => c.gateway(r) == Some(x)
    case HTTPRoute(_, _) => c.gateway(r) == Some(x)
    case InferencePool(_, _, _, _, _) => c.gaie(r) == Some(x)
    case Pod =>
      || c.vllm(r) == Some(x)
      || (c.vllm(r) == None && c.gaie(r) == Some(x))
      || (c.vllm(r) == None && c.gaie(r) == None && c.generic(r) == Some(x))
    case InferenceModel(_) => c.generic(r) == Some(x)
    case Service(_) => c.generic(r) == Some(x)
    case Other(_) => c.generic(r) == Some(x)
  }

  lemma ReportsExactly(c: Collectors, r: Resource)
    ensures forall x :: Reports(c, r, x) <==> Collect(c, r) == Some(x)
  {}

  /** The components of a trace are the reports on the resources visited ... */
  lemma {:induction false} ComponentsExactly(c: Collectors, order: seq<Node>)
    ensures |Components(c, order)| <= |order|
    ensures forall x :: x in Components(c, order) <==> exists n :: n in order && Reports(c, n.resource, x)
  {
    if order != [] {
      var last := order[|order| - 1];
      ComponentsExactly(c, order[..|order| - 1]);
      ReportsExactly(c, last.resource);
      hide Reports, Collect;
      assert order == order[..|order| - 1] + [last];
    }
  }

  /** ... in the order of the visits. */
  lemma {:induction false} ComponentsInOrder(c: Collectors, order: seq<Node>, i: nat)
    requires i <= |order|
    ensures Components(c, order[..i]) <= Components(c, order)
  {
    hide Collect;
    if i == |order| {
      assert order[..i] == order;
    } else {
      assert order[..|order| - 1][..i] == order[..i];
      ComponentsInOrder(c, order[..|order| - 1], i);
    }
  }
}
