/** What each resource leads to, said of the inventory and the specs alone, and that the lookups find exactly that. */
module ClusterEdges {
  import opened Results
  import opened Cluster

  // ----- resources of the inventory -----

  predicate IsA(r: Resource, kind: Kind) {
    match kind
    case RouteKind => r.spec.Route?
    case GatewayKind => r.spec.Gateway?
    case HTTPRouteKind => r.spec.HTTPRoute?
    case InferenceModelKind => r.spec.InferenceModel?
    case InferencePoolKind => r.spec.InferencePool?
    case ServiceKind => r.spec.Service?
    case PodKind => r.spec.Pod?
    case OtherKind(name) => r.spec == Other(name)
  }

  predicate Named(r: Resource, kind: Kind, name: string, ns: string) {
    IsA(r, kind) && r.name == name && r.namespace == ns
  }

  /** The first resource listed of that kind, namespace and name; none without a namespace. */
  ghost predicate TheOne(all: Inventory, s: Resource, kind: Kind, name: string, ns: string) {
    ns != "" && exists i :: FirstNamed(all, i, kind, name, ns) && all[i] == s
  }

  ghost predicate FirstNamed(all: Inventory, i: int, kind: Kind, name: string, ns: string) {
    && 0 <= i < |all| && Named(all[i], kind, name, ns)
    && forall j :: 0 <= j < i ==> !Named(all[j], kind, name, ns)
  }

  ghost predicate NoneSuch(all: Inventory, kind: Kind, name: string, ns: string) {
    ns == "" || forall r :: r in all ==> !Named(r, kind, name, ns)
  }

  predicate Carries(labels: Labels, wanted: Labels) {
    forall k :: k in wanted ==> k in labels && labels[k] == wanted[k]
  }

  /** A pod listed in the namespace, or anywhere if none is given, with the labels. */
  predicate PodWith(all: Inventory, s: Resource, ns: string, wanted: Labels) {
    s in all && s.spec.Pod? && (ns == "" || s.namespace == ns) && Carries(s.labels, wanted)
  }

  // ----- what leads where -----

  ghost predicate BackendLeads(all: Inventory, b: BackendRef, ns: string, m: Node) {
    var s, name := m.resource, b.ref.name;
    && name != ""
    && m.ns == (match b.ref.namespace case Some(given) => given case None => ns)
    && match b.kind
       case None => TheOne(all, s, ServiceKind, name, m.ns)
       case Some(kind) =>
         || (kind == "Service" && TheOne(all, s, ServiceKind, name, m.ns))
         || (kind == "InferenceModel" && TheOne(all, s, InferenceModelKind, name, m.ns))
         || (kind == "InferencePool" && TheOne(all, s, InferencePoolKind, name, m.ns))
         || (&& kind == "InferencePool" && NoneSuch(all, InferencePoolKind, name, m.ns)
             && PodWith(all, s, m.ns, map["llm-d.ai/inferenceServing" := "true"]))
  }

  ghost predicate RefLeads(all: Inventory, ref: Ref, ns: string, s: Resource) {
    && ref.name != ""
    && TheOne(all, s, ServiceKind, ref.name, match ref.namespace case Some(given) => given case None => ns)
  }

  predicate AsksForService(b: BackendRef) {
    b.ref.name != "" && (b.kind.None? || b.kind.value == "Service")
  }

  ghost predicate PoolLeads(all: Inventory, pool: Resource, ns: string, s: Resource)
    requires pool.spec.InferencePool?
  {
    var spec := pool.spec;
    || (exists i :: 0 <= i < |spec.backends| && RefLeads(all, spec.backends[i], ns, s))
    || (&& spec.selector.Some?
        && var selector := spec.selector.value;
           PodWith(all, s, match selector.namespace case Some(given) => given case None => ns, selector.matchLabels))
    || (spec.modelServers.Some? && spec.modelServers.value != map[] && PodWith(all, s, ns, spec.modelServers.value))
    || (AsksForService(spec.extensionRef) && RefLeads(all, spec.extensionRef.ref, ns, s))
    || (&& !AsksForService(spec.extensionRef) && AsksForService(spec.endpointPickerRef)
        && RefLeads(all, spec.endpointPickerRef.ref, ns, s))
  }

  /** The first Gateway of that name, in any namespace. */
  ghost predicate FirstGateway(all: Inventory, s: Resource, name: string) {
    exists i :: && 0 <= i < |all| && all[i] == s && s.spec.Gateway? && s.name == name
                && forall j :: 0 <= j < i ==> !(all[j].spec.Gateway? && all[j].name == name)
  }

  ghost predicate ServiceLeads(all: Inventory, service: Resource, ns: string, m: Node)
    requires service.spec.Service?
  {
    var s, selector := m.resource, service.spec.podSelector;
    || (selector != map[] && m.ns == ns && PodWith(all, s, ns, selector))
    || (&& "gateway.networking.k8s.io/gateway-name" in selector
        && var gateway := selector["gateway.networking.k8s.io/gateway-name"];
           || (m.ns == ns && TheOne(all, s, GatewayKind, gateway, ns))
           || (m.ns == s.namespace && NoneSuch(all, GatewayKind, gateway, ns) && FirstGateway(all, s, gateway))
           || (&& m.ns == s.namespace && s in all && s.spec.HTTPRoute? && (ns == "" || s.namespace == ns)
               && exists i :: 0 <= i < |s.spec.parentRefs| && s.spec.parentRefs[i].name == gateway))
  }

  /** A route hangs on a gateway if a parentRef names it and its namespace, the route's own when it is left out. */
  predicate HangsOn(route: Resource, name: string, ns: string)
    requires route.spec.HTTPRoute?
  {
    exists i :: && 0 <= i < |route.spec.parentRefs| && route.spec.parentRefs[i].name == name
                && match route.spec.parentRefs[i].namespace
                   case Some(given) => given == ns
                   case None => route.namespace == ns
  }

  ghost predicate LeadsTo(all: Inventory, n: Node, m: Node) {
    var r, ns, s := n.resource, n.ns, m.resource;
    match r.spec
    case Route(kind, name) => kind == "Service" && name != "" && m.ns == ns && TheOne(all, s, ServiceKind, name, ns)
    case Gateway => s in all && s.spec.HTTPRoute? && m.ns == s.namespace && HangsOn(s, r.name, ns)
    case HTTPRoute(_, rules) =>
      exists i, j :: 0 <= i < |rules| && 0 <= j < |rules[i]| && BackendLeads(all, rules[i][j], ns, m)
    case InferenceModel(pool) => pool != "" && m.ns == ns && TheOne(all, s, InferencePoolKind, pool, ns)
    case InferencePool(_, _, _, _, _) => m.ns == s.namespace && PoolLeads(all, r, ns, s)
    case Service(_) => ServiceLeads(all, r, ns, m)
    case Pod => false
    case Other(_) => false
  }

  // ----- the lookups find it -----

  lemma KindIs(r: Resource, kind: Kind)
    ensures KindOf(r.spec) == kind <==> IsA(r, kind)
  {}

  lemma {:induction false} FirstKept(all: Inventory, keep: Resource -> bool)
    ensures Filter(all, keep) == [] ==> forall r :: r in all ==> !keep(r)
    ensures Filter(all, keep) != [] ==>
      exists i :: && 0 <= i < |all| && all[i] == Filter(all, keep)[0] && keep(all[i])
                  && forall j :: 0 <= j < i ==> !keep(all[j])
  {
    if all != [] {
      FirstKept(all[1..], keep);
      if keep(all[0]) {
        assert all[0] == Filter(all, keep)[0];
      } else if Filter(all[1..], keep) != [] {
        var i :| && 0 <= i < |all[1..]| && all[1..][i] == Filter(all[1..], keep)[0] && keep(all[1..][i])
                 && forall j :: 0 <= j < i ==> !keep(all[1..][j]);
        assert all[i + 1] == all[1..][i];
        forall j | 0 <= j < i + 1 ensures !keep(all[j]) {
          assert j > 0 ==> all[j] == all[1..][j - 1];
        }
      }
    }
  }

  lemma ByNameFinds(all: Inventory, kind: Kind, name: string, ns: string)
    ensures ByName(all, kind, name, ns) == None <==> NoneSuch(all, kind, name, ns)
    ensures forall s :: ByName(all, kind, name, ns) == Some(s) <==> TheOne(all, s, kind, name, ns)
  {
    var keep := (r: Resource) => KindOf(r.spec) == kind && r.name == name && r.namespace == ns;
    forall r ensures keep(r) <==> Named(r, kind, name, ns) {
      KindIs(r, kind);
    }
    FirstKept(all, keep);
    var found := Filter(all, keep);
    if ns != "" && found != [] {
      var i :| 0 <= i < |all| && all[i] == found[0] && keep(all[i]) && forall j :: 0 <= j < i ==> !keep(all[j]);
      assert FirstNamed(all, i, kind, name, ns);
      forall s ensures s == found[0] <==> TheOne(all, s, kind, name, ns) {
        if TheOne(all, s, kind, name, ns) {
          var j :| FirstNamed(all, j, kind, name, ns) && all[j] == s;
          assert i == j;
        }
      }
    }
  }

  lemma BySelectorFinds(all: Inventory, ns: string, selector: Labels)
    ensures forall s :: s in BySelector(all, PodKind, ns, selector) <==> PodWith(all, s, ns, selector)
  {
    forall s ensures s in BySelector(all, PodKind, ns, selector) <==> PodWith(all, s, ns, selector) {
      KindIs(s, PodKind);
    }
  }

  lemma BackendFinds(all: Inventory, b: BackendRef, ns: string, m: Node)
    ensures m in BackendNodes(all, b, ns) <==> BackendLeads(all, b, ns, m)
  {
    hide ByName, BySelector, TheOne, NoneSuch, PodWith;
    var home := NamespaceOf(b.ref, ns);
    ByNameFinds(all, ServiceKind, b.ref.name, home);
    ByNameFinds(all, InferenceModelKind, b.ref.name, home);
    ByNameFinds(all, InferencePoolKind, b.ref.name, home);
    BySelectorFinds(all, home, FALLBACK_SELECTOR);
  }

  lemma {:induction false} BackendsFind(all: Inventory, refs: seq<BackendRef>, ns: string, m: Node)
    ensures m in HttpRouteBackends(all, refs, ns) <==> exists b :: b in refs && BackendLeads(all, b, ns, m)
  {
    hide BackendNodes, BackendLeads;
    if refs != [] {
      var last := |refs| - 1;
      BackendsFind(all, refs[..last], ns, m);
      BackendFinds(all, refs[last], ns, m);
      assert refs == refs[..last] + [refs[last]];
    }
  }

  lemma {:induction false} FlattenHolds(rules: seq<seq<BackendRef>>, b: BackendRef)
    ensures b in Flatten(rules) <==> exists i, j :: 0 <= i < |rules| && 0 <= j < |rules[i]| && rules[i][j] == b
  {
    if rules != [] {
      var last := |rules| - 1;
      FlattenHolds(rules[..last], b);
      if b in Flatten(rules[..last]) {
        var i, j :| 0 <= i < last && 0 <= j < |rules[..last][i]| && rules[..last][i][j] == b;
        assert rules[i][j] == b;
      }
      if i, j :| 0 <= i < |rules| && 0 <= j < |rules[i]| && rules[i][j] == b {
        if i < last {
          assert rules[..last][i][j] == b;
        }
      }
    }
  }

  lemma HttpRouteFinds(all: Inventory, rules: seq<seq<BackendRef>>, ns: string, m: Node)
    ensures m in HttpRouteBackends(all, Flatten(rules), ns) <==>
      exists i, j :: 0 <= i < |rules| && 0 <= j < |rules[i]| && BackendLeads(all, rules[i][j], ns, m)
  {
    hide HttpRouteBackends, Flatten, BackendLeads;
    BackendsFind(all, Flatten(rules), ns, m);
    if b :| b in Flatten(rules) && BackendLeads(all, b, ns, m) {
      FlattenHolds(rules, b);
      var i, j :| 0 <= i < |rules| && 0 <= j < |rules[i]| && rules[i][j] == b;
      assert BackendLeads(all, rules[i][j], ns, m);
    }
    if i, j :| 0 <= i < |rules| && 0 <= j < |rules[i]| && BackendLeads(all, rules[i][j], ns, m) {
      FlattenHolds(rules, rules[i][j]);
    }
  }

  lemma {:induction false} PoolServicesFind(all: Inventory, refs: seq<Ref>, ns: string, s: Resource)
    ensures s in PoolServices(all, refs, ns) <==> exists i :: 0 <= i < |refs| && RefLeads(all, refs[i], ns, s)
  {
    if refs != [] {
      var last := |refs| - 1;
      PoolServicesFind(all, refs[..last], ns, s);
      ServiceFound(all, refs[last], ns, s);
      hide RefLeads, ByName;
      assert forall i :: 0 <= i < last ==> refs[..last][i] == refs[i];
    }
  }

  lemma ServiceFound(all: Inventory, ref: Ref, ns: string, s: Resource)
    ensures RefLeads(all, ref, ns, s) <==>
      ref.name != "" && ByName(all, ServiceKind, ref.name, NamespaceOf(ref, ns)) == Some(s)
  {
    hide ByName, TheOne;
    ByNameFinds(all, ServiceKind, ref.name, NamespaceOf(ref, ns));
  }

  lemma PickerFound(all: Inventory, pool: Resource, ns: string, s: Resource)
    requires pool.spec.InferencePool?
    ensures s in PickerService(all, pool, ns) <==>
      || (AsksForService(pool.spec.extensionRef) && RefLeads(all, pool.spec.extensionRef.ref, ns, s))
      || (&& !AsksForService(pool.spec.extensionRef) && AsksForService(pool.spec.endpointPickerRef)
          && RefLeads(all, pool.spec.endpointPickerRef.ref, ns, s))
  {
    hide ByName, RefLeads;
    ServiceFound(all, pool.spec.extensionRef.ref, ns, s);
    ServiceFound(all, pool.spec.endpointPickerRef.ref, ns, s);
  }

  lemma PoolFinds(all: Inventory, pool: Resource, ns: string, m: Node)
    requires pool.spec.InferencePool?
    ensures m in PoolBackends(all, pool, ns) <==> m.ns == m.resource.namespace && PoolLeads(all, pool, ns, m.resource)
  {
    hide BySelector, PoolServices, PickerService, RefLeads, PodWith, AsksForService;
    var s := m.resource;
    PoolServicesFind(all, pool.spec.backends, ns, s);
    PickerFound(all, pool, ns, s);
    if pool.spec.selector.Some? {
      var selector := pool.spec.selector.value;
      BySelectorFinds(all, if selector.namespace.Some? then selector.namespace.value else ns, selector.matchLabels);
    }
    if pool.spec.modelServers.Some? {
      BySelectorFinds(all, ns, pool.spec.modelServers.value);
    }
  }

  lemma GatewayFound(all: Inventory, gateway: string, ns: string, m: Node)
    ensures m in GatewayOfService(all, gateway, ns) <==>
      || (m.ns == ns && TheOne(all, m.resource, GatewayKind, gateway, ns))
      || (&& m.ns == m.resource.namespace && NoneSuch(all, GatewayKind, gateway, ns)
          && FirstGateway(all, m.resource, gateway))
  {
    hide ByName, TheOne, NoneSuch;
    ByNameFinds(all, GatewayKind, gateway, ns);
    FarGatewayFound(all, gateway, m.resource, (r: Resource) => r.spec.Gateway? && r.name == gateway);
  }

  lemma FarGatewayFound(all: Inventory, gateway: string, s: Resource, keep: Resource -> bool)
    requires forall r :: keep(r) <==> r.spec.Gateway? && r.name == gateway
    ensures First(Filter(all, keep)) == Some(s) <==> FirstGateway(all, s, gateway)
  {
    FirstKept(all, keep);
    var found := Filter(all, keep);
    if found != [] {
      var i :| 0 <= i < |all| && all[i] == found[0] && keep(all[i]) && forall j :: 0 <= j < i ==> !keep(all[j]);
      assert FirstGateway(all, found[0], gateway);
      if FirstGateway(all, s, gateway) {
        var k :| && 0 <= k < |all| && all[k] == s && s.spec.Gateway? && s.name == gateway
                 && forall j :: 0 <= j < k ==> !(all[j].spec.Gateway? && all[j].name == gateway);
        assert keep(all[k]) && i == k;
      }
    }
  }

  lemma ServiceFinds(all: Inventory, service: Resource, ns: string, m: Node)
    requires service.spec.Service?
    ensures m in ServiceTargets(all, service, ns) <==> ServiceLeads(all, service, ns, m)
  {
    hide GatewayOfService, BySelector, TheOne, NoneSuch, FirstGateway, PodWith;
    BySelectorFinds(all, ns, service.spec.podSelector);
    if GATEWAY_LABEL in service.spec.podSelector {
      GatewayFound(all, service.spec.podSelector[GATEWAY_LABEL], ns, m);
    }
  }

  /** The successors of a resource are exactly what it leads to. */
  lemma SuccessorsExactly(all: Inventory, n: Node, m: Node)
    ensures m in Successors(all, n) <==> LeadsTo(all, n, m)
  {
    hide ByName, TheOne, PoolBackends, PoolLeads, ServiceTargets, ServiceLeads;
    hide HttpRouteBackends, Flatten, BackendLeads;
    match n.resource.spec
    case Route(_, name) => ByNameFinds(all, ServiceKind, name, n.ns);
    case Gateway =>
    case HTTPRoute(_, rules) => HttpRouteFinds(all, rules, n.ns, m);
    case InferenceModel(pool) => ByNameFinds(all, InferencePoolKind, pool, n.ns);
    case InferencePool(_, _, _, _, _) => PoolFinds(all, n.resource, n.ns, m);
    case Service(_) => ServiceFinds(all, n.resource, n.ns, m);
    case Pod =>
    case Other(_) =>
  }

  // ----- warnings -----

  /** A backendRef that names a pool the cluster does not list. */
  ghost predicate BackendWarns(all: Inventory, b: BackendRef, ns: string, e: TraceError) {
    && b.kind == Some("InferencePool") && b.ref.name == e.name != ""
    && e.namespace == (match b.ref.namespace case Some(given) => given case None => ns)
    && NoneSuch(all, InferencePoolKind, e.name, e.namespace)
  }

  lemma {:induction false} BackendsWarn(all: Inventory, refs: seq<BackendRef>, ns: string, e: TraceError)
    ensures e in HttpRouteErrors(all, refs, ns) <==> exists b :: b in refs && BackendWarns(all, b, ns, e)
  {
    hide ByName, NoneSuch;
    if refs != [] {
      var last := refs[|refs| - 1];
      BackendsWarn(all, refs[..|refs| - 1], ns, e);
      ByNameFinds(all, InferencePoolKind, last.ref.name, NamespaceOf(last.ref, ns));
      assert refs == refs[..|refs| - 1] + [last];
      assert e in BackendErrors(all, last, ns) <==> BackendWarns(all, last, ns, e);
    }
  }

  /** A resource leaves a warning exactly for the missing pools its backendRefs name. */
  lemma ErrorsExactly(all: Inventory, n: Node, e: TraceError)
    ensures e in Errors(all, n) <==>
      && n.resource.spec.HTTPRoute?
      && var rules := n.resource.spec.rules;
         exists i, j :: 0 <= i < |rules| && 0 <= j < |rules[i]| && BackendWarns(all, rules[i][j], n.ns, e)
  {
    hide HttpRouteErrors, Flatten, BackendWarns;
    if n.resource.spec.HTTPRoute? {
      var rules := n.resource.spec.rules;
      BackendsWarn(all, Flatten(rules), n.ns, e);
      if b :| b in Flatten(rules) && BackendWarns(all, b, n.ns, e) {
        FlattenHolds(rules, b);
        var i, j :| 0 <= i < |rules| && 0 <= j < |rules[i]| && rules[i][j] == b;
        assert BackendWarns(all, rules[i][j], n.ns, e);
      }
      if i, j :| 0 <= i < |rules| && 0 <= j < |rules[i]| && BackendWarns(all, rules[i][j], n.ns, e) {
        FlattenHolds(rules, rules[i][j]);
      }
    }
  }
}
