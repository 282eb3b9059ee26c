/** The breadth-first trace of the stack behind an entry point. */
module StackTracer {
  import opened Results
  import opened Worklist
  import opened Cluster

  type Component = string

  /** The component collectors; each may find nothing to report. */
  datatype Collectors = Collectors(
    gateway: Resource -> Option<Component>,
    generic: Resource -> Option<Component>,
    gaie: Resource -> Option<Component>,
    vllm: Resource -> Option<Component>
  )

  /** The collector the loop body picks; a pod is offered to vLLM, then GAIE, then the generic one. */
  function Collect(c: Collectors, r: Resource): Option<Component> {
    match r.spec
    case Route(_, _) => c.gateway(r)
    case Gateway => c.gateway(r)
    case HTTPRoute(_, _) => c.gateway(r)
    case InferencePool(_, _, _, _, _) => c.gaie(r)
    case Pod =>
      if c.vllm(r).Some? then c.vllm(r) else if c.gaie(r).Some? then c.gaie(r) else c.generic(r)
    case _ => c.generic(r)
  }

  ghost function Components(c: Collectors, order: seq<Node>): seq<Component> {
    if order == [] then []
    else
      var last := Collect(c, order[|order| - 1].resource);
      Components(c, order[..|order| - 1]) + (if last.Some? then [last.value] else [])
  }

  ghost function AllErrors(all: Inventory, order: seq<Node>): seq<TraceError> {
    if order == [] then []
    else AllErrors(all, order[..|order| - 1]) + Errors(all, order[|order| - 1])
  }

  ghost function GraphOf(all: Inventory): Graph<Node> {
    Graph(n => Successors(all, n), n => Key(n))
  }

  ghost function UniverseOf(all: Inventory, entry: Node): set<Node> {
    {entry} + (set r | r in all :: Node(r, r.namespace)) + (set r | r in all :: Node(r, ""))
  }

  lemma UniverseClosed(all: Inventory, entry: Node)
    ensures Closed(GraphOf(all), UniverseOf(all, entry))
    ensures forall n, m :: m in Successors(all, n) ==> m in UniverseOf(all, entry)
  {
    forall n, m | m in Successors(all, n) ensures m in UniverseOf(all, entry) {
      SuccessorsListed(all, n);
    }
  }

  /** The nodes the trace processes, in order. */
  ghost function TraceOrder(all: Inventory, entry: Node): seq<Node> {
    UniverseClosed(all, entry);
    Trace(GraphOf(all), UniverseOf(all, entry), entry)
  }

  lemma BackendsSnoc(all: Inventory, refs: seq<BackendRef>, b: BackendRef, ns: string)
    ensures HttpRouteBackends(all, refs + [b], ns) == HttpRouteBackends(all, refs, ns) + BackendNodes(all, b, ns)
    ensures HttpRouteErrors(all, refs + [b], ns) == HttpRouteErrors(all, refs, ns) + BackendErrors(all, b, ns)
  {
    assert (refs + [b])[..|refs|] == refs;
  }

  /** One turn of the trace loop, in the tracer's terms. */
  lemma TraceStep(all: Inventory, entry: Node, queue: seq<Node>, order: seq<Node>)
    requires queue != [] && Inside(UniverseOf(all, entry), queue)
    ensures var g, universe, n := GraphOf(all), UniverseOf(all, entry), queue[0];
      && Closed(g, universe)
      && Inside(universe, queue[1..]) && Inside(universe, queue[1..] + Successors(all, n))
      && if Key(n) in Keys(g, order) then
           Processed(g, universe, queue, order) == Processed(g, universe, queue[1..], order)
         else
           && Processed(g, universe, queue, order)
              == Processed(g, universe, queue[1..] + Successors(all, n), order + [n])
           && Keys(g, order + [n]) == Keys(g, order) + {Key(n)}
           && |Unmarked(g, universe, Keys(g, order + [n]))| < |Unmarked(g, universe, Keys(g, order))|
  {
    UniverseClosed(all, entry);
    ProcessedStep(GraphOf(all), UniverseOf(all, entry), queue, order);
  }

  lemma OneMoreProcessed(all: Inventory, c: Collectors, order: seq<Node>, n: Node)
    ensures Components(c, order + [n]) ==
      Components(c, order) + (if Collect(c, n.resource).Some? then [Collect(c, n.resource).value] else [])
    ensures AllErrors(all, order + [n]) == AllErrors(all, order) + Errors(all, n)
  {
    assert (order + [n])[..|order|] == order;
  }

  lemma TakeOneMore<T>(a: seq<T>, b: seq<T>, j: nat)
    requires j < |b|
    ensures a + b[..j + 1] == a + b[..j] + [b[j]]
  {}

  lemma Regrouped<T>(a: seq<T>, b: seq<T>, c: seq<T>)
    ensures a + b + c == a + (b + c)
  {}

  lemma NothingInOwnNamespace()
    ensures InOwnNamespace([]) == []
  {}

  /** Listing a kind and then keeping some is keeping those of the kind. */
  lemma ListedAll(all: Inventory, kind: Kind, ns: string, keep: Resource -> bool, both: Resource -> bool)
    requires forall r :: both(r) <==> KindOf(r.spec) == kind && (ns == "" || r.namespace == ns) && keep(r)
    ensures Filter(BySelector(all, kind, ns, map[]), keep) == Filter(all, both)
  {
    FilterTwice(all, (r: Resource) =>
      KindOf(r.spec) == kind && (ns == "" || r.namespace == ns) && Selected(r.labels, map[]), keep, both);
  }

  class StackTracer {
    const all: Inventory
    const collectors: Collectors
    var errors: seq<TraceError>

    constructor (all: Inventory, collectors: Collectors)
      ensures this.all == all && this.collectors == collectors && errors == []
    {
      this.all := all;
      this.collectors := collectors;
      errors := [];
    }

    /** `_get_httproute_backends` */
    method GetHttpRouteBackends(httpRoute: Resource, ns: string) returns (backends: seq<Node>)
      requires httpRoute.spec.HTTPRoute?
      modifies this
      ensures backends == Successors(all, Node(httpRoute, ns))
      ensures errors == old(errors) + Errors(all, Node(httpRoute, ns))
    {
      var rules := httpRoute.spec.rules;
      backends := [];
      for i := 0 to |rules|
        invariant backends == HttpRouteBackends(all, Flatten(rules[..i]), ns)
        invariant errors == old(errors) + HttpRouteErrors(all, Flatten(rules[..i]), ns)
      {
        var rule := rules[i];
        ghost var before := Flatten(rules[..i]);
        assert before + rule[..0] == before;
        for j := 0 to |rule|
          invariant backends == HttpRouteBackends(all, before + rule[..j], ns)
          invariant errors == old(errors) + HttpRouteErrors(all, before + rule[..j], ns)
        {
          backends := backends + BackendNodes(all, rule[j], ns);
          errors := errors + BackendErrors(all, rule[j], ns);
          TakeOneMore(before, rule, j);
          BackendsSnoc(all, before + rule[..j], rule[j], ns);
          Regrouped(old(errors), HttpRouteErrors(all, before + rule[..j], ns), BackendErrors(all, rule[j], ns));
        }
        assert rules[..i + 1][..i] == rules[..i];
        assert rule[..|rule|] == rule;
      }
      assert rules[..|rules|] == rules;
    }

    /** `_get_route_backend_service` */
    method GetRouteBackendService(route: Resource, ns: string) returns (service: Option<Resource>)
      requires route.spec.Route?
      ensures Found(service, ns) == RouteBackends(all, route, ns)
    {
      if route.spec.toKind == "Service" {
        if route.spec.toName != "" {
          return ByName(all, ServiceKind, route.spec.toName, ns);
        }
      }
      return None;
    }

    /** The inner loop over the parentRefs of a listed HTTPRoute; `anyNs` when only the name has to match. */
    method NamesParent(httpRoute: Resource, gatewayName: string, ns: string, anyNs: bool) returns (found: bool)
      requires httpRoute.spec.HTTPRoute?
      ensures found == if anyNs then HasParent(httpRoute, gatewayName) else RefersTo(httpRoute, gatewayName, ns)
    {
      var parentRefs := httpRoute.spec.parentRefs;
      for j := 0 to |parentRefs|
        invariant forall k :: 0 <= k < j ==>
          !(parentRefs[k].name == gatewayName && (anyNs || NamespaceOf(parentRefs[k], httpRoute.namespace) == ns))
      {
        if parentRefs[j].name == gatewayName && (anyNs || NamespaceOf(parentRefs[j], httpRoute.namespace) == ns) {
          return true;
        }
      }
      return false;
    }

    /** `_find_httproutes_for_gateway` */
    method FindHttpRoutesForGateway(gateway: Resource, ns: string) returns (httpRoutes: Inventory)
      ensures InOwnNamespace(httpRoutes) == GatewayRoutes(all, gateway, ns)
    {
      hide RefersTo;
      var listed := BySelector(all, HTTPRouteKind, "", map[]);
      ghost var keep := (h: Resource) => h.spec.HTTPRoute? && RefersTo(h, gateway.name, ns);
      httpRoutes := [];
      for i := 0 to |listed|
        invariant httpRoutes == Filter(listed[..i], keep)
      {
        assert listed[i] in listed && listed[..i + 1] == listed[..i] + [listed[i]];
        FilterSnoc(listed[..i], listed[i], keep);
        var found := NamesParent(listed[i], gateway.name, ns, false);
        if found {
          httpRoutes := httpRoutes + [listed[i]];
        }
      }
      assert listed[..|listed|] == listed;
      ListedAll(all, HTTPRouteKind, "", keep, keep);
    }

    /** The search for the Gateway behind a gateway service, in its namespace and then in all. */
    method FindGateway(gatewayName: string, ns: string) returns (found: seq<Node>)
      ensures found == GatewayOfService(all, gatewayName, ns)
    {
      var gateway := ByName(all, GatewayKind, gatewayName, ns);
      if gateway.Some? {
        return [Node(gateway.value, ns)];
      }
      var gateways := BySelector(all, GatewayKind, "", map[]);
      ghost var keep := (r: Resource) => r.name == gatewayName;
      ListedAll(all, GatewayKind, "", keep, (r: Resource) => r.spec.Gateway? && r.name == gatewayName);
      for i := 0 to |gateways|
        invariant Filter(gateways, keep) == Filter(gateways[i..], keep)
      {
        assert gateways[i..][0] == gateways[i] && gateways[i..][1..] == gateways[i + 1..];
        if gateways[i].name == gatewayName {
          return [Node(gateways[i], gateways[i].namespace)];
        }
      }
      return [];
    }

    /** The HTTPRoutes of the namespace that name the Gateway, whether or not it was found. */
    method FindHttpRoutesNaming(gatewayName: string, ns: string) returns (found: seq<Node>)
      ensures found == RoutesNaming(all, gatewayName, ns)
    {
      hide HasParent, InOwnNamespace;
      var listed := BySelector(all, HTTPRouteKind, ns, map[]);
      ghost var keep := (h: Resource) => h.spec.HTTPRoute? && HasParent(h, gatewayName);
      found := [];
      NothingInOwnNamespace();
      for i := 0 to |listed|
        invariant found == InOwnNamespace(Filter(listed[..i], keep))
      {
        assert listed[i] in listed && listed[..i + 1] == listed[..i] + [listed[i]];
        FilterSnoc(listed[..i], listed[i], keep);
        InOwnNamespaceSnoc(Filter(listed[..i], keep), listed[i]);
        var named := NamesParent(listed[i], gatewayName, ns, true);
        if named {
          found := found + [Node(listed[i], listed[i].namespace)];
        }
      }
      assert listed[..|listed|] == listed;
      ListedAll(all, HTTPRouteKind, ns, keep, (h: Resource) =>
        h.spec.HTTPRoute? && (ns == "" || h.namespace == ns) && HasParent(h, gatewayName));
    }

    /** `_find_pods_for_service` */
    method FindPodsForService(service: Resource, ns: string) returns (pods: Inventory)
      requires service.spec.Service?
      ensures InNamespace(pods, ns) == ServicePods(all, service, ns)
    {
      if service.spec.podSelector == map[] {
        return [];
      }
      return BySelector(all, PodKind, ns, service.spec.podSelector);
    }

    /** The explicit backends of a pool. */
    method FindPoolServices(refs: seq<Ref>, ns: string) returns (services: Inventory)
      ensures services == PoolServices(all, refs, ns)
    {
      services := [];
      for i := 0 to |refs|
        invariant services == PoolServices(all, refs[..i], ns)
      {
        assert refs[..i + 1][..i] == refs[..i];
        if refs[i].name != "" {
          var service := ByName(all, ServiceKind, refs[i].name, NamespaceOf(refs[i], ns));
          if service.Some? {
            services := services + [service.value];
          }
        }
      }
      assert refs[..|refs|] == refs;
    }

    /** The loop over `extensionRef` and `endpointPickerRef`, left at the first that names a Service. */
    method FindPickerService(pool: Resource, ns: string) returns (services: Inventory)
      requires pool.spec.InferencePool?
      ensures services == PickerService(all, pool, ns)
    {
      hide ByName;
      var pickers := [pool.spec.extensionRef, pool.spec.endpointPickerRef];
      for i := 0 to |pickers|
        invariant forall k :: 0 <= k < i ==> !NamesService(pickers[k])
      {
        var ref := pickers[i].ref;
        if ref.name != "" && (pickers[i].kind == None || pickers[i].kind == Some("Service")) {
          assert NamesService(pickers[i]) && (i == 0 || !NamesService(pickers[0]));
          var service := ByName(all, ServiceKind, ref.name, NamespaceOf(ref, ns));
          return if service.Some? then [service.value] else [];
        }
      }
      assert !NamesService(pickers[0]) && !NamesService(pickers[1]);
      return [];
    }

    /** `_get_inferencepool_backends` */
    method GetInferencePoolBackends(pool: Resource, ns: string) returns (backends: Inventory)
      requires pool.spec.InferencePool?
      ensures InOwnNamespace(backends) == PoolBackends(all, pool, ns)
    {
      hide BySelector, PickerService, PoolServices, InOwnNamespace;
      backends := FindPoolServices(pool.spec.backends, ns);
      if pool.spec.selector.Some? {
        var selector := pool.spec.selector.value;
        var selectorNs := if selector.namespace.Some? then selector.namespace.value else ns;
        backends := backends + BySelector(all, PodKind, selectorNs, selector.matchLabels);
      } else {
        assert backends + [] == backends;
      }
      if pool.spec.modelServers.Some? {
        if pool.spec.modelServers.value != map[] {
          backends := backends + BySelector(all, PodKind, ns, pool.spec.modelServers.value);
        } else {
          assert backends + [] == backends;
        }
      } else {
        assert backends + [] == backends;
      }
      var picker := FindPickerService(pool, ns);
      backends := backends + picker;
    }

    /** `queue.append((r, r.namespace))` for every resource found. */
    method QueueAtHome(found: Inventory) returns (nodes: seq<Node>)
      ensures nodes == InOwnNamespace(found)
    {
      nodes := [];
      for i := 0 to |found|
        invariant nodes == InOwnNamespace(found[..i])
      {
        assert found[..i + 1] == found[..i] + [found[i]];
        InOwnNamespaceSnoc(found[..i], found[i]);
        nodes := nodes + [Node(found[i], found[i].namespace)];
      }
      assert found[..|found|] == found;
    }

    /** `queue.append((r, ns))` for every resource found. */
    method QueueIn(found: Inventory, ns: string) returns (nodes: seq<Node>)
      ensures nodes == InNamespace(found, ns)
    {
      nodes := [];
      for i := 0 to |found|
        invariant nodes == InNamespace(found[..i], ns)
      {
        assert found[..i + 1] == found[..i] + [found[i]];
        InNamespaceSnoc(found[..i], found[i], ns);
        nodes := nodes + [Node(found[i], ns)];
      }
      assert found[..|found|] == found;
    }

    /** What one resource puts on the queue, by its kind, with any chain-break warning recorded. */
    method Expand(resource: Resource, ns: string) returns (found: seq<Node>)
      modifies this
      ensures found == Successors(all, Node(resource, ns))
      ensures errors == old(errors) + Errors(all, Node(resource, ns))
    {
      found := [];
      match resource.spec
      case Route(_, _) =>
        var service := GetRouteBackendService(resource, ns);
        if service.Some? {
          found := [Node(service.value, ns)];
        }
      case Gateway =>
        var httpRoutes := FindHttpRoutesForGateway(resource, ns);
        found := QueueAtHome(httpRoutes);
      case HTTPRoute(_, _) =>
        found := GetHttpRouteBackends(resource, ns);
      case InferenceModel(poolRef) =>
        if poolRef != "" {
          var pool := ByName(all, InferencePoolKind, poolRef, ns);
          if pool.Some? {
            found := [Node(pool.value, ns)];
          }
        }
      case InferencePool(_, _, _, _, _) =>
        var backends := GetInferencePoolBackends(resource, ns);
        found := QueueAtHome(backends);
      case Service(selector) =>
        if GATEWAY_LABEL in selector {
          var gateway := FindGateway(selector[GATEWAY_LABEL], ns);
          var httpRoutes := FindHttpRoutesNaming(selector[GATEWAY_LABEL], ns);
          found := gateway + httpRoutes;
        }
        var pods := FindPodsForService(resource, ns);
        var queued := QueueIn(pods, ns);
        found := found + queued;
      case Pod =>
      case Other(_) =>
    }

    method TraceFromEntryPoint(entryPoint: Resource, namespace: string) returns (components: seq<Component>)
      modifies this
      ensures components == Components(collectors, TraceOrder(all, Node(entryPoint, namespace)))
      ensures errors == old(errors) + AllErrors(all, TraceOrder(all, Node(entryPoint, namespace)))
    {
      ghost var entry := Node(entryPoint, namespace);
      ghost var g, universe := GraphOf(all), UniverseOf(all, entry);
      UniverseClosed(all, entry);
      components := [];
      var visited: set<string> := {};
      var queue := [Node(entryPoint, namespace)];
      ghost var order: seq<Node> := [];
      while queue != []
        invariant Inside(universe, queue)
        invariant visited == Keys(g, order)
        invariant Processed(g, universe, queue, order) == TraceOrder(all, entry)
        invariant components == Components(collectors, order)
        invariant errors == old(errors) + AllErrors(all, order)
        decreases |Unmarked(g, universe, visited)|, |queue|
      {
        TraceStep(all, entry, queue, order);
        var node := queue[0];
        queue := queue[1..];
        var key := Key(node);
        if key in visited {
          continue;
        }
        visited := visited + {key};
        var found := Expand(node.resource, node.ns);
        queue := queue + found;
        var component := Collect(collectors, node.resource);
        if component.Some? {
          components := components + [component.value];
        }
        OneMoreProcessed(all, collectors, order, node);
        Regrouped(old(errors), AllErrors(all, order), Errors(all, node));
        order := order + [node];
      }
    }
  }
}
