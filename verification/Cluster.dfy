/** The cluster the tracer looks at, and what each kind of resource leads to. */
module Cluster {
  import opened Results

  type Labels = map<string, string>

  /** A reference by name; "" stands for a missing name, None for a missing namespace. */
  datatype Ref = Ref(name: string, namespace: Option<string>)

  datatype BackendRef = BackendRef(kind: Option<string>, ref: Ref)

  datatype PoolSelector = PoolSelector(matchLabels: Labels, namespace: Option<string>)

  datatype Spec =
    | Route(toKind: string, toName: string)
    | Gateway
    | HTTPRoute(parentRefs: seq<Ref>, rules: seq<seq<BackendRef>>)
    | InferenceModel(poolRef: string)
    | InferencePool(backends: seq<Ref>, selector: Option<PoolSelector>, modelServers: Option<Labels>,
                    extensionRef: BackendRef, endpointPickerRef: BackendRef)
    | Service(podSelector: Labels)
    | Pod
    | Other(otherKind: string)

  datatype Resource = Resource(name: string, namespace: string, labels: Labels, spec: Spec)

  /** Everything the API server lists, in its order. */
  type Inventory = seq<Resource>

  /** A queue entry: a resource and the namespace it is traced in. */
  datatype Node = Node(resource: Resource, ns: string)

  datatype TraceError = PoolNotFound(namespace: string, name: string)

  datatype Kind =
    | RouteKind | GatewayKind | HTTPRouteKind | InferenceModelKind | InferencePoolKind | ServiceKind | PodKind
    | OtherKind(name: string)

  function KindOf(spec: Spec): Kind {
    match spec
    case Route(_, _) => RouteKind
    case Gateway => GatewayKind
    case HTTPRoute(_, _) => HTTPRouteKind
    case InferenceModel(_) => InferenceModelKind
    case InferencePool(_, _, _, _, _) => InferencePoolKind
    case Service(_) => ServiceKind
    case Pod => PodKind
    case Other(kind) => OtherKind(kind)
  }

  function KindName(kind: Kind): string {
    match kind
    case RouteKind => "Route"
    case GatewayKind => "Gateway"
    case HTTPRouteKind => "HTTPRoute"
    case InferenceModelKind => "InferenceModel"
    case InferencePoolKind => "InferencePool"
    case ServiceKind => "Service"
    case PodKind => "Pod"
    case OtherKind(name) => name
  }

  /** `f"{resource.kind}/{ns}/{resource.name}"` */
  function Key(n: Node): string {
    KindName(KindOf(n.resource.spec)) + "/" + n.ns + "/" + n.resource.name
  }

  // ----- lookups -----

  function Filter(all: Inventory, keep: Resource -> bool): (r: Inventory)
    ensures forall x :: x in r <==> x in all && keep(x)
  {
    if all == [] then []
    else if keep(all[0]) then [all[0]] + Filter(all[1..], keep)
    else Filter(all[1..], keep)
  }

  lemma {:induction false} FilterSnoc(found: Inventory, x: Resource, keep: Resource -> bool)
    ensures Filter(found + [x], keep) == if keep(x) then Filter(found, keep) + [x] else Filter(found, keep)
  {
    if found == [] {
      assert found + [x] == [x];
    } else {
      assert (found + [x])[0] == found[0] && (found + [x])[1..] == found[1..] + [x];
      FilterSnoc(found[1..], x, keep);
    }
  }

  /** Keeping in two steps is keeping in one. */
  lemma {:induction false} FilterTwice(found: Inventory, listed: Resource -> bool, keep: Resource -> bool,
                                       both: Resource -> bool)
    requires forall r :: both(r) <==> listed(r) && keep(r)
    ensures Filter(Filter(found, listed), keep) == Filter(found, both)
  {
    if found != [] {
      FilterTwice(found[1..], listed, keep, both);
    }
  }

  function First(found: Inventory): (r: Option<Resource>)
    ensures r.Some? ==> r.value in found
  {
    if found == [] then None else Some(found[0])
  }

  /** `get_resource_by_name`: needs a namespace. */
  function ByName(all: Inventory, kind: Kind, name: string, ns: string): (found: Option<Resource>)
    ensures found.Some? ==> found.value in all && found.value.namespace == ns != ""
  {
    if ns == "" then None
    else First(Filter(all, (r: Resource) => KindOf(r.spec) == kind && r.name == name && r.namespace == ns))
  }

  predicate Selected(labels: Labels, selector: Labels) {
    forall k :: k in selector ==> k in labels && labels[k] == selector[k]
  }

  /** `list_resources_by_selector`: no namespace means all of them, no selector means any labels. */
  function BySelector(all: Inventory, kind: Kind, ns: string, selector: Labels): Inventory {
    Filter(all, (r: Resource) =>
      KindOf(r.spec) == kind && (ns == "" || r.namespace == ns) && Selected(r.labels, selector))
  }

  function NamespaceOf(ref: Ref, default: string): string {
    if ref.namespace.Some? then ref.namespace.value else default
  }

  function Found(r: Option<Resource>, ns: string): seq<Node> {
    if r.Some? then [Node(r.value, ns)] else []
  }

  function InNamespace(found: Inventory, ns: string): (nodes: seq<Node>)
    ensures forall n :: n in nodes <==> n.ns == ns && n.resource in found
  {
    if found == [] then [] else [Node(found[0], ns)] + InNamespace(found[1..], ns)
  }

  function InOwnNamespace(found: Inventory): (nodes: seq<Node>)
    ensures forall n :: n in nodes <==> n.ns == n.resource.namespace && n.resource in found
  {
    if found == [] then [] else [Node(found[0], found[0].namespace)] + InOwnNamespace(found[1..])
  }

  lemma {:induction false} InNamespaceSnoc(found: Inventory, r: Resource, ns: string)
    ensures InNamespace(found + [r], ns) == InNamespace(found, ns) + [Node(r, ns)]
  {
    if found == [] {
      assert found + [r] == [r];
    } else {
      assert (found + [r])[0] == found[0] && (found + [r])[1..] == found[1..] + [r];
      InNamespaceSnoc(found[1..], r, ns);
    }
  }

  lemma {:induction false} InOwnNamespaceSnoc(found: Inventory, r: Resource)
    ensures InOwnNamespace(found + [r]) == InOwnNamespace(found) + [Node(r, r.namespace)]
  {
    if found == [] {
      assert found + [r] == [r];
    } else {
      assert (found + [r])[0] == found[0] && (found + [r])[1..] == found[1..] + [r];
      InOwnNamespaceSnoc(found[1..], r);
    }
  }

  // ----- successors, kind by kind -----

  function RouteBackends(all: Inventory, r: Resource, ns: string): seq<Node>
    requires r.spec.Route?
  {
    if r.spec.toKind == "Service" && r.spec.toName != "" then Found(ByName(all, ServiceKind, r.spec.toName, ns), ns)
    else []
  }

  predicate RefersTo(httpRoute: Resource, gateway: string, ns: string)
    requires httpRoute.spec.HTTPRoute?
  {
    exists i :: 0 <= i < |httpRoute.spec.parentRefs| &&
      httpRoute.spec.parentRefs[i].name == gateway &&
      NamespaceOf(httpRoute.spec.parentRefs[i], httpRoute.namespace) == ns
  }

  /** `_find_httproutes_for_gateway` */
  function GatewayRoutes(all: Inventory, r: Resource, ns: string): seq<Node> {
    InOwnNamespace(Filter(all, (h: Resource) => h.spec.HTTPRoute? && RefersTo(h, r.name, ns)))
  }

  const FALLBACK_SELECTOR: Labels := map["llm-d.ai/inferenceServing" := "true"]

  /** One backendRef of `_get_httproute_backends`. */
  function BackendNodes(all: Inventory, b: BackendRef, ns: string): seq<Node> {
    var backendNs := NamespaceOf(b.ref, ns);
    var kind := if b.kind.Some? then b.kind.value else "Service";
    if b.ref.name == "" then []
    else if kind == "Service" then Found(ByName(all, ServiceKind, b.ref.name, backendNs), backendNs)
    else if kind == "InferencePool" then
      var pool := ByName(all, InferencePoolKind, b.ref.name, backendNs);
      if pool.Some? then Found(pool, backendNs)
      else InNamespace(BySelector(all, PodKind, backendNs, FALLBACK_SELECTOR), backendNs)
    else if kind == "InferenceModel" then Found(ByName(all, InferenceModelKind, b.ref.name, backendNs), backendNs)
    else []
  }

  /** The chain-break warning a backendRef leaves in `self._errors`. */
  function BackendErrors(all: Inventory, b: BackendRef, ns: string): seq<TraceError> {
    var backendNs := NamespaceOf(b.ref, ns);
    if && b.ref.name != "" && b.kind == Some("InferencePool")
       && ByName(all, InferencePoolKind, b.ref.name, backendNs).None?
    then [PoolNotFound(backendNs, b.ref.name)] else []
  }

  function Flatten(rules: seq<seq<BackendRef>>): seq<BackendRef> {
    if rules == [] then [] else Flatten(rules[..|rules| - 1]) + rules[|rules| - 1]
  }

  function HttpRouteBackends(all: Inventory, refs: seq<BackendRef>, ns: string): seq<Node> {
    if refs == [] then []
    else HttpRouteBackends(all, refs[..|refs| - 1], ns) + BackendNodes(all, refs[|refs| - 1], ns)
  }

  function HttpRouteErrors(all: Inventory, refs: seq<BackendRef>, ns: string): seq<TraceError> {
    if refs == [] then []
    else HttpRouteErrors(all, refs[..|refs| - 1], ns) + BackendErrors(all, refs[|refs| - 1], ns)
  }

  function ModelPool(all: Inventory, r: Resource, ns: string): seq<Node>
    requires r.spec.InferenceModel?
  {
    if r.spec.poolRef == "" then [] else Found(ByName(all, InferencePoolKind, r.spec.poolRef, ns), ns)
  }

  function PoolServices(all: Inventory, refs: seq<Ref>, ns: string): Inventory {
    if refs == [] then []
    else
      var last := refs[|refs| - 1];
      var service := if last.name == "" then None else ByName(all, ServiceKind, last.name, NamespaceOf(last, ns));
      PoolServices(all, refs[..|refs| - 1], ns) + (if service.Some? then [service.value] else [])
  }

  predicate NamesService(b: BackendRef) {
    b.ref.name != "" && (b.kind == None || b.kind == Some("Service"))
  }

  /** The first of extensionRef and endpointPickerRef that names a Service. */
  function PickerService(all: Inventory, r: Resource, ns: string): Inventory
    requires r.spec.InferencePool?
  {
    var picked :=
      if NamesService(r.spec.extensionRef) then Some(r.spec.extensionRef.ref)
      else if NamesService(r.spec.endpointPickerRef) then Some(r.spec.endpointPickerRef.ref)
      else None;
    if picked.None? then []
    else
      var service := ByName(all, ServiceKind, picked.value.name, NamespaceOf(picked.value, ns));
      if service.Some? then [service.value] else []
  }

  /** `_get_inferencepool_backends` */
  function PoolBackends(all: Inventory, r: Resource, ns: string): seq<Node>
    requires r.spec.InferencePool?
  {
    var selected := match r.spec.selector
      case None => []
      case Some(PoolSelector(labels, selectorNs)) =>
        BySelector(all, PodKind, if selectorNs.Some? then selectorNs.value else ns, labels);
    var served :=
      if r.spec.modelServers.Some? && r.spec.modelServers.value != map[]
      then BySelector(all, PodKind, ns, r.spec.modelServers.value) else [];
    InOwnNamespace(PoolServices(all, r.spec.backends, ns) + selected + served + PickerService(all, r, ns))
  }

  const GATEWAY_LABEL := "gateway.networking.k8s.io/gateway-name"

  predicate HasParent(h: Resource, gateway: string)
    requires h.spec.HTTPRoute?
  {
    exists i :: 0 <= i < |h.spec.parentRefs| && h.spec.parentRefs[i].name == gateway
  }

  /** The Gateway behind a gateway service: in the same namespace, or else the first of that name anywhere. */
  function GatewayOfService(all: Inventory, gateway: string, ns: string): seq<Node> {
    var near := ByName(all, GatewayKind, gateway, ns);
    if near.Some? then Found(near, ns)
    else
      var far := First(Filter(all, (r: Resource) => r.spec.Gateway? && r.name == gateway));
      if far.Some? then [Node(far.value, far.value.namespace)] else []
  }

  /** The HTTPRoutes listed in `ns` with a parentRef of that name. */
  function RoutesNaming(all: Inventory, gateway: string, ns: string): seq<Node> {
    InOwnNamespace(Filter(all, (h: Resource) =>
      h.spec.HTTPRoute? && (ns == "" || h.namespace == ns) && HasParent(h, gateway)))
  }

  function ServicePods(all: Inventory, r: Resource, ns: string): seq<Node>
    requires r.spec.Service?
  {
    if r.spec.podSelector == map[] then []
    else InNamespace(BySelector(all, PodKind, ns, r.spec.podSelector), ns)
  }

  function ServiceTargets(all: Inventory, r: Resource, ns: string): seq<Node>
    requires r.spec.Service?
  {
    (if GATEWAY_LABEL in r.spec.podSelector then
       var gateway := r.spec.podSelector[GATEWAY_LABEL];
       GatewayOfService(all, gateway, ns) + RoutesNaming(all, gateway, ns)
     else [])
    + ServicePods(all, r, ns)
  }

  /** What the loop body appends to the queue for one resource. */
  function Successors(all: Inventory, n: Node): seq<Node> {
    var r, ns := n.resource, n.ns;
    match r.spec
    case Route(_, _) => RouteBackends(all, r, ns)
    case Gateway => GatewayRoutes(all, r, ns)
    case HTTPRoute(_, rules) => HttpRouteBackends(all, Flatten(rules), ns)
    case InferenceModel(_) => ModelPool(all, r, ns)
    case InferencePool(_, _, _, _, _) => PoolBackends(all, r, ns)
    case Service(_) => ServiceTargets(all, r, ns)
    case Pod => []
    case Other(_) => []
  }

  function Errors(all: Inventory, n: Node): seq<TraceError> {
    match n.resource.spec
    case HTTPRoute(_, rules) => HttpRouteErrors(all, Flatten(rules), n.ns)
    case _ => []
  }

  // ----- where successors live -----

  /** A resource of the inventory, traced in its own namespace or in none. */
  ghost predicate Listed(all: Inventory, n: Node) {
    n.resource in all && (n.ns == n.resource.namespace || n.ns == "")
  }

  lemma {:induction false} BackendsListed(all: Inventory, refs: seq<BackendRef>, ns: string)
    ensures forall m :: m in HttpRouteBackends(all, refs, ns) ==> Listed(all, m)
  {
    if refs != [] {
      BackendsListed(all, refs[..|refs| - 1], ns);
    }
  }

  lemma {:induction false} PoolServicesListed(all: Inventory, refs: seq<Ref>, ns: string)
    ensures forall r :: r in PoolServices(all, refs, ns) ==> r in all
  {
    if refs != [] {
      PoolServicesListed(all, refs[..|refs| - 1], ns);
    }
  }

  lemma SuccessorsListed(all: Inventory, n: Node)
    ensures forall m :: m in Successors(all, n) ==> Listed(all, m)
  {
    match n.resource.spec
    case HTTPRoute(_, rules) => BackendsListed(all, Flatten(rules), n.ns);
    case InferencePool(_, _, _, _, _) => PoolServicesListed(all, n.resource.spec.backends, n.ns);
    case _ =>
  }
}
