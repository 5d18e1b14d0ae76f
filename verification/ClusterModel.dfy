/**
 The cluster's shared state: nodes, routes and what each user may reach, with
 the validation every load and save goes through.
 */
module ClusterModel {
  import opened Common

  const STATE_VERSION: int := 1
  const MAX_NODES: nat := 32
  const MAX_ROUTES: nat := 512
  const MAX_USERS: nat := 10_000
  const MAX_ROUTE_HOPS: nat := 3
  const MAX_PRIORITY: int := 1_000_000

  datatype Protocol = TCP | UDP | OtherProtocol

  datatype ActionKind = Direct | Current | ToNode | Chain | Block | Auto | OtherAction

  datatype Action = Action(kind: ActionKind, nodes: seq<string>)

  datatype ClientRoute = ClientRoute(version: int, routeId: string, action: Action)

  datatype Role = Master | Ingress | Relaying | Egress

  /** `wellFormed` stands for the display texts, addresses, endpoint and role list of the node. */
  datatype Node = Node(id: string, roles: seq<Role>, wellFormed: bool)

  datatype PortRange = PortRange(low: nat, high: nat)

  datatype Match = Match(
    domainSuffixes: seq<string>,
    cidrs: seq<string>,
    countries: seq<string>,
    categories: seq<string>,
    portRanges: seq<PortRange>,
    protocols: seq<Protocol>)

  datatype Source = FromAdmin | FromClient | OtherSource

  /** `wellFormed` stands for the display name and the syntax of the domain, prefix and geographic rules. */
  datatype Route = Route(
    id: string,
    priority: int,
    enabled: bool,
    source: Source,
    mandatory: bool,
    rule: Match,
    action: Action,
    wellFormed: bool)

  /** Revisions are unsigned 64-bit numbers. */
  type Revision = n: nat | n <= MAX_UINT64

  datatype Access = Access(
    userId: string,
    nodes: seq<string>,
    routes: seq<string>,
    allowClientRoutes: bool,
    revision: Revision)

  /** `stamped` says that the state carries a modification time. */
  datatype State = State(
    version: int,
    clusterId: string,
    revision: Revision,
    nodes: seq<Node>,
    routes: seq<Route>,
    access: seq<Access>,
    stamped: bool)

  // ---------------------------------------------------------------------
  // Identifiers
  // ---------------------------------------------------------------------

  predicate LowerOrDigit(c: char) {
    'a' <= c <= 'z' || '0' <= c <= '9'
  }

  predicate ValidIdentifier(value: string, maximum: nat) {
    && value != "" && |value| <= maximum
    && forall i :: 0 <= i < |value| ==> LowerOrDigit(value[i]) || (0 < i && (value[i] == '-' || value[i] == '_'))
  }

  predicate ValidOpaqueId(value: string, maximum: nat) {
    && value != "" && |value| <= maximum
    && forall i :: 0 <= i < |value| ==>
         LowerOrDigit(value[i]) || 'A' <= value[i] <= 'Z' || value[i] == '-' || value[i] == '_'
  }

  ghost predicate Distinct(values: seq<string>) {
    forall i, j :: 0 <= i < j < |values| ==> values[i] != values[j]
  }

  /** `hasDuplicates` also rejects malformed identifiers. */
  ghost predicate CleanReferences(values: seq<string>) {
    Distinct(values) && forall i :: 0 <= i < |values| ==> ValidIdentifier(values[i], 128)
  }

  method HasDuplicates(values: seq<string>) returns (duplicates: bool)
    ensures duplicates <==> !CleanReferences(values)
  {
    var seen: set<string> := {};
    for i := 0 to |values|
      invariant forall x :: x in seen <==> x in values[..i]
      invariant CleanReferences(values[..i])
    {
      assert values[..i + 1] == values[..i] + [values[i]];
      if !ValidIdentifier(values[i], 128) {
        assert !CleanReferences(values);
        return true;
      }
      if values[i] in seen {
        var k :| 0 <= k < i && values[..i][k] == values[i];
        assert values[k] == values[i];
        return true;
      }
      seen := seen + {values[i]};
    }
    assert values[..|values|] == values;
    duplicates := false;
  }

  /** `ValidateClientRouteRequest`: a client may name one node, a chain, or nothing; never block. */
  ghost predicate ValidClientRoute(r: ClientRoute) {
    && r.version == 1 && ValidIdentifier(r.routeId, 64)
    && match r.action.kind
       case ToNode => |r.action.nodes| == 1 && ValidIdentifier(r.action.nodes[0], 64)
       case Chain =>
         && 2 <= |r.action.nodes| <= MAX_ROUTE_HOPS && CleanReferences(r.action.nodes)
         && forall i :: 0 <= i < |r.action.nodes| ==> ValidIdentifier(r.action.nodes[i], 64)
       case Current => r.action.nodes == []
       case Direct => r.action.nodes == []
       case Auto => r.action.nodes == []
       case _ => false
  }

  /** `ValidateClientRouteRequest` with its loops. */
  method ValidateClientRoute(r: ClientRoute) returns (ok: bool)
    ensures ok <==> ValidClientRoute(r)
  {
    if r.version != 1 || !ValidIdentifier(r.routeId, 64) {
      return false;
    }
    if r.action.kind == ToNode {
      return |r.action.nodes| == 1 && ValidIdentifier(r.action.nodes[0], 64);
    }
    if r.action.kind == Chain {
      if |r.action.nodes| < 2 || |r.action.nodes| > MAX_ROUTE_HOPS {
        return false;
      }
      var duplicates := HasDuplicates(r.action.nodes);
      if duplicates {
        return false;
      }
      for i := 0 to |r.action.nodes|
        invariant forall k :: 0 <= k < i ==> ValidIdentifier(r.action.nodes[k], 64)
      {
        if !ValidIdentifier(r.action.nodes[i], 64) {
          return false;
        }
      }
      return true;
    }
    ok := (r.action.kind == Current || r.action.kind == Direct || r.action.kind == Auto) && r.action.nodes == [];
  }

  // ---------------------------------------------------------------------
  // Validity of the state
  // ---------------------------------------------------------------------

  function MasterCount(nodes: seq<Node>): (count: nat) {
    if nodes == [] then 0
    else MasterCount(nodes[..|nodes| - 1]) + if Master in nodes[|nodes| - 1].roles then 1 else 0
  }

  ghost function NodeIds(nodes: seq<Node>): (ids: set<string>) {
    set i | 0 <= i < |nodes| :: nodes[i].id
  }

  ghost function RouteIds(routes: seq<Route>): (ids: set<string>) {
    set i | 0 <= i < |routes| :: routes[i].id
  }

  ghost predicate NodeOk(n: Node) {
    n.wellFormed && ValidIdentifier(n.id, 64)
  }

  ghost predicate NodesOk(nodes: seq<Node>) {
    && (forall i :: 0 <= i < |nodes| ==> NodeOk(nodes[i]))
    && forall i, j :: 0 <= i < j < |nodes| ==> nodes[i].id != nodes[j].id
  }

  predicate ActionOk(action: Action) {
    match action.kind
    case ToNode => |action.nodes| == 1
    case Chain => 2 <= |action.nodes| <= MAX_ROUTE_HOPS
    case OtherAction => false
    case _ => action.nodes == []
  }

  predicate RuleSizesOk(rule: Match) {
    && |rule.domainSuffixes| <= 64 && |rule.cidrs| <= 64 && |rule.countries| <= 16
    && |rule.categories| <= 16 && |rule.portRanges| <= 32 && |rule.protocols| <= 2
  }

  ghost predicate ValidRoute(r: Route) {
    && ValidIdentifier(r.id, 64) && r.wellFormed && 0 <= r.priority <= MAX_PRIORITY
    && r.source != OtherSource && (r.mandatory ==> r.source == FromAdmin)
    && RuleSizesOk(r.rule)
    && (forall i :: 0 <= i < |r.rule.portRanges| ==> 0 < r.rule.portRanges[i].low <= r.rule.portRanges[i].high)
    && (forall i :: 0 <= i < |r.rule.protocols| ==> r.rule.protocols[i] != OtherProtocol)
    && ActionOk(r.action) && (r.action.kind == Chain ==> CleanReferences(r.action.nodes))
  }

  ghost predicate Within(values: seq<string>, ids: set<string>) {
    forall i :: 0 <= i < |values| ==> values[i] in ids
  }

  ghost predicate RouteOk(r: Route, nodeIds: set<string>) {
    ValidRoute(r) && Within(r.action.nodes, nodeIds)
  }

  ghost predicate RoutesOk(routes: seq<Route>, nodeIds: set<string>) {
    && (forall i :: 0 <= i < |routes| ==> RouteOk(routes[i], nodeIds))
    && forall i, j :: 0 <= i < j < |routes| ==> routes[i].id != routes[j].id
  }

  ghost predicate AccessOk(a: Access, nodeIds: set<string>, routeIds: set<string>) {
    && ValidOpaqueId(a.userId, 128) && a.revision != 0
    && CleanReferences(a.nodes) && CleanReferences(a.routes)
    && Within(a.nodes, nodeIds) && Within(a.routes, routeIds)
  }

  ghost predicate AccessesOk(access: seq<Access>, nodeIds: set<string>, routeIds: set<string>) {
    && (forall i :: 0 <= i < |access| ==> AccessOk(access[i], nodeIds, routeIds))
    && forall i, j :: 0 <= i < j < |access| ==> access[i].userId != access[j].userId
  }

  predicate HeaderValid(s: State) {
    && s.version == STATE_VERSION && ValidIdentifier(s.clusterId, 64) && s.revision != 0 && s.stamped
    && 0 < |s.nodes| <= MAX_NODES && |s.routes| <= MAX_ROUTES && |s.access| <= MAX_USERS
  }

  /** What a valid cluster state is: one master, unique identifiers, every reference resolved. */
  ghost predicate ValidState(s: State) {
    && HeaderValid(s) && NodesOk(s.nodes) && MasterCount(s.nodes) == 1
    && RoutesOk(s.routes, NodeIds(s.nodes))
    && AccessesOk(s.access, NodeIds(s.nodes), RouteIds(s.routes))
  }

  /** `ValidateState`. */
  method ValidateState(s: State) returns (ok: bool)
    ensures ok <==> ValidState(s)
  {
    if !HeaderValid(s) {
      return false;
    }
    var nodeIds, masters;
    ok, nodeIds, masters := CheckNodes(s.nodes);
    if !ok || masters != 1 {
      return false;
    }
    var routeIds;
    ok, routeIds := CheckRoutes(s.routes, nodeIds);
    if !ok {
      return false;
    }
    ok := CheckAccess(s.access, nodeIds, routeIds);
  }

  lemma FrontOk(nodes: seq<Node>, k: nat)
    requires k <= |nodes| && !NodesOk(nodes[..k])
    ensures !NodesOk(nodes)
  {
  }

  lemma NodesExtend(front: seq<Node>, node: Node)
    ensures NodeIds(front + [node]) == NodeIds(front) + {node.id}
    ensures MasterCount(front + [node]) == MasterCount(front) + if Master in node.roles then 1 else 0
    ensures NodesOk(front + [node]) <==> NodesOk(front) && NodeOk(node) && node.id !in NodeIds(front)
  {
    var nodes := front + [node];
    assert nodes[..|front|] == front && nodes[|front|] == node;
    assert forall i :: 0 <= i < |front| ==> nodes[i] == front[i];
  }

  method CheckNodes(nodes: seq<Node>) returns (ok: bool, ids: set<string>, masters: nat)
    ensures ok <==> NodesOk(nodes)
    ensures ok ==> ids == NodeIds(nodes) && masters == MasterCount(nodes)
  {
    ids, masters := {}, 0;
    for i := 0 to |nodes|
      invariant NodesOk(nodes[..i])
      invariant ids == NodeIds(nodes[..i])
      invariant masters == MasterCount(nodes[..i])
    {
      var node := nodes[i];
      NodesExtend(nodes[..i], node);
      assert nodes[..i + 1] == nodes[..i] + [node];
      if !(node.wellFormed && ValidIdentifier(node.id, 64)) {
        return false, ids, masters;
      }
      if node.id in ids {
        FrontOk(nodes, i + 1);
        return false, ids, masters;
      }
      ids := ids + {node.id};
      masters := masters + if Master in node.roles then 1 else 0;
    }
    assert nodes[..|nodes|] == nodes;
    ok := true;
  }

  method CheckRoutes(routes: seq<Route>, nodeIds: set<string>) returns (ok: bool, ids: set<string>)
    ensures ok <==> RoutesOk(routes, nodeIds)
    ensures ok ==> ids == RouteIds(routes)
  {
    ids := {};
    for i := 0 to |routes|
      invariant RoutesOk(routes[..i], nodeIds)
      invariant ids == RouteIds(routes[..i])
    {
      var route := routes[i];
      assert routes[..i + 1] == routes[..i] + [route];
      var valid := ValidateRoute(route);
      if !valid {
        assert !RouteOk(routes[i], nodeIds);
        return false, ids;
      }
      if route.id in ids {
        return false, ids;
      }
      var known := AllWithin(route.action.nodes, nodeIds);
      if !known {
        assert !RouteOk(routes[i], nodeIds);
        return false, ids;
      }
      ids := ids + {route.id};
    }
    assert routes[..|routes|] == routes;
    ok := true;
  }

  /** `ValidateRoute` over its loops. */
  method ValidateRoute(r: Route) returns (ok: bool)
    ensures ok <==> ValidRoute(r)
  {
    if !ValidIdentifier(r.id, 64) || !r.wellFormed || r.priority < 0 || r.priority > MAX_PRIORITY
       || r.source == OtherSource || (r.mandatory && r.source != FromAdmin) || !RuleSizesOk(r.rule) {
      return false;
    }
    for i := 0 to |r.rule.portRanges|
      invariant forall k :: 0 <= k < i ==> 0 < r.rule.portRanges[k].low <= r.rule.portRanges[k].high
    {
      if r.rule.portRanges[i].low == 0 || r.rule.portRanges[i].high < r.rule.portRanges[i].low {
        return false;
      }
    }
    for i := 0 to |r.rule.protocols|
      invariant forall k :: 0 <= k < i ==> r.rule.protocols[k] != OtherProtocol
    {
      if r.rule.protocols[i] == OtherProtocol {
        return false;
      }
    }
    if !ActionOk(r.action) {
      return false;
    }
    if r.action.kind == Chain {
      var duplicates := HasDuplicates(r.action.nodes);
      return !duplicates;
    }
    ok := true;
  }

  method AllWithin(values: seq<string>, ids: set<string>) returns (ok: bool)
    ensures ok <==> Within(values, ids)
  {
    for i := 0 to |values|
      invariant forall k :: 0 <= k < i ==> values[k] in ids
    {
      if values[i] !in ids {
        return false;
      }
    }
    ok := true;
  }

  method CheckAccess(access: seq<Access>, nodeIds: set<string>, routeIds: set<string>) returns (ok: bool)
    ensures ok <==> AccessesOk(access, nodeIds, routeIds)
  {
    var users: set<string> := {};
    for i := 0 to |access|
      invariant AccessesOk(access[..i], nodeIds, routeIds)
      invariant users == set k | 0 <= k < i :: access[k].userId
    {
      assert access[..i + 1] == access[..i] + [access[i]];
      var entry := CheckEntry(access[i], nodeIds, routeIds);
      if !entry {
        assert !AccessOk(access[i], nodeIds, routeIds);
        return false;
      }
      if access[i].userId in users {
        return false;
      }
      users := users + {access[i].userId};
    }
    assert access[..|access|] == access;
    ok := true;
  }

  method CheckEntry(a: Access, nodeIds: set<string>, routeIds: set<string>) returns (ok: bool)
    ensures ok <==> AccessOk(a, nodeIds, routeIds)
  {
    if !ValidOpaqueId(a.userId, 128) || a.revision == 0 {
      return false;
    }
    var duplicates := HasDuplicates(a.nodes);
    if duplicates {
      return false;
    }
    duplicates := HasDuplicates(a.routes);
    if duplicates {
      return false;
    }
    ok := AllWithin(a.nodes, nodeIds);
    if ok {
      ok := AllWithin(a.routes, routeIds);
    }
  }
}
