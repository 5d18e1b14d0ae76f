/**
 Relaying between cluster nodes: a request carries the nodes it has visited and
 the nodes it still has to visit, every node validates it before acting on it,
 and the master resolves routes for nodes that hold no state.
 */
module ClusterRelay {
  import opened Common
  import opened ClusterModel

  const RELAY_VERSION: int := 1
  const RESOLVE: string := "resolve"

  datatype RelayError = InvalidRelay | RelayLoop | RelayHopLimit

  /** `targetValid` stands for the syntax of the target host, which is not modelled. */
  datatype Request = Request(
    version: int,
    routeId: string,
    userId: string,
    remainingHops: nat,
    visited: seq<string>,
    remaining: seq<string>,
    traceId: string,
    targetValid: bool,
    port: nat,
    protocol: Protocol,
    clientRoute: Option<ClientRoute>)

  // ---------------------------------------------------------------------
  // Acceptance
  // ---------------------------------------------------------------------

  ghost predicate HeaderOk(r: Request, node: string) {
    && r.version == RELAY_VERSION && ValidIdentifier(r.routeId, 64) && ValidOpaqueId(r.userId, 128)
    && ValidIdentifier(node, 64) && r.port != 0 && !r.protocol.OtherProtocol? && |r.traceId| == 16
    && r.targetValid && (r.clientRoute.Some? ==> ValidClientRoute(r.clientRoute.value))
  }

  /** Every node of the path is well formed, none repeats, and this node is on neither side. */
  ghost predicate PathOk(r: Request, node: string) {
    && Distinct(r.visited + r.remaining)
    && node !in r.visited && node !in r.remaining
    && (forall i :: 0 <= i < |r.visited| ==> ValidIdentifier(r.visited[i], 64))
    && (forall i :: 0 <= i < |r.remaining| ==> ValidIdentifier(r.remaining[i], 64))
  }

  /** What it takes for `node` to accept a request. */
  ghost predicate Accepted(r: Request, node: string) {
    && HeaderOk(r, node) && PathOk(r, node)
    && |r.visited| <= MAX_ROUTE_HOPS
    && r.remainingHops == |r.remaining| + 1 <= MAX_ROUTE_HOPS
  }

  /** `ValidateRelayRequest`: accepts exactly the requests that `Accepted` describes. */
  method ValidateRelayRequest(r: Request, node: string) returns (error: Option<RelayError>)
    ensures error.None? <==> Accepted(r, node)
    ensures error == Some(RelayLoop) ==> !PathOk(r, node)
    ensures error == Some(RelayHopLimit) ==>
              r.remainingHops == 0 || r.remainingHops > MAX_ROUTE_HOPS || r.remainingHops != |r.remaining| + 1
  {
    if r.version != RELAY_VERSION || !ValidIdentifier(r.routeId, 64) || !ValidOpaqueId(r.userId, 128)
       || !ValidIdentifier(node, 64) || r.port == 0 || r.protocol.OtherProtocol? || |r.traceId| != 16
       || |r.visited| > MAX_ROUTE_HOPS || |r.remaining| > MAX_ROUTE_HOPS {
      return Some(InvalidRelay);
    }
    if r.clientRoute.Some? {
      var ok := ValidateClientRoute(r.clientRoute.value);
      if !ok {
        return Some(InvalidRelay);
      }
    }
    if r.remainingHops == 0 || r.remainingHops > MAX_ROUTE_HOPS {
      return Some(RelayHopLimit);
    }
    var seen;
    error, seen := CheckVisited(r, node);
    if error.Some? {
      return error;
    }
    var loop := CheckRemaining(r, node, seen);
    if loop {
      return Some(RelayLoop);
    }
    if r.remainingHops != |r.remaining| + 1 {
      return Some(RelayHopLimit);
    }
    if !r.targetValid {
      return Some(InvalidRelay);
    }
  }

  ghost predicate VisitedOk(visited: seq<string>, node: string) {
    && Distinct(visited) && node !in visited
    && forall i :: 0 <= i < |visited| ==> ValidIdentifier(visited[i], 64)
  }

  /** The loop over the visited nodes; it leaves them in the set of nodes seen. */
  method CheckVisited(r: Request, node: string) returns (error: Option<RelayError>, seen: set<string>)
    ensures error.None? <==> VisitedOk(r.visited, node)
    ensures error.Some? ==> !PathOk(r, node) && error != Some(RelayHopLimit)
    ensures error.None? ==> forall x :: x in seen <==> x in r.visited
  {
    seen := {};
    for i := 0 to |r.visited|
      invariant forall x :: x in seen <==> x in r.visited[..i]
      invariant VisitedOk(r.visited[..i], node)
    {
      assert r.visited[..i + 1] == r.visited[..i] + [r.visited[i]];
      if !ValidIdentifier(r.visited[i], 64) {
        return Some(InvalidRelay), seen;
      }
      if r.visited[i] == node {
        return Some(RelayLoop), seen;
      }
      if r.visited[i] in seen {
        RepeatIsNotDistinct(r.visited, r.visited[..i], i);
        assert !PathOk(r, node) by {
          RepeatIsNotDistinct(r.visited + r.remaining, r.visited[..i], i);
        }
        return Some(RelayLoop), seen;
      }
      seen := seen + {r.visited[i]};
    }
    assert r.visited[..|r.visited|] == r.visited;
    error := None;
  }

  /** The loop over the remaining nodes, which must avoid the visited ones as well. */
  method CheckRemaining(r: Request, node: string, visited: set<string>) returns (loop: bool)
    requires VisitedOk(r.visited, node) && forall x :: x in visited <==> x in r.visited
    ensures loop <==> !PathOk(r, node)
  {
    var seen := visited;
    for i := 0 to |r.remaining|
      invariant forall x :: x in seen <==> x in r.visited + r.remaining[..i]
      invariant VisitedOk(r.visited + r.remaining[..i], node)
    {
      var before := r.visited + r.remaining[..i];
      assert r.visited + r.remaining[..i + 1] == before + [r.remaining[i]];
      if !ValidIdentifier(r.remaining[i], 64) || r.remaining[i] == node {
        return true;
      }
      if r.remaining[i] in seen {
        RepeatIsNotDistinct(r.visited + r.remaining, before, |r.visited| + i);
        return true;
      }
      seen := seen + {r.remaining[i]};
    }
    assert r.remaining[..|r.remaining|] == r.remaining;
    WholePathOk(r, node);
    loop := false;
  }

  lemma WholePathOk(r: Request, node: string)
    requires VisitedOk(r.visited + r.remaining, node)
    ensures PathOk(r, node)
  {
    var path := r.visited + r.remaining;
    assert forall i :: 0 <= i < |r.visited| ==> r.visited[i] == path[i];
    forall i | 0 <= i < |r.remaining|
      ensures ValidIdentifier(r.remaining[i], 64) && r.remaining[i] != node
    {
      assert path[|r.visited| + i] == r.remaining[i];
    }
  }

  lemma RepeatIsNotDistinct(path: seq<string>, front: seq<string>, i: nat)
    requires i < |path| && |front| == i && front == path[..i] && path[i] in front
    ensures !Distinct(path)
  {
    var k :| 0 <= k < i && front[k] == path[i];
    assert path[k] == path[i];
  }

  // ---------------------------------------------------------------------
  // Handling a request
  // ---------------------------------------------------------------------

  /** What the handling of a request comes to: an open towards a peer, a local dial, or a refusal. */
  datatype Outcome = Open(next: string, request: Request) | Terminal | Refused

  /** The path without this node at its front. */
  function Stripped(path: seq<string>, node: string): (r: seq<string>) {
    if path != [] && path[0] == node then Stripped(path[1..], node) else path
  }

  /** Who is asked first and what is left: a node other than the master goes through the master. */
  function FirstHop(path: seq<string>, node: string, master: string): (hop: (string, seq<string>, nat))
    requires path != []
  {
    if node != master && path[0] != master then (master, path, |path| + 1) else (path[0], path[1..], |path|)
  }

  /** `applyAction` on an action for this node; `None` means the caller dials the target itself. */
  function Apply(node: string, master: string, action: Action, header: Request, visited: seq<string>)
    : (r: Option<Outcome>)
  {
    match action.kind
    case Block => Some(Refused)
    case Current => None
    case Direct => None
    case Auto => None
    case OtherAction => Some(Refused)
    case _ =>
      var path := Stripped(action.nodes, node);
      if path == [] then None
      else if |path| > MAX_ROUTE_HOPS then Some(Refused)
      else
        var (next, remaining, hops) := FirstHop(path, node, master);
        if hops > MAX_ROUTE_HOPS then Some(Refused)
        else Some(Open(next, header.(
          remainingHops := hops,
          visited := if visited == [] then [node] else visited,
          remaining := remaining)))
  }

  /** The actions that keep the target at this node: the local ones, and a path that names no other node. */
  ghost predicate DialsHere(action: Action, node: string) {
    || action.kind in {Current, Direct, Auto}
    || (action.kind in {ToNode, Chain} && forall i :: 0 <= i < |action.nodes| ==> action.nodes[i] == node)
  }

  /** The path's first node other than this one is at `k`. */
  ghost predicate LeavesAt(nodes: seq<string>, node: string, k: nat) {
    k < |nodes| && nodes[k] != node && forall i :: 0 <= i < k ==> nodes[i] == node
  }

  /** The nodes a path leads through from here: an edge node starts at the master. */
  function Itinerary(nodes: seq<string>, node: string, master: string): (r: seq<string>)
    requires nodes != []
    ensures r != []
  {
    if node == master || nodes[0] == master then nodes else [master] + nodes
  }

  lemma {:induction false} StrippedIs(nodes: seq<string>, node: string, k: nat)
    ensures LeavesAt(nodes, node, k) ==> Stripped(nodes, node) == nodes[k..]
    ensures Stripped(nodes, node) == [] <==> forall i :: 0 <= i < |nodes| ==> nodes[i] == node
    decreases |nodes|
  {
    if nodes != [] && nodes[0] == node {
      StrippedIs(nodes[1..], node, if k == 0 then 0 else k - 1);
      assert forall i :: 0 < i < |nodes| ==> nodes[i] == nodes[1..][i - 1];
      assert LeavesAt(nodes, node, k) ==>
               0 < k && LeavesAt(nodes[1..], node, k - 1) && nodes[1..][k - 1..] == nodes[k..];
    }
  }

  /** What an action comes to, by its kind and its path alone. */
  ghost predicate Decided(node: string, master: string, action: Action, header: Request, visited: seq<string>,
                          r: Option<Outcome>)
  {
    && (action.kind in {Block, OtherAction} ==> r == Some(Refused))
    && (r.None? <==> DialsHere(action, node))
    && forall k: nat :: action.kind in {ToNode, Chain} && LeavesAt(action.nodes, node, k) ==>
         var itinerary := Itinerary(action.nodes[k..], node, master);
         r == Some(if |itinerary| > MAX_ROUTE_HOPS then Refused
                   else Open(itinerary[0], header.(remainingHops := |itinerary|, remaining := itinerary[1..],
                                                   visited := if visited == [] then [node] else visited)))
  }

  /**
   A block or an unknown action is always refused; the target is dialled here
   exactly for a local action or a path of this node only; any other path is
   followed from its first foreign node on, through the master, if it is short
   enough.
   */
  lemma ApplyDecides(node: string, master: string, action: Action, header: Request, visited: seq<string>)
    ensures Decided(node, master, action, header, visited, Apply(node, master, action, header, visited))
  {
    var r := Apply(node, master, action, header, visited);
    StrippedIs(action.nodes, node, 0);
    forall k: nat | action.kind in {ToNode, Chain} && LeavesAt(action.nodes, node, k)
      ensures var itinerary := Itinerary(action.nodes[k..], node, master);
              r == Some(if |itinerary| > MAX_ROUTE_HOPS then Refused
                        else Open(itinerary[0], header.(remainingHops := |itinerary|, remaining := itinerary[1..],
                                                        visited := if visited == [] then [node] else visited)))
    {
      PathFollowed(node, master, action, header, visited, k);
    }
  }

  lemma PathFollowed(node: string, master: string, action: Action, header: Request, visited: seq<string>, k: nat)
    requires action.kind in {ToNode, Chain} && LeavesAt(action.nodes, node, k)
    ensures var itinerary := Itinerary(action.nodes[k..], node, master);
            Apply(node, master, action, header, visited)
            == Some(if |itinerary| > MAX_ROUTE_HOPS then Refused
                    else Open(itinerary[0], header.(remainingHops := |itinerary|, remaining := itinerary[1..],
                                                    visited := if visited == [] then [node] else visited)))
  {
    StrippedIs(action.nodes, node, k);
    var path := action.nodes[k..];
    assert ([master] + path)[1..] == path;
  }

  /** The loop of `applyAction` that drops this node from the front of the path. */
  method StripOwn(path: seq<string>, node: string) returns (r: seq<string>)
    ensures r == Stripped(path, node)
    ensures r != [] ==> r[0] != node
  {
    r := path;
    while |r| > 0 && r[0] == node
      invariant Stripped(r, node) == Stripped(path, node)
      decreases |r|
    {
      r := r[1..];
    }
  }

  /** `applyAction` with its loop. */
  method ApplyAction(node: string, master: string, action: Action, header: Request, visited: seq<string>)
    returns (r: Option<Outcome>)
    ensures r == Apply(node, master, action, header, visited)
    ensures Decided(node, master, action, header, visited, r)
  {
    ApplyDecides(node, master, action, header, visited);
    if action.kind == Block || action.kind == OtherAction {
      return Some(Refused);
    }
    if action.kind != ToNode && action.kind != Chain {
      return None;
    }
    var path := StripOwn(action.nodes, node);
    if path == [] {
      return None;
    }
    if |path| > MAX_ROUTE_HOPS {
      return Some(Refused);
    }
    var next, remaining, hops := path[0], path[1..], |path|;
    if node != master && next != master {
      next, remaining, hops := master, path, hops + 1;
    }
    if hops > MAX_ROUTE_HOPS {
      return Some(Refused);
    }
    var onward := if visited == [] then [node] else visited;
    return Some(Open(next, header.(remainingHops := hops, visited := onward, remaining := remaining)));
  }

  /** Explicit forwarding to the first remaining node. */
  function Forwarded(r: Request, node: string): (f: Request)
    requires r.remaining != []
  {
    r.(visited := r.visited + [node], remaining := r.remaining[1..], remainingHops := |r.remaining|)
  }

  /**
   `HandleRelay` at `node`, for a peer that is authorised.  `resolved` is the
   action and route identifier the master finds for a request to resolve.
   */
  ghost function Handle(r: Request, node: string, master: string, peer: string, resolved: Option<(Action, string)>)
    : (o: Outcome)
  {
    if r.visited == [] || r.visited[|r.visited| - 1] != peer || !Accepted(r, node) then Refused
    else if r.routeId == RESOLVE then
      if node != master || resolved.None? then Refused
      else
        var (action, routeId) := resolved.value;
        match Apply(node, master, action, r.(routeId := routeId, clientRoute := None), r.visited + [node])
        case None => Terminal
        case Some(outcome) => outcome
    else if r.remaining == [] then Terminal
    else Open(r.remaining[0], Forwarded(r, node))
  }

  /** The request comes from the node it visited last, and is one this node accepts. */
  ghost predicate Genuine(r: Request, node: string, peer: string) {
    r.visited != [] && r.visited[|r.visited| - 1] == peer && Accepted(r, node)
  }

  /** What handling a request comes to, whatever the path that led to it. */
  ghost predicate Handled(r: Request, node: string, master: string, peer: string, resolved: Option<(Action, string)>,
                          o: Outcome)
  {
    && (!Genuine(r, node, peer) ==> o.Refused?)
    && (r.routeId == RESOLVE && (node != master || resolved.None?) ==> o.Refused?)
    && (r.routeId == RESOLVE && resolved.Some? && resolved.value.0.kind in {Block, OtherAction} ==> o.Refused?)
    && (o.Terminal? <==>
          && Genuine(r, node, peer)
          && if r.routeId == RESOLVE then node == master && resolved.Some? && DialsHere(resolved.value.0, node)
             else r.remaining == [])
    && (Genuine(r, node, peer) && r.routeId != RESOLVE && r.remaining != [] ==>
          && o.Open? && [o.next] + o.request.remaining == r.remaining && o.request.visited == r.visited + [node]
          && o.request == r.(visited := o.request.visited, remaining := o.request.remaining,
                             remainingHops := r.remainingHops - 1))
    && (forall k: nat ::
          && Genuine(r, node, peer) && r.routeId == RESOLVE && node == master && resolved.Some?
          && resolved.value.0.kind in {ToNode, Chain} && LeavesAt(resolved.value.0.nodes, node, k) ==>
            var path := resolved.value.0.nodes[k..];
            if |path| > MAX_ROUTE_HOPS then o.Refused?
            else
              && o.Open? && [o.next] + o.request.remaining == path && o.request.visited == r.visited + [node]
              && o.request == r.(visited := o.request.visited, remaining := o.request.remaining,
                                 remainingHops := |path|, routeId := resolved.value.1, clientRoute := None))
  }

  /**
   Nothing is done for a request that does not come from the node it visited
   last; only the master resolves; what it resolves to a block is refused; and
   the target is dialled exactly where a path ends.
   */
  lemma HandleDecides(r: Request, node: string, master: string, peer: string, resolved: Option<(Action, string)>)
    ensures Handled(r, node, master, peer, resolved, Handle(r, node, master, peer, resolved))
  {
    if Genuine(r, node, peer) && r.routeId == RESOLVE && node == master && resolved.Some? {
      var (action, routeId) := resolved.value;
      ApplyDecides(node, master, action, r.(routeId := routeId, clientRoute := None), r.visited + [node]);
    }
  }

  /** `HandleRelay`: the credential names the peer, then the request is validated and acted on. */
  method HandleRelay(r: Request, node: string, master: string, peers: map<string, string>, credential: string,
                     resolved: Option<(Action, string)>)
    returns (o: Outcome)
    ensures o == if credential in peers then Handle(r, node, master, peers[credential], resolved) else Refused
    ensures credential in peers ==> Handled(r, node, master, peers[credential], resolved, o)
  {
    if credential in peers {
      HandleDecides(r, node, master, peers[credential], resolved);
    }
    if credential !in peers || |r.visited| == 0 || r.visited[|r.visited| - 1] != peers[credential] {
      return Refused;
    }
    var error := ValidateRelayRequest(r, node);
    if error.Some? {
      return Refused;
    }
    if r.routeId == RESOLVE {
      if node != master || resolved.None? {
        return Refused;
      }
      var (action, routeId) := resolved.value;
      var applied := ApplyAction(node, master, action, r.(routeId := routeId, clientRoute := None), r.visited + [node]);
      return if applied.None? then Terminal else applied.value;
    }
    if r.remaining == [] {
      return Terminal;
    }
    return Open(r.remaining[0], Forwarded(r, node));
  }

  // ---------------------------------------------------------------------
  // Loop freedom and termination
  // ---------------------------------------------------------------------

  /** One node of a relay chain, with the request it accepted and what its resolution gave, if any. */
  datatype Hop = Hop(node: string, request: Request, peer: string, resolved: Option<(Action, string)>)

  ghost predicate Opens(from: Hop, to: Hop, master: string) {
    Handle(from.request, from.node, master, from.peer, from.resolved) == Open(to.node, to.request)
  }

  /** Each node was opened by the one before it. */
  ghost predicate IsChain(hops: seq<Hop>, master: string) {
    forall i :: 0 <= i < |hops| - 1 ==> Opens(hops[i], hops[i + 1], master)
  }

  /** Every node of the chain accepts its request. */
  ghost predicate AllAccept(hops: seq<Hop>) {
    forall i :: 0 <= i < |hops| ==> hops[i].request.visited != [] && Accepted(hops[i].request, hops[i].node)
  }

  /** Whether forwarded or resolved, a request leaves a node with that node added to the visited ones. */
  lemma OpenExtendsVisited(r: Request, node: string, master: string, peer: string, resolved: Option<(Action, string)>)
    requires Handle(r, node, master, peer, resolved).Open?
    ensures Handle(r, node, master, peer, resolved).request.visited == r.visited + [node]
  {
  }

  /** The visited nodes of a chain's last request are the first request's and the nodes in between. */
  lemma {:induction false} ChainVisits(hops: seq<Hop>, master: string, i: nat, j: nat)
    requires IsChain(hops, master) && i <= j < |hops|
    ensures |hops[j].request.visited| == |hops[i].request.visited| + (j - i)
    ensures forall x :: x in hops[i].request.visited ==> x in hops[j].request.visited
    ensures i < j ==> hops[i].node in hops[j].request.visited
    decreases j - i
  {
    if i < j {
      assert Opens(hops[i], hops[i + 1], master);
      OpenExtendsVisited(hops[i].request, hops[i].node, master, hops[i].peer, hops[i].resolved);
      ChainVisits(hops, master, i + 1, j);
    }
  }

  /**
   Loop freedom: along any chain of accepted requests, with or without the
   resolution at the master, the handling nodes are pairwise distinct and
   differ from every node visited before; at most three follow the origin;
   and the hops left strictly decrease.
   */
  lemma RelayIsLoopFree(hops: seq<Hop>, master: string, i: nat, j: nat)
    requires IsChain(hops, master) && AllAccept(hops) && i < j < |hops|
    ensures hops[i].node != hops[j].node
    ensures forall x :: x in hops[i].request.visited ==> x != hops[j].node
    ensures |hops| <= MAX_ROUTE_HOPS
    ensures 0 <= MAX_ROUTE_HOPS - |hops[j].request.visited| < MAX_ROUTE_HOPS - |hops[i].request.visited|
  {
    ChainVisits(hops, master, i, j);
    ChainVisits(hops, master, 0, |hops| - 1);
  }

  // ---------------------------------------------------------------------
  // Reaching the end of the path
  // ---------------------------------------------------------------------

  /** Acceptance is inductive: a forwarded request is accepted by the next node, and the path length is kept. */
  lemma ForwardedIsAccepted(r: Request, node: string)
    requires Accepted(r, node) && r.remaining != [] && |r.visited| + |r.remaining| <= MAX_ROUTE_HOPS
    ensures Accepted(Forwarded(r, node), r.remaining[0])
    ensures |Forwarded(r, node).visited| + |Forwarded(r, node).remaining| == |r.visited| + |r.remaining|
  {
    var f, next := Forwarded(r, node), r.remaining[0];
    var path, longer := r.visited + r.remaining, f.visited + f.remaining;
    assert path[|r.visited|] == next;
    forall i, j | 0 <= i < j < |longer|
      ensures longer[i] != longer[j]
    {
      ForwardedAt(r, node, i);
      ForwardedAt(r, node, j);
    }
    forall i | 0 <= i < |longer|
      ensures longer[i] != next
    {
      ForwardedAt(r, node, i);
    }
    assert forall x :: x in f.visited ==> x in longer;
    assert forall x :: x in f.remaining ==> x in longer;
  }

  /** The forwarded path is the old path with the next node replaced by this one. */
  lemma ForwardedAt(r: Request, node: string, i: nat)
    requires r.remaining != [] && i < |r.visited| + |r.remaining|
    ensures (Forwarded(r, node).visited + Forwarded(r, node).remaining)[i]
         == if i == |r.visited| then node else (r.visited + r.remaining)[i]
  {
  }

  /** The node that sent a request is the last one it visited. */
  function Sender(r: Request): (peer: string) {
    if r.visited == [] then "" else r.visited[|r.visited| - 1]
  }

  /** The explicit request gets through, node by node, to one that dials the target. */
  ghost predicate Reaches(r: Request, node: string, master: string)
    decreases |r.remaining|
  {
    var outcome := Handle(r, node, master, Sender(r), None);
    outcome.Terminal?
    || (outcome.Open? && r.remaining != [] && Reaches(Forwarded(r, node), r.remaining[0], master))
  }

  /**
   An accepted explicit request gets through exactly when its whole path fits
   the hop limit; a route that happens to be named like the resolution
   request never does.
   */
  lemma {:induction false} ReachesIffShort(r: Request, node: string, master: string)
    requires Accepted(r, node) && r.visited != []
    ensures Reaches(r, node, master) <==> r.routeId != RESOLVE && |r.visited| + |r.remaining| <= MAX_ROUTE_HOPS
    decreases |r.remaining|
  {
    if r.remaining != [] && r.routeId != RESOLVE {
      var f := Forwarded(r, node);
      if |r.visited| + |r.remaining| <= MAX_ROUTE_HOPS {
        ForwardedIsAccepted(r, node);
        ReachesIffShort(f, r.remaining[0], master);
      } else if Accepted(f, r.remaining[0]) {
        ReachesIffShort(f, r.remaining[0], master);
      }
    }
  }

  /** A node that resolves for itself never sends a request too long to arrive. */
  lemma OriginReaches(node: string, master: string, action: Action, header: Request)
    requires header.routeId != RESOLVE
    requires var o := Apply(node, master, action, header, []); o.Some? && o.value.Open?
    ensures var o := Apply(node, master, action, header, []).value;
            Reaches(o.request, o.next, master) <==> HeaderOk(o.request, o.next) && PathOk(o.request, o.next)
  {
    var o := Apply(node, master, action, header, []).value;
    assert |o.request.visited| + |o.request.remaining| == o.request.remainingHops;
    if Accepted(o.request, o.next) {
      ReachesIffShort(o.request, o.next, master);
    }
  }

  /** The request a node without state sends to the master. */
  function ToResolve(edge: string, header: Request): (r: Request) {
    header.(routeId := RESOLVE, visited := [edge], remaining := [], remainingHops := 1)
  }

  /** What the master opens for a path it resolved on behalf of an edge node. */
  function ResolvedRequest(edge: string, master: string, path: seq<string>, routeId: string, header: Request)
    : (r: Request)
    requires path != []
  {
    header.(routeId := routeId, clientRoute := None,
            visited := [edge, master], remaining := path[1..], remainingHops := |path|)
  }

  lemma MasterOpens(edge: string, master: string, action: Action, routeId: string, header: Request)
    requires action.kind.ToNode? || action.kind.Chain?
    requires var path := Stripped(action.nodes, master); path != [] && |path| <= MAX_ROUTE_HOPS
    requires Accepted(ToResolve(edge, header), master)
    ensures var path := Stripped(action.nodes, master);
            Handle(ToResolve(edge, header), master, master, edge, Some((action, routeId)))
            == Open(path[0], ResolvedRequest(edge, master, path, routeId, header))
  {
    assert [edge] + [master] == [edge, master];
  }

  /** The request repeats no node exactly when edge, master and path do not. */
  lemma ResolvedPathOk(edge: string, master: string, path: seq<string>, routeId: string, header: Request)
    requires path != [] && ValidIdentifier(edge, 64) && ValidIdentifier(master, 64)
    requires forall i :: 0 <= i < |path| ==> ValidIdentifier(path[i], 64)
    ensures PathOk(ResolvedRequest(edge, master, path, routeId, header), path[0]) <==> Distinct([edge, master] + path)
  {
    var r := ResolvedRequest(edge, master, path, routeId, header);
    var all, rest := [edge, master] + path, r.visited + r.remaining;
    assert forall i :: 0 <= i < |rest| ==> rest[i] == all[if i < 2 then i else i + 1];
    assert forall i :: 0 <= i < |all| && i != 2 ==> all[i] == rest[if i < 2 then i else i - 1];
    assert all[2] == path[0];
    if Distinct(all) {
      forall i | 0 <= i < |rest|
        ensures rest[i] != path[0] && ValidIdentifier(rest[i], 64)
      {
        assert rest[i] == all[if i < 2 then i else i + 1];
      }
      WholePathOk(r, path[0]);
    } else if PathOk(r, path[0]) {
      RestIsDistinct(all, rest, path[0]);
    }
  }

  lemma RestIsDistinct(all: seq<string>, rest: seq<string>, node: string)
    requires |all| == |rest| + 1 >= 3 && all[2] == node && Distinct(rest) && node !in rest
    requires forall i :: 0 <= i < |all| && i != 2 ==> all[i] == rest[if i < 2 then i else i - 1]
    ensures Distinct(all)
  {
    forall i, j | 0 <= i < j < |all|
      ensures all[i] != all[j]
    {
      if i != 2 {
        assert all[i] == rest[if i < 2 then i else i - 1];
      }
      if j != 2 {
        assert all[j] == rest[if j < 2 then j else j - 1];
      }
    }
  }

  /**
   What the master resolves for an edge node gets through exactly when it
   names at most two nodes, all different and neither the edge nor the master:
   a valid chain of three is refused on the way, and so is a valid route that
   leads back to the edge or through the master again.
   */
  lemma ResolvedChainReaches(edge: string, master: string, path: seq<string>, routeId: string, header: Request)
    requires 1 <= |path| <= MAX_ROUTE_HOPS && path[0] != master
    requires Accepted(ToResolve(edge, header), master) && ValidIdentifier(routeId, 64) && routeId != RESOLVE
    requires forall i :: 0 <= i < |path| ==> ValidIdentifier(path[i], 64)
    ensures var r := ResolvedRequest(edge, master, path, routeId, header);
            && (Accepted(r, path[0]) <==> Distinct([edge, master] + path))
            && (Reaches(r, path[0], master) <==> |path| <= 2 && Distinct([edge, master] + path))
  {
    var r := ResolvedRequest(edge, master, path, routeId, header);
    assert ToResolve(edge, header).visited[0] == edge;
    ResolvedPathOk(edge, master, path, routeId, header);
    if Accepted(r, path[0]) {
      ReachesIffShort(r, path[0], master);
    }
  }
}
