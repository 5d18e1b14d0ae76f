/**
 The administrator's changes to the cluster state: a change is made on a copy
 of the stored state, its revision is advanced, and it is saved only if it is
 still valid.
 */
module ClusterAdmin {
  import opened Common
  import opened ClusterModel

  datatype AdminError = InvalidState | NodeNotFound | NodeInUse | RouteNotFound | UserNotFound

  // ---------------------------------------------------------------------
  // Removing an identifier from a list
  // ---------------------------------------------------------------------

  function Without(values: seq<string>, removed: string): (r: seq<string>) {
    if values == [] then []
    else
      var last := values[|values| - 1];
      Without(values[..|values| - 1], removed) + if last == removed then [] else [last]
  }

  /** Exactly the removed identifier goes, and the list stays free of duplicates. */
  lemma {:induction false} WithoutKeepsClean(values: seq<string>, removed: string)
    requires CleanReferences(values)
    ensures CleanReferences(Without(values, removed))
    ensures forall x :: x in Without(values, removed) <==> x in values && x != removed
  {
    if values != [] {
      var front, last := values[..|values| - 1], values[|values| - 1];
      assert values == front + [last];
      WithoutKeepsClean(front, removed);
      assert last !in front;
      assert Without(values, removed) == Without(front, removed) + if last == removed then [] else [last];
    }
  }

  /** `removeClusterID`: filters the list inside its own array and returns how much of it is left. */
  method RemoveInPlace(values: array<string>, removed: string) returns (n: nat)
    modifies values
    ensures n <= values.Length
    ensures values[..n] == Without(old(values[..]), removed)
  {
    n := 0;
    for i := 0 to values.Length
      invariant n <= i
      invariant values[..n] == Without(old(values[..i]), removed)
      invariant forall k :: i <= k < values.Length ==> values[k] == old(values[k])
    {
      assert old(values[..i + 1])[..i] == old(values[..i]);
      if values[i] != removed {
        values[n] := values[i];
        n := n + 1;
      }
    }
    assert old(values[..values.Length]) == old(values[..]);
  }

  /** The same on a list that is held by value. */
  method RemoveId(values: seq<string>, removed: string) returns (r: seq<string>)
    ensures r == Without(values, removed)
  {
    var buffer := new string[|values|](i requires 0 <= i < |values| => values[i]);
    assert buffer[..] == values;
    var n := RemoveInPlace(buffer, removed);
    r := buffer[..n];
  }

  // ---------------------------------------------------------------------
  // What a removal leaves
  // ---------------------------------------------------------------------

  /** Advancing a revision wraps around after the largest one. */
  function Bump(r: Revision): (next: Revision) {
    if r == MAX_UINT64 then 0 else r + 1
  }

  function DropNode(a: Access, id: string): (r: Access) {
    a.(nodes := Without(a.nodes, id), revision := Bump(a.revision))
  }

  function DropRoute(a: Access, id: string): (r: Access) {
    a.(routes := Without(a.routes, id), revision := Bump(a.revision))
  }

  /** `z` is `s` without node `i`, with every access entry updated, at the next revision. */
  ghost predicate NodeRemoved(s: State, z: State, i: nat)
    requires i < |s.nodes|
  {
    && z == s.(nodes := s.nodes[..i] + s.nodes[i + 1..], access := z.access,
               revision := Bump(s.revision), stamped := true)
    && |z.access| == |s.access|
    && forall k :: 0 <= k < |s.access| ==> z.access[k] == DropNode(s.access[k], s.nodes[i].id)
  }

  ghost predicate RouteRemoved(s: State, z: State, i: nat)
    requires i < |s.routes|
  {
    && z == s.(routes := s.routes[..i] + s.routes[i + 1..], access := z.access,
               revision := Bump(s.revision), stamped := true)
    && |z.access| == |s.access|
    && forall k :: 0 <= k < |s.access| ==> z.access[k] == DropRoute(s.access[k], s.routes[i].id)
  }

  /** No revision is at its largest value. */
  ghost predicate RevisionsFit(s: State) {
    s.revision != MAX_UINT64 && forall k :: 0 <= k < |s.access| ==> s.access[k].revision != MAX_UINT64
  }

  /** Some route leads through the node. */
  ghost predicate Referenced(s: State, id: string) {
    exists k :: 0 <= k < |s.routes| && id in s.routes[k].action.nodes
  }

  lemma {:induction false} MasterCountSplits(a: seq<Node>, b: seq<Node>)
    ensures MasterCount(a + b) == MasterCount(a) + MasterCount(b)
    decreases |b|
  {
    if b == [] {
      assert a + b == a;
    } else {
      assert (a + b)[..|a + b| - 1] == a + b[..|b| - 1];
      MasterCountSplits(a, b[..|b| - 1]);
    }
  }

  lemma NotAMaster(node: Node)
    requires Master !in node.roles
    ensures MasterCount([node]) == 0
  {
    assert [node][..0] == [];
  }

  lemma MastersAfterRemoval(nodes: seq<Node>, i: nat)
    requires i < |nodes| && Master !in nodes[i].roles
    ensures MasterCount(nodes[..i] + nodes[i + 1..]) == MasterCount(nodes)
  {
    NotAMaster(nodes[i]);
    MasterCountSplits(nodes[..i], nodes[i + 1..]);
    MasterCountSplits(nodes[..i], [nodes[i]]);
    MasterCountSplits(nodes[..i] + [nodes[i]], nodes[i + 1..]);
    assert nodes[..i] + [nodes[i]] + nodes[i + 1..] == nodes;
  }

  lemma NodesAfterRemoval(nodes: seq<Node>, i: nat)
    requires NodesOk(nodes) && i < |nodes|
    ensures var left := nodes[..i] + nodes[i + 1..];
            NodesOk(left) && NodeIds(left) == NodeIds(nodes) - {nodes[i].id}
  {
    var left := nodes[..i] + nodes[i + 1..];
    forall k | 0 <= k < |nodes| && nodes[k].id != nodes[i].id
      ensures nodes[k].id in NodeIds(left)
    {
      assert left[if k < i then k else k - 1] == nodes[k];
    }
  }

  lemma RoutesAfterRemoval(routes: seq<Route>, i: nat, nodeIds: set<string>)
    requires RoutesOk(routes, nodeIds) && i < |routes|
    ensures var left := routes[..i] + routes[i + 1..];
            RoutesOk(left, nodeIds) && RouteIds(left) == RouteIds(routes) - {routes[i].id}
  {
    var left := routes[..i] + routes[i + 1..];
    forall k | 0 <= k < |routes| && routes[k].id != routes[i].id
      ensures routes[k].id in RouteIds(left)
    {
      assert left[if k < i then k else k - 1] == routes[k];
    }
  }

  /** An access entry survives the removal of a node exactly when its revision can advance. */
  lemma EntryWithoutNode(a: Access, id: string, nodeIds: set<string>, routeIds: set<string>)
    requires AccessOk(a, nodeIds, routeIds)
    ensures AccessOk(DropNode(a, id), nodeIds - {id}, routeIds) <==> a.revision != MAX_UINT64
  {
    WithoutKeepsClean(a.nodes, id);
    var left := Without(a.nodes, id);
    assert forall k :: 0 <= k < |left| ==> left[k] in left;
  }

  lemma EntryWithoutRoute(a: Access, id: string, nodeIds: set<string>, routeIds: set<string>)
    requires AccessOk(a, nodeIds, routeIds)
    ensures AccessOk(DropRoute(a, id), nodeIds, routeIds - {id}) <==> a.revision != MAX_UINT64
  {
    WithoutKeepsClean(a.routes, id);
    var left := Without(a.routes, id);
    assert forall k :: 0 <= k < |left| ==> left[k] in left;
  }

  /**
   Removing a node that is no master and on no route leaves a valid state,
   whatever the numbers of users and routes, exactly when no revision is about
   to wrap around.
   */
  lemma NodeRemovalIsValid(s: State, z: State, i: nat)
    requires ValidState(s) && i < |s.nodes| && Master !in s.nodes[i].roles && !Referenced(s, s.nodes[i].id)
    requires NodeRemoved(s, z, i)
    ensures ValidState(z) <==> RevisionsFit(s)
  {
    var id := s.nodes[i].id;
    NodesAfterRemoval(s.nodes, i);
    MastersAfterRemoval(s.nodes, i);
    forall k | 0 <= k < |s.routes|
      ensures RouteOk(s.routes[k], NodeIds(z.nodes))
    {
      assert RouteOk(s.routes[k], NodeIds(s.nodes));
    }
    forall k | 0 <= k < |s.access|
      ensures AccessOk(z.access[k], NodeIds(z.nodes), RouteIds(z.routes)) <==> s.access[k].revision != MAX_UINT64
    {
      EntryWithoutNode(s.access[k], id, NodeIds(s.nodes), RouteIds(s.routes));
    }
    assert MasterCount(z.nodes) == 1 ==> z.nodes != [];
  }

  /** Any route may go, on the same condition. */
  lemma RouteRemovalIsValid(s: State, z: State, i: nat)
    requires ValidState(s) && i < |s.routes| && RouteRemoved(s, z, i)
    ensures ValidState(z) <==> RevisionsFit(s)
  {
    RoutesAfterRemoval(s.routes, i, NodeIds(s.nodes));
    forall k | 0 <= k < |s.access|
      ensures AccessOk(z.access[k], NodeIds(z.nodes), RouteIds(z.routes)) <==> s.access[k].revision != MAX_UINT64
    {
      EntryWithoutRoute(s.access[k], s.routes[i].id, NodeIds(s.nodes), RouteIds(s.routes));
    }
  }

  /** The revision an entry is stored with: above the one it replaces, and never zero when new. */
  function Advanced(s: State, i: nat, a: Access): (r: Access)
    requires i <= |s.access|
  {
    if i < |s.access| then
      if a.revision <= s.access[i].revision then a.(revision := Bump(s.access[i].revision)) else a
    else if a.revision == 0 then a.(revision := 1) else a
  }

  /** The state with entry `i` replaced, or a new entry at the end. */
  function Placed(s: State, i: nat, a: Access): (z: State)
    requires i <= |s.access|
  {
    s.(access := if i < |s.access| then s.access[i := a] else s.access + [a],
       revision := Bump(s.revision), stamped := true)
  }

  /** `i` is the user's entry, or past the end when there is none. */
  ghost predicate EntryOf(s: State, user: string, i: nat) {
    && i <= |s.access| && (i < |s.access| ==> s.access[i].userId == user)
    && forall k :: 0 <= k < i ==> s.access[k].userId != user
  }

  /** Setting an entry is valid exactly when the entry itself is and there is room for it. */
  lemma AccessSetIsValid(s: State, i: nat, a: Access)
    requires ValidState(s) && EntryOf(s, a.userId, i)
    ensures ValidState(Placed(s, i, a)) <==>
              && AccessOk(a, NodeIds(s.nodes), RouteIds(s.routes)) && s.revision != MAX_UINT64
              && (i == |s.access| ==> |s.access| < MAX_USERS)
  {
    var z := Placed(s, i, a);
    assert z.access[i] == a;
    assert forall k :: 0 <= k < |s.access| && k != i ==> z.access[k] == s.access[k];
  }

  /** The entry will be valid, the state's revision can advance, and there is room. */
  ghost predicate CanSet(s: State, a: Access) {
    exists i: nat ::
      && EntryOf(s, a.userId, i) && AccessOk(Advanced(s, i, a), NodeIds(s.nodes), RouteIds(s.routes))
      && s.revision != MAX_UINT64 && (i == |s.access| ==> |s.access| < MAX_USERS)
  }

  ghost predicate HasEntry(s: State, user: string) {
    exists k :: 0 <= k < |s.access| && s.access[k].userId == user
  }

  /**
   What setting a user's access to `a` leaves: one entry of the user that is
   `a` in everything but the revision, which is `a`'s own if that is higher
   than the old one and the next one otherwise; everyone else's entry stays.
   */
  ghost predicate AccessSet(s: State, z: State, a: Access) {
    && z == s.(access := z.access, revision := z.revision, stamped := true) && z.revision == s.revision + 1
    && |z.access| == |s.access| + (if HasEntry(s, a.userId) then 0 else 1)
    && (forall k :: 0 <= k < |s.access| ==>
          if s.access[k].userId != a.userId then z.access[k] == s.access[k]
          else
            && z.access[k] == a.(revision := z.access[k].revision)
            && z.access[k].revision
               == (if a.revision > s.access[k].revision then a.revision else s.access[k].revision + 1))
    && (!HasEntry(s, a.userId) ==>
          z.access[|s.access|] == a.(revision := if a.revision == 0 then 1 else a.revision))
  }

  /**
   The access may be set: its references are clean and resolve, the state's
   revision and the entry's can advance, and a new entry has room.
   */
  ghost predicate Settable(s: State, a: Access) {
    && ValidOpaqueId(a.userId, 128) && CleanReferences(a.nodes) && CleanReferences(a.routes)
    && (forall i :: 0 <= i < |a.nodes| ==> a.nodes[i] in NodeIds(s.nodes))
    && (forall i :: 0 <= i < |a.routes| ==> a.routes[i] in RouteIds(s.routes))
    && s.revision < MAX_UINT64
    && (forall k :: 0 <= k < |s.access| && s.access[k].userId == a.userId ==> s.access[k].revision < MAX_UINT64)
    && (!HasEntry(s, a.userId) ==> |s.access| < MAX_USERS)
  }

  lemma EntryIsUnique(s: State, user: string, i: nat)
    requires ValidState(s) && EntryOf(s, user, i)
    ensures forall k :: 0 <= k < |s.access| && s.access[k].userId == user ==> k == i
    ensures i < |s.access| <==> HasEntry(s, user)
  {
  }

  /** Whether the access can be set is decided by the request and the state it refers to. */
  lemma CanSetIs(s: State, a: Access, i: nat)
    requires ValidState(s) && EntryOf(s, a.userId, i)
    ensures CanSet(s, a) <==> Settable(s, a)
  {
    EntryIsUnique(s, a.userId, i);
    forall j: nat | EntryOf(s, a.userId, j)
      ensures j == i
    {
      EntryIsUnique(s, a.userId, j);
    }
  }

  /** And what is stored is what was asked for. */
  lemma PlacedIsSet(s: State, a: Access, i: nat)
    requires ValidState(s) && EntryOf(s, a.userId, i) && Settable(s, a)
    ensures AccessSet(s, Placed(s, i, Advanced(s, i, a)), a)
  {
    EntryIsUnique(s, a.userId, i);
  }

  // ---------------------------------------------------------------------
  // The manager
  // ---------------------------------------------------------------------

  /** The manager of the stored state; changes made by other processes meanwhile are not modelled. */
  class Manager {
    var stored: State

    ghost predicate Valid()
      reads this
    {
      ValidState(stored)
    }

    constructor (initial: State)
      requires ValidState(initial)
      ensures Valid() && stored == initial
    {
      stored := initial;
    }

    /** The check of `Save`: the revision advances, the cluster stays the same, the state is valid. */
    method Save(expected: Revision, next: State) returns (ok: bool)
      modifies this
      ensures ok <==> old(stored).revision == expected && next.revision == Bump(expected)
                      && next.clusterId == old(stored).clusterId && ValidState(next)
      ensures stored == if ok then next else old(stored)
    {
      if stored.revision != expected || next.revision != Bump(expected) || next.clusterId != stored.clusterId {
        return false;
      }
      ok := ValidateState(next);
      if ok {
        stored := next;
      }
    }

    /** `RemoveClusterNode`. */
    method RemoveNode(id: string) returns (error: Option<AdminError>)
      requires Valid()
      modifies this
      ensures Valid()
      ensures error.Some? ==> stored == old(stored)
      ensures error.None? ==> exists i :: 0 <= i < |old(stored).nodes| && old(stored).nodes[i].id == id
                                && NodeRemoved(old(stored), stored, i)
      ensures error.None? ==> id !in NodeIds(stored.nodes)
      ensures error.None? <==> && (exists i :: 0 <= i < |old(stored).nodes| && old(stored).nodes[i].id == id
                                     && Master !in old(stored).nodes[i].roles)
                               && !Referenced(old(stored), id) && RevisionsFit(old(stored))
    {
      var i := FindNode(id);
      if i < |stored.nodes| && Master in stored.nodes[i].roles {
        return Some(InvalidState);
      }
      if i == |stored.nodes| {
        return Some(NodeNotFound);
      }
      var used := InUse(id);
      if used {
        return Some(NodeInUse);
      }
      var access := DropNodeEverywhere(id);
      var next := stored.(nodes := stored.nodes[..i] + stored.nodes[i + 1..], access := access,
                          revision := Bump(stored.revision), stamped := true);
      NodeRemovalIsValid(stored, next, i);
      NodesAfterRemoval(stored.nodes, i);
      var ok := Save(stored.revision, next);
      error := if ok then None else Some(InvalidState);
    }

    method FindNode(id: string) returns (i: nat)
      ensures i <= |stored.nodes|
      ensures i < |stored.nodes| ==> stored.nodes[i].id == id
      ensures forall k :: 0 <= k < i ==> stored.nodes[k].id != id
    {
      i := 0;
      while i < |stored.nodes| && stored.nodes[i].id != id
        invariant i <= |stored.nodes|
        invariant forall k :: 0 <= k < i ==> stored.nodes[k].id != id
      {
        i := i + 1;
      }
    }

    method InUse(id: string) returns (used: bool)
      ensures used <==> Referenced(stored, id)
    {
      for k := 0 to |stored.routes|
        invariant forall j :: 0 <= j < k ==> id !in stored.routes[j].action.nodes
      {
        var nodes := stored.routes[k].action.nodes;
        for m := 0 to |nodes|
          invariant forall j :: 0 <= j < m ==> nodes[j] != id
        {
          if nodes[m] == id {
            assert id in stored.routes[k].action.nodes;
            return true;
          }
        }
      }
      used := false;
    }

    method DropNodeEverywhere(id: string) returns (access: seq<Access>)
      ensures |access| == |stored.access|
      ensures forall k :: 0 <= k < |access| ==> access[k] == DropNode(stored.access[k], id)
    {
      access := [];
      for i := 0 to |stored.access|
        invariant |access| == i
        invariant forall k :: 0 <= k < i ==> access[k] == DropNode(stored.access[k], id)
      {
        var a := stored.access[i];
        var nodes := RemoveId(a.nodes, id);
        access := access + [a.(nodes := nodes, revision := Bump(a.revision))];
      }
    }

    /** `RemoveClusterRoute`. */
    method RemoveRoute(id: string) returns (error: Option<AdminError>)
      requires Valid()
      modifies this
      ensures Valid()
      ensures error.Some? ==> stored == old(stored)
      ensures error.None? ==> exists i :: 0 <= i < |old(stored).routes| && old(stored).routes[i].id == id
                                && RouteRemoved(old(stored), stored, i)
      ensures error.None? ==> id !in RouteIds(stored.routes)
      ensures error.None? <==> id in RouteIds(old(stored).routes) && RevisionsFit(old(stored))
    {
      var i := FindRoute(id);
      if i == |stored.routes| {
        return Some(RouteNotFound);
      }
      var access := DropRouteEverywhere(id);
      var next := stored.(routes := stored.routes[..i] + stored.routes[i + 1..], access := access,
                          revision := Bump(stored.revision), stamped := true);
      RouteRemovalIsValid(stored, next, i);
      RoutesAfterRemoval(stored.routes, i, NodeIds(stored.nodes));
      var ok := Save(stored.revision, next);
      error := if ok then None else Some(InvalidState);
    }

    method FindRoute(id: string) returns (i: nat)
      ensures i <= |stored.routes|
      ensures i < |stored.routes| ==> stored.routes[i].id == id
      ensures forall k :: 0 <= k < i ==> stored.routes[k].id != id
    {
      i := 0;
      while i < |stored.routes| && stored.routes[i].id != id
        invariant i <= |stored.routes|
        invariant forall k :: 0 <= k < i ==> stored.routes[k].id != id
      {
        i := i + 1;
      }
    }

    method DropRouteEverywhere(id: string) returns (access: seq<Access>)
      ensures |access| == |stored.access|
      ensures forall k :: 0 <= k < |access| ==> access[k] == DropRoute(stored.access[k], id)
    {
      access := [];
      for i := 0 to |stored.access|
        invariant |access| == i
        invariant forall k :: 0 <= k < i ==> access[k] == DropRoute(stored.access[k], id)
      {
        var a := stored.access[i];
        var routes := RemoveId(a.routes, id);
        access := access + [a.(routes := routes, revision := Bump(a.revision))];
      }
    }

    /** `SetClusterUserAccess`, for a user the caller found active or not; the stored revision only grows. */
    method SetAccess(active: bool, a: Access) returns (error: Option<AdminError>)
      requires Valid()
      modifies this
      ensures Valid()
      ensures error.Some? ==> stored == old(stored)
      ensures error.None? ==>
                exists i: nat ::
                  && EntryOf(old(stored), a.userId, i)
                  && stored == Placed(old(stored), i, Advanced(old(stored), i, a))
                  && (i < |old(stored).access| ==> old(stored).access[i].revision < stored.access[i].revision)
      ensures error.None? <==> active && CanSet(old(stored), a)
      ensures error.None? <==> active && Settable(old(stored), a)
      ensures error.None? ==> AccessSet(old(stored), stored, a)
    {
      if !active {
        return Some(UserNotFound);
      }
      var i := FindEntry(a.userId);
      var entry := a;
      if i < |stored.access| {
        if a.revision <= stored.access[i].revision {
          entry := a.(revision := Bump(stored.access[i].revision));
        }
      } else if a.revision == 0 {
        entry := a.(revision := 1);
      }
      var next := stored.(access := if i < |stored.access| then stored.access[i := entry] else stored.access + [entry],
                          revision := Bump(stored.revision), stamped := true);
      AccessSetIsValid(stored, i, entry);
      CanSetIs(stored, a, i);
      if Settable(stored, a) {
        PlacedIsSet(stored, a, i);
      }
      var ok := Save(stored.revision, next);
      error := if ok then None else Some(InvalidState);
    }

    method FindEntry(user: string) returns (i: nat)
      ensures EntryOf(stored, user, i)
    {
      i := 0;
      while i < |stored.access| && stored.access[i].userId != user
        invariant i <= |stored.access|
        invariant forall k :: 0 <= k < i ==> stored.access[k].userId != user
      {
        i := i + 1;
      }
    }
  }
}
