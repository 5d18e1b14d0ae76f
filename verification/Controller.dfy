/**
 The lease controller of one constellation: a bounded set of authenticated
 carrier leases, one of them primary, each owning a resource that must be
 closed exactly once.

 `Ctl` is the value of the controller's fields and carries the specification
 of every operation; `Controller` is the object.
 */
module LeaseController {
  import opened Common

  /** Identifiers, keys and principals are opaque; zero is the absent one. */
  type Id = nat
  type Resource = nat

  datatype Carrier = HTTPS | HTTP3 | WebRTC | UnknownCarrier

  datatype LeaseState = Active | Draining

  datatype ControllerError =
    | ControllerConfig | ControllerClosed | LeaseBinding | LeaseDuplicate
    | LeaseCapacity | LeaseNotFound | LeaseStateError | NoActiveLease

  datatype Candidate = Candidate(key: Id, principal: Id, constellation: Id, carrier: Carrier, resource: Resource)

  datatype Lease = Lease(key: Id, carrier: Carrier, resource: Resource, state: LeaseState, load: nat)

  type Leases = map<Id, Lease>

  /** The leases in a given state. */
  function InState(leases: Leases, state: LeaseState): (ids: set<Id>) {
    set id | id in leases && leases[id].state == state
  }

  function Count(leases: Leases, state: LeaseState): (n: nat) {
    |InState(leases, state)|
  }

  /** The first active lease in admission order, zero when there is none. */
  function FirstActive(leases: Leases, order: seq<Id>): (id: Id) {
    if order == [] then 0
    else if order[0] in leases && leases[order[0]].state.Active? then order[0]
    else FirstActive(leases, order[1..])
  }

  /** The order with the first occurrence of `id` removed. */
  function Without(order: seq<Id>, id: Id): (r: seq<Id>) {
    if order == [] then []
    else if order[0] == id then order[1..]
    else [order[0]] + Without(order[1..], id)
  }

  predicate KeyTaken(leases: Leases, key: Id) {
    exists id :: id in leases && leases[id].key == key
  }

  datatype Ctl = Ctl(
    principal: Id,
    constellation: Id,
    maxActive: nat,
    maxDraining: nat,
    nextId: nat,
    primary: Id,
    leases: Leases,
    order: seq<Id>,
    closed: bool)
  {
    /** The identifier the next lease gets: the counter wraps and skips zero. */
    function Slot(): (id: Id) {
      if nextId == 0 then 1 else nextId
    }

    function CandidateError(c: Candidate): (e: Option<ControllerError>) {
      if c.key == 0 || c.resource == 0 || c.carrier.UnknownCarrier?
         || c.principal != principal || c.constellation != constellation
      then Some(LeaseBinding) else None
    }

    function AddError(c: Candidate): (e: Option<ControllerError>) {
      if CandidateError(c).Some? then CandidateError(c)
      else if closed then Some(ControllerClosed)
      else if KeyTaken(leases, c.key) then Some(LeaseDuplicate)
      else if Count(leases, Active) >= maxActive then Some(LeaseCapacity)
      else None
    }

    /** `addLocked`: the lease is listed last and active. */
    function Admitted(c: Candidate): (r: Ctl) {
      this.(nextId := if Slot() >= MAX_UINT64 then 0 else Slot() + 1,
            leases := leases[Slot() := Lease(c.key, c.carrier, c.resource, Active, 0)],
            order := order + [Slot()])
    }

    function Add(c: Candidate): (r: Ctl) {
      if AddError(c).Some? then this
      else Admitted(c).(primary := if primary == 0 then Slot() else primary)
    }

    function PromoteError(id: Id): (e: Option<ControllerError>) {
      if closed then Some(ControllerClosed)
      else if id !in leases then Some(LeaseNotFound)
      else if leases[id].state != Active then Some(LeaseStateError)
      else if primary != id && primary in leases && leases[primary].state.Active?
              && Count(leases, Draining) >= maxDraining then Some(LeaseCapacity)
      else None
    }

    function Promote(id: Id): (r: Ctl) {
      if PromoteError(id).Some? || primary == id then this
      else if primary in leases && leases[primary].state.Active? then
        this.(leases := leases[primary := leases[primary].(state := Draining)], primary := id)
      else this.(primary := id)
    }

    function BeginDrainError(id: Id): (e: Option<ControllerError>) {
      if closed then Some(ControllerClosed)
      else if id !in leases then Some(LeaseNotFound)
      else if leases[id].state != Active then Some(LeaseStateError)
      else if Count(leases, Draining) >= maxDraining then Some(LeaseCapacity)
      else if id == primary && Count(leases, Active) <= 1 then Some(NoActiveLease)
      else None
    }

    function BeginDrain(id: Id): (r: Ctl) {
      if BeginDrainError(id).Some? then this
      else
        var drained := leases[id := leases[id].(state := Draining)];
        this.(leases := drained, primary := if id == primary then FirstActive(drained, order) else primary)
    }

    function RemoveError(id: Id, requireDraining: bool): (e: Option<ControllerError>) {
      if closed then Some(ControllerClosed)
      else if id !in leases then Some(LeaseNotFound)
      else if requireDraining && leases[id].state != Draining then Some(LeaseStateError)
      else None
    }

    function Remove(id: Id, requireDraining: bool): (r: Ctl) {
      if RemoveError(id, requireDraining).Some? then this
      else
        var left := leases - {id};
        var listed := Without(order, id);
        this.(leases := left, order := listed,
              primary := if primary == id then FirstActive(left, listed) else primary)
    }

    function Stop(): (r: Ctl) {
      if closed then this else this.(closed := true, leases := map[], order := [], primary := 0)
    }

    function SetLoad(id: Id, load: nat): (r: Ctl) {
      if closed || id !in leases then this else this.(leases := leases[id := leases[id].(load := load)])
    }
  }

  function ConfigError(principal: Id, constellation: Id, maxActive: int, maxDraining: int)
    : (e: Option<ControllerError>)
  {
    if principal == 0 || constellation == 0 || maxActive <= 0 || maxActive > 8 || maxDraining <= 0 || maxDraining > 8
    then Some(ControllerConfig) else None
  }

  /** A controller before its primary lease is admitted. */
  function Unstarted(principal: Id, constellation: Id, maxActive: nat, maxDraining: nat): (c: Ctl) {
    Ctl(principal, constellation, maxActive, maxDraining, 1, 0, map[], [], false)
  }

  // ---------------------------------------------------------------------
  // The invariant
  // ---------------------------------------------------------------------

  ghost predicate Distinct(order: seq<Id>) {
    forall i, j :: 0 <= i < j < |order| ==> order[i] != order[j]
  }

  /** The order is a duplicate-free listing of the lease map. */
  ghost predicate Listed(leases: Leases, order: seq<Id>) {
    && Distinct(order)
    && forall id :: id in leases <==> id in order
  }

  ghost predicate DistinctKeys(leases: Leases) {
    forall a, b :: a in leases && b in leases && leases[a].key == leases[b].key ==> a == b
  }

  /** The primary is zero exactly when no lease is active, and otherwise names an active lease. */
  ghost predicate PrimaryOk(leases: Leases, primary: Id) {
    && (primary == 0 <==> InState(leases, Active) == {})
    && (primary != 0 ==> primary in leases && leases[primary].state.Active?)
  }

  ghost predicate Inv(c: Ctl) {
    && Listed(c.leases, c.order)
    && DistinctKeys(c.leases)
    && 0 !in c.leases
    && PrimaryOk(c.leases, c.primary)
    && Count(c.leases, Active) <= c.maxActive && Count(c.leases, Draining) <= c.maxDraining
    && (c.closed ==> c.leases == map[])
    && 0 < c.maxActive && 0 < c.maxDraining
  }

  /** A controller with its first lease, which is the primary one. */
  function Started(empty: Ctl, first: Candidate): (c: Ctl) {
    var leases := map[1 := Lease(first.key, first.carrier, first.resource, Active, 0)];
    empty.(nextId := 2, primary := 1, leases := leases, order := [1])
  }

  lemma StartedIsOk(principal: Id, constellation: Id, maxActive: nat, maxDraining: nat, first: Candidate)
    requires ConfigError(principal, constellation, maxActive, maxDraining).None?
    requires Unstarted(principal, constellation, maxActive, maxDraining).CandidateError(first).None?
    ensures var empty := Unstarted(principal, constellation, maxActive, maxDraining);
            && empty.Add(first) == Started(empty, first)
            && Inv(Started(empty, first)) && Unwrapped(Started(empty, first))
  {
    var empty := Unstarted(principal, constellation, maxActive, maxDraining);
    assert InState(empty.leases, Active) == {} && InState(empty.leases, Draining) == {};
    assert [] + [1] == [1];
    AddKeepsInv(empty, first);
  }

  lemma {:induction false} FirstActiveFinds(leases: Leases, order: seq<Id>)
    requires 0 !in leases
    requires forall id :: id in leases && leases[id].state.Active? ==> id in order
    ensures PrimaryOk(leases, FirstActive(leases, order))
    decreases |order|
  {
    if order == [] {
      assert InState(leases, Active) == {};
    } else if order[0] in leases && leases[order[0]].state.Active? {
      assert order[0] in InState(leases, Active);
    } else {
      assert forall id :: id in leases && leases[id].state.Active? ==> id in order[1..];
      FirstActiveFinds(leases, order[1..]);
    }
  }

  lemma {:induction false} WithoutElements(order: seq<Id>, id: Id)
    requires Distinct(order)
    ensures forall x :: x in Without(order, id) <==> x in order && x != id
    ensures Distinct(Without(order, id))
    decreases |order|
  {
    if order != [] {
      var tail := order[1..];
      assert forall x :: x in order <==> x == order[0] || x in tail;
      assert order[0] !in tail;
      if order[0] != id {
        WithoutElements(tail, id);
        DistinctCons(order[0], Without(tail, id));
      }
    }
  }

  lemma DistinctCons(first: Id, rest: seq<Id>)
    requires Distinct(rest) && first !in rest
    ensures Distinct([first] + rest)
    ensures forall x :: x in [first] + rest <==> x == first || x in rest
  {
    var r := [first] + rest;
    forall i, j | 0 <= i < j < |r|
      ensures r[i] != r[j]
    {
      assert r[j] == rest[j - 1];
      assert i > 0 ==> r[i] == rest[i - 1];
    }
  }

  lemma ListedAdd(leases: Leases, order: seq<Id>, id: Id, lease: Lease)
    requires Listed(leases, order)
    ensures Listed(leases[id := lease], order + [id]) <==> id !in leases
  {
    var longer := order + [id];
    assert longer[|order|] == id;
    assert forall x :: x in longer <==> x in order || x == id;
    if id in leases {
      var i :| 0 <= i < |order| && order[i] == id;
      assert longer[i] == longer[|order|];
    }
  }

  lemma InStateUpdated(leases: Leases, id: Id, lease: Lease, state: LeaseState)
    ensures InState(leases[id := lease], state)
         == if lease.state == state then InState(leases, state) + {id} else InState(leases, state) - {id}
  {
  }

  lemma AddCounts(leases: Leases, id: Id, lease: Lease)
    requires id !in leases && lease.state.Active?
    ensures InState(leases[id := lease], Active) == InState(leases, Active) + {id}
    ensures Count(leases[id := lease], Active) == Count(leases, Active) + 1
    ensures Count(leases[id := lease], Draining) == Count(leases, Draining)
  {
    assert InState(leases[id := lease], Active) == InState(leases, Active) + {id};
    assert InState(leases[id := lease], Draining) == InState(leases, Draining);
  }

  lemma RemoveCounts(leases: Leases, id: Id, state: LeaseState)
    ensures InState(leases - {id}, state) == InState(leases, state) - {id}
    ensures Count(leases - {id}, state) <= Count(leases, state)
  {
    assert InState(leases - {id}, state) == InState(leases, state) - {id};
    assert |InState(leases, state) - {id}| <= |InState(leases, state)|;
  }

  lemma SameStates(leases: Leases, id: Id, lease: Lease, state: LeaseState)
    requires id in leases && leases[id].state == lease.state
    ensures InState(leases[id := lease], state) == InState(leases, state)
  {
  }

  lemma KeysStayDistinct(leases: Leases, id: Id, lease: Lease)
    requires DistinctKeys(leases) && id !in leases && !KeyTaken(leases, lease.key)
    ensures DistinctKeys(leases[id := lease])
  {
  }

  lemma PrimaryAfterAdd(leases: Leases, id: Id, lease: Lease, primary: Id)
    requires PrimaryOk(leases, primary) && id !in leases && id != 0 && lease.state.Active?
    ensures PrimaryOk(leases[id := lease], if primary == 0 then id else primary)
  {
    assert id in InState(leases[id := lease], Active);
  }

  /** Admission keeps the invariant exactly when the identifier it takes is not still in use. */
  lemma AddKeepsInv(c: Ctl, candidate: Candidate)
    requires Inv(c) && c.AddError(candidate).None?
    ensures Inv(c.Add(candidate)) <==> c.Slot() !in c.leases
  {
    var id := c.Slot();
    var r := c.Add(candidate);
    var lease := Lease(candidate.key, candidate.carrier, candidate.resource, Active, 0);
    ListedAdd(c.leases, c.order, id, lease);
    if id !in c.leases {
      AddCounts(c.leases, id, lease);
      KeysStayDistinct(c.leases, id, lease);
      PrimaryAfterAdd(c.leases, id, lease, c.primary);
    }
  }

  lemma DrainingKeepsInv(c: Ctl, id: Id, primary: Id)
    requires Inv(c) && id in c.leases && c.leases[id].state.Active?
    requires Count(c.leases, Draining) < c.maxDraining
    requires PrimaryOk(c.leases[id := c.leases[id].(state := Draining)], primary)
    ensures Inv(c.(leases := c.leases[id := c.leases[id].(state := Draining)], primary := primary))
  {
    var drained := c.leases[id := c.leases[id].(state := Draining)];
    InStateUpdated(c.leases, id, drained[id], Active);
    InStateUpdated(c.leases, id, drained[id], Draining);
    assert |InState(c.leases, Active) - {id}| <= |InState(c.leases, Active)|;
  }

  lemma PromoteKeepsInv(c: Ctl, id: Id)
    requires Inv(c)
    ensures Inv(c.Promote(id))
  {
    if c.PromoteError(id).None? && c.primary != id {
      assert id in InState(c.leases, Active);
      var drained := c.leases[c.primary := c.leases[c.primary].(state := Draining)];
      assert id in InState(drained, Active);
      DrainingKeepsInv(c, c.primary, id);
    }
  }

  lemma BeginDrainKeepsInv(c: Ctl, id: Id)
    requires Inv(c)
    ensures Inv(c.BeginDrain(id))
  {
    if c.BeginDrainError(id).None? {
      var r := c.BeginDrain(id);
      if id == c.primary {
        FirstActiveFinds(r.leases, c.order);
      } else {
        assert c.primary in InState(c.leases, Active) by { assert id in InState(c.leases, Active); }
        assert c.primary in InState(r.leases, Active);
      }
      DrainingKeepsInv(c, id, r.primary);
    }
  }

  /** Only lease `id` changed, and only its state. */
  ghost predicate Drained(before: Ctl, after: Ctl, id: Id) {
    && id in before.leases && after.leases == before.leases[id := before.leases[id].(state := Draining)]
    && after.order == before.order
  }

  /** `id` is primary now, and the primary before it is draining; no other lease is touched. */
  ghost predicate HandedOver(before: Ctl, after: Ctl, id: Id) {
    && after.primary == id && id in before.leases && id in after.leases && after.leases[id] == before.leases[id]
    && if before.primary == id then after == before else Drained(before, after, before.primary)
  }

  /** `id` is draining, and if it was primary the longest active lease left is primary instead. */
  ghost predicate DrainBegun(before: Ctl, after: Ctl, id: Id) {
    && Drained(before, after, id) && after.leases[id].state == Draining
    && (before.primary != id ==> after.primary == before.primary)
    && (before.primary == id ==>
          exists i :: 0 <= i < |after.order| && after.order[i] == after.primary && IsActive(after.leases, after.primary)
                      && forall j :: 0 <= j < i ==> !IsActive(after.leases, after.order[j]))
  }

  predicate IsActive(leases: Leases, id: Id) {
    id in leases && leases[id].state == Active
  }

  lemma {:induction false} FirstActiveIsEarliest(leases: Leases, order: seq<Id>) returns (i: nat)
    requires FirstActive(leases, order) != 0
    ensures i < |order| && order[i] == FirstActive(leases, order) && IsActive(leases, order[i])
    ensures forall j :: 0 <= j < i ==> !IsActive(leases, order[j])
    decreases |order|
  {
    if IsActive(leases, order[0]) {
      i := 0;
    } else {
      i := FirstActiveIsEarliest(leases, order[1..]);
      i := i + 1;
    }
  }

  /** A promotion succeeds exactly when its lease is active and the old primary may drain, and hands over. */
  lemma PromoteHandsOver(c: Ctl, id: Id)
    requires Inv(c)
    ensures c.PromoteError(id).None? <==>
              !c.closed && IsActive(c.leases, id) && (c.primary == id || Count(c.leases, Draining) < c.maxDraining)
    ensures if c.PromoteError(id).None? then HandedOver(c, c.Promote(id), id) else c.Promote(id) == c
  {
    if IsActive(c.leases, id) {
      assert id in InState(c.leases, Active);
    }
  }

  /** Draining succeeds exactly when there is room for it and an active lease stays, and drains. */
  lemma BeginDrainDrains(c: Ctl, id: Id)
    requires Inv(c)
    ensures c.BeginDrainError(id).None? <==>
              && !c.closed && IsActive(c.leases, id) && Count(c.leases, Draining) < c.maxDraining
              && exists other :: IsActive(c.leases, other) && other != id
    ensures if c.BeginDrainError(id).None? then DrainBegun(c, c.BeginDrain(id), id) else c.BeginDrain(id) == c
  {
    if IsActive(c.leases, id) {
      OthersActive(c, id);
    }
    if c.BeginDrainError(id).None? && id == c.primary {
      SuccessorIsEarliest(c, id, c.BeginDrain(id));
    }
  }

  lemma SuccessorIsEarliest(c: Ctl, id: Id, r: Ctl)
    requires Inv(c) && IsActive(c.leases, id) && exists other :: IsActive(c.leases, other) && other != id
    requires Drained(c, r, id) && r.primary == FirstActive(r.leases, r.order)
    ensures exists i :: 0 <= i < |r.order| && r.order[i] == r.primary && IsActive(r.leases, r.primary)
                        && forall j :: 0 <= j < i ==> !IsActive(r.leases, r.order[j])
  {
    var other :| IsActive(c.leases, other) && other != id;
    assert other in InState(r.leases, Active);
    FirstActiveFinds(r.leases, r.order);
    var i := FirstActiveIsEarliest(r.leases, r.order);
  }

  /** An active lease is the only one exactly when the count says so; another primary is another active lease. */
  lemma OthersActive(c: Ctl, id: Id)
    requires Inv(c) && IsActive(c.leases, id)
    ensures Count(c.leases, Active) <= 1 <==> !exists other :: IsActive(c.leases, other) && other != id
    ensures id != c.primary ==> IsActive(c.leases, c.primary)
  {
    var active := InState(c.leases, Active);
    assert id in active;
    if exists other :: IsActive(c.leases, other) && other != id {
      var other :| IsActive(c.leases, other) && other != id;
      assert {id, other} <= active;
      assert active == {id} + (active - {id}) && other in active - {id};
    } else {
      assert forall other :: other in active ==> IsActive(c.leases, other);
      assert active == {id};
    }
  }

  /** The lease's load is the new one; nothing else about it, and no other lease, changes. */
  ghost predicate LoadSet(before: Ctl, after: Ctl, id: Id, load: nat) {
    && after == before.(leases := after.leases) && after.leases.Keys == before.leases.Keys
    && (forall k :: k in before.leases && k != id ==> after.leases[k] == before.leases[k])
    && id in before.leases && after.leases[id] == before.leases[id].(load := load)
  }

  lemma SetLoadSets(c: Ctl, id: Id, load: nat)
    ensures if !c.closed && id in c.leases then LoadSet(c, c.SetLoad(id, load), id, load) else c.SetLoad(id, load) == c
  {
  }

  lemma RemoveKeepsInv(c: Ctl, id: Id, requireDraining: bool)
    requires Inv(c)
    ensures Inv(c.Remove(id, requireDraining))
  {
    if c.RemoveError(id, requireDraining).None? {
      var r := c.Remove(id, requireDraining);
      RemoveCounts(c.leases, id, Active);
      RemoveCounts(c.leases, id, Draining);
      WithoutElements(c.order, id);
      if c.primary == id {
        FirstActiveFinds(r.leases, r.order);
      } else if c.primary != 0 {
        assert c.primary in InState(r.leases, Active);
      }
      assert PrimaryOk(r.leases, r.primary);
    }
  }

  lemma SetLoadKeepsInv(c: Ctl, id: Id, load: nat)
    requires Inv(c)
    ensures Inv(c.SetLoad(id, load))
  {
    if !c.closed && id in c.leases {
      SameStates(c.leases, id, c.leases[id].(load := load), Active);
      SameStates(c.leases, id, c.leases[id].(load := load), Draining);
    }
  }

  lemma StopKeepsInv(c: Ctl)
    requires Inv(c)
    ensures Inv(c.Stop())
  {
    assert InState(map[], Active) == {} && InState(map[], Draining) == {};
  }

  // ---------------------------------------------------------------------
  // Every run: the invariant, and each resource closed exactly once
  // ---------------------------------------------------------------------

  datatype Op =
    | OpAdd(candidate: Candidate)
    | OpSetLoad(id: Id, load: nat)
    | OpPromote(id: Id)
    | OpBeginDrain(id: Id)
    | OpRemove(id: Id, requireDraining: bool)
    | OpStop

  function Step(c: Ctl, op: Op): (r: Ctl) {
    match op
    case OpAdd(candidate) => c.Add(candidate)
    case OpSetLoad(id, load) => c.SetLoad(id, load)
    case OpPromote(id) => c.Promote(id)
    case OpBeginDrain(id) => c.BeginDrain(id)
    case OpRemove(id, requireDraining) => c.Remove(id, requireDraining)
    case OpStop => c.Stop()
  }

  /** The resources the listed leases own. */
  function Owned(leases: Leases, order: seq<Id>): (m: multiset<Resource>)
    requires forall id :: id in order ==> id in leases
  {
    if order == [] then multiset{}
    else multiset{leases[order[0]].resource} + Owned(leases, order[1..])
  }

  /** What an operation takes ownership of. */
  function Taken(c: Ctl, op: Op): (m: multiset<Resource>) {
    if op.OpAdd? && c.AddError(op.candidate).None? then multiset{op.candidate.resource} else multiset{}
  }

  /** What an operation closes. */
  function Closed(c: Ctl, op: Op): (m: multiset<Resource>)
    requires forall id :: id in c.order ==> id in c.leases
  {
    match op
    case OpRemove(id, requireDraining) =>
      if c.RemoveError(id, requireDraining).None? then multiset{c.leases[id].resource} else multiset{}
    case OpStop => if c.closed then multiset{} else Owned(c.leases, c.order)
    case _ => multiset{}
  }

  lemma {:induction false} OwnedAppend(leases: Leases, order: seq<Id>, id: Id)
    requires forall x :: x in order ==> x in leases
    requires id in leases
    ensures forall x :: x in order + [id] ==> x in leases
    ensures Owned(leases, order + [id]) == Owned(leases, order) + multiset{leases[id].resource}
    decreases |order|
  {
    if order == [] {
      assert order + [id] == [id];
    } else {
      assert (order + [id])[1..] == order[1..] + [id];
      OwnedAppend(leases, order[1..], id);
    }
  }

  /** Only the resources of the listed leases matter. */
  lemma {:induction false} OwnedFrame(leases: Leases, changed: Leases, order: seq<Id>)
    requires forall x :: x in order ==> x in leases && x in changed && leases[x].resource == changed[x].resource
    ensures Owned(leases, order) == Owned(changed, order)
    decreases |order|
  {
    if order != [] {
      OwnedFrame(leases, changed, order[1..]);
    }
  }

  lemma {:induction false} OwnedWithout(leases: Leases, order: seq<Id>, id: Id)
    requires Distinct(order) && id in order
    requires forall x :: x in order ==> x in leases
    ensures forall x :: x in Without(order, id) ==> x in leases
    ensures Owned(leases, Without(order, id)) + multiset{leases[id].resource} == Owned(leases, order)
    decreases |order|
  {
    WithoutElements(order, id);
    if order[0] != id {
      assert Distinct(order[1..]);
      OwnedWithout(leases, order[1..], id);
      assert Without(order, id)[1..] == Without(order[1..], id);
    }
  }

  /** An admission that takes a free identifier, or anything else. */
  predicate FreshSlot(c: Ctl, op: Op) {
    op.OpAdd? && c.AddError(op.candidate).None? ==> c.Slot() !in c.leases
  }

  lemma StepKeepsInv(c: Ctl, op: Op)
    requires Inv(c) && FreshSlot(c, op)
    ensures Inv(Step(c, op))
  {
    match op
    case OpAdd(candidate) => if c.AddError(candidate).None? { AddKeepsInv(c, candidate); }
    case OpSetLoad(id, load) => SetLoadKeepsInv(c, id, load);
    case OpPromote(id) => PromoteKeepsInv(c, id);
    case OpBeginDrain(id) => BeginDrainKeepsInv(c, id);
    case OpRemove(id, requireDraining) => RemoveKeepsInv(c, id, requireDraining);
    case OpStop => StopKeepsInv(c);
  }

  lemma AddConserves(c: Ctl, candidate: Candidate)
    requires Listed(c.leases, c.order) && c.AddError(candidate).None? && c.Slot() !in c.leases
    ensures Listed(c.Add(candidate).leases, c.Add(candidate).order)
    ensures Owned(c.Add(candidate).leases, c.Add(candidate).order)
         == Owned(c.leases, c.order) + multiset{candidate.resource}
  {
    var r := c.Add(candidate);
    ListedAdd(c.leases, c.order, c.Slot(), r.leases[c.Slot()]);
    OwnedAppend(r.leases, c.order, c.Slot());
    OwnedFrame(c.leases, r.leases, c.order);
  }

  lemma RemoveConserves(c: Ctl, id: Id, requireDraining: bool)
    requires Listed(c.leases, c.order) && c.RemoveError(id, requireDraining).None?
    ensures var r := c.Remove(id, requireDraining);
            && Listed(r.leases, r.order)
            && Owned(r.leases, r.order) + multiset{c.leases[id].resource} == Owned(c.leases, c.order)
  {
    var r := c.Remove(id, requireDraining);
    WithoutElements(c.order, id);
    OwnedWithout(c.leases, c.order, id);
    OwnedFrame(c.leases, r.leases, r.order);
  }

  /** Loads, promotions and drains only relabel leases. */
  lemma RelabelConserves(c: Ctl, r: Ctl)
    requires Listed(c.leases, c.order) && r.order == c.order
    requires r.leases.Keys == c.leases.Keys
    requires forall id :: id in c.leases ==> r.leases[id].resource == c.leases[id].resource
    ensures Listed(r.leases, r.order)
    ensures Owned(r.leases, r.order) == Owned(c.leases, c.order)
  {
    OwnedFrame(c.leases, r.leases, c.order);
  }

  lemma LoadConserves(c: Ctl, id: Id, load: nat)
    requires Listed(c.leases, c.order)
    ensures Listed(c.SetLoad(id, load).leases, c.SetLoad(id, load).order)
    ensures Owned(c.SetLoad(id, load).leases, c.SetLoad(id, load).order) == Owned(c.leases, c.order)
  {
    RelabelConserves(c, c.SetLoad(id, load));
  }

  lemma PromoteConserves(c: Ctl, id: Id)
    requires Listed(c.leases, c.order)
    ensures Listed(c.Promote(id).leases, c.Promote(id).order)
    ensures Owned(c.Promote(id).leases, c.Promote(id).order) == Owned(c.leases, c.order)
  {
    RelabelConserves(c, c.Promote(id));
  }

  lemma DrainConserves(c: Ctl, id: Id)
    requires Listed(c.leases, c.order)
    ensures Listed(c.BeginDrain(id).leases, c.BeginDrain(id).order)
    ensures Owned(c.BeginDrain(id).leases, c.BeginDrain(id).order) == Owned(c.leases, c.order)
  {
    RelabelConserves(c, c.BeginDrain(id));
  }

  /** Ownership is conserved: what a step takes on is still owned afterwards or was closed by it. */
  lemma StepConservesResources(c: Ctl, op: Op)
    requires Inv(c) && FreshSlot(c, op)
    ensures Listed(Step(c, op).leases, Step(c, op).order)
    ensures Owned(c.leases, c.order) + Taken(c, op) == Owned(Step(c, op).leases, Step(c, op).order) + Closed(c, op)
  {
    match op
    case OpAdd(candidate) => if c.AddError(candidate).None? { AddConserves(c, candidate); }
    case OpSetLoad(id, load) => LoadConserves(c, id, load);
    case OpPromote(id) => PromoteConserves(c, id);
    case OpBeginDrain(id) => DrainConserves(c, id);
    case OpRemove(id, requireDraining) =>
      if c.RemoveError(id, requireDraining).None? { RemoveConserves(c, id, requireDraining); }
    case OpStop => StoppedOwnsNothing(c);
  }

  ghost predicate FreshRun(c: Ctl, ops: seq<Op>)
    decreases |ops|
  {
    ops == [] || (FreshSlot(c, ops[0]) && FreshRun(Step(c, ops[0]), ops[1..]))
  }

  function Run(c: Ctl, ops: seq<Op>): (r: Ctl)
    decreases |ops|
  {
    if ops == [] then c else Run(Step(c, ops[0]), ops[1..])
  }

  function TakenBy(c: Ctl, ops: seq<Op>): (m: multiset<Resource>)
    decreases |ops|
  {
    if ops == [] then multiset{} else Taken(c, ops[0]) + TakenBy(Step(c, ops[0]), ops[1..])
  }

  ghost function ClosedBy(c: Ctl, ops: seq<Op>): (m: multiset<Resource>)
    requires Inv(c) && FreshRun(c, ops)
    decreases |ops|
  {
    if ops == [] then multiset{}
    else
      StepKeepsInv(c, ops[0]);
      Closed(c, ops[0]) + ClosedBy(Step(c, ops[0]), ops[1..])
  }

  lemma BalanceChain(a: multiset<Resource>, taken: multiset<Resource>, closed: multiset<Resource>,
                     b: multiset<Resource>, taken': multiset<Resource>, closed': multiset<Resource>,
                     d: multiset<Resource>)
    requires a + taken == b + closed && b + taken' == d + closed'
    ensures a + (taken + taken') == d + (closed + closed')
  {
    calc {
      a + (taken + taken');
      (a + taken) + taken';
      (b + closed) + taken';
      (b + taken') + closed;
      (d + closed') + closed;
      d + (closed + closed');
    }
  }

  lemma StoppedOwnsNothing(c: Ctl)
    requires Inv(c)
    ensures c.closed ==> Owned(c.leases, c.order) == multiset{}
  {
    assert c.closed ==> forall id :: id !in c.order;
  }

  /**
   Over any run the invariant holds, and the resources taken on are exactly
   those closed so far together with those of the leases still listed.  A
   run that ends with the controller stopped has closed each exactly once.
   */
  lemma {:induction false} RunConservesResources(c: Ctl, ops: seq<Op>)
    requires Inv(c) && FreshRun(c, ops)
    ensures Inv(Run(c, ops))
    ensures Owned(c.leases, c.order) + TakenBy(c, ops)
         == Owned(Run(c, ops).leases, Run(c, ops).order) + ClosedBy(c, ops)
    ensures Run(c, ops).closed ==> Owned(c.leases, c.order) + TakenBy(c, ops) == ClosedBy(c, ops)
    decreases |ops|
  {
    if ops != [] {
      var k := Step(c, ops[0]);
      StepKeepsInv(c, ops[0]);
      StepConservesResources(c, ops[0]);
      RunConservesResources(k, ops[1..]);
      var r := Run(k, ops[1..]);
      BalanceChain(Owned(c.leases, c.order), Taken(c, ops[0]), Closed(c, ops[0]), Owned(k.leases, k.order),
                   TakenBy(k, ops[1..]), ClosedBy(k, ops[1..]), Owned(r.leases, r.order));
    }
    StoppedOwnsNothing(Run(c, ops));
  }

  /** Until the identifier counter wraps, every identifier in use is below it. */
  ghost predicate Unwrapped(c: Ctl) {
    1 <= c.nextId && forall id :: id in c.leases ==> id < c.nextId
  }

  /** So no admission before the wrap reuses an identifier. */
  lemma UnwrappedStep(c: Ctl, op: Op)
    requires Inv(c) && Unwrapped(c)
    ensures FreshSlot(c, op)
    ensures c.nextId < MAX_UINT64 ==> Unwrapped(Step(c, op))
  {
  }

  /** Every run that ends before the counter does takes free identifiers only. */
  lemma {:induction false} UnwrappedRun(c: Ctl, ops: seq<Op>)
    requires Inv(c) && Unwrapped(c) && c.nextId + |ops| <= MAX_UINT64
    ensures FreshRun(c, ops)
    decreases |ops|
  {
    if ops != [] {
      UnwrappedStep(c, ops[0]);
      StepKeepsInv(c, ops[0]);
      UnwrappedRun(Step(c, ops[0]), ops[1..]);
    }
  }

  /**
   Over every run of a new controller of less than 2^64 - 2 operations the
   invariant holds, and a run that ends stopped has closed the resource of the
   first lease and every resource admitted since exactly once.
   */
  lemma ResourcesClosedOnce(principal: Id, constellation: Id, maxActive: nat, maxDraining: nat, first: Candidate,
                            ops: seq<Op>)
    requires ConfigError(principal, constellation, maxActive, maxDraining).None?
    requires Unstarted(principal, constellation, maxActive, maxDraining).CandidateError(first).None?
    requires |ops| + 2 <= MAX_UINT64
    ensures var c := Started(Unstarted(principal, constellation, maxActive, maxDraining), first);
            && Inv(c) && FreshRun(c, ops) && Inv(Run(c, ops))
            && multiset{first.resource} + TakenBy(c, ops)
               == Owned(Run(c, ops).leases, Run(c, ops).order) + ClosedBy(c, ops)
            && (Run(c, ops).closed ==> ClosedBy(c, ops) == multiset{first.resource} + TakenBy(c, ops))
  {
    StartedIsOk(principal, constellation, maxActive, maxDraining, first);
    var c := Started(Unstarted(principal, constellation, maxActive, maxDraining), first);
    UnwrappedRun(c, ops);
    RunConservesResources(c, ops);
    assert Owned(c.leases, c.order) == multiset{first.resource} by {
      assert c.order[1..] == [];
    }
  }
}
