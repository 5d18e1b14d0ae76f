/**
 The registry of logical flows: each flow keeps one upstream over a sequence of
 lease epochs, within a total quota and a quota per principal.
 */
module FlowRegistry {
  import opened Common

  type Id = nat
  type Upstream = nat

  const MAX_LOGICAL_FLOWS: nat := 65_536
  const MAX_FLOW_ID_ATTEMPTS: nat := 8

  datatype FlowError =
    | FlowConfig | FlowBinding | RegistryClosed | FlowCapacity | FlowConflict | FlowNotFound | FlowEntropy

  datatype FlowRecord = FlowRecord(principal: Id, constellation: Id, leaseKey: Id, epoch: nat, upstream: Upstream)

  type Flows = map<Id, FlowRecord>

  datatype CreateRequest = CreateRequest(principal: Id, constellation: Id, flow: Id, leaseKey: Id, upstream: Upstream)

  datatype AttachRequest = AttachRequest(principal: Id, constellation: Id, flow: Id, leaseKey: Id, epoch: nat)

  /** The flows of a principal. */
  function OfPrincipal(flows: Flows, principal: Id): (ids: set<Id>) {
    set id | id in flows && flows[id].principal == principal
  }

  /** The flows that own an upstream. */
  function WithUpstream(flows: Flows, upstream: Upstream): (ids: set<Id>) {
    set id | id in flows && flows[id].upstream == upstream
  }

  function CountOf(counts: map<Id, int>, principal: Id): (n: int) {
    if principal in counts then counts[principal] else 0
  }

  /** `decrementPrincipalLocked`: the entry goes with the last flow. */
  function Decremented(counts: map<Id, int>, principal: Id): (r: map<Id, int>) {
    if CountOf(counts, principal) - 1 <= 0 then counts - {principal}
    else counts[principal := CountOf(counts, principal) - 1]
  }

  /** The first usable draw; running out of draws is an entropy failure. */
  function FirstFree(flows: Flows, draws: seq<Id>, attempts: nat): (r: Option<Id>)
    ensures r.Some? ==> r.value != 0 && r.value !in flows
    decreases attempts
  {
    if attempts == 0 || draws == [] then None
    else if draws[0] == 0 || draws[0] in flows then FirstFree(flows, draws[1..], attempts - 1)
    else Some(draws[0])
  }

  datatype Registry = Registry(flows: Flows, counts: map<Id, int>, maxFlows: nat, maxPerPrincipal: nat, closed: bool) {

    function NewId(request: CreateRequest, draws: seq<Id>): (r: Option<Id>)
      ensures r.Some? ==> r.value != 0 && r.value !in flows
    {
      if request.flow == 0 then FirstFree(flows, draws, MAX_FLOW_ID_ATTEMPTS)
      else if request.flow in flows then None
      else Some(request.flow)
    }

    function CreateError(request: CreateRequest, draws: seq<Id>): (e: Option<FlowError>) {
      if request.principal == 0 || request.constellation == 0 || request.leaseKey == 0 || request.upstream == 0
      then Some(FlowBinding)
      else if closed then Some(RegistryClosed)
      else if |flows| >= maxFlows || CountOf(counts, request.principal) >= maxPerPrincipal then Some(FlowCapacity)
      else if NewId(request, draws).None? then Some(if request.flow == 0 then FlowEntropy else FlowConflict)
      else None
    }

    function Create(request: CreateRequest, draws: seq<Id>): (r: Registry) {
      if CreateError(request, draws).Some? then this
      else this.(
        flows := flows[NewId(request, draws).value :=
          FlowRecord(request.principal, request.constellation, request.leaseKey, 1, request.upstream)],
        counts := counts[request.principal := CountOf(counts, request.principal) + 1])
    }

    function BindingError(principal: Id, constellation: Id, flow: Id): (e: Option<FlowError>) {
      if closed then Some(RegistryClosed)
      else if flow !in flows then Some(FlowNotFound)
      else if flows[flow].principal != principal || flows[flow].constellation != constellation then Some(FlowBinding)
      else None
    }

    function AttachError(request: AttachRequest): (e: Option<FlowError>) {
      if request.principal == 0 || request.constellation == 0 || request.flow == 0 || request.leaseKey == 0
         || request.epoch == 0 then Some(FlowBinding)
      else if BindingError(request.principal, request.constellation, request.flow).Some?
      then BindingError(request.principal, request.constellation, request.flow)
      else
        var record := flows[request.flow];
        if request.epoch == record.epoch && request.leaseKey == record.leaseKey then None
        else if record.epoch != MAX_UINT64 && request.epoch == record.epoch + 1 then None
        else Some(FlowConflict)
    }

    /** Removes a flow and its share of the quota. */
    function Dropped(flow: Id): (r: Registry)
      requires flow in flows
    {
      this.(flows := flows - {flow}, counts := Decremented(counts, flows[flow].principal))
    }

    /** Same epoch and key: nothing; the next epoch: the flow moves; anything else aborts the flow. */
    function Attach(request: AttachRequest): (r: Registry) {
      match AttachError(request)
      case None =>
        this.(flows := flows[request.flow :=
                flows[request.flow].(epoch := request.epoch, leaseKey := request.leaseKey)])
      case Some(FlowConflict) => Dropped(request.flow)
      case Some(_) => this
    }

    function ReleaseError(principal: Id, constellation: Id, flow: Id): (e: Option<FlowError>) {
      if closed then Some(RegistryClosed)
      else if flow !in flows then Some(FlowNotFound)
      else if principal == 0 || constellation == 0
              || flows[flow].principal != principal || flows[flow].constellation != constellation
      then Some(FlowBinding)
      else None
    }

    function Release(principal: Id, constellation: Id, flow: Id): (r: Registry) {
      if ReleaseError(principal, constellation, flow).Some? then this else Dropped(flow)
    }

    function Close(): (r: Registry) {
      if closed then this else this.(flows := map[], counts := map[], closed := true)
    }
  }

  // ---------------------------------------------------------------------
  // The invariant
  // ---------------------------------------------------------------------

  /** A principal's counter is its number of live flows, and is dropped with the last of them. */
  ghost predicate Counted(flows: Flows, counts: map<Id, int>, principal: Id) {
    && CountOf(counts, principal) == |OfPrincipal(flows, principal)|
    && (principal in counts <==> OfPrincipal(flows, principal) != {})
  }

  ghost predicate RecordOk(r: FlowRecord) {
    r.principal != 0 && r.constellation != 0 && r.leaseKey != 0 && 1 <= r.epoch <= MAX_UINT64 && r.upstream != 0
  }

  ghost predicate Inv(r: Registry) {
    && (forall p :: Counted(r.flows, r.counts, p))
    && (forall p :: |OfPrincipal(r.flows, p)| <= r.maxPerPrincipal)
    && |r.flows| <= r.maxFlows
    && (forall id :: id in r.flows ==> id != 0 && RecordOk(r.flows[id]))
    && (r.closed ==> r.flows == map[] && r.counts == map[])
  }

  /** A new flow adds one to its principal's share and nothing to any other. */
  lemma CreatedCount(flows: Flows, counts: map<Id, int>, id: Id, record: FlowRecord, p: Id)
    requires Counted(flows, counts, p) && id !in flows
    ensures var share := OfPrincipal(flows[id := record], p);
            && Counted(flows[id := record], counts[record.principal := CountOf(counts, record.principal) + 1], p)
            && |share| == |OfPrincipal(flows, p)| + if p == record.principal then 1 else 0
  {
    assert OfPrincipal(flows[id := record], p)
        == if p == record.principal then OfPrincipal(flows, p) + {id} else OfPrincipal(flows, p);
  }

  lemma CreatedCounts(flows: Flows, counts: map<Id, int>, id: Id, record: FlowRecord, quota: nat,
                      more: Flows, next: map<Id, int>)
    requires id !in flows && CountOf(counts, record.principal) < quota
    requires forall p :: Counted(flows, counts, p)
    requires forall p :: |OfPrincipal(flows, p)| <= quota
    requires more == flows[id := record]
    requires next == counts[record.principal := CountOf(counts, record.principal) + 1]
    ensures forall p :: Counted(more, next, p)
    ensures forall p :: |OfPrincipal(more, p)| <= quota
  {
    assert Counted(flows, counts, record.principal);
    forall p
      ensures Counted(more, next, p) && |OfPrincipal(more, p)| <= quota
    {
      CreatedCount(flows, counts, id, record, p);
    }
  }

  lemma GrowsByOne(flows: Flows, id: Id, record: FlowRecord)
    requires id !in flows
    ensures |flows[id := record]| == |flows| + 1
  {
    assert flows[id := record].Keys == flows.Keys + {id};
  }

  lemma CreateKeepsInv(r: Registry, request: CreateRequest, draws: seq<Id>)
    requires Inv(r)
    ensures Inv(r.Create(request, draws))
  {
    if r.CreateError(request, draws).None? {
      var id := r.NewId(request, draws).value;
      var record := FlowRecord(request.principal, request.constellation, request.leaseKey, 1, request.upstream);
      var s := r.Create(request, draws);
      GrowsByOne(r.flows, id, record);
      CreatedCounts(r.flows, r.counts, id, record, r.maxPerPrincipal, s.flows, s.counts);
    }
  }

  lemma DropKeepsInv(r: Registry, flow: Id)
    requires Inv(r) && flow in r.flows
    ensures Inv(r.Dropped(flow))
  {
    var s := r.Dropped(flow);
    var owner := r.flows[flow].principal;
    assert s.flows.Keys == r.flows.Keys - {flow};
    forall p
      ensures Counted(s.flows, s.counts, p) && |OfPrincipal(s.flows, p)| <= r.maxPerPrincipal
    {
      assert Counted(r.flows, r.counts, p);
      assert flow in OfPrincipal(r.flows, owner);
      assert OfPrincipal(s.flows, p)
          == if p == owner then OfPrincipal(r.flows, p) - {flow} else OfPrincipal(r.flows, p);
    }
  }

  lemma MoveKeepsInv(r: Registry, request: AttachRequest)
    requires Inv(r) && r.AttachError(request).None?
    ensures Inv(r.Attach(request))
  {
    var s := r.Attach(request);
    assert s.flows.Keys == r.flows.Keys;
    forall p
      ensures Counted(s.flows, s.counts, p) && |OfPrincipal(s.flows, p)| <= r.maxPerPrincipal
    {
      assert Counted(r.flows, r.counts, p);
      assert OfPrincipal(s.flows, p) == OfPrincipal(r.flows, p);
    }
  }

  lemma CloseKeepsInv(r: Registry)
    requires Inv(r)
    ensures Inv(r.Close())
  {
    if !r.closed {
      forall p
        ensures Counted(r.Close().flows, r.Close().counts, p) && |OfPrincipal(r.Close().flows, p)| == 0
      {
        assert OfPrincipal(r.Close().flows, p) == {};
      }
    }
  }

  // ---------------------------------------------------------------------
  // Every run
  // ---------------------------------------------------------------------

  datatype Op =
    | OpCreate(create: CreateRequest, draws: seq<Id>)
    | OpAttach(attach: AttachRequest)
    | OpRelease(principal: Id, constellation: Id, flow: Id)
    | OpClose

  function Step(r: Registry, op: Op): (s: Registry) {
    match op
    case OpCreate(request, draws) => r.Create(request, draws)
    case OpAttach(request) => r.Attach(request)
    case OpRelease(principal, constellation, flow) => r.Release(principal, constellation, flow)
    case OpClose => r.Close()
  }

  lemma StepKeepsInv(r: Registry, op: Op)
    requires Inv(r)
    ensures Inv(Step(r, op))
  {
    match op
    case OpCreate(request, draws) => CreateKeepsInv(r, request, draws);
    case OpAttach(request) =>
      if r.AttachError(request).None? {
        MoveKeepsInv(r, request);
      } else if r.AttachError(request).value.FlowConflict? {
        DropKeepsInv(r, request.flow);
      }
    case OpRelease(principal, constellation, flow) =>
      if r.ReleaseError(principal, constellation, flow).None? {
        DropKeepsInv(r, flow);
      }
    case OpClose => CloseKeepsInv(r);
  }

  /** How often an operation hands `upstream` over to the registry. */
  function Given(r: Registry, op: Op, upstream: Upstream): (n: nat) {
    if op.OpCreate? && r.CreateError(op.create, op.draws).None? && op.create.upstream == upstream then 1 else 0
  }

  /** How often an operation closes `upstream`. */
  function ClosedBy(r: Registry, op: Op, upstream: Upstream): (n: nat) {
    match op
    case OpCreate(_, _) => 0
    case OpAttach(request) =>
      if r.AttachError(request) == Some(FlowConflict) && r.flows[request.flow].upstream == upstream then 1 else 0
    case OpRelease(principal, constellation, flow) =>
      if r.ReleaseError(principal, constellation, flow).None? && r.flows[flow].upstream == upstream then 1 else 0
    case OpClose => if r.closed then 0 else |WithUpstream(r.flows, upstream)|
  }

  lemma DropReleases(flows: Flows, flow: Id, upstream: Upstream)
    requires flow in flows
    ensures |WithUpstream(flows, upstream)|
         == |WithUpstream(flows - {flow}, upstream)| + if flows[flow].upstream == upstream then 1 else 0
  {
    assert WithUpstream(flows - {flow}, upstream) == WithUpstream(flows, upstream) - {flow};
  }

  lemma CreateTakesOver(flows: Flows, flow: Id, record: FlowRecord, upstream: Upstream)
    requires flow !in flows
    ensures |WithUpstream(flows[flow := record], upstream)|
         == |WithUpstream(flows, upstream)| + if record.upstream == upstream then 1 else 0
  {
    assert WithUpstream(flows[flow := record], upstream)
        == if record.upstream == upstream then WithUpstream(flows, upstream) + {flow}
           else WithUpstream(flows, upstream);
  }

  lemma MoveKeepsUpstream(flows: Flows, flow: Id, record: FlowRecord, upstream: Upstream)
    requires flow in flows && record.upstream == flows[flow].upstream
    ensures WithUpstream(flows[flow := record], upstream) == WithUpstream(flows, upstream)
  {
  }

  lemma AttachConserves(r: Registry, request: AttachRequest, upstream: Upstream)
    ensures |WithUpstream(r.flows, upstream)|
         == |WithUpstream(r.Attach(request).flows, upstream)| + ClosedBy(r, OpAttach(request), upstream)
  {
    if r.AttachError(request).None? {
      var moved := r.flows[request.flow].(epoch := request.epoch, leaseKey := request.leaseKey);
      MoveKeepsUpstream(r.flows, request.flow, moved, upstream);
    } else if r.AttachError(request).value.FlowConflict? {
      DropReleases(r.flows, request.flow, upstream);
    }
  }

  /** An upstream handed over is owned by one live flow more, or was closed. */
  lemma StepConservesUpstream(r: Registry, op: Op, upstream: Upstream)
    requires Inv(r)
    ensures |WithUpstream(r.flows, upstream)| + Given(r, op, upstream)
         == |WithUpstream(Step(r, op).flows, upstream)| + ClosedBy(r, op, upstream)
  {
    match op
    case OpCreate(request, draws) =>
      if r.CreateError(request, draws).None? {
        var record := FlowRecord(request.principal, request.constellation, request.leaseKey, 1, request.upstream);
        CreateTakesOver(r.flows, r.NewId(request, draws).value, record, upstream);
      }
    case OpAttach(request) => AttachConserves(r, request, upstream);
    case OpRelease(principal, constellation, flow) =>
      if r.ReleaseError(principal, constellation, flow).None? {
        DropReleases(r.flows, flow, upstream);
      }
    case OpClose =>
      assert WithUpstream(map[], upstream) == {};
  }

  function Run(r: Registry, ops: seq<Op>): (s: Registry)
    decreases |ops|
  {
    if ops == [] then r else Run(Step(r, ops[0]), ops[1..])
  }

  function GivenOver(r: Registry, ops: seq<Op>, upstream: Upstream): (n: nat)
    decreases |ops|
  {
    if ops == [] then 0 else Given(r, ops[0], upstream) + GivenOver(Step(r, ops[0]), ops[1..], upstream)
  }

  function ClosedOver(r: Registry, ops: seq<Op>, upstream: Upstream): (n: nat)
    decreases |ops|
  {
    if ops == [] then 0 else ClosedBy(r, ops[0], upstream) + ClosedOver(Step(r, ops[0]), ops[1..], upstream)
  }

  /**
   Over every run the counters stay exact and within quota, and each upstream
   is closed exactly as often as it was handed over, except for the flows
   still alive; a run that ends with the registry closed has closed them all.
   */
  lemma {:induction false} UpstreamsClosedOnce(r: Registry, ops: seq<Op>, upstream: Upstream)
    requires Inv(r)
    ensures Inv(Run(r, ops))
    ensures |WithUpstream(r.flows, upstream)| + GivenOver(r, ops, upstream)
         == |WithUpstream(Run(r, ops).flows, upstream)| + ClosedOver(r, ops, upstream)
    ensures Run(r, ops).closed ==>
              ClosedOver(r, ops, upstream) == |WithUpstream(r.flows, upstream)| + GivenOver(r, ops, upstream)
    decreases |ops|
  {
    if ops != [] {
      StepKeepsInv(r, ops[0]);
      StepConservesUpstream(r, ops[0], upstream);
      UpstreamsClosedOnce(Step(r, ops[0]), ops[1..], upstream);
    }
    assert WithUpstream(map[], upstream) == {};
  }

  /** What one incarnation of a flow may turn into: the same epoch and key, or a later epoch; never another upstream. */
  predicate SameIncarnation(before: FlowRecord, after: FlowRecord) {
    && after.principal == before.principal && after.constellation == before.constellation
    && after.upstream == before.upstream
    && before.epoch <= after.epoch
    && (before.epoch == after.epoch ==> before.leaseKey == after.leaseKey)
  }

  /** A step moves a surviving flow by at most one epoch. */
  lemma StepAdvancesEpoch(r: Registry, op: Op, flow: Id)
    requires Inv(r) && flow in r.flows && flow in Step(r, op).flows
    ensures SameIncarnation(r.flows[flow], Step(r, op).flows[flow])
    ensures Step(r, op).flows[flow].epoch <= r.flows[flow].epoch + 1
  {
  }

  /** The request names a live flow and its owner, and repeats the flow's place or asks for the next epoch. */
  predicate Admissible(r: Registry, request: AttachRequest) {
    && !r.closed && request.leaseKey != 0
    && request.flow in r.flows
    && var record := r.flows[request.flow];
      && record.principal == request.principal && record.constellation == request.constellation
      && ((request.epoch == record.epoch && request.leaseKey == record.leaseKey)
          || (request.epoch == record.epoch + 1 && request.epoch <= MAX_UINT64))
  }

  /** The flow is where the request puts it; its owner, its upstream, every other flow and every count are as before. */
  ghost predicate PlacedAt(before: Registry, after: Registry, request: AttachRequest) {
    && after.flows.Keys == before.flows.Keys && request.flow in after.flows
    && after.flows[request.flow].epoch == request.epoch && after.flows[request.flow].leaseKey == request.leaseKey
    && after.flows[request.flow].principal == before.flows[request.flow].principal
    && after.flows[request.flow].constellation == before.flows[request.flow].constellation
    && after.flows[request.flow].upstream == before.flows[request.flow].upstream
    && (forall id :: id in before.flows && id != request.flow ==> after.flows[id] == before.flows[id])
    && after.counts == before.counts && after.closed == before.closed
  }

  /** The flow is gone and nothing else. */
  ghost predicate Aborted(before: Registry, after: Registry, flow: Id) {
    && after.flows.Keys == before.flows.Keys - {flow} && after.closed == before.closed
    && forall id :: id in after.flows ==> after.flows[id] == before.flows[id]
  }

  /** An attach succeeds exactly when it is admissible, and then moves the flow; a conflicting one costs the flow. */
  lemma AttachPlaces(r: Registry, request: AttachRequest)
    requires Inv(r)
    ensures r.AttachError(request).None? <==> Admissible(r, request)
    ensures r.AttachError(request).None? ==> PlacedAt(r, r.Attach(request), request)
    ensures r.AttachError(request) == Some(FlowConflict) ==> Aborted(r, r.Attach(request), request.flow)
    ensures r.AttachError(request).Some? && r.AttachError(request) != Some(FlowConflict) ==> r.Attach(request) == r
  {
    if request.flow in r.flows {
      assert RecordOk(r.flows[request.flow]);
    }
  }

  lemma {:induction false} FirstFreeFinds(flows: Flows, draws: seq<Id>, attempts: nat)
    ensures FirstFree(flows, draws, attempts).Some? <==>
              exists k :: 0 <= k < |draws| && k < attempts && draws[k] != 0 && draws[k] !in flows
    decreases attempts
  {
    if attempts > 0 && draws != [] && (draws[0] == 0 || draws[0] in flows) {
      FirstFreeFinds(flows, draws[1..], attempts - 1);
      if k :| 0 <= k < |draws| && k < attempts && draws[k] != 0 && draws[k] !in flows {
        assert draws[1..][k - 1] == draws[k];
      }
    }
  }

  /** There is an unused identifier for the flow: the one asked for, or one of the first eight drawn. */
  ghost predicate Nameable(flows: Flows, request: CreateRequest, draws: seq<Id>) {
    if request.flow != 0 then request.flow !in flows
    else exists k :: 0 <= k < |draws| && k < 8 && draws[k] != 0 && draws[k] !in flows
  }

  /** One flow is new: the request's, at epoch one; every other is as it was. */
  ghost predicate Opened(before: Registry, after: Registry, request: CreateRequest, id: Id) {
    && id != 0 && id !in before.flows && (request.flow != 0 ==> id == request.flow)
    && after.flows.Keys == before.flows.Keys + {id}
    && (forall k :: k in before.flows ==> after.flows[k] == before.flows[k])
    && after.flows[id] == FlowRecord(request.principal, request.constellation, request.leaseKey, 1, request.upstream)
  }

  /** A create succeeds exactly within both quotas and with a name to give. */
  lemma CreateAdmits(r: Registry, request: CreateRequest, draws: seq<Id>)
    requires Inv(r)
    ensures r.CreateError(request, draws).None? <==>
              && request.principal != 0 && request.constellation != 0 && request.leaseKey != 0 && request.upstream != 0
              && !r.closed && |r.flows| < r.maxFlows
              && |OfPrincipal(r.flows, request.principal)| < r.maxPerPrincipal
              && Nameable(r.flows, request, draws)
  {
    assert Counted(r.flows, r.counts, request.principal);
    FirstFreeFinds(r.flows, draws, MAX_FLOW_ID_ATTEMPTS);
  }

  /** And then opens the flow asked for; refused, it changes nothing. */
  lemma CreateOpens(r: Registry, request: CreateRequest, draws: seq<Id>)
    ensures if r.CreateError(request, draws).None?
            then Opened(r, r.Create(request, draws), request, r.NewId(request, draws).value)
            else r.Create(request, draws) == r
  {
  }

  /** A release succeeds exactly for the owner of a live flow, and takes that flow and nothing else. */
  lemma ReleaseTakes(r: Registry, principal: Id, constellation: Id, flow: Id)
    requires Inv(r)
    ensures r.ReleaseError(principal, constellation, flow).None? <==>
              && !r.closed && flow in r.flows
              && r.flows[flow].principal == principal && r.flows[flow].constellation == constellation
    ensures if r.ReleaseError(principal, constellation, flow).None?
            then Aborted(r, r.Release(principal, constellation, flow), flow)
            else r.Release(principal, constellation, flow) == r
  {
    if flow in r.flows {
      assert RecordOk(r.flows[flow]);
    }
  }

  /** The step attaches the flow at its next epoch. */
  predicate Moves(r: Registry, op: Op, flow: Id) {
    && op.OpAttach? && op.attach.flow == flow && Admissible(r, op.attach)
    && op.attach.epoch == r.flows[flow].epoch + 1
  }

  /** How often the run moves the flow to its next epoch. */
  ghost function MoveCount(r: Registry, ops: seq<Op>, flow: Id): (n: nat)
    decreases |ops|
  {
    if ops == [] then 0
    else (if Moves(r, ops[0], flow) then 1 else 0) + MoveCount(Step(r, ops[0]), ops[1..], flow)
  }

  /** The key the run's last move gave, or `key` when it moved the flow nowhere. */
  ghost function LastKey(r: Registry, ops: seq<Op>, flow: Id, key: Id): (k: Id)
    decreases |ops|
  {
    if ops == [] then key
    else LastKey(Step(r, ops[0]), ops[1..], flow, if Moves(r, ops[0], flow) then ops[0].attach.leaseKey else key)
  }

  /** A surviving flow moves one epoch, and to the key asked for, exactly at a step that moves it. */
  lemma StepMoves(r: Registry, op: Op, flow: Id)
    requires Inv(r) && flow in r.flows && flow in Step(r, op).flows
    ensures Step(r, op).flows[flow].epoch == r.flows[flow].epoch + if Moves(r, op, flow) then 1 else 0
    ensures Step(r, op).flows[flow].leaseKey
         == if Moves(r, op, flow) then op.attach.leaseKey else r.flows[flow].leaseKey
  {
    if op.OpAttach? {
      AttachPlaces(r, op.attach);
    }
  }

  /** The flow is alive in every state of the run. */
  ghost predicate Survives(r: Registry, ops: seq<Op>, flow: Id)
    decreases |ops|
  {
    flow in r.flows && (ops == [] || Survives(Step(r, ops[0]), ops[1..], flow))
  }

  /**
   Over any run a flow survives, its epoch is the old one plus the number of
   attaches that moved it, its key is the last mover's, an epoch has one lease
   key, and the upstream never changes.
   */
  lemma {:induction false} IncarnationKeepsUpstream(r: Registry, ops: seq<Op>, flow: Id)
    requires Inv(r) && Survives(r, ops, flow)
    ensures flow in Run(r, ops).flows
    ensures SameIncarnation(r.flows[flow], Run(r, ops).flows[flow])
    ensures Run(r, ops).flows[flow].epoch == r.flows[flow].epoch + MoveCount(r, ops, flow)
    ensures Run(r, ops).flows[flow].leaseKey == LastKey(r, ops, flow, r.flows[flow].leaseKey)
    decreases |ops|
  {
    if ops != [] {
      StepKeepsInv(r, ops[0]);
      IncarnationKeepsUpstream(Step(r, ops[0]), ops[1..], flow);
      StepAdvancesEpoch(r, ops[0], flow);
      StepMoves(r, ops[0], flow);
    }
  }
}

/** The flow registry as an object. */
module FlowRegistryObject {
  import opened Common
  import opened FlowRegistry

  class Registry {
    const maxFlows: nat
    const maxPerPrincipal: nat
    var flows: Flows
    var counts: map<Id, int>
    var closed: bool

    ghost function View(): (r: FlowRegistry.Registry)
      reads this
    {
      FlowRegistry.Registry(flows, counts, maxFlows, maxPerPrincipal, closed)
    }

    ghost predicate Valid()
      reads this
    {
      FlowRegistry.Inv(View())
    }

    constructor (maxFlows: nat, maxPerPrincipal: nat)
      requires 0 < maxPerPrincipal <= maxFlows <= MAX_LOGICAL_FLOWS
      ensures Valid() && View() == FlowRegistry.Registry(map[], map[], maxFlows, maxPerPrincipal, false)
    {
      this.maxFlows, this.maxPerPrincipal := maxFlows, maxPerPrincipal;
      flows, counts, closed := map[], map[], false;
      new;
      assert forall p :: OfPrincipal(map[], p) == {};
    }

    method NewFlowId(draws: seq<Id>) returns (id: Option<Id>)
      ensures id == FirstFree(flows, draws, MAX_FLOW_ID_ATTEMPTS)
    {
      var i := 0;
      while i < MAX_FLOW_ID_ATTEMPTS
        invariant 0 <= i <= MAX_FLOW_ID_ATTEMPTS && i <= |draws|
        invariant FirstFree(flows, draws, MAX_FLOW_ID_ATTEMPTS)
               == FirstFree(flows, draws[i..], MAX_FLOW_ID_ATTEMPTS - i)
      {
        if i == |draws| {
          return None;
        }
        assert draws[i..][1..] == draws[i + 1..];
        if draws[i] != 0 && draws[i] !in flows {
          return Some(draws[i]);
        }
        i := i + 1;
      }
      id := None;
    }

    method Create(request: CreateRequest, draws: seq<Id>) returns (flow: Id, error: Option<FlowError>)
      requires Valid()
      modifies this
      ensures Valid()
      ensures error == old(View()).CreateError(request, draws)
      ensures View() == old(View()).Create(request, draws)
      ensures error.None? ==> flow in flows && flow !in old(flows) && flows[flow].epoch == 1
    {
      CreateKeepsInv(View(), request, draws);
      flow := 0;
      if request.principal == 0 || request.constellation == 0 || request.leaseKey == 0 || request.upstream == 0 {
        return 0, Some(FlowBinding);
      }
      if closed {
        return 0, Some(RegistryClosed);
      }
      var count := if request.principal in counts then counts[request.principal] else 0;
      if |flows| >= maxFlows || count >= maxPerPrincipal {
        return 0, Some(FlowCapacity);
      }
      flow := request.flow;
      if flow == 0 {
        var drawn := NewFlowId(draws);
        if drawn.None? {
          return 0, Some(FlowEntropy);
        }
        flow := drawn.value;
      } else if flow in flows {
        return 0, Some(FlowConflict);
      }
      flows := flows[flow :=
        FlowRecord(request.principal, request.constellation, request.leaseKey, 1, request.upstream)];
      counts := counts[request.principal := count + 1];
      error := None;
    }

    method DecrementPrincipal(principal: Id)
      modifies this`counts
      ensures counts == Decremented(old(counts), principal)
    {
      var remaining := (if principal in counts then counts[principal] else 0) - 1;
      if remaining <= 0 {
        counts := counts - {principal};
        return;
      }
      counts := counts[principal := remaining];
    }

    /** Returns the upstream to close when the attach conflicts. */
    method Attach(request: AttachRequest) returns (upstream: Option<Upstream>, error: Option<FlowError>)
      requires Valid()
      modifies this
      ensures Valid()
      ensures error == old(View()).AttachError(request)
      ensures View() == old(View()).Attach(request)
      ensures upstream == if error == Some(FlowConflict) then Some(old(flows)[request.flow].upstream) else None
      ensures error.None? <==> Admissible(old(View()), request)
      ensures error.None? ==> PlacedAt(old(View()), View(), request)
      ensures error == Some(FlowConflict) ==> Aborted(old(View()), View(), request.flow)
      ensures error.Some? && error != Some(FlowConflict) ==> View() == old(View())
    {
      StepKeepsInv(View(), OpAttach(request));
      AttachPlaces(View(), request);
      upstream := None;
      if request.principal == 0 || request.constellation == 0 || request.flow == 0 || request.leaseKey == 0
         || request.epoch == 0 {
        return None, Some(FlowBinding);
      }
      if closed {
        return None, Some(RegistryClosed);
      }
      if request.flow !in flows {
        return None, Some(FlowNotFound);
      }
      var record := flows[request.flow];
      if record.principal != request.principal || record.constellation != request.constellation {
        return None, Some(FlowBinding);
      }
      if request.epoch == record.epoch && request.leaseKey == record.leaseKey {
        return None, None;
      }
      if record.epoch != MAX_UINT64 && request.epoch == record.epoch + 1 {
        flows := flows[request.flow := record.(epoch := request.epoch, leaseKey := request.leaseKey)];
        return None, None;
      }
      flows := flows - {request.flow};
      DecrementPrincipal(record.principal);
      return Some(record.upstream), Some(FlowConflict);
    }

    method Release(principal: Id, constellation: Id, flow: Id)
      returns (upstream: Option<Upstream>, error: Option<FlowError>)
      requires Valid()
      modifies this
      ensures Valid()
      ensures error == old(View()).ReleaseError(principal, constellation, flow)
      ensures View() == old(View()).Release(principal, constellation, flow)
      ensures upstream == if error.None? then Some(old(flows)[flow].upstream) else None
    {
      StepKeepsInv(View(), OpRelease(principal, constellation, flow));
      upstream := None;
      if closed {
        return None, Some(RegistryClosed);
      }
      if flow !in flows {
        return None, Some(FlowNotFound);
      }
      var record := flows[flow];
      if principal == 0 || constellation == 0
         || record.principal != principal || record.constellation != constellation {
        return None, Some(FlowBinding);
      }
      flows := flows - {flow};
      DecrementPrincipal(record.principal);
      return Some(record.upstream), None;
    }

    method CollectUpstreams() returns (upstreams: seq<Upstream>)
      ensures forall u :: multiset(upstreams)[u] == |WithUpstream(flows, u)|
    {
      upstreams := [];
      var rest := flows.Keys;
      while rest != {}
        invariant rest <= flows.Keys
        invariant forall u :: multiset(upstreams)[u] == |WithUpstream(flows - rest, u)|
        decreases rest
      {
        var id :| id in rest;
        forall u
          ensures |WithUpstream(flows - (rest - {id}), u)|
               == |WithUpstream(flows - rest, u)| + if flows[id].upstream == u then 1 else 0
        {
          assert WithUpstream(flows - (rest - {id}), u)
              == if flows[id].upstream == u then WithUpstream(flows - rest, u) + {id}
                 else WithUpstream(flows - rest, u);
        }
        rest := rest - {id};
        upstreams := upstreams + [flows[id].upstream];
      }
      assert flows - rest == flows;
    }

    /** Empties the registry and returns every upstream still owned, one per flow. */
    method Close() returns (upstreams: seq<Upstream>)
      requires Valid()
      modifies this
      ensures Valid() && View() == old(View()).Close()
      ensures forall u :: multiset(upstreams)[u] == FlowRegistry.ClosedBy(old(View()), OpClose, u)
    {
      StepKeepsInv(View(), OpClose);
      upstreams := [];
      if closed {
        return;
      }
      upstreams := CollectUpstreams();
      closed, flows, counts := true, map[], map[];
    }
  }
}
