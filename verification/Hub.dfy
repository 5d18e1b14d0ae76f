/**
 The constellation hub: one record per logical constellation, each with its
 own lease controller, beside the registry of attach tickets.

 `HubState` is the value of the hub; `Create`, `Attach`, the two halves of
 closing an attachment and the sweep of inactive records are its critical
 sections, which the run system below interleaves with the clock.
 */
module ConstellationHub {
  import opened Common
  import opened LC = LeaseController
  import opened LeaseTickets

  const MIN_CONSTELLATION_TTL: int := 5 * SECOND
  const MAX_CONSTELLATION_TTL: int := 3600 * SECOND
  const MAX_CONSTELLATIONS: nat := 4096

  datatype HubError =
    | HubConfig | HubClosed | HubCapacity | HubDuplicate | HubBinding
    | ControllerFailure(controller: ControllerError)
    | TicketFailure(ticket: TicketError)

  datatype HubRecord = HubRecord(principal: LC.Id, controller: Ctl, lastSeen: int)

  type Records = map<LC.Id, HubRecord>

  /** What identifies the carrier session that asks for a lease. */
  datatype Request = Request(
    principal: LC.Id,
    constellation: LC.Id,
    transcript: LC.Id,
    leaseKey: LC.Id,
    carrier: Carrier,
    resource: Resource)
  {
    predicate WellFormed() {
      principal != 0 && constellation != 0 && transcript != 0 && leaseKey != 0
      && !carrier.UnknownCarrier? && resource != 0
    }

    function Candidate(): (c: Candidate) {
      LC.Candidate(leaseKey, principal, constellation, carrier, resource)
    }
  }

  /**
   What `cleanup` leaves: exactly the records that hold a lease, were seen
   less than the inactivity period ago, or were seen later than `now`, each as
   it was.
   */
  ghost predicate Cleaned(before: Records, after: Records, inactiveTtl: int, now: int) {
    && (forall c :: c in after <==>
          && c in before
          && (before[c].controller.leases != map[] || now < before[c].lastSeen
              || now - before[c].lastSeen < inactiveTtl))
    && forall c :: c in after ==> after[c] == before[c]
  }

  /** What an undelivered admission needs in order to be taken back. */
  datatype Admission =
    | Issued(principal: LC.Id, next: Ticket)
    | Rotated(principal: LC.Id, current: Ticket, next: Ticket, grant: Grant)

  datatype HubState = HubState(
    records: Records,
    registry: Registry,
    maxConstellations: nat,
    maxLeases: nat,
    maxDraining: nat,
    inactiveTtl: int,
    closed: bool)
  {
    /** The configuration `NewHub` accepts. */
    predicate Configured() {
      && 0 < maxConstellations <= MAX_CONSTELLATIONS
      && 0 < maxLeases <= 8 && 0 < maxDraining <= 8
      && MIN_CONSTELLATION_TTL <= inactiveTtl <= MAX_CONSTELLATION_TTL
      && registry.ttl <= inactiveTtl
      && MIN_TICKET_TTL <= registry.ttl <= MAX_TICKET_TTL
      && 0 < registry.maxTickets <= MAX_LEASE_TICKETS
    }

    /** A record without leases that has not been seen for the inactivity period. */
    predicate Stale(record: HubRecord, now: int) {
      record.controller.leases == map[] && now >= record.lastSeen && now - record.lastSeen >= inactiveTtl
    }

    function Sweep(now: int): (h: HubState) {
      if closed then this
      else this.(records := map c | c in records && !Stale(records[c], now) :: records[c])
    }

    function CreateError(request: Request, now: int, draws: seq<Ticket>): (e: Option<HubError>) {
      if !request.WellFormed() then Some(HubBinding)
      else if closed then Some(HubClosed)
      else if request.constellation in records then Some(HubDuplicate)
      else if |records| >= maxConstellations then Some(HubCapacity)
      else match registry.IssueError(request.principal, request.constellation, request.transcript, now, draws)
        case Some(error) => Some(TicketFailure(error))
        case None => None
    }

    /** The section of `create` after its sweep. */
    function Create(request: Request, now: int, draws: seq<Ticket>): (h: HubState) {
      match CreateError(request, now, draws)
      case None =>
        var controller := Unstarted(request.principal, request.constellation, maxLeases, maxDraining)
                          .Add(request.Candidate());
        this.(records := records[request.constellation := HubRecord(request.principal, controller, now)],
              registry := registry.Issue(request.principal, request.constellation, request.transcript, now, draws))
      case Some(TicketFailure(_)) =>
        this.(registry := registry.Issue(request.principal, request.constellation, request.transcript, now, draws))
      case Some(_) => this
    }

    function AttachError(request: Request, ticket: Ticket, now: int, draws: seq<Ticket>): (e: Option<HubError>) {
      if !request.WellFormed() then Some(HubBinding)
      else if closed then Some(HubClosed)
      else if request.constellation !in records then Some(HubBinding)
      else
        var record := records[request.constellation];
        if record.principal != request.principal then Some(HubBinding)
        else match record.controller.AddError(request.Candidate())
          case Some(error) => Some(ControllerFailure(error))
          case None =>
            match registry.RotateError(ticket, request.principal, request.constellation, request.transcript, now, draws)
            case Some(error) => Some(TicketFailure(error))
            case None => None
    }

    /** The section of `attach` after its sweep: a refused rotation takes the new lease back. */
    function Attach(request: Request, ticket: Ticket, now: int, draws: seq<Ticket>): (h: HubState) {
      match AttachError(request, ticket, now, draws)
      case None =>
        var record := records[request.constellation];
        var controller := record.controller.Add(request.Candidate());
        this.(records := records[request.constellation := HubRecord(record.principal, controller, now)],
              registry := registry.Rotate(ticket, request.principal, request.constellation, request.transcript,
                                          now, draws))
      case Some(TicketFailure(_)) =>
        var record := records[request.constellation];
        var id := record.controller.Slot();
        var controller := record.controller.Add(request.Candidate()).Remove(id, false);
        this.(records := records[request.constellation := record.(controller := controller)],
              registry := registry.Rotate(ticket, request.principal, request.constellation, request.transcript,
                                          now, draws))
      case Some(_) => this
    }

    /** `abortAdmission`: the ticket half of taking an admission back. */
    function Abort(constellation: LC.Id, admission: Admission, now: int): (h: HubState) {
      match admission
      case Issued(principal, next) =>
        this.(registry := registry.Revoke(next, principal, constellation, now))
      case Rotated(principal, current, next, grant) =>
        this.(registry := registry.Rollback(current, next, principal, constellation, grant, now))
    }

    /** `discard`: an undelivered create removes its record while its lease is still primary. */
    function Discard(constellation: LC.Id, lease: LC.Id): (h: HubState) {
      if constellation in records && records[constellation].controller.primary == lease
      then this.(records := records - {constellation})
      else this
    }

    /** The first two regions of `release`: the record is looked up and its lease goes. */
    function Fail(constellation: LC.Id, lease: LC.Id): (h: HubState) {
      if constellation !in records then this
      else
        var record := records[constellation];
        this.(records := records[constellation := record.(controller := record.controller.Remove(lease, false))])
    }

    /** The last region of `release`: the record, if it is still there, counts as seen. */
    function Seen(constellation: LC.Id, now: int): (h: HubState) {
      if constellation !in records then this
      else this.(records := records[constellation := records[constellation].(lastSeen := now)])
    }
  }

  // ---------------------------------------------------------------------
  // Runs
  // ---------------------------------------------------------------------

  /** A leaving attachment has given its lease up and has yet to mark its record as seen. */
  datatype Phase = Pending(admission: Admission) | Committed | Undone(created: bool) | Leaving

  /** An attachment that has not been closed yet. */
  datatype Attachment = Attachment(constellation: LC.Id, lease: LC.Id, ticket: Ticket, phase: Phase)

  type AttachmentId = nat

  datatype Sys = Sys(hub: HubState, now: int, attachments: map<AttachmentId, Attachment>)

  datatype Event =
    | Tick(now: int)
    | Sweep
    | Create(id: AttachmentId, request: Request, draws: seq<Ticket>)
    | Attach(id: AttachmentId, request: Request, ticket: Ticket, draws: seq<Ticket>)
    | Commit(id: AttachmentId)
    | Abort(id: AttachmentId)
    | Finish(id: AttachmentId)
    | Leave(id: AttachmentId, same: bool)

  /** Only `ticket` may be redeemable for this constellation. */
  predicate AtMost(live: Tickets, constellation: LC.Id, ticket: Ticket) {
    forall t :: t in live && live[t].constellation == constellation ==> t == ticket
  }

  /** No other attachment holds a lease of this attachment's constellation. */
  predicate Alone(attachments: map<AttachmentId, Attachment>, id: AttachmentId)
    requires id in attachments
  {
    forall b :: b in attachments && b != id && attachments[b].constellation == attachments[id].constellation ==>
      attachments[b].phase.Leaving?
  }

  /**
   A create may still be taken back: its ticket has not been redeemed, so its
   constellation has no other ticket and no other lease.
   */
  predicate Unredeemed(s: Sys, id: AttachmentId)
    requires id in s.attachments && s.attachments[id].phase.Pending?
  {
    && AtMost(LiveTickets(s), s.attachments[id].constellation, s.attachments[id].phase.admission.next)
    && Alone(s.attachments, id)
  }

  /** What the objects themselves allow. */
  predicate Enabled(s: Sys, e: Event) {
    match e
    case Tick(now) => s.now <= now
    case Sweep => true
    case Create(id, _, _) => id !in s.attachments
    case Attach(id, _, _, _) => id !in s.attachments
    case Commit(id) => id in s.attachments && s.attachments[id].phase.Pending?
    case Abort(id) => id in s.attachments && s.attachments[id].phase.Pending?
    case Finish(id) =>
      id in s.attachments && !s.attachments[id].phase.Pending? && !s.attachments[id].phase.Leaving?
    case Leave(id, _) => id in s.attachments && s.attachments[id].phase.Leaving?
  }

  /** And what the run theorems ask for: no create is taken back once its ticket has been redeemed. */
  predicate Possible(s: Sys, e: Event) {
    && Enabled(s, e)
    && (e.Abort? && s.attachments[e.id].phase.admission.Issued? ==> Unredeemed(s, e.id))
  }

  function DoCreate(s: Sys, id: AttachmentId, request: Request, draws: seq<Ticket>): (r: Sys) {
    var hub := s.hub.Create(request, s.now, draws);
    if s.hub.CreateError(request, s.now, draws).Some? then s.(hub := hub)
    else
      var ticket := s.hub.registry.Draw(s.now, draws).value;
      s.(hub := hub,
         attachments := s.attachments[id :=
           Attachment(request.constellation, 1, ticket, Pending(Issued(request.principal, ticket)))])
  }

  function DoAttach(s: Sys, id: AttachmentId, request: Request, ticket: Ticket, draws: seq<Ticket>): (r: Sys) {
    var hub := s.hub.Attach(request, ticket, s.now, draws);
    if s.hub.AttachError(request, ticket, s.now, draws).Some? then s.(hub := hub)
    else
      var next := s.hub.registry.Draw(s.now, draws).value;
      var grant := GrantOf(s.hub.registry.tickets[ticket]);
      s.(hub := hub,
         attachments := s.attachments[id :=
           Attachment(request.constellation, s.hub.records[request.constellation].controller.Slot(), next,
                      Pending(Rotated(request.principal, ticket, next, grant)))])
  }

  function DoAbort(s: Sys, id: AttachmentId): (r: Sys)
    requires id in s.attachments && s.attachments[id].phase.Pending?
  {
    var a := s.attachments[id];
    s.(hub := s.hub.Abort(a.constellation, a.phase.admission, s.now),
       attachments := s.attachments[id := a.(phase := Undone(a.phase.admission.Issued?))])
  }

  /** Closing an attachment: an undone create discards its record, anything else gives its lease up. */
  function DoFinish(s: Sys, id: AttachmentId): (r: Sys)
    requires id in s.attachments
  {
    var a := s.attachments[id];
    if a.phase == Undone(true)
    then s.(hub := s.hub.Discard(a.constellation, a.lease), attachments := s.attachments - {id})
    else s.(hub := s.hub.Fail(a.constellation, a.lease), attachments := s.attachments[id := a.(phase := Leaving)])
  }

  /** The record is marked as seen if it is the `same` one; the model leaves open whether it is. */
  function DoLeave(s: Sys, id: AttachmentId, same: bool): (r: Sys)
    requires id in s.attachments
  {
    s.(hub := if same then s.hub.Seen(s.attachments[id].constellation, s.now) else s.hub,
       attachments := s.attachments - {id})
  }

  function Next(s: Sys, e: Event): (r: Sys)
    requires Enabled(s, e)
  {
    match e
    case Tick(now) => s.(now := now)
    case Sweep => s.(hub := s.hub.Sweep(s.now))
    case Create(id, request, draws) => DoCreate(s, id, request, draws)
    case Attach(id, request, ticket, draws) => DoAttach(s, id, request, ticket, draws)
    case Commit(id) => s.(attachments := s.attachments[id := s.attachments[id].(phase := Committed)])
    case Abort(id) => DoAbort(s, id)
    case Finish(id) => DoFinish(s, id)
    case Leave(id, same) => DoLeave(s, id, same)
  }

  // ---------------------------------------------------------------------
  // The invariant
  // ---------------------------------------------------------------------

  /** A ticket that could be redeemed belongs to a record of its principal that outlives it. */
  ghost predicate Backed(records: Records, inactiveTtl: int, ticket: TicketRecord) {
    && ticket.constellation in records
    && records[ticket.constellation].principal == ticket.principal
    && ticket.expiresAt <= records[ticket.constellation].lastSeen + inactiveTtl
  }

  /** No constellation has two tickets. */
  ghost predicate Exclusive(live: Tickets) {
    forall t, u :: t in live && u in live && live[t].constellation == live[u].constellation ==> t == u
  }

  ghost predicate TicketsOk(live: Tickets, records: Records, inactiveTtl: int, latest: int) {
    && Exclusive(live)
    && forall t :: t in live ==>
         && t != 0 && live[t].expiresAt <= latest && live[t].transcript != 0
         && Backed(records, inactiveTtl, live[t])
  }

  ghost predicate RecordsOk(records: Records, now: int) {
    forall c :: c in records ==> c != 0 && records[c].lastSeen <= now
  }

  /** Every record's controller keeps its invariant, and its identifiers have not wrapped around. */
  ghost predicate ControllersOk(records: Records) {
    forall c :: c in records ==> LC.Inv(records[c].controller) && Unwrapped(records[c].controller)
  }

  /** A create that has been taken back and whose record has yet to go. */
  predicate Unsettled(a: Attachment) {
    a.phase == Undone(true)
  }

  ghost predicate AttachmentOk(live: Tickets, records: Records, inactiveTtl: int, latest: int, a: Attachment) {
    a.phase.Leaving? || HoldsLease(live, records, inactiveTtl, latest, a)
  }

  ghost predicate HoldsLease(live: Tickets, records: Records, inactiveTtl: int, latest: int, a: Attachment) {
    && a.constellation in records
    && a.lease in records[a.constellation].controller.leases
    && match a.phase
       case Leaving => true
       case Committed => true
       case Pending(Issued(principal, next)) =>
         principal == records[a.constellation].principal && principal != 0 && next != 0
       case Pending(Rotated(principal, current, next, grant)) =>
         && grant.expiresAt <= records[a.constellation].lastSeen + inactiveTtl
         && grant.expiresAt <= latest && grant.transcript != 0
       case Undone(created) => created ==> AtMost(live, a.constellation, 0)
  }

  /** Attachments of one constellation have different leases; a create taken back has it to itself. */
  ghost predicate Apart(a: Attachment, b: Attachment) {
    a.constellation == b.constellation && !a.phase.Leaving? && !b.phase.Leaving? ==>
      a.lease != b.lease && !Unsettled(a) && !Unsettled(b)
  }

  ghost predicate AttachmentsOk(live: Tickets, records: Records, inactiveTtl: int, latest: int,
                                attachments: map<AttachmentId, Attachment>)
  {
    && (forall a :: a in attachments ==> AttachmentOk(live, records, inactiveTtl, latest, attachments[a]))
    && (forall a, b :: a in attachments && b in attachments && a != b ==> Apart(attachments[a], attachments[b]))
  }

  function LiveTickets(s: Sys): (live: Tickets) {
    Live(s.hub.registry.tickets, s.now)
  }

  /** The latest time any ticket issued so far can expire. */
  function Latest(s: Sys): (time: int) {
    s.now + s.hub.registry.ttl
  }

  /** Tickets, records and attachments agree. */
  ghost predicate AdmissionInv(s: Sys) {
    && s.hub.Configured() && !s.hub.closed && !s.hub.registry.closed
    && RecordsOk(s.hub.records, s.now)
    && TicketsOk(LiveTickets(s), s.hub.records, s.hub.inactiveTtl, Latest(s))
    && AttachmentsOk(LiveTickets(s), s.hub.records, s.hub.inactiveTtl, Latest(s), s.attachments)
  }

  ghost predicate HubInv(s: Sys) {
    AdmissionInv(s) && ControllersOk(s.hub.records)
  }

  /** The identifier the next lease of this constellation gets is not in use. */
  predicate SlotFree(records: Records, c: LC.Id) {
    c in records ==> records[c].controller.Slot() !in records[c].controller.leases
  }

  /** No lease counter reaches its end within `n` more admissions. */
  ghost predicate Room(s: Sys, n: nat) {
    n + 2 <= MAX_UINT64 && forall c :: c in s.hub.records ==> s.hub.records[c].controller.nextId + n <= MAX_UINT64
  }
}
