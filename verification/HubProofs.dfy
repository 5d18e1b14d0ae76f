/** Every step of the hub preserves its invariant. */
module HubProofs {
  import opened Common
  import opened LC = LeaseController
  import opened LeaseTickets
  import opened ConstellationHub

  lemma LiveLater(tickets: Tickets, now: int, later: int)
    requires now <= later
    ensures Live(Live(tickets, now), later) == Live(tickets, later)
    ensures Live(tickets, later).Keys <= Live(tickets, now).Keys
  {
  }

  lemma InvTick(s: Sys, now: int)
    requires AdmissionInv(s) && s.now <= now
    ensures AdmissionInv(s.(now := now))
  {
    LiveLater(s.hub.registry.tickets, s.now, now);
  }

  lemma InvSweep(s: Sys)
    requires AdmissionInv(s)
    ensures AdmissionInv(s.(hub := s.hub.Sweep(s.now)))
  {
  }

  /** Dropping expired tickets changes nothing that matters. */
  lemma InvRegistrySwept(s: Sys, r: Sys)
    requires AdmissionInv(s)
    requires r == s.(hub := s.hub.(registry := r.hub.registry))
    requires r.hub.registry == s.hub.registry || r.hub.registry == s.hub.registry.Swept(s.now)
    ensures AdmissionInv(r)
  {
    LiveLater(s.hub.registry.tickets, s.now, s.now);
    assert LiveTickets(r) == LiveTickets(s);
  }

  lemma LiveAfterIssue(registry: Registry, request: Request, now: int, draws: seq<Ticket>)
    requires registry.IssueError(request.principal, request.constellation, request.transcript, now, draws).None?
    requires 0 < registry.ttl
    ensures var r := registry.Issue(request.principal, request.constellation, request.transcript, now, draws);
            Live(r.tickets, now) == Live(registry.tickets, now)
              [registry.Draw(now, draws).value :=
                 TicketRecord(request.principal, request.constellation, request.transcript, now + registry.ttl)]
  {
  }

  lemma LiveAfterRotate(registry: Registry, ticket: Ticket, request: Request, now: int, draws: seq<Ticket>)
    requires registry.RotateError(ticket, request.principal, request.constellation, request.transcript, now,
                                  draws).None?
    requires 0 < registry.ttl
    ensures var r := registry.Rotate(ticket, request.principal, request.constellation, request.transcript, now, draws);
            Live(r.tickets, now) == (Live(registry.tickets, now) - {ticket})
              [registry.Draw(now, draws).value :=
                 TicketRecord(request.principal, request.constellation, request.transcript, now + registry.ttl)]
  {
  }

  /** A new ticket for a constellation that had none. */
  lemma TicketAdded(live: Tickets, records: Records, inactiveTtl: int, latest: int, t: Ticket, r: TicketRecord)
    requires TicketsOk(live, records, inactiveTtl, latest)
    requires AtMost(live, r.constellation, t) && t != 0 && t !in live
    requires r.expiresAt <= latest && r.transcript != 0 && Backed(records, inactiveTtl, r)
    ensures TicketsOk(live[t := r], records, inactiveTtl, latest)
  {
  }

  /** A record that appears, or is seen again, backs at least what it backed before. */
  lemma RecordSeen(live: Tickets, records: Records, inactiveTtl: int, latest: int, c: LC.Id, record: HubRecord)
    requires TicketsOk(live, records, inactiveTtl, latest)
    requires c in records ==> records[c].principal == record.principal && records[c].lastSeen <= record.lastSeen
    ensures TicketsOk(live, records[c := record], inactiveTtl, latest)
  {
  }

  /** A new attachment beside the old ones: only its own constellation's record and tickets change. */
  lemma AttachmentAdded(live: Tickets, live': Tickets, records: Records, record: HubRecord, inactiveTtl: int,
                        latest: int, attachments: map<AttachmentId, Attachment>, id: AttachmentId, a: Attachment)
    requires AttachmentsOk(live, records, inactiveTtl, latest, attachments) && id !in attachments
    requires forall b :: b in attachments && attachments[b].constellation == a.constellation
                         && !attachments[b].phase.Leaving? ==>
               !Unsettled(attachments[b]) && !Unsettled(a) && attachments[b].lease != a.lease
    requires a.constellation in records ==>
               && records[a.constellation].lastSeen <= record.lastSeen
               && records[a.constellation].principal == record.principal
               && records[a.constellation].controller.leases.Keys <= record.controller.leases.Keys
    requires forall t :: t in live' && live'[t].constellation != a.constellation ==> t in live && live'[t] == live[t]
    requires AttachmentOk(live', records[a.constellation := record], inactiveTtl, latest, a)
    ensures AttachmentsOk(live', records[a.constellation := record], inactiveTtl, latest, attachments[id := a])
  {
    forall b | b in attachments
      ensures AttachmentOk(live', records[a.constellation := record], inactiveTtl, latest, attachments[b])
    {
      assert AttachmentOk(live, records, inactiveTtl, latest, attachments[b]);
    }
  }

  lemma CreatedTickets(s: Sys, id: AttachmentId, request: Request, draws: seq<Ticket>)
    requires AdmissionInv(s) && s.hub.CreateError(request, s.now, draws).None?
    ensures var r := DoCreate(s, id, request, draws);
            TicketsOk(LiveTickets(r), r.hub.records, r.hub.inactiveTtl, Latest(r))
  {
    var r := DoCreate(s, id, request, draws);
    var live: Tickets := LiveTickets(s);
    var c := request.constellation;
    var ticket := s.hub.registry.Draw(s.now, draws).value;
    LiveAfterIssue(s.hub.registry, request, s.now, draws);
    RecordSeen(live, s.hub.records, s.hub.inactiveTtl, Latest(s), c, r.hub.records[c]);
    assert AtMost(live, c, ticket);
    TicketAdded(live, r.hub.records, s.hub.inactiveTtl, Latest(s), ticket, LiveTickets(r)[ticket]);
  }

  lemma CreatedController(s: Sys, id: AttachmentId, request: Request, draws: seq<Ticket>)
    requires s.hub.Configured() && s.hub.CreateError(request, s.now, draws).None?
    ensures var c := DoCreate(s, id, request, draws).hub.records[request.constellation].controller;
            LC.Inv(c) && Unwrapped(c) && c.nextId == 2 && 1 in c.leases
  {
    StartedIsOk(request.principal, request.constellation, s.hub.maxLeases, s.hub.maxDraining, request.Candidate());
  }

  lemma CreatedLease(s: Sys, id: AttachmentId, request: Request, draws: seq<Ticket>)
    requires s.hub.Configured() && s.hub.CreateError(request, s.now, draws).None?
    ensures 1 in DoCreate(s, id, request, draws).hub.records[request.constellation].controller.leases
  {
    CreatedController(s, id, request, draws);
  }

  lemma CreatedAttachments(s: Sys, id: AttachmentId, request: Request, draws: seq<Ticket>)
    requires AdmissionInv(s) && id !in s.attachments && s.hub.CreateError(request, s.now, draws).None?
    ensures var r := DoCreate(s, id, request, draws);
            AttachmentsOk(LiveTickets(r), r.hub.records, r.hub.inactiveTtl, Latest(r), r.attachments)
  {
    var r := DoCreate(s, id, request, draws);
    var live: Tickets := LiveTickets(s);
    var c := request.constellation;
    LiveAfterIssue(s.hub.registry, request, s.now, draws);
    CreatedLease(s, id, request, draws);
    AttachmentAdded(live, LiveTickets(r), s.hub.records, r.hub.records[c], s.hub.inactiveTtl, Latest(s),
                    s.attachments, id, r.attachments[id]);
  }

  lemma InvCreate(s: Sys, id: AttachmentId, request: Request, draws: seq<Ticket>)
    requires AdmissionInv(s) && id !in s.attachments
    ensures AdmissionInv(DoCreate(s, id, request, draws))
  {
    if s.hub.CreateError(request, s.now, draws).None? {
      CreatedTickets(s, id, request, draws);
      CreatedAttachments(s, id, request, draws);
    } else {
      InvRegistrySwept(s, DoCreate(s, id, request, draws));
    }
  }

  /** A lease taken back right after it was admitted leaves the leases as they were. */
  lemma AddThenRemove(c: Ctl, candidate: Candidate)
    requires c.AddError(candidate).None? && c.Slot() !in c.leases
    ensures c.Add(candidate).Remove(c.Slot(), false).leases == c.leases
  {
  }

  lemma InvAttachRefused(s: Sys, id: AttachmentId, request: Request, ticket: Ticket, draws: seq<Ticket>)
    requires AdmissionInv(s) && Possible(s, Attach(id, request, ticket, draws))
    requires SlotFree(s.hub.records, request.constellation)
    requires s.hub.AttachError(request, ticket, s.now, draws).Some?
    ensures AdmissionInv(DoAttach(s, id, request, ticket, draws))
  {
    var r := DoAttach(s, id, request, ticket, draws);
    if s.hub.AttachError(request, ticket, s.now, draws).value.TicketFailure? {
      var c := request.constellation;
      AddThenRemove(s.hub.records[c].controller, request.Candidate());
      var t := s.(hub := s.hub.(registry := r.hub.registry));
      InvRegistrySwept(s, t);
      RecordSeen(LiveTickets(t), t.hub.records, t.hub.inactiveTtl, Latest(t), c, r.hub.records[c]);
      assert AttachmentsOk(LiveTickets(r), r.hub.records, r.hub.inactiveTtl, Latest(r), r.attachments);
    }
  }

  lemma AttachedTickets(s: Sys, id: AttachmentId, request: Request, ticket: Ticket, draws: seq<Ticket>)
    requires AdmissionInv(s) && s.hub.AttachError(request, ticket, s.now, draws).None?
    ensures var r := DoAttach(s, id, request, ticket, draws);
            TicketsOk(LiveTickets(r), r.hub.records, r.hub.inactiveTtl, Latest(r))
  {
    var r := DoAttach(s, id, request, ticket, draws);
    var live: Tickets := LiveTickets(s);
    var c := request.constellation;
    var next := s.hub.registry.Draw(s.now, draws).value;
    LiveAfterRotate(s.hub.registry, ticket, request, s.now, draws);
    var left := live - {ticket};
    assert TicketsOk(left, s.hub.records, s.hub.inactiveTtl, Latest(s));
    RecordSeen(left, s.hub.records, s.hub.inactiveTtl, Latest(s), c, r.hub.records[c]);
    assert AtMost(left, c, next) by { assert ticket in live && live[ticket].constellation == c; }
    TicketAdded(left, r.hub.records, s.hub.inactiveTtl, Latest(s), next, LiveTickets(r)[next]);
  }

  lemma AttachedAttachments(s: Sys, id: AttachmentId, request: Request, ticket: Ticket, draws: seq<Ticket>)
    requires AdmissionInv(s) && Possible(s, Attach(id, request, ticket, draws))
    requires SlotFree(s.hub.records, request.constellation)
    requires s.hub.AttachError(request, ticket, s.now, draws).None?
    ensures var r := DoAttach(s, id, request, ticket, draws);
            AttachmentsOk(LiveTickets(r), r.hub.records, r.hub.inactiveTtl, Latest(r), r.attachments)
  {
    var r := DoAttach(s, id, request, ticket, draws);
    var live: Tickets := LiveTickets(s);
    var c := request.constellation;
    LiveAfterRotate(s.hub.registry, ticket, request, s.now, draws);
    assert ticket in live && live[ticket].constellation == c;
    AttachedOthers(s, request, ticket);
    AttachmentAdded(live, LiveTickets(r), s.hub.records, r.hub.records[c], s.hub.inactiveTtl, Latest(s),
                    s.attachments, id, r.attachments[id]);
  }

  /** A redeemed ticket's constellation has no attachment whose create was taken back. */
  lemma AttachedOthers(s: Sys, request: Request, ticket: Ticket)
    requires AdmissionInv(s)
    requires ticket in LiveTickets(s) && LiveTickets(s)[ticket].constellation == request.constellation
    ensures forall a :: a in s.attachments && s.attachments[a].constellation == request.constellation ==>
              !Unsettled(s.attachments[a])
  {
    forall a | a in s.attachments && s.attachments[a].constellation == request.constellation
      ensures !Unsettled(s.attachments[a])
    {
      assert AttachmentOk(LiveTickets(s), s.hub.records, s.hub.inactiveTtl, Latest(s), s.attachments[a]);
    }
  }

  lemma InvAttach(s: Sys, id: AttachmentId, request: Request, ticket: Ticket, draws: seq<Ticket>)
    requires AdmissionInv(s) && Possible(s, Attach(id, request, ticket, draws))
    requires SlotFree(s.hub.records, request.constellation)
    ensures AdmissionInv(DoAttach(s, id, request, ticket, draws))
  {
    if s.hub.AttachError(request, ticket, s.now, draws).None? {
      AttachedTickets(s, id, request, ticket, draws);
      AttachedAttachments(s, id, request, ticket, draws);
    } else {
      InvAttachRefused(s, id, request, ticket, draws);
    }
  }

  lemma InvCommit(s: Sys, id: AttachmentId)
    requires AdmissionInv(s) && Possible(s, Commit(id))
    ensures AdmissionInv(Next(s, Commit(id)))
  {
  }

  lemma InvRevoked(s: Sys, id: AttachmentId)
    requires AdmissionInv(s) && Possible(s, Abort(id)) && s.attachments[id].phase.admission.Issued?
    ensures AdmissionInv(DoAbort(s, id))
  {
    var a := s.attachments[id];
    var r := DoAbort(s, id);
    assert AttachmentOk(LiveTickets(s), s.hub.records, s.hub.inactiveTtl, Latest(s), a);
    assert LiveTickets(r).Keys == LiveTickets(s).Keys - {a.phase.admission.next} || LiveTickets(r) == LiveTickets(s);
    assert AtMost(LiveTickets(r), a.constellation, 0);
  }

  lemma LiveAfterRollback(registry: Registry, current: Ticket, next: Ticket, principal: LC.Id, constellation: LC.Id,
                          grant: Grant, now: int)
    ensures var live := Live(registry.tickets, now);
            Live(registry.Rollback(current, next, principal, constellation, grant, now).tickets, now)
            == if registry.RollbackError(current, next, principal, constellation, grant, now).Some? then live
               else (live - {next})[current :=
                      TicketRecord(principal, constellation, grant.transcript, grant.expiresAt)]
  {
  }

  /** Restoring the consumed ticket in place of its unused successor. */
  lemma TicketRestored(live: Tickets, records: Records, inactiveTtl: int, latest: int,
                       next: Ticket, current: Ticket, r: TicketRecord)
    requires TicketsOk(live, records, inactiveTtl, latest)
    requires next in live && live[next].constellation == r.constellation && live[next].principal == r.principal
    requires current != 0 && current !in live && r.expiresAt <= latest && r.transcript != 0
    requires r.constellation in records && r.expiresAt <= records[r.constellation].lastSeen + inactiveTtl
    ensures TicketsOk((live - {next})[current := r], records, inactiveTtl, latest)
  {
  }

  lemma InvRolledBack(s: Sys, id: AttachmentId)
    requires AdmissionInv(s) && Possible(s, Abort(id)) && s.attachments[id].phase.admission.Rotated?
    ensures AdmissionInv(DoAbort(s, id))
  {
    var a := s.attachments[id];
    var Rotated(principal, current, next, grant) := a.phase.admission;
    var r := DoAbort(s, id);
    var live := LiveTickets(s);
    assert AttachmentOk(live, s.hub.records, s.hub.inactiveTtl, Latest(s), a);
    LiveAfterRollback(s.hub.registry, current, next, principal, a.constellation, grant, s.now);
    if s.hub.registry.RollbackError(current, next, principal, a.constellation, grant, s.now).None? {
      TicketRestored(live, s.hub.records, s.hub.inactiveTtl, Latest(s), next, current, LiveTickets(r)[current]);
    }
    assert AttachmentsOk(LiveTickets(r), r.hub.records, r.hub.inactiveTtl, Latest(r), r.attachments);
  }

  lemma InvAbort(s: Sys, id: AttachmentId)
    requires AdmissionInv(s) && Possible(s, Abort(id))
    ensures AdmissionInv(DoAbort(s, id))
  {
    if s.attachments[id].phase.admission.Issued? {
      InvRevoked(s, id);
    } else {
      InvRolledBack(s, id);
    }
  }

  lemma InvFinish(s: Sys, id: AttachmentId)
    requires AdmissionInv(s) && Possible(s, Finish(id))
    ensures AdmissionInv(DoFinish(s, id))
  {
  }

  lemma InvLeave(s: Sys, id: AttachmentId, same: bool)
    requires AdmissionInv(s) && Possible(s, Leave(id, same))
    ensures AdmissionInv(DoLeave(s, id, same))
  {
  }

  // ---------------------------------------------------------------------
  // The controllers
  // ---------------------------------------------------------------------

  lemma UnwrappedIsFree(records: Records, c: LC.Id)
    requires ControllersOk(records)
    ensures SlotFree(records, c)
  {
  }

  lemma ControllerReplaced(records: Records, c: LC.Id, record: HubRecord)
    requires ControllersOk(records) && LC.Inv(record.controller) && Unwrapped(record.controller)
    ensures ControllersOk(records[c := record])
  {
  }

  /** Admission into a controller with room keeps its invariant, and so does taking the lease back. */
  lemma AdmittedController(c: Ctl, candidate: Candidate)
    requires LC.Inv(c) && Unwrapped(c) && c.nextId < MAX_UINT64 && c.AddError(candidate).None?
    ensures LC.Inv(c.Add(candidate)) && Unwrapped(c.Add(candidate))
    ensures var back := c.Add(candidate).Remove(c.Slot(), false); LC.Inv(back) && Unwrapped(back)
  {
    UnwrappedStep(c, OpAdd(candidate));
    AddKeepsInv(c, candidate);
    RemoveKeepsInv(c.Add(candidate), c.Slot(), false);
  }

  lemma ControllersAttach(s: Sys, id: AttachmentId, request: Request, ticket: Ticket, draws: seq<Ticket>)
    requires ControllersOk(s.hub.records) && Room(s, 1)
    ensures ControllersOk(DoAttach(s, id, request, ticket, draws).hub.records)
  {
    var error := s.hub.AttachError(request, ticket, s.now, draws);
    if error.None? || error.value.TicketFailure? {
      var c := request.constellation;
      AdmittedController(s.hub.records[c].controller, request.Candidate());
      ControllerReplaced(s.hub.records, c, DoAttach(s, id, request, ticket, draws).hub.records[c]);
    }
  }

  lemma ControllersFinish(s: Sys, id: AttachmentId)
    requires ControllersOk(s.hub.records) && id in s.attachments
    ensures ControllersOk(DoFinish(s, id).hub.records)
  {
    var a := s.attachments[id];
    if a.constellation in s.hub.records && a.phase != Undone(true) {
      var record := s.hub.records[a.constellation];
      RemoveKeepsInv(record.controller, a.lease, false);
      ControllerReplaced(s.hub.records, a.constellation,
                         record.(controller := record.controller.Remove(a.lease, false)));
    }
  }

  lemma ControllersStep(s: Sys, e: Event)
    requires s.hub.Configured() && ControllersOk(s.hub.records) && Room(s, 1) && Possible(s, e)
    ensures ControllersOk(Next(s, e).hub.records)
  {
    match e
    case Create(id, request, draws) =>
      if s.hub.CreateError(request, s.now, draws).None? {
        CreatedController(s, id, request, draws);
        ControllerReplaced(s.hub.records, request.constellation,
                           DoCreate(s, id, request, draws).hub.records[request.constellation]);
      }
    case Attach(id, request, ticket, draws) => ControllersAttach(s, id, request, ticket, draws);
    case Finish(id) => ControllersFinish(s, id);
    case _ =>
  }

  // ---------------------------------------------------------------------
  // Every run
  // ---------------------------------------------------------------------

  lemma AdmissionStep(s: Sys, e: Event)
    requires AdmissionInv(s) && Possible(s, e)
    requires e.Attach? ==> SlotFree(s.hub.records, e.request.constellation)
    ensures AdmissionInv(Next(s, e))
  {
    match e
    case Tick(now) => InvTick(s, now);
    case Sweep => InvSweep(s);
    case Create(id, request, draws) => InvCreate(s, id, request, draws);
    case Attach(id, request, ticket, draws) => InvAttach(s, id, request, ticket, draws);
    case Commit(id) => InvCommit(s, id);
    case Abort(id) => InvAbort(s, id);
    case Finish(id) => InvFinish(s, id);
    case Leave(id, same) => InvLeave(s, id, same);
  }

  lemma InvStep(s: Sys, e: Event)
    requires HubInv(s) && Room(s, 1) && Possible(s, e)
    ensures HubInv(Next(s, e))
  {
    if e.Attach? {
      UnwrappedIsFree(s.hub.records, e.request.constellation);
    }
    AdmissionStep(s, e);
    ControllersStep(s, e);
  }

  lemma IdentifiersUsed(c: Ctl, candidate: Candidate)
    requires Unwrapped(c)
    ensures c.Add(candidate).nextId <= c.nextId + 1
    ensures c.Add(candidate).Remove(c.Slot(), false).nextId <= c.nextId + 1
  {
  }

  lemma RoomAfterAttach(s: Sys, id: AttachmentId, request: Request, ticket: Ticket, draws: seq<Ticket>, n: nat)
    requires ControllersOk(s.hub.records) && Room(s, n + 1)
    ensures Room(DoAttach(s, id, request, ticket, draws), n)
  {
    if request.constellation in s.hub.records {
      IdentifiersUsed(s.hub.records[request.constellation].controller, request.Candidate());
    }
  }

  /** A step uses up at most one identifier of each controller. */
  lemma RoomStep(s: Sys, e: Event, n: nat)
    requires s.hub.Configured() && ControllersOk(s.hub.records) && Room(s, n + 1) && Possible(s, e)
    ensures Room(Next(s, e), n)
  {
    if e.Create? && s.hub.CreateError(e.request, s.now, e.draws).None? {
      CreatedController(s, e.id, e.request, e.draws);
    } else if e.Attach? {
      RoomAfterAttach(s, e.id, e.request, e.ticket, e.draws, n);
    }
  }

  ghost predicate Legal(s: Sys, events: seq<Event>)
    decreases |events|
  {
    events == [] || (Possible(s, events[0]) && Legal(Next(s, events[0]), events[1..]))
  }

  ghost function After(s: Sys, events: seq<Event>): (r: Sys)
    requires Legal(s, events)
    decreases |events|
  {
    if events == [] then s else After(Next(s, events[0]), events[1..])
  }

  lemma {:induction false} InvRun(s: Sys, events: seq<Event>)
    requires HubInv(s) && Room(s, |events|) && Legal(s, events)
    ensures HubInv(After(s, events))
    decreases |events|
  {
    if events != [] {
      InvStep(s, events[0]);
      RoomStep(s, events[0], |events| - 1);
      InvRun(Next(s, events[0]), events[1..]);
    }
  }

  // ---------------------------------------------------------------------
  // Runs that present no ticket of a pending create
  // ---------------------------------------------------------------------

  /** No ticket is presented while the create that issued it is still pending. */
  predicate Careful(s: Sys, e: Event) {
    e.Attach? ==>
      forall a :: a in s.attachments && s.attachments[a].constellation == e.request.constellation
                  && s.attachments[a].phase.Pending? && s.attachments[a].phase.admission.Issued? ==>
                    s.attachments[a].phase.admission.next != e.ticket
  }

  ghost predicate CarefulRun(s: Sys, events: seq<Event>)
    decreases |events|
  {
    events == []
    || (Enabled(s, events[0]) && Careful(s, events[0]) && CarefulRun(Next(s, events[0]), events[1..]))
  }

  /** This attachment is a create that could be taken back. */
  predicate PendingCreate(s: Sys, a: AttachmentId) {
    a in s.attachments && s.attachments[a].phase.Pending? && s.attachments[a].phase.admission.Issued?
  }

  ghost predicate CreatesUnredeemed(s: Sys) {
    forall a :: PendingCreate(s, a) ==> Unredeemed(s, a)
  }

  /** Nothing new of the constellations of pending creates, and no new pending create. */
  lemma StillUnredeemed(s: Sys, r: Sys, a: AttachmentId)
    requires PendingCreate(s, a) && Unredeemed(s, a) && a in r.attachments && r.attachments[a] == s.attachments[a]
    requires forall b :: b in r.attachments && !r.attachments[b].phase.Leaving?
                         && r.attachments[b].constellation == s.attachments[a].constellation ==>
               && b in s.attachments && !s.attachments[b].phase.Leaving?
               && s.attachments[b].constellation == s.attachments[a].constellation
    requires forall t :: t in LiveTickets(r) && LiveTickets(r)[t].constellation == s.attachments[a].constellation ==>
               t in LiveTickets(s) && LiveTickets(s)[t] == LiveTickets(r)[t]
    ensures Unredeemed(r, a)
  {
  }

  lemma CreateKeepsUnredeemed(s: Sys, id: AttachmentId, request: Request, draws: seq<Ticket>)
    requires AdmissionInv(s) && CreatesUnredeemed(s) && id !in s.attachments
    ensures CreatesUnredeemed(DoCreate(s, id, request, draws))
  {
    var r := DoCreate(s, id, request, draws);
    if s.hub.CreateError(request, s.now, draws).None? {
      LiveAfterIssue(s.hub.registry, request, s.now, draws);
      forall a | PendingCreate(r, a)
        ensures Unredeemed(r, a)
      {
        if a != id {
          assert AttachmentOk(LiveTickets(s), s.hub.records, s.hub.inactiveTtl, Latest(s), s.attachments[a]);
          assert PendingCreate(s, a);
          StillUnredeemed(s, r, a);
        }
      }
    } else {
      LiveLater(s.hub.registry.tickets, s.now, s.now);
      UnchangedUnredeemed(s, r);
    }
  }

  lemma UnchangedUnredeemed(s: Sys, r: Sys)
    requires CreatesUnredeemed(s) && r.attachments == s.attachments
    requires forall t :: t in LiveTickets(r) ==> t in LiveTickets(s) && LiveTickets(s)[t] == LiveTickets(r)[t]
    ensures CreatesUnredeemed(r)
  {
    forall a | PendingCreate(r, a)
      ensures Unredeemed(r, a)
    {
      assert PendingCreate(s, a);
    }
  }

  lemma AttachKeepsUnredeemed(s: Sys, id: AttachmentId, request: Request, ticket: Ticket, draws: seq<Ticket>)
    requires AdmissionInv(s) && CreatesUnredeemed(s) && id !in s.attachments
    requires Careful(s, Attach(id, request, ticket, draws))
    ensures CreatesUnredeemed(DoAttach(s, id, request, ticket, draws))
  {
    var r := DoAttach(s, id, request, ticket, draws);
    if s.hub.AttachError(request, ticket, s.now, draws).None? {
      LiveAfterRotate(s.hub.registry, ticket, request, s.now, draws);
      forall a | PendingCreate(r, a)
        ensures Unredeemed(r, a)
      {
        assert PendingCreate(s, a);
        assert ticket in LiveTickets(s);
        StillUnredeemed(s, r, a);
      }
    } else {
      LiveLater(s.hub.registry.tickets, s.now, s.now);
      UnchangedUnredeemed(s, r);
    }
  }

  lemma AbortKeepsUnredeemed(s: Sys, id: AttachmentId)
    requires AdmissionInv(s) && CreatesUnredeemed(s) && Enabled(s, Abort(id))
    ensures CreatesUnredeemed(DoAbort(s, id))
  {
    var r := DoAbort(s, id);
    var x := s.attachments[id];
    if x.phase.admission.Rotated? {
      var Rotated(principal, current, next, grant) := x.phase.admission;
      LiveAfterRollback(s.hub.registry, current, next, principal, x.constellation, grant, s.now);
    }
    forall a | PendingCreate(r, a)
      ensures Unredeemed(r, a)
    {
      assert PendingCreate(s, a);
      StillUnredeemed(s, r, a);
    }
  }

  lemma UnredeemedStep(s: Sys, e: Event)
    requires AdmissionInv(s) && CreatesUnredeemed(s) && Enabled(s, e) && Careful(s, e)
    ensures Possible(s, e) && CreatesUnredeemed(Next(s, e))
  {
    assert e.Abort? && s.attachments[e.id].phase.admission.Issued? ==> PendingCreate(s, e.id);
    match e
    case Create(id, request, draws) => CreateKeepsUnredeemed(s, id, request, draws);
    case Attach(id, request, ticket, draws) => AttachKeepsUnredeemed(s, id, request, ticket, draws);
    case Abort(id) => AbortKeepsUnredeemed(s, id);
    case Tick(now) =>
      LiveLater(s.hub.registry.tickets, s.now, now);
      UnchangedUnredeemed(s, Next(s, e));
    case Sweep => UnchangedUnredeemed(s, Next(s, e));
    case Commit(id) => SettledKeepsUnredeemed(s, Next(s, e), id);
    case Finish(id) => SettledKeepsUnredeemed(s, Next(s, e), id);
    case Leave(id, _) => SettledKeepsUnredeemed(s, Next(s, e), id);
  }

  lemma SettledKeepsUnredeemed(s: Sys, r: Sys, id: AttachmentId)
    requires CreatesUnredeemed(s) && id in s.attachments && LiveTickets(r) == LiveTickets(s)
    requires r.attachments - {id} == s.attachments - {id}
    requires id in r.attachments ==>
               && !r.attachments[id].phase.Pending?
               && r.attachments[id].constellation == s.attachments[id].constellation
               && (s.attachments[id].phase.Leaving? ==> r.attachments[id].phase.Leaving?)
    ensures CreatesUnredeemed(r)
  {
    var kept := s.attachments - {id};
    assert forall b :: b != id ==> (b in s.attachments <==> b in kept) && (b in r.attachments <==> b in kept);
    assert forall b :: b in kept ==> s.attachments[b] == kept[b] == r.attachments[b];
    forall a | PendingCreate(r, a)
      ensures Unredeemed(r, a)
    {
      assert PendingCreate(s, a);
      StillUnredeemed(s, r, a);
    }
  }

  /** A run that presents no ticket of a pending create takes back no create whose ticket was redeemed. */
  lemma {:induction false} CarefulIsLegal(s: Sys, events: seq<Event>)
    requires HubInv(s) && CreatesUnredeemed(s) && Room(s, |events|) && CarefulRun(s, events)
    ensures Legal(s, events)
    decreases |events|
  {
    if events != [] {
      UnredeemedStep(s, events[0]);
      InvStep(s, events[0]);
      RoomStep(s, events[0], |events| - 1);
      CarefulIsLegal(Next(s, events[0]), events[1..]);
    }
  }

  /** The condition is needed: a create taken back beside another ticket of its constellation orphans that ticket. */
  lemma RedeemedCreateOrphans(s: Sys, id: AttachmentId, t: Ticket)
    requires AdmissionInv(s) && PendingCreate(s, id)
    requires t in LiveTickets(s) && LiveTickets(s)[t].constellation == s.attachments[id].constellation
    requires t != s.attachments[id].phase.admission.next
    requires s.hub.records[s.attachments[id].constellation].controller.primary == s.attachments[id].lease
    ensures var r := DoFinish(DoAbort(s, id), id);
            t in LiveTickets(r) && LiveTickets(r)[t].constellation !in r.hub.records
  {
  }

  /**
   In every hub reachable in less than 2^64 - 2 events, whatever tickets are
   presented when, as long as no create is taken back once its ticket has been
   redeemed, each unexpired ticket is
   the only one of its constellation, is bound to the principal of that
   constellation's record, and expires before the record can be swept.
   */
  lemma TicketsOfReachableHub(hub: HubState, now: int, events: seq<Event>, t: Ticket, u: Ticket)
    requires hub.Configured() && hub.records == map[] && hub.registry.tickets == map[]
    requires !hub.closed && !hub.registry.closed
    requires Legal(Sys(hub, now, map[]), events) && |events| + 2 <= MAX_UINT64
    ensures var s := After(Sys(hub, now, map[]), events);
            var tickets := s.hub.registry.tickets;
            t in tickets && s.now < tickets[t].expiresAt ==>
              && var r := tickets[t];
                && r.constellation in s.hub.records
                && s.hub.records[r.constellation].principal == r.principal
                && !s.hub.Stale(s.hub.records[r.constellation], s.now)
                && r.constellation in s.hub.Sweep(s.now).records
                && (u in tickets && s.now < tickets[u].expiresAt && tickets[u].constellation == r.constellation ==>
                      t == u)
  {
    InvRun(Sys(hub, now, map[]), events);
    var s := After(Sys(hub, now, map[]), events);
    if t in s.hub.registry.tickets && s.now < s.hub.registry.tickets[t].expiresAt {
      assert t in LiveTickets(s);
      assert u in s.hub.registry.tickets && s.now < s.hub.registry.tickets[u].expiresAt ==> u in LiveTickets(s);
    }
  }
}
