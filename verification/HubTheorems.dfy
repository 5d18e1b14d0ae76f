/** Admission is atomic: what is refused or taken back leaves no trace but the counters. */
module HubTheorems {
  import opened Common
  import opened LC = LeaseController
  import opened LeaseTickets
  import opened ConstellationHub
  import opened HubProofs

  /** Two controllers agree on leases, their order and the primary. */
  predicate SameLeases(a: Ctl, b: Ctl) {
    a.leases == b.leases && a.order == b.order && a.primary == b.primary
  }

  lemma {:induction false} WithoutLast(order: seq<LC.Id>, id: LC.Id)
    requires id !in order
    ensures Without(order + [id], id) == order
    decreases |order|
  {
    if order == [] {
      assert order + [id] == [id];
    } else {
      assert (order + [id])[1..] == order[1..] + [id];
      WithoutLast(order[1..], id);
    }
  }

  lemma {:induction false} NoneActive(leases: Leases, order: seq<LC.Id>)
    requires InState(leases, Active) == {}
    ensures FirstActive(leases, order) == 0
    decreases |order|
  {
    if order != [] {
      assert order[0] !in InState(leases, Active);
      NoneActive(leases, order[1..]);
    }
  }

  /** Admitting a lease and removing it again restores leases, order and primary. */
  lemma AddThenRemoveRestores(c: Ctl, candidate: Candidate)
    requires LC.Inv(c) && c.AddError(candidate).None? && c.Slot() !in c.leases
    ensures SameLeases(c.Add(candidate).Remove(c.Slot(), false), c)
  {
    var id := c.Slot();
    var added := c.Add(candidate);
    assert added.leases - {id} == c.leases;
    WithoutLast(c.order, id);
    if c.primary == 0 {
      NoneActive(c.leases, c.order);
    }
  }

  /** The controller of a reachable hub: whole, with a free identifier for the next lease. */
  ghost predicate Admits(records: Records, c: LC.Id) {
    c in records ==> LC.Inv(records[c].controller) && SlotFree(records, c)
  }

  lemma HubAdmits(records: Records, c: LC.Id)
    requires ControllersOk(records)
    ensures Admits(records, c)
  {
    UnwrappedIsFree(records, c);
  }

  lemma RefusedKeepsRecords(s: Sys, id: AttachmentId, request: Request, ticket: Ticket, draws: seq<Ticket>)
    requires s.hub.AttachError(request, ticket, s.now, draws).Some? && Admits(s.hub.records, request.constellation)
    ensures var r := DoAttach(s, id, request, ticket, draws);
            && r.attachments == s.attachments && r.hub.records.Keys == s.hub.records.Keys
            && forall c :: c in s.hub.records ==>
                 && SameLeases(r.hub.records[c].controller, s.hub.records[c].controller)
                 && r.hub.records[c].lastSeen == s.hub.records[c].lastSeen
  {
    if s.hub.AttachError(request, ticket, s.now, draws).value.TicketFailure? {
      AddThenRemoveRestores(s.hub.records[request.constellation].controller, request.Candidate());
    }
  }

  /** In a reachable hub a refused attach changes no lease, no order, no primary and no live ticket. */
  lemma RefusedAttachLeavesNoTrace(s: Sys, id: AttachmentId, request: Request, ticket: Ticket, draws: seq<Ticket>)
    requires HubInv(s) && Possible(s, Attach(id, request, ticket, draws))
    requires s.hub.AttachError(request, ticket, s.now, draws).Some?
    ensures var r := DoAttach(s, id, request, ticket, draws);
            && r.attachments == s.attachments
            && LiveTickets(r) == LiveTickets(s)
            && r.hub.records.Keys == s.hub.records.Keys
            && forall c :: c in s.hub.records ==>
                 && SameLeases(r.hub.records[c].controller, s.hub.records[c].controller)
                 && r.hub.records[c].lastSeen == s.hub.records[c].lastSeen
  {
    HubAdmits(s.hub.records, request.constellation);
    RefusedKeepsRecords(s, id, request, ticket, draws);
    LiveLater(s.hub.registry.tickets, s.now, s.now);
  }

  /** The state after an attach is admitted at `s.now` and taken back at `later`. */
  function AttachTakenBack(s: Sys, id: AttachmentId, request: Request, ticket: Ticket, draws: seq<Ticket>,
                           later: int): (r: Sys)
    requires id !in s.attachments && s.hub.AttachError(request, ticket, s.now, draws).None?
  {
    DoLeave(DoFinish(DoAbort(DoAttach(s, id, request, ticket, draws).(now := later), id), id), id, true)
  }

  lemma UndeliveredRecords(s: Sys, id: AttachmentId, request: Request, ticket: Ticket, draws: seq<Ticket>, later: int)
    requires id !in s.attachments && s.hub.AttachError(request, ticket, s.now, draws).None?
    requires Admits(s.hub.records, request.constellation)
    ensures var r := AttachTakenBack(s, id, request, ticket, draws, later);
            var c := request.constellation;
            && r.attachments == s.attachments
            && r.hub.records.Keys == s.hub.records.Keys
            && SameLeases(r.hub.records[c].controller, s.hub.records[c].controller)
            && (forall d :: d in s.hub.records && d != c ==> r.hub.records[d] == s.hub.records[d])
  {
    AddThenRemoveRestores(s.hub.records[request.constellation].controller, request.Candidate());
  }

  /**
   In a reachable hub, an attach whose answer is not delivered, taken back
   before the old ticket expires, restores leases, order, primary and live
   tickets; taken back later, the constellation is left without the old ticket.
   */
  lemma UndeliveredAttachRestores(s: Sys, id: AttachmentId, request: Request, ticket: Ticket, draws: seq<Ticket>,
                                  later: int)
    requires HubInv(s) && Possible(s, Attach(id, request, ticket, draws)) && s.now <= later
    requires s.hub.AttachError(request, ticket, s.now, draws).None?
    ensures var r := AttachTakenBack(s, id, request, ticket, draws, later);
            var c := request.constellation;
            && r.attachments == s.attachments
            && r.hub.records.Keys == s.hub.records.Keys
            && SameLeases(r.hub.records[c].controller, s.hub.records[c].controller)
            && (forall d :: d in s.hub.records && d != c ==> r.hub.records[d] == s.hub.records[d])
            && (LiveTickets(r) == Live(s.hub.registry.tickets, later)
                <==> later < s.hub.registry.tickets[ticket].expiresAt
                     || s.now + s.hub.registry.ttl <= later)
  {
    HubAdmits(s.hub.records, request.constellation);
    UndeliveredRecords(s, id, request, ticket, draws, later);
    UndeliveredTickets(s, id, request, ticket, draws, later);
  }

  lemma UndeliveredTickets(s: Sys, id: AttachmentId, request: Request, ticket: Ticket, draws: seq<Ticket>, later: int)
    requires AdmissionInv(s) && Possible(s, Attach(id, request, ticket, draws)) && s.now <= later
    requires s.hub.AttachError(request, ticket, s.now, draws).None?
    ensures LiveTickets(AttachTakenBack(s, id, request, ticket, draws, later)) == Live(s.hub.registry.tickets, later)
            <==> later < s.hub.registry.tickets[ticket].expiresAt || s.now + s.hub.registry.ttl <= later
  {
    var registry := s.hub.registry;
    var next := registry.Draw(s.now, draws).value;
    var grant := GrantOf(registry.tickets[ticket]);
    var rotated := registry.Rotate(ticket, request.principal, request.constellation, request.transcript, s.now, draws);
    assert ticket in LiveTickets(s);
    RollbackUndoesRotate(registry, ticket, request.principal, request.constellation, request.transcript,
                         s.now, draws, later);
    LiveAfterRollback(rotated, ticket, next, request.principal, request.constellation, grant, later);
    if later < grant.expiresAt {
    } else if later < s.now + registry.ttl {
      assert next in Live(rotated.tickets, later) && next !in Live(registry.tickets, later);
    } else {
      assert Live(rotated.tickets, later) == Live(registry.tickets, later);
    }
  }

  lemma RevokeUndoesIssue(registry: Registry, request: Request, now: int, draws: seq<Ticket>, later: int)
    requires registry.IssueError(request.principal, request.constellation, request.transcript, now, draws).None?
    requires now <= later && 0 < registry.ttl
    ensures var r := registry.Issue(request.principal, request.constellation, request.transcript, now, draws)
                       .Revoke(registry.Draw(now, draws).value, request.principal, request.constellation, later);
            Live(r.tickets, later) == Live(registry.tickets, later)
  {
  }

  lemma DiscardUndoesCreate(h: HubState, request: Request, now: int, draws: seq<Ticket>)
    requires h.Configured() && h.CreateError(request, now, draws).None?
    ensures var created := h.Create(request, now, draws);
            && request.constellation in created.records
            && created.records[request.constellation].controller.primary == 1
            && created.records - {request.constellation} == h.records
  {
    assert InState(map[], Active) == {};
  }

  function CreateTakenBack(s: Sys, id: AttachmentId, request: Request, draws: seq<Ticket>, later: int): (r: Sys)
    requires id !in s.attachments && s.hub.CreateError(request, s.now, draws).None?
  {
    DoFinish(DoAbort(DoCreate(s, id, request, draws).(now := later), id), id)
  }

  /** Taking back a pending create of a record whose first lease is primary removes record and attachment. */
  lemma CreateUndone(s: Sys, id: AttachmentId, c: LC.Id, admission: Admission, ticket: Ticket)
    requires id !in s.attachments && admission.Issued?
    requires c in s.hub.records && s.hub.records[c].controller.primary == 1
    ensures var pending := s.(attachments := s.attachments[id := Attachment(c, 1, ticket, Pending(admission))]);
            var r := DoFinish(DoAbort(pending, id), id);
            && r.attachments == s.attachments && r.now == s.now
            && r.hub.records == s.hub.records - {c}
            && r.hub.registry == s.hub.registry.Revoke(admission.next, admission.principal, c, s.now)
  {
    assert s.attachments[id := Attachment(c, 1, ticket, Undone(true))] - {id} == s.attachments;
  }

  /** A create whose answer is not delivered, taken back at any later time, leaves nothing behind. */
  lemma UndeliveredCreateRestores(s: Sys, id: AttachmentId, request: Request, draws: seq<Ticket>, later: int)
    requires HubInv(s) && id !in s.attachments && s.now <= later
    requires s.hub.CreateError(request, s.now, draws).None?
    ensures var r := CreateTakenBack(s, id, request, draws, later);
            && r.attachments == s.attachments
            && r.hub.records == s.hub.records
            && LiveTickets(r) == Live(s.hub.registry.tickets, later)
  {
    var h, c := s.hub.Create(request, s.now, draws), request.constellation;
    var ticket := s.hub.registry.Draw(s.now, draws).value;
    RevokeUndoesIssue(s.hub.registry, request, s.now, draws, later);
    DiscardUndoesCreate(s.hub, request, s.now, draws);
    CreateUndone(s.(hub := h, now := later), id, c, Issued(request.principal, ticket), ticket);
  }

  /**
   Why a create may not be taken back once its ticket has been redeemed: if
   the ticket of a pending create is presented and the create is then taken
   back, the successor outlives the record, and the same constellation can
   be created again for somebody else beside it.
   */
  lemma PresentedWhilePending(h: HubState, first: Request, second: Request, third: Request, now: int,
                              d1: seq<Ticket>, d2: seq<Ticket>, d3: seq<Ticket>)
    requires 0 < h.registry.ttl && first.constellation == third.constellation && first.principal != third.principal
    requires h.CreateError(first, now, d1).None?
    requires var h1 := h.Create(first, now, d1);
             second.constellation == first.constellation
             && h1.AttachError(second, h.registry.Draw(now, d1).value, now, d2).None?
    requires var h1 := h.Create(first, now, d1);
             var ticket := h.registry.Draw(now, d1).value;
             var h4 := h1.Attach(second, ticket, now, d2)
                         .Abort(first.constellation, Issued(first.principal, ticket), now)
                         .Discard(first.constellation, 1);
             h4.CreateError(third, now, d3).None?
    ensures var h1 := h.Create(first, now, d1);
            var ticket := h.registry.Draw(now, d1).value;
            var orphan := h1.registry.Draw(now, d2).value;
            var h4 := h1.Attach(second, ticket, now, d2)
                        .Abort(first.constellation, Issued(first.principal, ticket), now)
                        .Discard(first.constellation, 1);
            var h5 := h4.Create(third, now, d3);
            var other := h4.registry.Draw(now, d3).value;
            && first.constellation !in h4.records
            && h4.registry.Redeemable(orphan, first.principal, first.constellation, now)
            && h5.registry.Redeemable(orphan, first.principal, first.constellation, now)
            && h5.registry.Redeemable(other, third.principal, first.constellation, now)
            && orphan != other
  {
    assert InState(map[], Active) == {};
  }

  // ---------------------------------------------------------------------
  // Such a story exists for every empty hub
  // ---------------------------------------------------------------------

  /** An empty open hub with room for two leases and two tickets. */
  predicate Roomy(h: HubState) {
    && h.Configured() && !h.closed && !h.registry.closed && h.records == map[] && h.registry.tickets == map[]
    && 2 <= h.maxLeases && 2 <= h.registry.maxTickets
  }

  /** One ticket, and one record whose first lease is primary. */
  predicate JustCreated(h: HubState, h1: HubState, first: Request, now: int, t1: Ticket)
  {
    && h1.registry == h.registry.(tickets := map[t1 := TicketRecord(first.principal, first.constellation,
                                                                   first.transcript, now + h.registry.ttl)])
    && h1 == h.(records := map[first.constellation := HubRecord(first.principal, FirstController(h, first), now)],
                registry := h1.registry)
  }

  function FirstController(h: HubState, first: Request): (c: Ctl) {
    Started(Unstarted(first.principal, first.constellation, h.maxLeases, h.maxDraining), first.Candidate())
  }

  lemma FirstTicketIssued(registry: Registry, first: Request, now: int, t1: Ticket)
    requires registry.tickets == map[] && !registry.closed && 0 < registry.maxTickets
    requires first.WellFormed() && t1 != 0
    ensures registry.IssueError(first.principal, first.constellation, first.transcript, now, [t1]).None?
    ensures registry.Draw(now, [t1]) == Some(t1)
    ensures registry.Issue(first.principal, first.constellation, first.transcript, now, [t1])
         == registry.(tickets := map[t1 := TicketRecord(first.principal, first.constellation,
                                                        first.transcript, now + registry.ttl)])
  {
    assert Live(registry.tickets, now) == map[];
  }

  lemma EmptyHubCreates(h: HubState, first: Request, now: int, t1: Ticket)
    requires Roomy(h) && first.WellFormed() && t1 != 0
    ensures h.CreateError(first, now, [t1]).None? && h.registry.Draw(now, [t1]) == Some(t1)
    ensures JustCreated(h, h.Create(first, now, [t1]), first, now, t1)
  {
    FirstTicketIssued(h.registry, first, now, t1);
    StartedIsOk(first.principal, first.constellation, h.maxLeases, h.maxDraining, first.Candidate());
    var h1 := h.Create(first, now, [t1]);
    assert h1.records == map[first.constellation := HubRecord(first.principal, FirstController(h, first), now)];
  }

  lemma SecondLeaseFits(h: HubState, first: Request, second: Request)
    requires Roomy(h) && first.WellFormed() && second.WellFormed() && second.leaseKey != first.leaseKey
    requires second.principal == first.principal && second.constellation == first.constellation
    ensures FirstController(h, first).AddError(second.Candidate()).None?
    ensures FirstController(h, first).Add(second.Candidate()).primary == 1
  {
    assert InState(FirstController(h, first).leases, Active) == {1};
  }

  /** The pending ticket is redeemed, then its create is taken back. */
  lemma PendingTicketRedeemed(h: HubState, h1: HubState, first: Request, second: Request, now: int, t1: Ticket,
                              t2: Ticket)
    requires Roomy(h) && JustCreated(h, h1, first, now, t1) && t1 != 0 && t2 != 0 && t1 != t2
    requires first.WellFormed() && second.WellFormed() && second.leaseKey != first.leaseKey
    requires second.principal == first.principal && second.constellation == first.constellation
    ensures h1.AttachError(second, t1, now, [t2]).None?
    ensures var h2 := h1.Attach(second, t1, now, [t2]);
            && h2.records.Keys == {first.constellation}
            && h2.records[first.constellation].controller.primary == 1
            && h2.registry.tickets.Keys == {t2}
            && h2.registry == h.registry.(tickets := h2.registry.tickets)
            && h2 == h.(records := h2.records, registry := h2.registry)
  {
    SecondLeaseFits(h, first, second);
    assert Live(h1.registry.tickets, now) == h1.registry.tickets;
  }

  /** After the take-back nothing but the successor is left, and the constellation can be created anew. */
  lemma TakenBackLeavesOrphan(h: HubState, h2: HubState, first: Request, third: Request, now: int, t1: Ticket,
                              t2: Ticket, t3: Ticket)
    requires Roomy(h) && h2 == h.(records := h2.records, registry := h2.registry)
    requires h2.registry == h.registry.(tickets := h2.registry.tickets) && h2.registry.tickets.Keys == {t2}
    requires h2.records.Keys == {first.constellation} && h2.records[first.constellation].controller.primary == 1
    requires third.WellFormed() && t1 != t2 && t3 != 0 && t2 != t3
    ensures var h4 := h2.Abort(first.constellation, Issued(first.principal, t1), now).Discard(first.constellation, 1);
            h4.CreateError(third, now, [t3]).None?
  {
    var h3 := h2.Abort(first.constellation, Issued(first.principal, t1), now);
    var h4 := h3.Discard(first.constellation, 1);
    assert h4.records == map[];
    var live := Live(h4.registry.tickets, now);
    assert live.Keys == {t2} || live.Keys == {};
    assert |live| == |live.Keys| <= 1;
  }

  /** A ticket redeemed too early outlives its record beside a new owner, whatever the hub and the parties. */
  lemma OrphanIsReachable(h: HubState, first: Request, second: Request, third: Request, now: int,
                          t1: Ticket, t2: Ticket, t3: Ticket)
    requires Roomy(h) && first.WellFormed() && second.WellFormed() && third.WellFormed()
    requires second.principal == first.principal != third.principal && second.leaseKey != first.leaseKey
    requires first.constellation == second.constellation == third.constellation
    requires t1 != 0 && t2 != 0 && t3 != 0 && t1 != t2 && t2 != t3
    ensures var h4 := h.Create(first, now, [t1]).Attach(second, t1, now, [t2])
                        .Abort(first.constellation, Issued(first.principal, t1), now)
                        .Discard(first.constellation, 1);
            var h5 := h4.Create(third, now, [t3]);
            && first.constellation !in h4.records
            && h5.registry.Redeemable(t2, first.principal, first.constellation, now)
            && h5.registry.Redeemable(t3, third.principal, first.constellation, now)
  {
    EmptyHubCreates(h, first, now, t1);
    var h1 := h.Create(first, now, [t1]);
    PendingTicketRedeemed(h, h1, first, second, now, t1, t2);
    var h2 := h1.Attach(second, t1, now, [t2]);
    TakenBackLeavesOrphan(h, h2, first, third, now, t1, t2, t3);
    PresentedWhilePending(h, first, second, third, now, [t1], [t2], [t3]);
  }

  // ---------------------------------------------------------------------
  // Nothing leaks
  // ---------------------------------------------------------------------

  lemma SweepCleans(h: HubState, now: int)
    requires !h.closed
    ensures Cleaned(h.records, h.Sweep(now).records, h.inactiveTtl, now)
  {
  }

  /**
   A release counts as a sighting: whatever the record's age, it survives every
   sweep of the next inactivity period, and the first one after it takes the
   record if it holds no lease by then.
   */
  lemma ReleaseStartsPeriod(h: HubState, c: LC.Id, lease: LC.Id, now: int, later: int)
    requires !h.closed && c in h.records && 0 <= h.inactiveTtl && now <= later
    ensures var released := h.Fail(c, lease).Seen(c, now);
            && c in released.records && released.records[c].lastSeen == now
            && released.records[c].controller == h.records[c].controller.Remove(lease, false)
            && released == h.(records := h.records[c := released.records[c]])
            && (c in released.Sweep(later).records <==>
                  later < now + h.inactiveTtl || released.records[c].controller.leases != map[])
  {
    var record := h.records[c];
    var gone := record.(controller := record.controller.Remove(lease, false));
    assert h.records[c := gone][c := gone.(lastSeen := now)] == h.records[c := gone.(lastSeen := now)];
    SweepCleans(h.Fail(c, lease).Seen(c, now), later);
  }

  /** So does an attach that succeeds. */
  lemma AttachStartsPeriod(h: HubState, request: Request, ticket: Ticket, now: int, draws: seq<Ticket>, later: int)
    requires h.AttachError(request, ticket, now, draws).None? && later - now < h.inactiveTtl
    ensures request.constellation in h.Attach(request, ticket, now, draws).Sweep(later).records
    ensures h.Attach(request, ticket, now, draws).records[request.constellation].lastSeen == now
  {
    SweepCleans(h.Attach(request, ticket, now, draws), later);
  }

  lemma {:induction false} SmallerSet<T>(a: set<T>, b: set<T>)
    requires a <= b
    ensures |a| <= |b|
    decreases |a|
  {
    if a != {} {
      var x :| x in a;
      SmallerSet(a - {x}, b - {x});
    }
  }

  /** A constellation swept away can be created again: only its ticket can still be refused. */
  lemma EvictedCanBeCreated(h: HubState, request: Request, now: int, draws: seq<Ticket>)
    requires !h.closed && request.WellFormed() && |h.records| <= h.maxConstellations
    requires request.constellation in h.records
    ensures var record, swept := h.records[request.constellation], h.Sweep(now);
            (record.controller.leases == map[] && now - record.lastSeen >= Max(0, h.inactiveTtl)
             <==> swept.CreateError(request, now, draws) != Some(HubDuplicate))
    ensures var record, swept := h.records[request.constellation], h.Sweep(now);
            swept.CreateError(request, now, draws) != Some(HubDuplicate) ==>
              swept.CreateError(request, now, draws)
              == match h.registry.IssueError(request.principal, request.constellation, request.transcript, now, draws)
                 case Some(error) => Some(TicketFailure(error))
                 case None => None
  {
    var swept := h.Sweep(now);
    if request.constellation !in swept.records {
      assert swept.records.Keys <= h.records.Keys - {request.constellation};
      SmallerSet(swept.records.Keys, h.records.Keys - {request.constellation});
    }
  }

  predicate Holds(attachments: map<AttachmentId, Attachment>, a: AttachmentId, c: LC.Id, lease: LC.Id) {
    && a in attachments && !attachments[a].phase.Leaving?
    && attachments[a].constellation == c && attachments[a].lease == lease
  }

  /** Every lease is active and held by an attachment that has not given it up. */
  ghost predicate LeasesHeld(records: Records, attachments: map<AttachmentId, Attachment>) {
    forall c, lease :: c in records && lease in records[c].controller.leases ==>
      && records[c].controller.leases[lease].state.Active?
      && exists a :: Holds(attachments, a, c, lease)
  }

  /** An attachment added, or one in a phase that still holds its lease: nobody loses a holder. */
  lemma StillHeld(records: Records, attachments: map<AttachmentId, Attachment>, id: AttachmentId, a: Attachment)
    requires LeasesHeld(records, attachments) && !a.phase.Leaving?
    requires id in attachments ==>
               attachments[id].constellation == a.constellation && attachments[id].lease == a.lease
    ensures LeasesHeld(records, attachments[id := a])
  {
    var after := attachments[id := a];
    forall c, lease | c in records && lease in records[c].controller.leases
      ensures exists b :: Holds(after, b, c, lease)
    {
      var b :| Holds(attachments, b, c, lease);
      assert Holds(after, b, c, lease);
    }
  }

  /** One controller replaced by one whose leases are held. */
  lemma RecordHeld(records: Records, attachments: map<AttachmentId, Attachment>, c: LC.Id, record: HubRecord)
    requires LeasesHeld(records - {c}, attachments) && LeasesHeld(map[c := record], attachments)
    ensures LeasesHeld(records[c := record], attachments)
  {
    var r := records[c := record];
    forall d, lease | d in r && lease in r[d].controller.leases
      ensures r[d].controller.leases[lease].state.Active? && exists a :: Holds(attachments, a, d, lease)
    {
      if d == c {
        assert lease in map[c := record][c].controller.leases;
      } else {
        assert d in records - {c} && lease in (records - {c})[d].controller.leases;
      }
    }
  }

  lemma FirstHeld(record: HubRecord, c: LC.Id, empty: Ctl, first: Candidate,
                  attachments: map<AttachmentId, Attachment>, id: AttachmentId)
    requires record.controller == Started(empty, first) && Holds(attachments, id, c, 1)
    ensures LeasesHeld(map[c := record], attachments)
  {
  }

  lemma CreatedHeld(records: Records, attachments: map<AttachmentId, Attachment>, id: AttachmentId, a: Attachment,
                    c: LC.Id, record: HubRecord, empty: Ctl, first: Candidate)
    requires LeasesHeld(records, attachments) && id !in attachments && c !in records
    requires record.controller == Started(empty, first)
    requires !a.phase.Leaving? && a.constellation == c && a.lease == 1
    ensures LeasesHeld(records[c := record], attachments[id := a])
  {
    StillHeld(records, attachments, id, a);
    FirstHeld(record, c, empty, first, attachments[id := a], id);
    assert records - {c} == records;
    RecordHeld(records, attachments[id := a], c, record);
  }

  lemma CreateKeepsHolders(s: Sys, id: AttachmentId, request: Request, draws: seq<Ticket>)
    requires s.hub.Configured() && LeasesHeld(s.hub.records, s.attachments) && id !in s.attachments
    requires s.hub.CreateError(request, s.now, draws).None?
    ensures var r := DoCreate(s, id, request, draws);
            LeasesHeld(r.hub.records, r.attachments)
  {
    var r := DoCreate(s, id, request, draws);
    var c := request.constellation;
    var empty := Unstarted(request.principal, c, s.hub.maxLeases, s.hub.maxDraining);
    StartedIsOk(request.principal, c, s.hub.maxLeases, s.hub.maxDraining, request.Candidate());
    CreatedHeld(s.hub.records, s.attachments, id, r.attachments[id], c, r.hub.records[c], empty, request.Candidate());
  }

  lemma AttachKeepsHolders(s: Sys, id: AttachmentId, request: Request, ticket: Ticket, draws: seq<Ticket>)
    requires LeasesHeld(s.hub.records, s.attachments) && id !in s.attachments
    requires request.constellation in s.hub.records
    ensures var r := DoAttach(s, id, request, ticket, draws);
            LeasesHeld(r.hub.records, r.attachments)
  {
    var r := DoAttach(s, id, request, ticket, draws);
    var c := request.constellation;
    var was, now := s.hub.records[c].controller.leases, r.hub.records[c].controller.leases;
    if id in r.attachments {
      StillHeld(s.hub.records, s.attachments, id, r.attachments[id]);
      assert Holds(r.attachments, id, c, s.hub.records[c].controller.Slot());
    }
    assert LeasesHeld(s.hub.records, r.attachments);
    forall lease | lease in now
      ensures now[lease].state.Active? && exists a :: Holds(r.attachments, a, c, lease)
    {
      if lease != s.hub.records[c].controller.Slot() || id !in r.attachments {
        assert lease in was && now[lease] == was[lease];
      }
    }
  }

  /** A create taken back has its constellation to itself, so closing it removes the record, lease and all. */
  lemma DiscardTakesRecord(s: Sys, id: AttachmentId)
    requires HubInv(s) && LeasesHeld(s.hub.records, s.attachments)
    requires id in s.attachments && Unsettled(s.attachments[id])
    ensures DoFinish(s, id).hub.records == s.hub.records - {s.attachments[id].constellation}
  {
    var a := s.attachments[id];
    assert AttachmentOk(LiveTickets(s), s.hub.records, s.hub.inactiveTtl, Latest(s), a);
    var controller := s.hub.records[a.constellation].controller;
    assert a.lease in InState(controller.leases, Active);
    var b :| Holds(s.attachments, b, a.constellation, controller.primary);
    assert b == id || Apart(s.attachments[id], s.attachments[b]);
  }

  lemma RemoveTakes(c: Ctl, lease: LC.Id)
    requires LC.Inv(c) && lease in c.leases
    ensures c.Remove(lease, false).leases == c.leases - {lease}
  {
  }

  /** Leases and attachments may go together, as long as what is left is held by who is left. */
  lemma FewerHeld(records: Records, attachments: map<AttachmentId, Attachment>, id: AttachmentId,
                  fewer: Records, after: map<AttachmentId, Attachment>)
    requires LeasesHeld(records, attachments) && id in attachments
    requires forall b :: b in attachments && b != id ==> b in after && after[b] == attachments[b]
    requires forall c :: c in fewer ==> c in records
    requires forall c, lease :: c in fewer && lease in fewer[c].controller.leases ==>
               && lease in records[c].controller.leases
               && fewer[c].controller.leases[lease] == records[c].controller.leases[lease]
               && (c != attachments[id].constellation || lease != attachments[id].lease
                   || attachments[id].phase.Leaving?)
    ensures LeasesHeld(fewer, after)
  {
    forall c, lease | c in fewer && lease in fewer[c].controller.leases
      ensures fewer[c].controller.leases[lease].state.Active? && exists b :: Holds(after, b, c, lease)
    {
      var b :| Holds(attachments, b, c, lease);
      assert Holds(after, b, c, lease);
    }
  }

  lemma FailedHeld(records: Records, attachments: map<AttachmentId, Attachment>, id: AttachmentId, left: Attachment)
    requires LeasesHeld(records, attachments) && id in attachments && !attachments[id].phase.Leaving?
    requires attachments[id].constellation in records && LC.Inv(records[attachments[id].constellation].controller)
    requires attachments[id].lease in records[attachments[id].constellation].controller.leases
    ensures var c := attachments[id].constellation;
            var controller := records[c].controller.Remove(attachments[id].lease, false);
            LeasesHeld(records[c := records[c].(controller := controller)], attachments[id := left])
  {
    var c := attachments[id].constellation;
    RemoveTakes(records[c].controller, attachments[id].lease);
    var fewer := records[c := records[c].(controller := records[c].controller.Remove(attachments[id].lease, false))];
    FewerHeld(records, attachments, id, fewer, attachments[id := left]);
  }

  lemma FinishKeepsHolders(s: Sys, id: AttachmentId)
    requires HubInv(s) && LeasesHeld(s.hub.records, s.attachments) && Possible(s, Finish(id))
    ensures var r := DoFinish(s, id);
            LeasesHeld(r.hub.records, r.attachments)
  {
    var a, r := s.attachments[id], DoFinish(s, id);
    if Unsettled(a) {
      DiscardTakesRecord(s, id);
      FewerHeld(s.hub.records, s.attachments, id, r.hub.records, r.attachments);
    } else {
      assert AttachmentOk(LiveTickets(s), s.hub.records, s.hub.inactiveTtl, Latest(s), a);
      FailedHeld(s.hub.records, s.attachments, id, a.(phase := Leaving));
    }
  }

  lemma HoldersStep(s: Sys, e: Event)
    requires HubInv(s) && LeasesHeld(s.hub.records, s.attachments) && Possible(s, e)
    ensures LeasesHeld(Next(s, e).hub.records, Next(s, e).attachments)
  {
    match e
    case Create(id, request, draws) =>
      if s.hub.CreateError(request, s.now, draws).None? {
        CreateKeepsHolders(s, id, request, draws);
      }
    case Attach(id, request, ticket, draws) =>
      if request.constellation in s.hub.records {
        AttachKeepsHolders(s, id, request, ticket, draws);
      }
    case Commit(id) =>
      StillHeld(s.hub.records, s.attachments, id, s.attachments[id].(phase := Committed));
    case Abort(id) =>
      StillHeld(s.hub.records, s.attachments, id, DoAbort(s, id).attachments[id]);
    case Finish(id) => FinishKeepsHolders(s, id);
    case Leave(id, same) =>
      var r := DoLeave(s, id, same);
      FewerHeld(s.hub.records, s.attachments, id, r.hub.records, r.attachments);
    case _ =>
  }

  lemma {:induction false} HoldersRun(s: Sys, events: seq<Event>)
    requires HubInv(s) && Room(s, |events|) && Legal(s, events)
    requires LeasesHeld(s.hub.records, s.attachments)
    ensures LeasesHeld(After(s, events).hub.records, After(s, events).attachments)
    decreases |events|
  {
    if events != [] {
      HoldersStep(s, events[0]);
      InvStep(s, events[0]);
      RoomStep(s, events[0], |events| - 1);
      HoldersRun(Next(s, events[0]), events[1..]);
    }
  }

  /**
   No constellation outlives its attachments by more than the inactivity
   period.  In every hub reachable in less than 2^64 - 2 events, whatever is
   created, attached, taken back or closed in between, a sweep removes a
   record exactly when no attachment holds a lease of its constellation and it
   has not been seen for the period.
   */
  lemma AbandonedIsEvicted(hub: HubState, now: int, events: seq<Event>, c: LC.Id)
    requires hub.Configured() && hub.records == map[] && hub.registry.tickets == map[]
    requires !hub.closed && !hub.registry.closed
    requires Legal(Sys(hub, now, map[]), events) && |events| + 2 <= MAX_UINT64
    ensures var s := After(Sys(hub, now, map[]), events);
            c in s.hub.records ==>
              (c !in s.hub.Sweep(s.now).records <==>
                 && (forall a :: a in s.attachments && s.attachments[a].constellation == c ==>
                       s.attachments[a].phase.Leaving?)
                 && s.now - s.hub.records[c].lastSeen >= hub.inactiveTtl)
  {
    var start := Sys(hub, now, map[]);
    HoldersRun(start, events);
    InvRun(start, events);
    SameTtl(start, events);
    var s := After(start, events);
    SweepCleans(s.hub, s.now);
    if c in s.hub.records {
      LeaselessIsAbandoned(s, c);
    }
  }

  lemma LeaselessIsAbandoned(s: Sys, c: LC.Id)
    requires HubInv(s) && LeasesHeld(s.hub.records, s.attachments) && c in s.hub.records
    ensures s.hub.records[c].controller.leases == map[] <==>
              forall a :: a in s.attachments && s.attachments[a].constellation == c ==> s.attachments[a].phase.Leaving?
  {
    var leases := s.hub.records[c].controller.leases;
    if leases == map[] {
      forall a | a in s.attachments && s.attachments[a].constellation == c
        ensures s.attachments[a].phase.Leaving?
      {
        assert AttachmentOk(LiveTickets(s), s.hub.records, s.hub.inactiveTtl, Latest(s), s.attachments[a]);
      }
    } else {
      var lease :| lease in leases;
      var a :| Holds(s.attachments, a, c, lease);
    }
  }

  lemma {:induction false} SameTtl(s: Sys, events: seq<Event>)
    requires Legal(s, events)
    ensures After(s, events).hub.inactiveTtl == s.hub.inactiveTtl
    decreases |events|
  {
    if events != [] {
      SameTtl(Next(s, events[0]), events[1..]);
    }
  }
}
