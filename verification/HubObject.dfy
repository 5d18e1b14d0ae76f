/**
 The hub, its attachments and the client's control state as the objects they
 are: the hub shares its tickets and its controllers with nobody, and every
 controller of a record is an object of its own.
 */
module HubObject {
  import opened Common
  import opened LC = LeaseController
  import opened CO = ControllerObject
  import opened LeaseTickets
  import opened ConstellationHub

  /** A record of the hub. */
  datatype Entry = Entry(principal: LC.Id, controller: Controller, lastSeen: int)

  type Entries = map<LC.Id, Entry>

  /** The entry's controller is valid, and the record is what the entry amounts to. */
  ghost predicate Linked(entry: Entry, record: HubRecord)
    reads entry.controller
  {
    && entry.controller.Valid()
    && record == HubRecord(entry.principal, entry.controller.View(), entry.lastSeen)
  }

  ghost function ControllersOf(entries: Entries): (controllers: set<Controller>) {
    set c | c in entries :: entries[c].controller
  }

  /** No two records share a controller. */
  ghost predicate Unshared(entries: Entries) {
    forall c, d :: c in entries && d in entries && entries[c].controller == entries[d].controller ==> c == d
  }

  /** The controllers of the entries that went between `before` and `after`. */
  ghost function EvictedOf(before: Entries, after: Entries): (controllers: set<Controller>) {
    set c | c in before && c !in after :: before[c].controller
  }

  ghost predicate PartlyEvicted(before: Entries, after: Entries, stale: set<Controller>) {
    && (forall c :: c in after ==> c in before && after[c] == before[c])
    && EvictedOf(before, after) == stale
  }

  lemma EvictedOneMore(before: Entries, after: Entries, stale: set<Controller>, c: LC.Id)
    requires PartlyEvicted(before, after, stale) && c in after
    ensures PartlyEvicted(before, after - {c}, stale + {after[c].controller})
    ensures stale + {} == stale
  {
    var left := after - {c};
    assert forall d :: d in before && d !in left <==> d in before && (d !in after || d == c);
    assert c in before && before[c].controller in EvictedOf(before, left);
    assert EvictedOf(before, left) == stale + {after[c].controller};
  }

  lemma EvictedApart(before: Entries, after: Entries, stale: set<Controller>)
    requires PartlyEvicted(before, after, stale) && Unshared(before)
    ensures ControllersOf(after) <= ControllersOf(before) && stale <= ControllersOf(before)
    ensures stale !! ControllersOf(after)
  {
  }

  lemma ControllersWithout(entries: Entries, c: LC.Id)
    requires Unshared(entries) && c in entries
    ensures ControllersOf(entries - {c}) == ControllersOf(entries) - {entries[c].controller}
    ensures Unshared(entries - {c})
  {
    var left := entries - {c};
    forall k | k in ControllersOf(entries) && k != entries[c].controller
      ensures k in ControllersOf(left)
    {
      var d :| d in entries && entries[d].controller == k;
      assert d in left && left[d] == entries[d];
    }
  }

  lemma ControllersTouched(entries: Entries, c: LC.Id, entry: Entry)
    requires Unshared(entries) && c in entries && entry.controller == entries[c].controller
    ensures ControllersOf(entries[c := entry]) == ControllersOf(entries) && Unshared(entries[c := entry])
  {
    var touched := entries[c := entry];
    assert forall d :: d in entries ==> d in touched && touched[d].controller == entries[d].controller;
  }

  ghost predicate AllValid(controllers: set<Controller>)
    reads controllers
  {
    forall k :: k in controllers ==> k.Valid()
  }

  lemma CreateIs(h: HubState, request: Request, now: int, draws: seq<Ticket>, controller: Ctl)
    requires request.WellFormed() && !h.closed && request.constellation !in h.records
    requires |h.records| < h.maxConstellations
    requires controller == Unstarted(request.principal, request.constellation, h.maxLeases, h.maxDraining)
                           .Add(request.Candidate())
    ensures var failure := h.registry.IssueError(request.principal, request.constellation, request.transcript,
                                                 now, draws);
            var registry := h.registry.Issue(request.principal, request.constellation, request.transcript, now, draws);
            && h.CreateError(request, now, draws)
               == (if failure.Some? then Some(TicketFailure(failure.value)) else None)
            && h.Create(request, now, draws)
               == if failure.Some? then h.(registry := registry)
                  else h.(records := h.records[request.constellation := HubRecord(request.principal, controller, now)],
                          registry := registry)
  {
  }

  /** Adding the lease, then rotating the ticket or removing the lease again, is the attach specified. */
  lemma AttachComposes(h: HubState, request: Request, ticket: Ticket, now: int, draws: seq<Ticket>,
                       added: Records, failure: Option<TicketError>, records: Records, registry: Registry)
    requires request.WellFormed() && !h.closed && request.constellation in h.records
    requires h.records[request.constellation].principal == request.principal
    requires h.records[request.constellation].controller.AddError(request.Candidate()).None?
    requires var c := request.constellation;
             var record := h.records[c];
             && failure == h.registry.RotateError(ticket, request.principal, c, request.transcript, now, draws)
             && registry == h.registry.Rotate(ticket, request.principal, c, request.transcript, now, draws)
             && added == h.records[c := record.(controller := record.controller.Add(request.Candidate()))]
             && records == added[c :=
                  if failure.Some?
                  then added[c].(controller := added[c].controller.Remove(record.controller.Slot(), false))
                  else added[c].(lastSeen := now)]
    ensures h.AttachError(request, ticket, now, draws)
         == if failure.Some? then Some(TicketFailure(failure.value)) else None
    ensures h.Attach(request, ticket, now, draws) == h.(records := records, registry := registry)
  {
    var c := request.constellation;
    assert records == h.records[c := records[c]];
  }

  lemma AttachRefused(h: HubState, request: Request, ticket: Ticket, now: int, draws: seq<Ticket>)
    requires request.WellFormed() && !h.closed && request.constellation in h.records
    requires h.records[request.constellation].principal == request.principal
    requires h.records[request.constellation].controller.AddError(request.Candidate()).Some?
    ensures var refused := h.records[request.constellation].controller.AddError(request.Candidate());
            && h.AttachError(request, ticket, now, draws) == Some(ControllerFailure(refused.value))
            && h.Attach(request, ticket, now, draws) == h
  {
  }

  /** Of the records in `before`, exactly the stale ones not in `rest` are gone. */
  ghost predicate PartlySwept(h: HubState, before: Records, records: Records, rest: set<LC.Id>, now: int) {
    && records.Keys <= before.Keys && (forall c :: c in records ==> records[c] == before[c])
    && forall c :: c in before ==> (c in records <==> c in rest || !h.Stale(before[c], now))
  }

  lemma SweptOneMore(h: HubState, before: Records, records: Records, rest: set<LC.Id>, c: LC.Id, now: int)
    requires PartlySwept(h, before, records, rest, now) && c in rest && c in records
    ensures var left := if h.Stale(records[c], now) then records - {c} else records;
            PartlySwept(h, before, left, rest - {c}, now)
  {
  }

  lemma SweptAll(h: HubState, records: Records, now: int)
    requires PartlySwept(h, h.records, records, {}, now) && !h.closed
    ensures h.Sweep(now) == h.(records := records)
    ensures Cleaned(h.records, records, h.inactiveTtl, now)
  {
    assert h.Sweep(now).records == records;
  }

  class Hub {
    const maxConstellations: nat
    const maxLeases: nat
    const maxDraining: nat
    const inactiveTtl: int
    const tickets: TicketRegistry
    var entries: Entries
    var closed: bool
    /** The records as values. */
    ghost var records: Records

    ghost function Controllers(): (controllers: set<Controller>)
      reads this
    {
      ControllersOf(entries)
    }

    ghost function View(): (h: HubState)
      reads this, tickets
    {
      HubState(records, tickets.View(), maxConstellations, maxLeases, maxDraining, inactiveTtl, closed)
    }

    ghost predicate Valid()
      reads this, Controllers()
    {
      && records.Keys == entries.Keys && Unshared(entries)
      && (forall c :: c in entries ==> Linked(entries[c], records[c]))
      && 0 < maxLeases <= 8 && 0 < maxDraining <= 8
    }

    constructor (maxConstellations: nat, maxLeases: nat, maxDraining: nat, inactiveTtl: int,
                 maxTickets: nat, ticketTtl: int)
      requires HubState(map[], Registry(map[], maxTickets, ticketTtl, false), maxConstellations, maxLeases,
                        maxDraining, inactiveTtl, false).Configured()
      ensures fresh(tickets) && Valid() && Controllers() == {} && View().Configured()
      ensures View() == HubState(map[], Registry(map[], maxTickets, ticketTtl, false), maxConstellations, maxLeases,
                                 maxDraining, inactiveTtl, false)
    {
      this.maxConstellations, this.maxLeases, this.maxDraining := maxConstellations, maxLeases, maxDraining;
      this.inactiveTtl := inactiveTtl;
      tickets := new TicketRegistry(maxTickets, ticketTtl);
      entries, records, closed := map[], map[], false;
    }

    lemma OwnValid()
      requires Valid()
      ensures AllValid(Controllers())
    {
      forall c | c in entries
        ensures entries[c].controller.Valid()
      {
        assert Linked(entries[c], records[c]);
      }
    }

    // -------------------------------------------------------------------
    // One record at a time
    // -------------------------------------------------------------------

    method RemoveEntry(c: LC.Id) returns (controller: Controller)
      requires Valid() && c in entries
      modifies this`entries, this`records
      ensures Valid() && entries == old(entries) - {c} && records == old(records) - {c}
      ensures controller == old(entries)[c].controller && Controllers() == old(Controllers()) - {controller}
    {
      controller := entries[c].controller;
      ControllersWithout(entries, c);
      entries, records := entries - {c}, records - {c};
    }

    method AddEntry(c: LC.Id, entry: Entry)
      requires Valid() && c !in entries && entry.controller !in Controllers() && entry.controller.Valid()
      modifies this`entries, this`records
      ensures Valid() && entries == old(entries)[c := entry]
      ensures records == old(records)[c := HubRecord(entry.principal, entry.controller.View(), entry.lastSeen)]
    {
      entries := entries[c := entry];
      records := records[c := HubRecord(entry.principal, entry.controller.View(), entry.lastSeen)];
    }

    method AddLease(c: LC.Id, candidate: Candidate) returns (lease: LC.Id, refused: Option<ControllerError>)
      requires Valid() && c in entries && SlotFree(records, c)
      modifies this`records, entries[c].controller
      ensures Valid()
      ensures refused == old(records)[c].controller.AddError(candidate)
      ensures refused.None? ==> lease == old(records)[c].controller.Slot()
      ensures records == old(records)[c := old(records)[c].(controller := old(records)[c].controller.Add(candidate))]
    {
      var controller := entries[c].controller;
      assert Linked(entries[c], records[c]);
      lease, refused := controller.Add(candidate);
      records := records[c := records[c].(controller := controller.View())];
      assert Linked(entries[c], records[c]);
    }

    method RemoveLease(c: LC.Id, lease: LC.Id)
      requires Valid() && c in entries
      modifies this`records, entries[c].controller
      ensures Valid()
      ensures records == old(records)[c :=
                old(records)[c].(controller := old(records)[c].controller.Remove(lease, false))]
    {
      var controller := entries[c].controller;
      assert Linked(entries[c], records[c]);
      var gone := controller.RemoveAndClose(lease, false);
      records := records[c := records[c].(controller := controller.View())];
      assert Linked(entries[c], records[c]);
    }

    method Touch(c: LC.Id, now: int)
      requires Valid() && c in entries
      modifies this`entries, this`records
      ensures Valid() && Controllers() == old(Controllers())
      ensures records == old(records)[c := old(records)[c].(lastSeen := now)]
    {
      assert Linked(entries[c], records[c]);
      ControllersTouched(entries, c, entries[c].(lastSeen := now));
      entries := entries[c := entries[c].(lastSeen := now)];
      records := records[c := records[c].(lastSeen := now)];
    }

    // -------------------------------------------------------------------
    // The operations
    // -------------------------------------------------------------------

    /** `cleanup`: evicts and stops the records that hold no lease and have not been seen for the inactivity period. */
    method Sweep(now: int)
      requires Valid()
      modifies this`entries, this`records, Controllers()
      ensures Valid() && View() == old(View()).Sweep(now)
      ensures Controllers() <= old(Controllers())
      ensures !closed ==> Cleaned(old(records), records, inactiveTtl, now)
      ensures EvictedOf(old(entries), entries) <= old(Controllers())
      ensures forall k :: k in EvictedOf(old(entries), entries) ==> k.closed
    {
      if closed {
        return;
      }
      ghost var all := Controllers();
      OwnValid();
      var stale := Evict(now);
      assert AllValid(all);
      StopAll(stale);
    }

    /** The region of `cleanup` under the lock. */
    method Evict(now: int) returns (stale: set<Controller>)
      requires Valid() && !closed
      modifies this`entries, this`records
      ensures Valid() && View() == old(View()).Sweep(now)
      ensures Cleaned(old(records), records, inactiveTtl, now)
      ensures Controllers() <= old(Controllers()) && stale <= old(Controllers()) && stale !! Controllers()
      ensures EvictedOf(old(entries), entries) == stale
    {
      stale := {};
      ghost var h, before := View(), entries;
      var rest := entries.Keys;
      while rest != {}
        invariant Valid() && rest <= entries.Keys
        invariant PartlySwept(h, h.records, records, rest, now)
        invariant PartlyEvicted(before, entries, stale)
        decreases rest
      {
        var c :| c in rest;
        SweptOneMore(h, h.records, records, rest, c, now);
        EvictedOneMore(before, entries, stale, c);
        var evicted := EvictRecord(c, now);
        rest, stale := rest - {c}, stale + evicted;
      }
      SweptAll(h, records, now);
      EvictedApart(before, entries, stale);
    }

    method EvictRecord(c: LC.Id, now: int) returns (evicted: set<Controller>)
      requires Valid() && c in entries
      modifies this`entries, this`records
      ensures Valid()
      ensures records == if old(View()).Stale(old(records)[c], now) then old(records) - {c} else old(records)
      ensures evicted == if c in records then {} else {old(entries)[c].controller}
      ensures entries == if c in records then old(entries) else old(entries) - {c}
    {
      var entry := entries[c];
      assert Linked(entry, records[c]);
      evicted := {};
      if entry.controller.leases == map[] && now >= entry.lastSeen && now - entry.lastSeen >= inactiveTtl {
        var controller := RemoveEntry(c);
        evicted := {controller};
      }
    }

    static method StopAll(controllers: set<Controller>)
      requires AllValid(controllers)
      modifies controllers
      ensures forall k :: k in controllers ==> k.closed
    {
      var rest := controllers;
      while rest != {}
        invariant rest <= controllers
        invariant forall k :: k in controllers ==> k.Valid() && (k !in rest ==> k.closed)
        decreases rest
      {
        var k :| k in rest;
        var resources := k.Stop();
        rest := rest - {k};
      }
    }

    method Create(request: Request, now: int, draws: seq<Ticket>)
      returns (ticket: Ticket, error: Option<HubError>)
      requires Valid()
      modifies this`entries, this`records, tickets, Controllers()
      ensures Valid() && fresh(Controllers() - old(Controllers()))
      ensures var swept := if request.WellFormed() then old(View()).Sweep(now) else old(View());
              && error == swept.CreateError(request, now, draws)
              && View() == swept.Create(request, now, draws)
              && (error.None? ==> Some(ticket) == swept.registry.Draw(now, draws))
      ensures error == Some(HubDuplicate) <==>
                && request.WellFormed() && !closed && request.constellation in old(records)
                && var record := old(records)[request.constellation];
                   record.controller.leases != map[] || now < record.lastSeen || now - record.lastSeen < inactiveTtl
    {
      ticket := 0;
      if !request.WellFormed() {
        return 0, Some(HubBinding);
      }
      Sweep(now);
      if closed {
        return 0, Some(HubClosed);
      }
      if request.constellation in entries {
        return 0, Some(HubDuplicate);
      }
      assert |entries.Keys| == |records.Keys| && |entries| == |entries.Keys| && |records| == |records.Keys|;
      if |entries| >= maxConstellations {
        return 0, Some(HubCapacity);
      }
      ticket, error := CreateRecord(request, now, draws);
    }

    /** The part of `create` that makes the controller and issues the ticket. */
    method CreateRecord(request: Request, now: int, draws: seq<Ticket>)
      returns (ticket: Ticket, error: Option<HubError>)
      requires Valid() && request.WellFormed() && !closed && request.constellation !in entries
      requires |records| < maxConstellations
      modifies this`entries, this`records, tickets
      ensures Valid() && fresh(Controllers() - old(Controllers()))
      ensures error == old(View()).CreateError(request, now, draws)
      ensures View() == old(View()).Create(request, now, draws)
      ensures error.None? ==> Some(ticket) == old(View()).registry.Draw(now, draws)
    {
      var controller := new Controller(request.principal, request.constellation, maxLeases, maxDraining,
                                       request.Candidate());
      CreateIs(View(), request, now, draws, controller.View());
      var failure;
      ticket, failure := tickets.Issue(request.principal, request.constellation, request.transcript, now, draws);
      if failure.Some? {
        var resources := controller.Stop();
        return 0, Some(TicketFailure(failure.value));
      }
      AddEntry(request.constellation, Entry(request.principal, controller, now));
      error := None;
    }

    method Attach(request: Request, ticket: Ticket, now: int, draws: seq<Ticket>)
      returns (next: Ticket, lease: LC.Id, grant: Option<Grant>, error: Option<HubError>)
      requires Valid() && SlotFree(records, request.constellation)
      modifies this`entries, this`records, tickets, Controllers()
      ensures Valid() && Controllers() <= old(Controllers())
      ensures var swept := if request.WellFormed() then old(View()).Sweep(now) else old(View());
              && error == swept.AttachError(request, ticket, now, draws)
              && View() == swept.Attach(request, ticket, now, draws)
              && (error.None? ==>
                    && Some(next) == swept.registry.Draw(now, draws)
                    && lease == swept.records[request.constellation].controller.Slot()
                    && grant == Some(GrantOf(swept.registry.tickets[ticket])))
    {
      next, lease, grant := 0, 0, None;
      if !request.WellFormed() {
        return 0, 0, None, Some(HubBinding);
      }
      Sweep(now);
      if closed {
        return 0, 0, None, Some(HubClosed);
      }
      if request.constellation !in entries {
        return 0, 0, None, Some(HubBinding);
      }
      assert Linked(entries[request.constellation], records[request.constellation]);
      if entries[request.constellation].principal != request.principal {
        return 0, 0, None, Some(HubBinding);
      }
      next, lease, grant, error := AttachLease(request, ticket, now, draws);
    }

    /** The lease is added first and removed again, its resource closed, when the ticket is refused. */
    method AttachLease(request: Request, ticket: Ticket, now: int, draws: seq<Ticket>)
      returns (next: Ticket, lease: LC.Id, grant: Option<Grant>, error: Option<HubError>)
      requires Valid() && request.WellFormed() && !closed && SlotFree(records, request.constellation)
      requires request.constellation in entries && records[request.constellation].principal == request.principal
      modifies this`entries, this`records, tickets, Controllers()
      ensures Valid() && Controllers() == old(Controllers())
      ensures error == old(View()).AttachError(request, ticket, now, draws)
      ensures View() == old(View()).Attach(request, ticket, now, draws)
      ensures error.None? ==>
                && Some(next) == old(View()).registry.Draw(now, draws)
                && lease == old(View()).records[request.constellation].controller.Slot()
                && grant == Some(GrantOf(old(View()).registry.tickets[ticket]))
    {
      next, grant := 0, None;
      ghost var h := View();
      var refused;
      lease, refused := AddLease(request.constellation, request.Candidate());
      if refused.Some? {
        AttachRefused(h, request, ticket, now, draws);
        assert View() == h;
        return 0, 0, None, Some(ControllerFailure(refused.value));
      }
      ghost var added := records;
      var failure;
      next, grant, failure := Redeem(request, ticket, lease, now, draws);
      assert View() == h.(records := records, registry := tickets.View());
      AttachComposes(h, request, ticket, now, draws, added, failure, records, tickets.View());
      error := if failure.Some? then Some(TicketFailure(failure.value)) else None;
    }

    /** The second half: the ticket is rotated, or the lease goes again. */
    method Redeem(request: Request, ticket: Ticket, lease: LC.Id, now: int, draws: seq<Ticket>)
      returns (next: Ticket, grant: Option<Grant>, failure: Option<TicketError>)
      requires Valid() && request.constellation in entries
      modifies this`entries, this`records, tickets, entries[request.constellation].controller
      ensures Valid() && Controllers() == old(Controllers())
      ensures var registry, c := old(tickets.View()), request.constellation;
              var record := old(records)[c];
              && failure == registry.RotateError(ticket, request.principal, c, request.transcript, now, draws)
              && tickets.View() == registry.Rotate(ticket, request.principal, c, request.transcript, now, draws)
              && records == old(records)[c :=
                   if failure.Some? then record.(controller := record.controller.Remove(lease, false))
                   else record.(lastSeen := now)]
              && (failure.None? ==>
                    Some(next) == registry.Draw(now, draws) && grant == Some(GrantOf(registry.tickets[ticket])))
    {
      next, grant, failure :=
        tickets.Rotate(ticket, request.principal, request.constellation, request.transcript, now, draws);
      if failure.Some? {
        RemoveLease(request.constellation, lease);
      } else {
        Touch(request.constellation, now);
      }
    }

    method AbortAdmission(constellation: LC.Id, admission: Admission, now: int) returns (created: bool)
      modifies tickets
      ensures View() == old(View()).Abort(constellation, admission, now)
      ensures created == admission.Issued?
    {
      match admission
      case Issued(principal, next) =>
        var revoked := tickets.Revoke(next, principal, constellation, now);
        created := true;
      case Rotated(principal, current, next, grant) =>
        var failure := tickets.RollbackRotate(current, next, principal, constellation, grant, now);
        created := false;
    }

    /** `discard`: the record goes and its controller is stopped, while its lease is still primary. */
    method Discard(constellation: LC.Id, lease: LC.Id) returns (error: Option<HubError>)
      requires Valid()
      modifies this`entries, this`records, Controllers()
      ensures Valid() && Controllers() <= old(Controllers())
      ensures View() == old(View()).Discard(constellation, lease)
      ensures error.None? <==>
                closed || (constellation in old(records) && old(records)[constellation].controller.primary == lease)
      ensures constellation in old(entries) && constellation !in entries ==>
                old(entries)[constellation].controller.closed
    {
      if constellation in entries {
        assert Linked(entries[constellation], records[constellation]);
        if entries[constellation].controller.primary == lease {
          OwnValid();
          ghost var all := Controllers();
          var controller := RemoveEntry(constellation);
          assert AllValid(all);
          StopAll({controller});
          return None;
        }
      }
      error := if closed then None else Some(HubBinding);
    }

    /** `release` while nothing else touches the hub: the lease is closed and the record counts as seen. */
    method Release(constellation: LC.Id, lease: LC.Id, now: int) returns (error: Option<HubError>)
      requires Valid()
      modifies this`entries, this`records, Controllers()
      ensures Valid() && Controllers() == old(Controllers())
      ensures View() == old(View()).Fail(constellation, lease).Seen(constellation, now)
      ensures error.None? <==> closed || constellation in old(records)
    {
      if constellation !in entries {
        return if closed then None else Some(HubBinding);
      }
      RemoveLease(constellation, lease);
      Touch(constellation, now);
      error := None;
    }
  }

  /** One admitted lease in the hands of the server, to be committed or closed. */
  class HubAttachment {
    const hub: Hub
    const constellation: LC.Id
    const lease: LC.Id
    var admission: Option<Admission>
    var closing: bool

    constructor (hub: Hub, constellation: LC.Id, lease: LC.Id, admission: Option<Admission>)
      ensures this.hub == hub && this.constellation == constellation && this.lease == lease
      ensures this.admission == admission && !closing
    {
      this.hub, this.constellation, this.lease := hub, constellation, lease;
      this.admission, closing := admission, false;
    }

    method CommitAdmission()
      modifies this`admission
      ensures admission.None?
    {
      admission := None;
    }

    /** Takes an uncommitted admission back, then gives the lease up; a second call does nothing. */
    method Close(now: int)
      requires hub.Valid()
      modifies this, hub`entries, hub`records, hub.tickets, hub.Controllers()
      ensures hub.Valid() && closing && (old(closing) ==> hub.View() == old(hub.View()) && admission == old(admission))
      ensures !old(closing) ==>
                && admission.None?
                && var h := old(hub.View());
                  hub.View() == match old(admission)
                    case None => h.Fail(constellation, lease).Seen(constellation, now)
                    case Some(taken) =>
                      if taken.Issued? then h.Abort(constellation, taken, now).Discard(constellation, lease)
                      else h.Abort(constellation, taken, now).Fail(constellation, lease).Seen(constellation, now)
    {
      if closing {
        return;
      }
      closing := true;
      var taken := admission;
      admission := None;
      var created, failure := false, None;
      if taken.Some? {
        created := hub.AbortAdmission(constellation, taken.value, now);
      }
      if created {
        failure := hub.Discard(constellation, lease);
      } else {
        failure := hub.Release(constellation, lease, now);
      }
    }
  }

  // ---------------------------------------------------------------------
  // The client's side
  // ---------------------------------------------------------------------

  const FIRST_MESSAGE_ID: nat := 3
  const FIRST_FORWARD_SECRET_MESSAGE_ID: nat := 5

  datatype FrameType = LeaseIssue | LeaseAccept | OtherFrame

  /** What a client receives; a token of the wrong size or all zeroes parses to zero. */
  datatype Answer = Answer(kind: FrameType, messageId: nat, constellation: LC.Id, token: Ticket)

  /** The answer to the request with this identifier, for this constellation, with a usable ticket. */
  predicate Answers(answer: Option<Answer>, kind: FrameType, id: nat, constellation: LC.Id) {
    && answer.Some? && answer.value.kind == kind && answer.value.messageId == id
    && answer.value.constellation == constellation && answer.value.token != 0
  }

  /** A forward-secret session starts from identifiers of its own. */
  function FirstId(forwardSecret: bool, next: nat): (id: nat) {
    if forwardSecret && next == FIRST_MESSAGE_ID then FIRST_FORWARD_SECRET_MESSAGE_ID else next
  }

  predicate UsableId(id: nat) {
    FIRST_MESSAGE_ID <= id <= MAX_SEQUENCE
  }

  class ClientControl {
    var constellation: LC.Id
    var leaseKey: LC.Id
    var ticket: Ticket
    var nextMessageId: nat
    /** Every message identifier taken so far. */
    ghost var taken: set<nat>

    /** Identifiers still to be taken lie above all that were. */
    ghost predicate Valid()
      reads this
    {
      forall id :: id in taken ==> id < nextMessageId
    }

    constructor ()
      ensures constellation == 0 && leaseKey == 0 && ticket == 0 && nextMessageId == FIRST_MESSAGE_ID
      ensures Valid() && taken == {}
    {
      constellation, leaseKey, ticket, nextMessageId := 0, 0, 0, FIRST_MESSAGE_ID;
      taken := {};
    }

    /** Takes the next message identifier, which was never taken before. */
    method TakeMessageId() returns (id: Option<nat>)
      requires Valid()
      modifies this`nextMessageId, this`taken
      ensures Valid()
      ensures taken == old(taken) + (if id.Some? then {id.value} else {}) && (id.Some? ==> id.value !in old(taken))
      ensures id.Some? <==> FIRST_MESSAGE_ID <= old(nextMessageId) <= MAX_SEQUENCE
      ensures id.Some? ==> id.value == old(nextMessageId) && nextMessageId == id.value + 1
      ensures id.None? ==> nextMessageId == old(nextMessageId)
    {
      if nextMessageId < FIRST_MESSAGE_ID || nextMessageId > MAX_SEQUENCE {
        return None;
      }
      id := Some(nextMessageId);
      taken := taken + {nextMessageId};
      nextMessageId := nextMessageId + 1;
    }

    /** Creates a constellation: only the answer to this very request is believed. */
    method Create(fresh': LC.Id, key: LC.Id, forwardSecret: bool, answer: Option<Answer>) returns (ok: bool)
      requires Valid()
      modifies this
      ensures Valid()
      ensures var id := FirstId(forwardSecret, old(nextMessageId));
              var asked := old(constellation) == 0 && old(ticket) == 0 && fresh' != 0 && UsableId(id);
              && (ok <==> asked && Answers(answer, LeaseIssue, id, fresh'))
              && nextMessageId == if asked then id + 1 else id
      ensures ok ==> constellation == fresh' && ticket == answer.value.token && leaseKey == key
      ensures !ok ==> constellation == old(constellation) && ticket == old(ticket) && leaseKey == old(leaseKey)
    {
      if forwardSecret && nextMessageId == FIRST_MESSAGE_ID {
        nextMessageId := FIRST_FORWARD_SECRET_MESSAGE_ID;
      }
      if constellation != 0 || ticket != 0 || fresh' == 0 {
        return false;
      }
      var id := TakeMessageId();
      if id.None? || answer.None? {
        return false;
      }
      if !answer.value.kind.LeaseIssue? || answer.value.messageId != id.value
         || answer.value.constellation != fresh' || answer.value.token == 0 {
        return false;
      }
      constellation, leaseKey, ticket := fresh', key, answer.value.token;
      ok := true;
    }

    /** Attaches another carrier: on any failure the client still holds the ticket it presented. */
    method Attach(key: LC.Id, answer: Option<Answer>) returns (ok: bool)
      requires Valid()
      modifies this
      ensures Valid()
      ensures constellation == old(constellation)
      ensures var asked := constellation != 0 && old(ticket) != 0 && UsableId(old(nextMessageId));
              && (ok <==> asked && Answers(answer, LeaseAccept, old(nextMessageId), constellation))
              && nextMessageId == if asked then old(nextMessageId) + 1 else old(nextMessageId)
      ensures ok ==> ticket == answer.value.token && leaseKey == key
      ensures !ok ==> ticket == old(ticket) && leaseKey == old(leaseKey)
    {
      if constellation == 0 || ticket == 0 {
        return false;
      }
      var id := TakeMessageId();
      if id.None? || answer.None? {
        return false;
      }
      if !answer.value.kind.LeaseAccept? || answer.value.messageId != id.value
         || answer.value.constellation != constellation || answer.value.token == 0 {
        return false;
      }
      ticket, leaseKey := answer.value.token, key;
      ok := true;
    }
  }
}
