/** Client and server agree on the ticket over every run of the admission protocol. */
module ProtocolProofs {
  import opened Common
  import opened LC = LeaseController
  import opened LeaseTickets
  import opened ConstellationHub
  import opened HubProofs
  import opened AdmissionProtocol

  /** No attachment comes to hold a lease of this constellation that did not before. */
  ghost predicate NoNewcomers(attachments: map<AttachmentId, Attachment>,
                              attachments': map<AttachmentId, Attachment>, c: LC.Id)
  {
    forall b :: b in attachments' && attachments'[b].constellation == c && !attachments'[b].phase.Leaving? ==>
      b in attachments && attachments[b].constellation == c && !attachments[b].phase.Leaving?
  }

  /** What a client relies on: its own constellation's tickets, its answer, and its consumed ticket staying away. */
  lemma ClientFrame(live: Tickets, live': Tickets, now: int, later: int,
                    attachments: map<AttachmentId, Attachment>, attachments': map<AttachmentId, Attachment>, c: Client)
    requires now <= later && ClientOk(live, now, attachments, c)
    requires c.flight.Some? ==>
               && c.flight.value.attachment in attachments'
               && attachments'[c.flight.value.attachment] == attachments[c.flight.value.attachment]
               && NoNewcomers(attachments, attachments', Target(attachments, c))
    requires forall t :: t in live && live[t].constellation == Target(attachments, c) && later < live[t].expiresAt ==>
               t in live' && live'[t] == live[t]
    requires forall t :: t in live' && live'[t].constellation == Target(attachments, c) ==>
               t in live && live[t] == live'[t]
    requires Recoverable(later, c) ==> c.ticket !in live'
    ensures ClientOk(live', later, attachments', c)
  {
  }

  lemma TickKeepsNet(n: Net, now: int)
    requires NetInv(n) && n.sys.now <= now
    ensures NetInv(Exchange(n, Clock(now)))
  {
    InvTick(n.sys, now);
    LiveLater(n.sys.hub.registry.tickets, n.sys.now, now);
    var r := Exchange(n, Clock(now));
    forall k | k in n.clients
      ensures ClientOk(LiveTickets(r.sys), now, r.sys.attachments, r.clients[k])
    {
      ClientFrame(LiveTickets(n.sys), LiveTickets(r.sys), n.sys.now, now, n.sys.attachments, r.sys.attachments,
                  n.clients[k]);
    }
  }

  lemma SweepKeepsNet(n: Net)
    requires NetInv(n)
    ensures NetInv(Exchange(n, SweepHub))
  {
    InvSweep(n.sys);
  }

  /** The answers of all clients but one are where they were. */
  ghost predicate FlightsKept(n: Net, attachments: map<AttachmentId, Attachment>, k: ClientId) {
    forall j :: j in n.clients && j != k && n.clients[j].flight.Some? ==>
      && n.clients[j].flight.value.attachment in attachments
      && n.clients[j].flight.value.attachment in n.sys.attachments
      && attachments[n.clients[j].flight.value.attachment]
         == n.sys.attachments[n.clients[j].flight.value.attachment]
      && NoNewcomers(n.sys.attachments, attachments, Target(n.sys.attachments, n.clients[j]))
  }

  /** Outside constellation `c` the live tickets are the same, and no consumed ticket of the others comes back. */
  ghost predicate TicketsKept(n: Net, live: Tickets, k: ClientId, c: LC.Id) {
    && (forall t :: t in LiveTickets(n.sys) && LiveTickets(n.sys)[t].constellation != c ==>
          t in live && live[t] == LiveTickets(n.sys)[t])
    && (forall t :: t in live && live[t].constellation != c ==>
          t in LiveTickets(n.sys) && LiveTickets(n.sys)[t] == live[t])
    && (forall j :: j in n.clients && j != k && Recoverable(n.sys.now, n.clients[j]) ==> n.clients[j].ticket !in live)
  }

  /** Nobody but `k` is concerned with constellation `c`. */
  ghost predicate OnlyConcerns(n: Net, k: ClientId, c: LC.Id) {
    forall j :: j in n.clients && j != k ==> Target(n.sys.attachments, n.clients[j]) != c
  }

  lemma OthersKept(n: Net, live: Tickets, attachments: map<AttachmentId, Attachment>, k: ClientId, c: LC.Id)
    requires NetInv(n)
    requires FlightsKept(n, attachments, k) && TicketsKept(n, live, k, c) && OnlyConcerns(n, k, c)
    ensures forall j :: j in n.clients && j != k ==> ClientOk(live, n.sys.now, attachments, n.clients[j])
    ensures forall j :: j in n.clients && j != k ==>
              Target(attachments, n.clients[j]) == Target(n.sys.attachments, n.clients[j])
  {
    forall j | j in n.clients && j != k
      ensures ClientOk(live, n.sys.now, attachments, n.clients[j])
      ensures Target(attachments, n.clients[j]) == Target(n.sys.attachments, n.clients[j])
    {
      ClientFrame(LiveTickets(n.sys), live, n.sys.now, n.sys.now, n.sys.attachments, attachments, n.clients[j]);
    }
  }

  /** One client and its answer change; everybody else is kept. */
  lemma OneClientChanged(n: Net, r: Net, k: ClientId, c: LC.Id)
    requires NetInv(n) && AdmissionInv(r.sys) && r.sys.now == n.sys.now
    requires k in n.clients && k in r.clients && r.clients == n.clients[k := r.clients[k]]
    requires FlightsKept(n, r.sys.attachments, k) && TicketsKept(n, LiveTickets(r.sys), k, c) && OnlyConcerns(n, k, c)
    requires ClientOk(LiveTickets(r.sys), r.sys.now, r.sys.attachments, r.clients[k])
    requires Target(r.sys.attachments, r.clients[k]) in {0, c}
    requires forall j :: j in n.clients && j != k ==>
               && ClientsApart(r.sys.now, r.sys.attachments, n.clients[j], r.clients[k])
               && ClientsApart(r.sys.now, r.sys.attachments, r.clients[k], n.clients[j])
    requires SentOk(r)
    ensures NetInv(r)
  {
    OthersKept(n, LiveTickets(r.sys), r.sys.attachments, k, c);
    forall i, j | i in r.clients && j in r.clients && i != j
      ensures ClientsApart(r.sys.now, r.sys.attachments, r.clients[i], r.clients[j])
    {
      if i != k && j != k {
        assert ClientsApart(n.sys.now, n.sys.attachments, n.clients[i], n.clients[j]);
      }
    }
  }

  /** Only an attachment that is nobody's answer changes: it is settled, given up or gone. */
  lemma SettledChangeKeepsNet(n: Net, r: Net, a: AttachmentId)
    requires NetInv(n) && AdmissionInv(r.sys) && r.clients == n.clients && r.sys.now == n.sys.now
    requires LiveTickets(r.sys) == LiveTickets(n.sys) && r.sent == n.sent - {a}
    requires a in n.sys.attachments && (a in n.sent || !n.sys.attachments[a].phase.Pending?)
    requires a in r.sys.attachments ==>
               && r.sys.attachments[a].constellation == n.sys.attachments[a].constellation
               && (n.sys.attachments[a].phase.Leaving? ==> r.sys.attachments[a].phase.Leaving?)
    requires r.sys.attachments - {a} == n.sys.attachments - {a}
    ensures NetInv(r)
  {
    var kept := n.sys.attachments - {a};
    assert forall b :: b != a ==> (b in n.sys.attachments <==> b in kept) && (b in r.sys.attachments <==> b in kept);
    assert forall b :: b in kept ==> n.sys.attachments[b] == kept[b] == r.sys.attachments[b];
    forall k | k in n.clients
      ensures ClientOk(LiveTickets(r.sys), r.sys.now, r.sys.attachments, r.clients[k])
      ensures Target(r.sys.attachments, n.clients[k]) == Target(n.sys.attachments, n.clients[k])
    {
      assert ClientOk(LiveTickets(n.sys), n.sys.now, n.sys.attachments, n.clients[k]);
      ClientFrame(LiveTickets(n.sys), LiveTickets(r.sys), n.sys.now, n.sys.now, n.sys.attachments,
                  r.sys.attachments, n.clients[k]);
    }
    StillApart(n, r);
  }

  lemma StillApart(n: Net, r: Net)
    requires NetInv(n) && r.clients == n.clients && r.sys.now == n.sys.now
    requires forall k :: k in n.clients ==>
               Target(r.sys.attachments, n.clients[k]) == Target(n.sys.attachments, n.clients[k])
    ensures AllApart(r.sys.now, r.sys.attachments, r.clients)
  {
    forall j, k | j in r.clients && k in r.clients && j != k
      ensures ClientsApart(r.sys.now, r.sys.attachments, r.clients[j], r.clients[k])
    {
      assert ClientsApart(n.sys.now, n.sys.attachments, n.clients[j], n.clients[k]);
    }
  }

  lemma CloseKeepsNet(n: Net, a: AttachmentId)
    requires NetInv(n) && Enabled(n.sys, Finish(a))
    ensures NetInv(Exchange(n, CloseLease(a)))
  {
    InvFinish(n.sys, a);
    SettledChangeKeepsNet(n, Exchange(n, CloseLease(a)), a);
  }

  lemma LeaveKeepsNet(n: Net, a: AttachmentId, same: bool)
    requires NetInv(n) && Enabled(n.sys, Leave(a, same))
    ensures NetInv(Exchange(n, LeaveLease(a, same)))
  {
    InvLeave(n.sys, a, same);
    SettledChangeKeepsNet(n, Exchange(n, LeaveLease(a, same)), a);
  }

  /** The server's commit, whatever the client has done with its ticket meanwhile. */
  lemma CommitKeepsNet(n: Net, a: AttachmentId)
    requires NetInv(n) && Sensible(n, CommitSent(a))
    ensures NetInv(Exchange(n, CommitSent(a)))
  {
    InvCommit(n.sys, a);
    SettledChangeKeepsNet(n, Exchange(n, CommitSent(a)), a);
  }

  /** A client's answer belongs to it alone, and its constellation concerns nobody else. */
  lemma FlightIsOwn(n: Net, k: ClientId)
    requires NetInv(n) && k in n.clients && n.clients[k].flight.Some?
    ensures var f := n.clients[k].flight.value;
            && f.attachment in n.sys.attachments
            && FlightOk(LiveTickets(n.sys), n.sys.now, n.clients[k], f, n.sys.attachments[f.attachment])
            && OnlyConcerns(n, k, n.sys.attachments[f.attachment].constellation)
            && forall j :: j in n.clients && j != k && n.clients[j].flight.Some? ==>
                 n.clients[j].flight.value.attachment != f.attachment
  {
    assert ClientOk(LiveTickets(n.sys), n.sys.now, n.sys.attachments, n.clients[k]);
    var a := n.clients[k].flight.value.attachment;
    forall j | j in n.clients && j != k
      ensures Target(n.sys.attachments, n.clients[j]) != n.sys.attachments[a].constellation
      ensures n.clients[j].flight.Some? ==> n.clients[j].flight.value.attachment != a
    {
      assert ClientsApart(n.sys.now, n.sys.attachments, n.clients[j], n.clients[k]);
    }
  }

  /** The client's receipt, before the server has committed. */
  lemma DeliverKeepsNet(n: Net, k: ClientId)
    requires NetInv(n) && Sensible(n, Deliver(k))
    ensures NetInv(Delivered(n, k))
  {
    FlightIsOwn(n, k);
    var a := n.clients[k].flight.value.attachment;
    var r := Delivered(n, k);
    forall j | j in n.clients && j != k && Recoverable(n.sys.now, n.clients[j])
      ensures n.clients[j].ticket !in LiveTickets(r.sys)
    {
      assert ClientOk(LiveTickets(n.sys), n.sys.now, n.sys.attachments, n.clients[j]);
    }
    OneClientChanged(n, r, k, n.sys.attachments[a].constellation);
  }

  lemma LiveAfterRevoke(registry: Registry, ticket: Ticket, principal: LC.Id, constellation: LC.Id, now: int)
    ensures Live(registry.Revoke(ticket, principal, constellation, now).tickets, now)
         == if registry.Revocable(ticket, principal, constellation, now)
            then Live(registry.tickets, now) - {ticket} else Live(registry.tickets, now)
  {
  }

  /** What taking an admission back does to the live tickets. */
  lemma AbortTickets(n: Net, k: ClientId)
    requires NetInv(n) && Sensible(n, Undeliver(k))
    ensures var r := Undelivered(n, k);
            var c := n.sys.attachments[n.clients[k].flight.value.attachment].constellation;
            && TicketsKept(n, LiveTickets(r.sys), k, c)
            && IdleOk(LiveTickets(r.sys), r.sys.now, r.clients[k])
  {
    FlightIsOwn(n, k);
    var a := n.sys.attachments[n.clients[k].flight.value.attachment];
    match a.phase.admission
    case Issued(principal, next) =>
      LiveAfterRevoke(n.sys.hub.registry, next, principal, a.constellation, n.sys.now);
      OthersConsumed(n, k, LiveTickets(Undelivered(n, k).sys), next);
    case Rotated(principal, current, next, grant) =>
      LiveAfterRollback(n.sys.hub.registry, current, next, principal, a.constellation, grant, n.sys.now);
      OthersConsumed(n, k, LiveTickets(Undelivered(n, k).sys), current);
  }

  /** A consumed ticket of somebody else stays away when at most `extra`, not theirs, is added. */
  lemma OthersConsumed(n: Net, k: ClientId, live: Tickets, extra: Ticket)
    requires NetInv(n) && k in n.clients
    requires forall t :: t in live ==> t in LiveTickets(n.sys) || t == extra
    requires extra in LiveTickets(n.sys)
             || forall j :: j in n.clients && j != k && Recoverable(n.sys.now, n.clients[j]) ==>
                  n.clients[j].ticket != extra || extra !in live
    ensures forall j :: j in n.clients && j != k && Recoverable(n.sys.now, n.clients[j]) ==>
              n.clients[j].ticket !in live
  {
    forall j | j in n.clients && j != k && Recoverable(n.sys.now, n.clients[j])
      ensures n.clients[j].ticket !in live
    {
      assert ClientOk(LiveTickets(n.sys), n.sys.now, n.sys.attachments, n.clients[j]);
    }
  }

  /** The ticket of an answer that was not delivered has not been redeemed. */
  lemma UndeliverIsPossible(n: Net, k: ClientId)
    requires NetInv(n) && Sensible(n, Undeliver(k))
    ensures Possible(n.sys, Abort(n.clients[k].flight.value.attachment))
  {
    assert ClientOk(LiveTickets(n.sys), n.sys.now, n.sys.attachments, n.clients[k]);
  }

  lemma UndeliverKeepsNet(n: Net, k: ClientId)
    requires NetInv(n) && Sensible(n, Undeliver(k))
    ensures NetInv(Undelivered(n, k))
  {
    FlightIsOwn(n, k);
    var a := n.clients[k].flight.value.attachment;
    UndeliverIsPossible(n, k);
    InvAbort(n.sys, a);
    AbortTickets(n, k);
    var r := Undelivered(n, k);
    OneClientChanged(n, r, k, n.sys.attachments[a].constellation);
  }

  /** A refused request changes nothing a client relies on. */
  lemma RefusedKeepsNet(n: Net, r: Net)
    requires NetInv(n) && AdmissionInv(r.sys) && r.clients == n.clients && r.sys.now == n.sys.now
    requires r.sys.attachments == n.sys.attachments && LiveTickets(r.sys) == LiveTickets(n.sys) && r.sent == n.sent
    ensures NetInv(r)
  {
  }

  /** A new attachment of a constellation that concerns only `k` leaves the answers of all others. */
  lemma NewAnswerKeepsFlights(n: Net, k: ClientId, a: AttachmentId, attachment: Attachment)
    requires NetInv(n) && k in n.clients && a !in n.sys.attachments && OnlyConcerns(n, k, attachment.constellation)
    ensures FlightsKept(n, n.sys.attachments[a := attachment], k)
    ensures a !in n.sent
    ensures forall j :: j in n.clients && j != k && n.clients[j].flight.Some? ==>
              n.clients[j].flight.value.attachment != a
  {
    forall j | j in n.clients && j != k && n.clients[j].flight.Some?
      ensures n.clients[j].flight.value.attachment in n.sys.attachments
    {
      assert ClientOk(LiveTickets(n.sys), n.sys.now, n.sys.attachments, n.clients[j]);
    }
  }

  /** A consumed ticket is not live. */
  lemma ConsumedIsAway(n: Net, j: ClientId)
    requires NetInv(n) && j in n.clients && Recoverable(n.sys.now, n.clients[j])
    ensures n.clients[j].ticket !in LiveTickets(n.sys)
  {
    assert ClientOk(LiveTickets(n.sys), n.sys.now, n.sys.attachments, n.clients[j]);
  }

  /** A new answer under way, of a client that had none. */
  lemma AskedKeepsNet(n: Net, r: Net, k: ClientId, a: AttachmentId)
    requires NetInv(n) && AdmissionInv(r.sys) && r.sys.now == n.sys.now
    requires k in n.clients && n.clients[k].flight.None? && a !in n.sys.attachments && r.sent == n.sent
    requires a in r.sys.attachments && r.sys.attachments == n.sys.attachments[a := r.sys.attachments[a]]
    requires k in r.clients && r.clients == n.clients[k := r.clients[k]]
    requires r.clients[k].flight.Some? && r.clients[k].flight.value.attachment == a
    requires var c := r.sys.attachments[a].constellation;
             OnlyConcerns(n, k, c) && TicketsKept(n, LiveTickets(r.sys), k, c)
    requires ClientOk(LiveTickets(r.sys), r.sys.now, r.sys.attachments, r.clients[k])
    requires Recoverable(r.sys.now, r.clients[k]) ==> r.clients[k].ticket in LiveTickets(n.sys)
    ensures NetInv(r)
  {
    var c := r.sys.attachments[a].constellation;
    NewAnswerKeepsFlights(n, k, a, r.sys.attachments[a]);
    forall j | j in n.clients && j != k
      ensures ClientsApart(r.sys.now, r.sys.attachments, n.clients[j], r.clients[k])
      ensures ClientsApart(r.sys.now, r.sys.attachments, r.clients[k], n.clients[j])
    {
      if Recoverable(n.sys.now, n.clients[j]) {
        ConsumedIsAway(n, j);
      }
    }
    OneClientChanged(n, r, k, c);
  }

  /** A freshly drawn ticket is nobody's consumed ticket. */
  lemma DrawnIsNobodys(n: Net, k: ClientId, draws: seq<Ticket>)
    requires NetInv(n) && k in n.clients && FreshDraw(n.sys, draws)
    requires n.sys.hub.registry.Draw(n.sys.now, draws).Some?
    ensures forall j :: j in n.clients && Recoverable(n.sys.now, n.clients[j]) ==>
              n.clients[j].ticket != n.sys.hub.registry.Draw(n.sys.now, draws).value
  {
    forall j | j in n.clients && Recoverable(n.sys.now, n.clients[j])
      ensures n.clients[j].ticket != n.sys.hub.registry.Draw(n.sys.now, draws).value
    {
      assert ClientOk(LiveTickets(n.sys), n.sys.now, n.sys.attachments, n.clients[j]);
      assert Consumed(n.sys, n.clients[j].flight.value.attachment, n.clients[j].ticket);
    }
  }

  lemma CreateConcerns(n: Net, k: ClientId, a: AttachmentId, request: Request, draws: seq<Ticket>)
    requires NetInv(n) && Sensible(n, AskCreate(k, a, request, draws))
    requires n.sys.hub.CreateError(request, n.sys.now, draws).None?
    ensures OnlyConcerns(n, k, request.constellation)
  {
    forall j | j in n.clients && j != k
      ensures Target(n.sys.attachments, n.clients[j]) != request.constellation
    {
      assert ClientOk(LiveTickets(n.sys), n.sys.now, n.sys.attachments, n.clients[j]);
      if n.clients[j].flight.Some? {
        var b := n.sys.attachments[n.clients[j].flight.value.attachment];
        assert AttachmentOk(LiveTickets(n.sys), n.sys.hub.records, n.sys.hub.inactiveTtl, Latest(n.sys), b);
      }
    }
  }

  lemma CreatedTicketsKept(n: Net, k: ClientId, a: AttachmentId, request: Request, draws: seq<Ticket>)
    requires NetInv(n) && Sensible(n, AskCreate(k, a, request, draws))
    requires n.sys.hub.CreateError(request, n.sys.now, draws).None?
    ensures TicketsKept(n, LiveTickets(DoCreate(n.sys, a, request, draws)), k, request.constellation)
  {
    LiveAfterIssue(n.sys.hub.registry, request, n.sys.now, draws);
    DrawnIsNobodys(n, k, draws);
    OthersConsumed(n, k, LiveTickets(DoCreate(n.sys, a, request, draws)),
                   n.sys.hub.registry.Draw(n.sys.now, draws).value);
  }

  /** The creating client's own side: its new ticket is the only one of a constellation it has to itself. */
  lemma CreatedAnswer(n: Net, k: ClientId, a: AttachmentId, request: Request, draws: seq<Ticket>)
    requires NetInv(n) && Sensible(n, AskCreate(k, a, request, draws))
    requires n.sys.hub.CreateError(request, n.sys.now, draws).None?
    ensures var r := Exchange(n, AskCreate(k, a, request, draws));
            ClientOk(LiveTickets(r.sys), r.sys.now, r.sys.attachments, r.clients[k])
  {
    LiveAfterIssue(n.sys.hub.registry, request, n.sys.now, draws);
    var r := Exchange(n, AskCreate(k, a, request, draws));
    forall b | b in n.sys.attachments && n.sys.attachments[b].constellation == request.constellation
      ensures n.sys.attachments[b].phase.Leaving?
    {
      assert AttachmentOk(LiveTickets(n.sys), n.sys.hub.records, n.sys.hub.inactiveTtl, Latest(n.sys),
                          n.sys.attachments[b]);
    }
    assert Alone(r.sys.attachments, a);
  }

  lemma CreateKeepsNet(n: Net, k: ClientId, a: AttachmentId, request: Request, draws: seq<Ticket>)
    requires NetInv(n) && Sensible(n, AskCreate(k, a, request, draws))
    ensures NetInv(Exchange(n, AskCreate(k, a, request, draws)))
  {
    InvCreate(n.sys, a, request, draws);
    var r := Exchange(n, AskCreate(k, a, request, draws));
    if n.sys.hub.CreateError(request, n.sys.now, draws).None? {
      CreateConcerns(n, k, a, request, draws);
      CreatedTicketsKept(n, k, a, request, draws);
      CreatedAnswer(n, k, a, request, draws);
      AskedKeepsNet(n, r, k, a);
    } else {
      LiveLater(n.sys.hub.registry.tickets, n.sys.now, n.sys.now);
      RefusedKeepsNet(n, r);
    }
  }

  /** Nobody else is concerned with the constellation of a client that has nothing under way. */
  lemma AttachConcerns(n: Net, k: ClientId, c: LC.Id)
    requires NetInv(n) && k in n.clients && n.clients[k].flight.None? && n.clients[k].constellation == c != 0
    ensures OnlyConcerns(n, k, c)
  {
    forall j | j in n.clients && j != k
      ensures Target(n.sys.attachments, n.clients[j]) != c
    {
      assert ClientsApart(n.sys.now, n.sys.attachments, n.clients[j], n.clients[k]);
    }
  }

  lemma AttachedTicketsKept(n: Net, k: ClientId, a: AttachmentId, request: Request, draws: seq<Ticket>)
    requires NetInv(n) && Sensible(n, AskAttach(k, a, request, draws))
    requires n.sys.hub.AttachError(request, n.clients[k].ticket, n.sys.now, draws).None?
    ensures TicketsKept(n, LiveTickets(DoAttach(n.sys, a, request, n.clients[k].ticket, draws)), k,
                        request.constellation)
  {
    var ticket := n.clients[k].ticket;
    LiveAfterRotate(n.sys.hub.registry, ticket, request, n.sys.now, draws);
    DrawnIsNobodys(n, k, draws);
    OthersConsumed(n, k, LiveTickets(DoAttach(n.sys, a, request, ticket, draws)),
                   n.sys.hub.registry.Draw(n.sys.now, draws).value);
  }

  /** The attaching client's own side: its ticket was live and is exchanged for the new one. */
  lemma AttachedAnswer(n: Net, k: ClientId, a: AttachmentId, request: Request, draws: seq<Ticket>)
    requires NetInv(n) && Sensible(n, AskAttach(k, a, request, draws))
    requires n.sys.hub.AttachError(request, n.clients[k].ticket, n.sys.now, draws).None?
    ensures n.clients[k].ticket in LiveTickets(n.sys)
    ensures var r := Exchange(n, AskAttach(k, a, request, draws));
            ClientOk(LiveTickets(r.sys), r.sys.now, r.sys.attachments, r.clients[k])
  {
    assert ClientOk(LiveTickets(n.sys), n.sys.now, n.sys.attachments, n.clients[k]);
    assert n.clients[k].ticket in LiveTickets(n.sys);
    LiveAfterRotate(n.sys.hub.registry, n.clients[k].ticket, request, n.sys.now, draws);
  }

  lemma AttachKeepsNet(n: Net, k: ClientId, a: AttachmentId, request: Request, draws: seq<Ticket>)
    requires NetInv(n) && Sensible(n, AskAttach(k, a, request, draws))
    requires SlotFree(n.sys.hub.records, request.constellation)
    ensures NetInv(Exchange(n, AskAttach(k, a, request, draws)))
  {
    var ticket := n.clients[k].ticket;
    AttachConcerns(n, k, request.constellation);
    InvAttach(n.sys, a, request, ticket, draws);
    var r := Exchange(n, AskAttach(k, a, request, draws));
    if n.sys.hub.AttachError(request, ticket, n.sys.now, draws).None? {
      AttachedAnswer(n, k, a, request, draws);
      AttachedTicketsKept(n, k, a, request, draws);
      AskedKeepsNet(n, r, k, a);
    } else {
      LiveLater(n.sys.hub.registry.tickets, n.sys.now, n.sys.now);
      RefusedKeepsNet(n, r);
    }
  }

  // ---------------------------------------------------------------------
  // Every run
  // ---------------------------------------------------------------------

  lemma ExchangeKeepsNet(n: Net, m: Message)
    requires NetInv(n) && Sensible(n, m)
    requires m.AskAttach? ==> SlotFree(n.sys.hub.records, m.request.constellation)
    ensures NetInv(Exchange(n, m))
  {
    match m
    case Clock(now) => TickKeepsNet(n, now);
    case SweepHub => SweepKeepsNet(n);
    case AskCreate(k, a, request, draws) => CreateKeepsNet(n, k, a, request, draws);
    case AskAttach(k, a, request, draws) => AttachKeepsNet(n, k, a, request, draws);
    case Deliver(k) => DeliverKeepsNet(n, k);
    case CommitSent(a) => CommitKeepsNet(n, a);
    case Undeliver(k) => UndeliverKeepsNet(n, k);
    case CloseLease(a) => CloseKeepsNet(n, a);
    case LeaveLease(a, same) => LeaveKeepsNet(n, a, same);
  }

  /** What a message means for the hub; a receipt means nothing to it. */
  function EventOf(n: Net, m: Message): (e: Option<Event>)
    requires Sensible(n, m)
  {
    match m
    case Clock(now) => Some(Tick(now))
    case SweepHub => Some(Sweep)
    case AskCreate(_, a, request, draws) => Some(Create(a, request, draws))
    case AskAttach(k, a, request, draws) => Some(Attach(a, request, n.clients[k].ticket, draws))
    case Deliver(_) => None
    case CommitSent(a) => Some(Commit(a))
    case Undeliver(k) => Some(Abort(n.clients[k].flight.value.attachment))
    case CloseLease(a) => Some(Finish(a))
    case LeaveLease(a, same) => Some(Leave(a, same))
  }

  /** Every message is a possible event of the hub: no create is taken back whose ticket has been redeemed. */
  lemma ExchangeIsStep(n: Net, m: Message)
    requires NetInv(n) && Sensible(n, m)
    ensures var e := EventOf(n, m);
            if e.None? then Exchange(n, m).sys == n.sys
            else Possible(n.sys, e.value) && Exchange(n, m).sys == Next(n.sys, e.value)
  {
    if m.Undeliver? {
      UndeliverIsPossible(n, m.client);
    }
  }

  ghost predicate SensibleRun(n: Net, run: seq<Message>)
    decreases |run|
  {
    run == [] || (Sensible(n, run[0]) && SensibleRun(Exchange(n, run[0]), run[1..]))
  }

  ghost function Outcome(n: Net, run: seq<Message>): (r: Net)
    requires SensibleRun(n, run)
    decreases |run|
  {
    if run == [] then n else Outcome(Exchange(n, run[0]), run[1..])
  }

  lemma {:induction false} NetInvRun(n: Net, run: seq<Message>)
    requires NetInv(n) && ControllersOk(n.sys.hub.records) && Room(n.sys, |run|) && SensibleRun(n, run)
    ensures NetInv(Outcome(n, run)) && ControllersOk(Outcome(n, run).sys.hub.records)
    decreases |run|
  {
    if run != [] {
      var e := EventOf(n, run[0]);
      ExchangeIsStep(n, run[0]);
      if e.Some? {
        ControllersStep(n.sys, e.value);
        RoomStep(n.sys, e.value, |run| - 1);
      }
      if run[0].AskAttach? {
        UnwrappedIsFree(n.sys.hub.records, run[0].request.constellation);
      }
      ExchangeKeepsNet(n, run[0]);
      NetInvRun(Exchange(n, run[0]), run[1..]);
    }
  }

  /** A hub and any number of clients before anything has happened. */
  ghost predicate Untouched(n: Net) {
    && n.sys.hub.Configured() && !n.sys.hub.closed && !n.sys.hub.registry.closed
    && n.sys.hub.records == map[] && n.sys.hub.registry.tickets == map[] && n.sys.attachments == map[]
    && n.sent == {}
    && forall k :: k in n.clients ==>
         n.clients[k].constellation == 0 && n.clients[k].ticket == 0 && n.clients[k].flight.None?
  }

  /**
   Ticket agreement: over every run of less than 2^64 - 2 messages in which each
   answer is delivered and later committed or undelivered and taken back, and
   in which clients may act on an answer before it is committed, a client with
   nothing under way and an unexpired ticket holds exactly the ticket the
   registry has for its constellation, and no other.
   */
  lemma TicketAgreement(n: Net, run: seq<Message>, k: ClientId)
    requires Untouched(n) && SensibleRun(n, run) && |run| + 2 <= MAX_UINT64
    ensures var r := Outcome(n, run);
            var tickets := r.sys.hub.registry.tickets;
            k in r.clients && r.clients[k].flight.None? && r.clients[k].constellation != 0
            && r.sys.now < r.clients[k].expiry ==>
              var client := r.clients[k];
              && r.sys.hub.registry.Redeemable(client.ticket, client.principal, client.constellation, r.sys.now)
              && forall t :: t in Live(tickets, r.sys.now) && tickets[t].constellation == client.constellation ==>
                   t == client.ticket
  {
    NetInvRun(n, run);
    var r := Outcome(n, run);
    var live := LiveTickets(r.sys);
    if k in r.clients && r.clients[k].flight.None? && r.clients[k].constellation != 0
       && r.sys.now < r.clients[k].expiry {
      assert ClientOk(live, r.sys.now, r.sys.attachments, r.clients[k]);
      assert r.clients[k].ticket in live;
    }
  }

  /**
   The rule that no committed answer is lost is needed: a client that keeps
   its old ticket after the server has committed the successor is refused
   after any later operations, unless that very ticket is drawn again.  A
   committed rotation is never rolled back.
   */
  lemma LostAnswerLocksOut(registry: Registry, ticket: Ticket, request: Request, now: int, draws: seq<Ticket>,
                           ops: seq<TicketOp>, later: int, draws': seq<Ticket>)
    requires registry.RotateError(ticket, request.principal, request.constellation, request.transcript, now,
                                  draws).None?
    requires var use := Rotating(ticket, request.principal, request.constellation, request.transcript, now, draws);
             NeverBroughtBack(Perform(registry, use), ops, ticket)
    ensures var use := Rotating(ticket, request.principal, request.constellation, request.transcript, now, draws);
            PerformAll(Perform(registry, use), ops)
              .RotateError(ticket, request.principal, request.constellation, request.transcript, later, draws')
            in {Some(TicketInvalid), Some(TicketsClosed)}
  {
    var use := Rotating(ticket, request.principal, request.constellation, request.transcript, now, draws);
    SingleUse(registry, use, ops, request.principal, request.constellation, later);
  }
}
