/**
 The two-party admission protocol: clients that hold one rotating ticket each,
 and the server whose hub issued them.  Every server answer is either
 delivered, and committed some time afterwards, or not delivered and taken
 back; a client may act on an answer before the server has committed it.
 */
module AdmissionProtocol {
  import opened Common
  import opened LC = LeaseController
  import opened LeaseTickets
  import opened ConstellationHub

  type ClientId = nat

  /** A request whose answer is under way: the server's attachment, and when the new ticket expires. */
  datatype Flight = Flight(attachment: AttachmentId, expiry: int)

  /**
   A client.  Zero constellation and ticket mean it has none.  `expiry` is
   when its ticket runs out; the client does not know it, the server does.
   */
  datatype Client = Client(
    principal: LC.Id,
    constellation: LC.Id,
    ticket: Ticket,
    expiry: int,
    flight: Option<Flight>)

  /** `sent` are the attachments whose answer has been delivered and not committed yet. */
  datatype Net = Net(sys: Sys, clients: map<ClientId, Client>, sent: set<AttachmentId>)

  datatype Message =
    | Clock(now: int)
    | SweepHub
    | AskCreate(client: ClientId, attachment: AttachmentId, request: Request, draws: seq<Ticket>)
    | AskAttach(client: ClientId, attachment: AttachmentId, request: Request, draws: seq<Ticket>)
    | Deliver(client: ClientId)
    | CommitSent(attachment: AttachmentId)
    | Undeliver(client: ClientId)
    | CloseLease(attachment: AttachmentId)
    | LeaveLease(attachment: AttachmentId, same: bool)

  predicate Consumed(s: Sys, a: AttachmentId, ticket: Ticket)
    requires a in s.attachments
  {
    && s.attachments[a].phase.Pending? && s.attachments[a].phase.admission.Rotated?
    && s.attachments[a].phase.admission.current == ticket
  }

  /** A random draw does not repeat a ticket that a pending rotation has consumed. */
  predicate FreshDraw(s: Sys, draws: seq<Ticket>) {
    var drawn := s.hub.registry.Draw(s.now, draws);
    drawn.Some? ==> forall a :: a in s.attachments ==> !Consumed(s, a, drawn.value)
  }

  predicate Sensible(n: Net, m: Message) {
    match m
    case Clock(now) => n.sys.now <= now
    case SweepHub => true
    case AskCreate(k, a, request, draws) =>
      && k in n.clients && a !in n.sys.attachments && FreshDraw(n.sys, draws)
      && n.clients[k].flight.None? && n.clients[k].constellation == 0 && n.clients[k].ticket == 0
      && request.principal == n.clients[k].principal
      && forall j :: j in n.clients ==> n.clients[j].constellation != request.constellation
    case AskAttach(k, a, request, draws) =>
      && k in n.clients && a !in n.sys.attachments && FreshDraw(n.sys, draws)
      && n.clients[k].flight.None? && n.clients[k].constellation != 0 && n.clients[k].ticket != 0
      && request.principal == n.clients[k].principal && request.constellation == n.clients[k].constellation
    case Deliver(k) =>
      k in n.clients && n.clients[k].flight.Some? && n.clients[k].flight.value.attachment in n.sys.attachments
    case CommitSent(a) => a in n.sent && Enabled(n.sys, Commit(a))
    case Undeliver(k) =>
      && k in n.clients && n.clients[k].flight.Some?
      && Enabled(n.sys, Abort(n.clients[k].flight.value.attachment))
    case CloseLease(a) => Enabled(n.sys, Finish(a))
    case LeaveLease(a, same) => Enabled(n.sys, Leave(a, same))
  }

  /** The request reaches the server; if the hub admits it, the answer is under way. */
  function Asked(n: Net, k: ClientId, a: AttachmentId, sys: Sys): (r: Net)
    requires k in n.clients
  {
    if a in sys.attachments then
      var flight := Flight(a, n.sys.now + n.sys.hub.registry.ttl);
      n.(sys := sys, clients := n.clients[k := n.clients[k].(flight := Some(flight))])
    else n.(sys := sys)
  }

  /** The answer arrives: the client takes the new ticket, and the server has yet to commit. */
  function Delivered(n: Net, k: ClientId): (r: Net)
    requires Sensible(n, Deliver(k))
  {
    var client := n.clients[k];
    var flight := client.flight.value;
    var a := n.sys.attachments[flight.attachment];
    n.(clients := n.clients[k := Client(client.principal, a.constellation, a.ticket, flight.expiry, None)],
       sent := n.sent + {flight.attachment})
  }

  /** The answer cannot be sent: the server takes the admission back, the client keeps its ticket. */
  function Undelivered(n: Net, k: ClientId): (r: Net)
    requires Sensible(n, Undeliver(k))
  {
    var client := n.clients[k];
    n.(sys := DoAbort(n.sys, client.flight.value.attachment), clients := n.clients[k := client.(flight := None)])
  }

  function Exchange(n: Net, m: Message): (r: Net)
    requires Sensible(n, m)
  {
    match m
    case Clock(now) => n.(sys := n.sys.(now := now))
    case SweepHub => n.(sys := n.sys.(hub := n.sys.hub.Sweep(n.sys.now)))
    case AskCreate(k, a, request, draws) => Asked(n, k, a, DoCreate(n.sys, a, request, draws))
    case AskAttach(k, a, request, draws) => Asked(n, k, a, DoAttach(n.sys, a, request, n.clients[k].ticket, draws))
    case Deliver(k) => Delivered(n, k)
    case CommitSent(a) => n.(sys := Next(n.sys, Commit(a)), sent := n.sent - {a})
    case Undeliver(k) => Undelivered(n, k)
    case CloseLease(a) => n.(sys := DoFinish(n.sys, a))
    case LeaveLease(a, same) => n.(sys := DoLeave(n.sys, a, same))
  }

  // ---------------------------------------------------------------------
  // The invariant
  // ---------------------------------------------------------------------

  /** The registry holds `ticket` bound like this until it expires, and never again with another expiry. */
  ghost predicate Holds(live: Tickets, now: int, ticket: Ticket, principal: LC.Id, constellation: LC.Id, expiry: int) {
    && (now < expiry ==>
          ticket in live && live[ticket].principal == principal && live[ticket].constellation == constellation)
    && (ticket in live && live[ticket].constellation == constellation ==>
          live[ticket].expiresAt == expiry && live[ticket].transcript != 0)
  }

  /** A client with nothing under way. */
  ghost predicate IdleOk(live: Tickets, now: int, c: Client) {
    c.constellation != 0 ==>
      c.ticket != 0 && c.principal != 0 && Holds(live, now, c.ticket, c.principal, c.constellation, c.expiry)
  }

  /** A client whose answer is under way, against the server's attachment for it. */
  ghost predicate FlightOk(live: Tickets, now: int, c: Client, f: Flight, a: Attachment) {
    && a.phase.Pending?
    && a.ticket == a.phase.admission.next && a.ticket != 0 && a.constellation != 0
    && a.phase.admission.principal == c.principal && c.principal != 0
    && Holds(live, now, a.ticket, c.principal, a.constellation, f.expiry)
    && match a.phase.admission
       case Issued(_, _) => c.constellation == 0 && AtMost(live, a.constellation, a.ticket)
       case Rotated(_, current, next, grant) =>
         && a.constellation == c.constellation && current == c.ticket && current != 0
         && grant.constellation == c.constellation && grant.transcript != 0
         && grant.expiresAt == c.expiry <= f.expiry
         && (current in live ==> c.expiry <= now && live[current].constellation != c.constellation)
  }

  ghost predicate ClientOk(live: Tickets, now: int, attachments: map<AttachmentId, Attachment>, c: Client) {
    match c.flight
    case None => IdleOk(live, now, c)
    case Some(f) =>
      && f.attachment in attachments && FlightOk(live, now, c, f, attachments[f.attachment])
      && (attachments[f.attachment].phase.admission.Issued? ==> Alone(attachments, f.attachment))
  }

  /** The constellation a client has or has asked for. */
  function Target(attachments: map<AttachmentId, Attachment>, c: Client): (id: LC.Id) {
    match c.flight
    case None => c.constellation
    case Some(f) => if f.attachment in attachments then attachments[f.attachment].constellation else 0
  }

  /** A client whose consumed ticket would come back if its answer were not delivered. */
  predicate Recoverable(now: int, c: Client) {
    c.flight.Some? && c.constellation != 0 && now < c.expiry
  }

  /** Two clients share no answer, no constellation and no consumed ticket that could come back. */
  ghost predicate ClientsApart(now: int, attachments: map<AttachmentId, Attachment>, c: Client, d: Client) {
    && (c.flight.Some? && d.flight.Some? ==> c.flight.value.attachment != d.flight.value.attachment)
    && (Target(attachments, c) == Target(attachments, d) ==> Target(attachments, c) == 0)
    && (Recoverable(now, c) && Recoverable(now, d) ==> c.ticket != d.ticket)
  }

  /** No answer under way has been delivered, and those delivered are pending. */
  ghost predicate SentOk(n: Net) {
    && (forall k :: k in n.clients && n.clients[k].flight.Some? ==> n.clients[k].flight.value.attachment !in n.sent)
    && (forall a :: a in n.sent ==> a in n.sys.attachments && n.sys.attachments[a].phase.Pending?)
  }

  ghost predicate ClientsOk(live: Tickets, now: int, attachments: map<AttachmentId, Attachment>,
                            clients: map<ClientId, Client>)
  {
    forall k :: k in clients ==> ClientOk(live, now, attachments, clients[k])
  }

  ghost predicate AllApart(now: int, attachments: map<AttachmentId, Attachment>, clients: map<ClientId, Client>) {
    forall j, k :: j in clients && k in clients && j != k ==> ClientsApart(now, attachments, clients[j], clients[k])
  }

  ghost predicate NetInv(n: Net) {
    && AdmissionInv(n.sys)
    && ClientsOk(LiveTickets(n.sys), n.sys.now, n.sys.attachments, n.clients)
    && AllApart(n.sys.now, n.sys.attachments, n.clients)
    && SentOk(n)
  }
}
