/**
 The registry of single-use lease tickets.  Every operation first drops the
 expired tickets; a rotation consumes one ticket and issues its successor, and
 a rotation whose successor never reached the peer can be rolled back.
 */
module LeaseTickets {
  import opened Common

  type Id = nat
  type Ticket = nat

  const MAX_LEASE_TICKETS: nat := 4096
  const SECOND: int := 1_000_000_000
  const MIN_TICKET_TTL: int := 5 * SECOND
  const MAX_TICKET_TTL: int := 600 * SECOND
  const MAX_TICKET_ATTEMPTS: nat := 8

  datatype TicketError = TicketConfig | TicketBinding | TicketCapacity | TicketEntropy | TicketInvalid | TicketsClosed

  datatype TicketRecord = TicketRecord(principal: Id, constellation: Id, transcript: Id, expiresAt: int)

  datatype Grant = Grant(constellation: Id, transcript: Id, expiresAt: int)

  function GrantOf(r: TicketRecord): (g: Grant) {
    Grant(r.constellation, r.transcript, r.expiresAt)
  }

  type Tickets = map<Ticket, TicketRecord>

  /** The tickets that have not expired. */
  function Live(tickets: Tickets, now: int): (r: Tickets) {
    map t | t in tickets && now < tickets[t].expiresAt :: tickets[t]
  }

  /** The first usable draw within the attempts allowed; running out of draws is an entropy failure. */
  function FirstFresh(tickets: Tickets, draws: seq<Ticket>, attempts: nat): (r: Option<Ticket>)
    ensures r.Some? ==> r.value != 0 && r.value !in tickets && r.value in draws
    decreases attempts
  {
    if attempts == 0 || draws == [] then None
    else if draws[0] == 0 || draws[0] in tickets then FirstFresh(tickets, draws[1..], attempts - 1)
    else Some(draws[0])
  }

  datatype Registry = Registry(tickets: Tickets, maxTickets: nat, ttl: int, closed: bool) {

    function Draw(now: int, draws: seq<Ticket>): (r: Option<Ticket>) {
      FirstFresh(Live(tickets, now), draws, MAX_TICKET_ATTEMPTS)
    }

    /** `ticket` is live and bound to this principal and constellation. */
    predicate Redeemable(ticket: Ticket, principal: Id, constellation: Id, now: int) {
      && ticket in tickets && now < tickets[ticket].expiresAt
      && ticket != 0 && principal != 0 && constellation != 0
      && tickets[ticket].principal == principal && tickets[ticket].constellation == constellation
    }

    function Swept(now: int): (r: Registry) {
      this.(tickets := Live(tickets, now))
    }

    function IssueError(principal: Id, constellation: Id, transcript: Id, now: int, draws: seq<Ticket>)
      : (e: Option<TicketError>)
    {
      if principal == 0 || constellation == 0 || transcript == 0 then Some(TicketBinding)
      else if closed then Some(TicketsClosed)
      else if |Live(tickets, now)| >= maxTickets then Some(TicketCapacity)
      else if Draw(now, draws).None? then Some(TicketEntropy)
      else None
    }

    function Issue(principal: Id, constellation: Id, transcript: Id, now: int, draws: seq<Ticket>): (r: Registry) {
      match IssueError(principal, constellation, transcript, now, draws)
      case None =>
        Swept(now).(tickets := Live(tickets, now)
          [Draw(now, draws).value := TicketRecord(principal, constellation, transcript, now + ttl)])
      case Some(TicketBinding) => this
      case Some(TicketsClosed) => this
      case Some(_) => Swept(now)
    }

    function ConsumeError(ticket: Ticket, principal: Id, constellation: Id, now: int): (e: Option<TicketError>) {
      if closed then Some(TicketsClosed)
      else if !Redeemable(ticket, principal, constellation, now) then Some(TicketInvalid)
      else None
    }

    function Consume(ticket: Ticket, principal: Id, constellation: Id, now: int): (r: Registry) {
      if closed then this
      else if ConsumeError(ticket, principal, constellation, now).Some? then Swept(now)
      else this.(tickets := Live(tickets, now) - {ticket})
    }

    function RotateError(ticket: Ticket, principal: Id, constellation: Id, transcript: Id, now: int,
                         draws: seq<Ticket>): (e: Option<TicketError>)
    {
      if transcript == 0 then Some(TicketBinding)
      else if closed then Some(TicketsClosed)
      else if !Redeemable(ticket, principal, constellation, now) then Some(TicketInvalid)
      else if Draw(now, draws).None? then Some(TicketEntropy)
      else None
    }

    function Rotate(ticket: Ticket, principal: Id, constellation: Id, transcript: Id, now: int,
                    draws: seq<Ticket>): (r: Registry)
    {
      match RotateError(ticket, principal, constellation, transcript, now, draws)
      case None =>
        this.(tickets := (Live(tickets, now) - {ticket})
          [Draw(now, draws).value := TicketRecord(principal, constellation, transcript, now + ttl)])
      case Some(TicketBinding) => this
      case Some(TicketsClosed) => this
      case Some(_) => Swept(now)
    }

    function RollbackError(current: Ticket, next: Ticket, principal: Id, constellation: Id, grant: Grant, now: int)
      : (e: Option<TicketError>)
    {
      if current == 0 || next == 0 || principal == 0 || constellation == 0 || grant.transcript == 0
         || grant.constellation != constellation then Some(TicketBinding)
      else if closed then Some(TicketsClosed)
      else
        var live := Live(tickets, now);
        if next !in live || current in live || live[next].principal != principal
           || live[next].constellation != constellation || now >= grant.expiresAt then Some(TicketInvalid)
        else None
    }

    function Rollback(current: Ticket, next: Ticket, principal: Id, constellation: Id, grant: Grant, now: int)
      : (r: Registry)
    {
      match RollbackError(current, next, principal, constellation, grant, now)
      case None =>
        this.(tickets := (Live(tickets, now) - {next})
          [current := TicketRecord(principal, constellation, grant.transcript, grant.expiresAt)])
      case Some(TicketBinding) => this
      case Some(TicketsClosed) => this
      case Some(_) => Swept(now)
    }

    predicate Revocable(ticket: Ticket, principal: Id, constellation: Id, now: int) {
      !closed && Redeemable(ticket, principal, constellation, now)
    }

    function Revoke(ticket: Ticket, principal: Id, constellation: Id, now: int): (r: Registry) {
      if ticket == 0 || principal == 0 || constellation == 0 || closed then this
      else if Revocable(ticket, principal, constellation, now) then this.(tickets := Live(tickets, now) - {ticket})
      else Swept(now)
    }
  }

  // ---------------------------------------------------------------------
  // Properties
  // ---------------------------------------------------------------------

  datatype TicketOp =
    | Issuing(principal: Id, constellation: Id, transcript: Id, now: int, draws: seq<Ticket>)
    | Consuming(ticket: Ticket, principal: Id, constellation: Id, now: int)
    | Rotating(ticket: Ticket, principal: Id, constellation: Id, transcript: Id, now: int, draws: seq<Ticket>)
    | RollingBack(current: Ticket, next: Ticket, principal: Id, constellation: Id, grant: Grant, now: int)
    | Revoking(ticket: Ticket, principal: Id, constellation: Id, now: int)
    | Closing

  function Perform(r: Registry, op: TicketOp): (s: Registry) {
    match op
    case Issuing(principal, constellation, transcript, now, draws) =>
      r.Issue(principal, constellation, transcript, now, draws)
    case Consuming(ticket, principal, constellation, now) => r.Consume(ticket, principal, constellation, now)
    case Rotating(ticket, principal, constellation, transcript, now, draws) =>
      r.Rotate(ticket, principal, constellation, transcript, now, draws)
    case RollingBack(current, next, principal, constellation, grant, now) =>
      r.Rollback(current, next, principal, constellation, grant, now)
    case Revoking(ticket, principal, constellation, now) => r.Revoke(ticket, principal, constellation, now)
    case Closing => if r.closed then r else r.(tickets := map[], closed := true)
  }

  function PerformAll(r: Registry, ops: seq<TicketOp>): (s: Registry)
    decreases |ops|
  {
    if ops == [] then r else PerformAll(Perform(r, ops[0]), ops[1..])
  }

  /** The operation draws this very ticket, or rolls back the rotation that consumed it. */
  predicate BringsBack(r: Registry, op: TicketOp, ticket: Ticket) {
    match op
    case Issuing(principal, constellation, transcript, now, draws) =>
      && r.IssueError(principal, constellation, transcript, now, draws).None?
      && r.Draw(now, draws) == Some(ticket)
    case Rotating(consumed, principal, constellation, transcript, now, draws) =>
      && r.RotateError(consumed, principal, constellation, transcript, now, draws).None?
      && r.Draw(now, draws) == Some(ticket)
    case RollingBack(current, next, principal, constellation, grant, now) =>
      r.RollbackError(current, next, principal, constellation, grant, now).None? && current == ticket
    case _ => false
  }

  ghost predicate NeverBroughtBack(r: Registry, ops: seq<TicketOp>, ticket: Ticket)
    decreases |ops|
  {
    ops == [] || (!BringsBack(r, ops[0], ticket) && NeverBroughtBack(Perform(r, ops[0]), ops[1..], ticket))
  }

  /** The operation gets past its arguments in an open registry. */
  predicate Heard(r: Registry, op: TicketOp) {
    && !r.closed
    && match op
       case Issuing(principal, constellation, transcript, _, _) =>
         principal != 0 && constellation != 0 && transcript != 0
       case Consuming(_, _, _, _) => true
       case Rotating(_, _, _, transcript, _, _) => transcript != 0
       case RollingBack(current, next, principal, constellation, grant, _) =>
         && current != 0 && next != 0 && principal != 0 && constellation != 0
         && grant.transcript != 0 && grant.constellation == constellation
       case Revoking(ticket, principal, constellation, _) => ticket != 0 && principal != 0 && constellation != 0
       case Closing => false
  }

  /** Whatever comes of it, it leaves no ticket that has expired by its time. */
  lemma ExpiredTicketsGo(r: Registry, op: TicketOp, ticket: Ticket)
    requires Heard(r, op) && 0 < r.ttl && ticket in Perform(r, op).tickets
    ensures op.now < Perform(r, op).tickets[ticket].expiresAt
  {
  }

  lemma {:induction false} FewerLive(tickets: Tickets, live: Tickets)
    requires live.Keys <= tickets.Keys
    ensures |live| <= |tickets|
    decreases |live|
  {
    if t :| t in live {
      FewerLive(tickets - {t}, live - {t});
      assert |live - {t}| == |live| - 1;
      assert |tickets - {t}| == |tickets| - 1;
    }
  }

  lemma SwapKeepsSize(live: Tickets, out: Ticket, back: Ticket, record: TicketRecord)
    requires out in live && back !in live
    ensures |(live - {out})[back := record]| == |live|
  {
    var left := live - {out};
    assert left.Keys == live.Keys - {out} && left[back := record].Keys == left.Keys + {back};
    assert |left| == |left.Keys| && |left[back := record]| == |left[back := record].Keys|;
  }

  lemma GrowsByOne(live: Tickets, t: Ticket, record: TicketRecord)
    requires t !in live
    ensures |live[t := record]| == |live| + 1
  {
    assert live[t := record].Keys == live.Keys + {t};
    assert |live| == |live.Keys| && |live[t := record]| == |live[t := record].Keys|;
  }

  lemma IssueKeepsQuota(r: Registry, op: TicketOp)
    requires op.Issuing? && |r.tickets| <= r.maxTickets
    ensures |Perform(r, op).tickets| <= r.maxTickets
  {
    var live := Live(r.tickets, op.now);
    FewerLive(r.tickets, live);
    if r.IssueError(op.principal, op.constellation, op.transcript, op.now, op.draws).None? {
      GrowsByOne(live, r.Draw(op.now, op.draws).value,
                 TicketRecord(op.principal, op.constellation, op.transcript, op.now + r.ttl));
    }
  }

  lemma RotateKeepsQuota(r: Registry, op: TicketOp)
    requires op.Rotating? && |r.tickets| <= r.maxTickets
    ensures |Perform(r, op).tickets| <= r.maxTickets
  {
    var live := Live(r.tickets, op.now);
    FewerLive(r.tickets, live);
    if r.RotateError(op.ticket, op.principal, op.constellation, op.transcript, op.now, op.draws).None? {
      SwapKeepsSize(live, op.ticket, r.Draw(op.now, op.draws).value,
                    TicketRecord(op.principal, op.constellation, op.transcript, op.now + r.ttl));
    }
  }

  lemma RollbackKeepsQuota(r: Registry, op: TicketOp)
    requires op.RollingBack? && |r.tickets| <= r.maxTickets
    ensures |Perform(r, op).tickets| <= r.maxTickets
  {
    var live := Live(r.tickets, op.now);
    FewerLive(r.tickets, live);
    if r.RollbackError(op.current, op.next, op.principal, op.constellation, op.grant, op.now).None? {
      SwapKeepsSize(live, op.next, op.current,
                    TicketRecord(op.principal, op.constellation, op.grant.transcript, op.grant.expiresAt));
    }
  }

  lemma RemovalKeepsQuota(r: Registry, op: TicketOp)
    requires (op.Consuming? || op.Revoking? || op.Closing?) && |r.tickets| <= r.maxTickets
    ensures |Perform(r, op).tickets| <= r.maxTickets
  {
    var left := Perform(r, op).tickets;
    assert left.Keys <= r.tickets.Keys;
    FewerLive(r.tickets, left);
  }

  lemma SameLimit(r: Registry, op: TicketOp)
    ensures Perform(r, op).maxTickets == r.maxTickets
  {
  }

  /** Rotating and rolling back keep the number of tickets; only an issue adds one, and only below the limit. */
  lemma StepKeepsQuota(r: Registry, op: TicketOp)
    requires |r.tickets| <= r.maxTickets
    ensures |Perform(r, op).tickets| <= r.maxTickets && Perform(r, op).maxTickets == r.maxTickets
  {
    if op.Issuing? {
      IssueKeepsQuota(r, op);
    } else if op.Rotating? {
      RotateKeepsQuota(r, op);
    } else if op.RollingBack? {
      RollbackKeepsQuota(r, op);
    } else {
      RemovalKeepsQuota(r, op);
    }
    SameLimit(r, op);
  }

  /** No run of operations holds more tickets than the registry may. */
  lemma {:induction false} QuotaHolds(r: Registry, ops: seq<TicketOp>)
    requires |r.tickets| <= r.maxTickets
    ensures |PerformAll(r, ops).tickets| <= r.maxTickets
    decreases |ops|
  {
    if ops != [] {
      StepKeepsQuota(r, ops[0]);
      QuotaHolds(Perform(r, ops[0]), ops[1..]);
    }
  }

  /** A ticket that is gone comes back by exactly those operations. */
  lemma GoneUntilBroughtBack(r: Registry, op: TicketOp, ticket: Ticket)
    requires ticket !in r.tickets
    ensures ticket in Perform(r, op).tickets <==> BringsBack(r, op, ticket)
  {
  }

  lemma {:induction false} StaysGone(r: Registry, ops: seq<TicketOp>, ticket: Ticket)
    requires ticket !in r.tickets && NeverBroughtBack(r, ops, ticket)
    ensures ticket !in PerformAll(r, ops).tickets
    decreases |ops|
  {
    if ops != [] {
      GoneUntilBroughtBack(r, ops[0], ticket);
      StaysGone(Perform(r, ops[0]), ops[1..], ticket);
    }
  }

  /**
   A ticket is single-use: once rotated or consumed it is refused after any
   later operations, for anybody and at any time, unless one of them draws it
   again or rolls its rotation back.
   */
  lemma SingleUse(r: Registry, use: TicketOp, ops: seq<TicketOp>, principal: Id, constellation: Id, later: int)
    requires use.Rotating? || use.Consuming?
    requires use.Rotating? ==> r.RotateError(use.ticket, use.principal, use.constellation, use.transcript, use.now,
                                             use.draws).None?
    requires use.Consuming? ==> r.ConsumeError(use.ticket, use.principal, use.constellation, use.now).None?
    requires NeverBroughtBack(Perform(r, use), ops, use.ticket)
    ensures var s := PerformAll(Perform(r, use), ops);
            && use.ticket !in s.tickets && !s.Redeemable(use.ticket, principal, constellation, later)
            && (forall transcript, draws ::
                  s.RotateError(use.ticket, principal, constellation, transcript, later, draws).Some?)
            && s.ConsumeError(use.ticket, principal, constellation, later).Some?
  {
    StaysGone(Perform(r, use), ops, use.ticket);
  }

  /** Its successor is redeemable for the same parties until it expires. */
  lemma SuccessorIsRedeemable(r: Registry, ticket: Ticket, principal: Id, constellation: Id, transcript: Id, now: int,
                              draws: seq<Ticket>, later: int)
    requires r.RotateError(ticket, principal, constellation, transcript, now, draws).None?
    ensures var next := r.Draw(now, draws).value;
            var s := r.Rotate(ticket, principal, constellation, transcript, now, draws);
            next != ticket && (s.Redeemable(next, principal, constellation, later) <==> later < now + r.ttl)
  {
  }

  /** A rotation rolled back before the old ticket expires restores the live tickets exactly. */
  lemma RollbackUndoesRotate(r: Registry, ticket: Ticket, principal: Id, constellation: Id, transcript: Id,
                             now: int, draws: seq<Ticket>, later: int)
    requires r.RotateError(ticket, principal, constellation, transcript, now, draws).None?
    requires now <= later && 0 < r.ttl && r.tickets[ticket].transcript != 0
    requires r.tickets[ticket].expiresAt <= now + r.ttl
    ensures var next := r.Draw(now, draws).value;
            var grant := GrantOf(r.tickets[ticket]);
            var s := r.Rotate(ticket, principal, constellation, transcript, now, draws);
            && (s.RollbackError(ticket, next, principal, constellation, grant, later).None?
                <==> later < grant.expiresAt)
            && (later < grant.expiresAt ==>
                  s.Rollback(ticket, next, principal, constellation, grant, later).tickets == Live(r.tickets, later))
  {
  }

  // ---------------------------------------------------------------------
  // The object
  // ---------------------------------------------------------------------

  class TicketRegistry {
    const maxTickets: nat
    const ttl: int
    var tickets: Tickets
    var closed: bool

    ghost function View(): (r: Registry)
      reads this
    {
      Registry(tickets, maxTickets, ttl, closed)
    }

    constructor (maxTickets: nat, ttl: int)
      requires 0 < maxTickets <= MAX_LEASE_TICKETS && MIN_TICKET_TTL <= ttl <= MAX_TICKET_TTL
      ensures View() == Registry(map[], maxTickets, ttl, false)
    {
      this.maxTickets, this.ttl := maxTickets, ttl;
      tickets, closed := map[], false;
    }

    /** `cleanupLocked`: deletes every ticket whose time has come. */
    method Cleanup(now: int)
      modifies this`tickets
      ensures tickets == Live(old(tickets), now)
    {
      var rest := tickets.Keys;
      while rest != {}
        invariant rest <= tickets.Keys <= old(tickets).Keys
        invariant forall t :: t in tickets ==> tickets[t] == old(tickets)[t]
        invariant forall t :: t in old(tickets) && (t in rest || now < old(tickets)[t].expiresAt) ==> t in tickets
        invariant forall t :: t in tickets && t !in rest ==> now < tickets[t].expiresAt
        decreases rest
      {
        var t :| t in rest;
        rest := rest - {t};
        if now >= tickets[t].expiresAt {
          tickets := tickets - {t};
        }
      }
    }

    /** `newTicketLocked`: draws until a non-zero ticket not in use turns up. */
    method NewTicket(draws: seq<Ticket>) returns (ticket: Option<Ticket>)
      ensures ticket == FirstFresh(tickets, draws, MAX_TICKET_ATTEMPTS)
    {
      var i := 0;
      while i < MAX_TICKET_ATTEMPTS
        invariant 0 <= i <= MAX_TICKET_ATTEMPTS && i <= |draws|
        invariant FirstFresh(tickets, draws, MAX_TICKET_ATTEMPTS)
               == FirstFresh(tickets, draws[i..], MAX_TICKET_ATTEMPTS - i)
      {
        if i == |draws| {
          return None;
        }
        assert draws[i..][1..] == draws[i + 1..];
        if draws[i] != 0 && draws[i] !in tickets {
          return Some(draws[i]);
        }
        i := i + 1;
      }
      ticket := None;
    }

    method Issue(principal: Id, constellation: Id, transcript: Id, now: int, draws: seq<Ticket>)
      returns (ticket: Ticket, error: Option<TicketError>)
      modifies this`tickets
      ensures error == old(View()).IssueError(principal, constellation, transcript, now, draws)
      ensures View() == old(View()).Issue(principal, constellation, transcript, now, draws)
      ensures error.None? ==> Some(ticket) == old(View()).Draw(now, draws)
    {
      if principal == 0 || constellation == 0 || transcript == 0 {
        return 0, Some(TicketBinding);
      }
      if closed {
        return 0, Some(TicketsClosed);
      }
      Cleanup(now);
      if |tickets| >= maxTickets {
        return 0, Some(TicketCapacity);
      }
      var drawn := NewTicket(draws);
      if drawn.None? {
        return 0, Some(TicketEntropy);
      }
      ticket := drawn.value;
      tickets := tickets[ticket := TicketRecord(principal, constellation, transcript, now + ttl)];
      error := None;
    }

    method Consume(ticket: Ticket, principal: Id, constellation: Id, now: int)
      returns (grant: Option<Grant>, error: Option<TicketError>)
      modifies this`tickets
      ensures error == old(View()).ConsumeError(ticket, principal, constellation, now)
      ensures View() == old(View()).Consume(ticket, principal, constellation, now)
      ensures error.None? ==> grant == Some(GrantOf(old(tickets)[ticket]))
    {
      if closed {
        return None, Some(TicketsClosed);
      }
      Cleanup(now);
      if ticket !in tickets || ticket == 0 || principal == 0 || constellation == 0
         || tickets[ticket].principal != principal || tickets[ticket].constellation != constellation {
        return None, Some(TicketInvalid);
      }
      grant := Some(GrantOf(tickets[ticket]));
      tickets := tickets - {ticket};
      error := None;
    }

    method Rotate(ticket: Ticket, principal: Id, constellation: Id, transcript: Id, now: int, draws: seq<Ticket>)
      returns (next: Ticket, grant: Option<Grant>, error: Option<TicketError>)
      modifies this`tickets
      ensures error == old(View()).RotateError(ticket, principal, constellation, transcript, now, draws)
      ensures View() == old(View()).Rotate(ticket, principal, constellation, transcript, now, draws)
      ensures error.None? ==>
                Some(next) == old(View()).Draw(now, draws) && grant == Some(GrantOf(old(tickets)[ticket]))
    {
      if transcript == 0 {
        return 0, None, Some(TicketBinding);
      }
      if closed {
        return 0, None, Some(TicketsClosed);
      }
      Cleanup(now);
      if ticket !in tickets || ticket == 0 || principal == 0 || constellation == 0
         || tickets[ticket].principal != principal || tickets[ticket].constellation != constellation {
        return 0, None, Some(TicketInvalid);
      }
      var drawn := NewTicket(draws);
      if drawn.None? {
        return 0, None, Some(TicketEntropy);
      }
      next := drawn.value;
      grant := Some(GrantOf(tickets[ticket]));
      tickets := tickets - {ticket};
      tickets := tickets[next := TicketRecord(principal, constellation, transcript, now + ttl)];
      error := None;
    }

    method RollbackRotate(current: Ticket, next: Ticket, principal: Id, constellation: Id, grant: Grant, now: int)
      returns (error: Option<TicketError>)
      modifies this`tickets
      ensures error == old(View()).RollbackError(current, next, principal, constellation, grant, now)
      ensures View() == old(View()).Rollback(current, next, principal, constellation, grant, now)
    {
      if current == 0 || next == 0 || principal == 0 || constellation == 0 || grant.transcript == 0
         || grant.constellation != constellation {
        return Some(TicketBinding);
      }
      if closed {
        return Some(TicketsClosed);
      }
      Cleanup(now);
      if next !in tickets || current in tickets || tickets[next].principal != principal
         || tickets[next].constellation != constellation || now >= grant.expiresAt {
        return Some(TicketInvalid);
      }
      tickets := tickets - {next};
      tickets := tickets[current := TicketRecord(principal, constellation, grant.transcript, grant.expiresAt)];
      error := None;
    }

    method Revoke(ticket: Ticket, principal: Id, constellation: Id, now: int) returns (revoked: bool)
      modifies this`tickets
      ensures revoked == old(View()).Revocable(ticket, principal, constellation, now)
      ensures View() == old(View()).Revoke(ticket, principal, constellation, now)
    {
      if ticket == 0 || principal == 0 || constellation == 0 {
        return false;
      }
      if closed {
        return false;
      }
      Cleanup(now);
      if ticket !in tickets || tickets[ticket].principal != principal
         || tickets[ticket].constellation != constellation {
        return false;
      }
      tickets := tickets - {ticket};
      revoked := true;
    }

    method Close()
      modifies this
      ensures View() == old(View()).(tickets := if old(closed) then old(tickets) else map[], closed := true)
    {
      if closed {
        return;
      }
      tickets, closed := map[], true;
    }
  }
}
