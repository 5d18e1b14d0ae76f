/** The lease controller as an object whose fields its methods update. */
module ControllerObject {
  import opened Common
  import opened Arithmetic
  import opened LeaseController

  // ---------------------------------------------------------------------
  // Selection
  // ---------------------------------------------------------------------

  predicate Selectable(leases: Leases, id: Id) {
    id in leases && leases[id].state.Active?
  }

  /** The active leases of exactly this load, in admission order. */
  function TiesAt(leases: Leases, order: seq<Id>, load: nat): (ties: seq<Id>) {
    if order == [] then []
    else
      var last := order[|order| - 1];
      TiesAt(leases, order[..|order| - 1], load)
      + if Selectable(leases, last) && leases[last].load == load then [last] else []
  }

  lemma {:induction false} TiesAtElements(leases: Leases, order: seq<Id>, load: nat)
    ensures forall id :: id in TiesAt(leases, order, load) <==>
              id in order && Selectable(leases, id) && leases[id].load == load
    decreases |order|
  {
    if order != [] {
      TiesAtElements(leases, order[..|order| - 1], load);
      assert order == order[..|order| - 1] + [order[|order| - 1]];
    }
  }

  /** Every position of a cycle of length `n` comes round within `n` consecutive counts. */
  lemma ComesRound(n: nat, start: nat, position: nat) returns (count: nat)
    requires position < n
    ensures start <= count < start + n && count % n == position
  {
    var q, r := start / n, start % n;
    assert start == n * q + r;
    count := if position >= r then n * q + position else n * (q + 1) + position;
    assert n * (q + 1) == n * q + n;
    BlockIsUnique(n, if position >= r then q else q + 1, position);
  }

  const WORD: nat := MAX_UINT64 + 1

  /** The tie cursor after one more selection; it is an unsigned 64-bit number. */
  function Bumped(cursor: nat): (next: nat) {
    if cursor == MAX_UINT64 then 0 else cursor + 1
  }

  /** The tie cursor after `k` more selections. */
  function CursorAfter(cursor: nat, k: nat): (next: nat) {
    if k == 0 then cursor else Bumped(CursorAfter(cursor, k - 1))
  }

  lemma {:induction false} CursorWraps(cursor: nat, k: nat)
    requires cursor < WORD && k <= WORD
    ensures CursorAfter(cursor, k) == if cursor + k < WORD then cursor + k else cursor + k - WORD
  {
    if k > 0 {
      CursorWraps(cursor, k - 1);
    }
  }

  /** One of the next `n` selections among `n` ties takes this position. */
  ghost predicate Served(n: nat, cursor: nat, position: nat)
    requires 0 < n
  {
    exists k :: 0 <= k < n && CursorAfter(cursor, k) % n == position
  }

  lemma WrapsOnto(n: nat, count: nat, position: nat)
    requires 0 < n && WORD % n == 0 && WORD <= count && count % n == position
    ensures (count - WORD) % n == position
  {
    var t, q := count / n, WORD / n;
    assert WORD == n * q && count == n * t + position;
    if t < q {
      MultiplesApart(n, t, q);
      assert false;
    }
    Distributes(n, q, t - q);
    BlockIsUnique(n, t - q, position);
  }

  lemma EveryoneServed(n: nat, cursor: nat, position: nat)
    requires position < n <= WORD && cursor < WORD
    requires cursor + n <= WORD || WORD % n == 0
    ensures Served(n, cursor, position)
  {
    var count := ComesRound(n, cursor, position);
    CursorWraps(cursor, count - cursor);
    if count >= WORD {
      WrapsOnto(n, count, position);
    }
    assert CursorAfter(cursor, count - cursor) % n == position;
  }

  /** A count before the wrap does not take `position` when it lies this far behind the end of the word. */
  lemma MissedBeforeWrap(n: nat, i: nat, position: nat)
    requires 0 < n <= WORD && 0 < i <= WORD && position < n
    requires 0 < position + i - WORD % n < n
    ensures (WORD - i) % n != position
  {
    if (WORD - i) % n == position {
      var t, q := (WORD - i) / n, WORD / n;
      assert WORD - i == n * t + position && WORD == n * q + WORD % n;
      if t < q {
        MultiplesApart(n, t, q);
      } else {
        ProductGrows(n, q, t);
      }
      assert false;
    }
  }

  /** With a wrap ahead and ties that do not divide the word, one position is passed over. */
  lemma SomeonePassedOver(n: nat, cursor: nat) returns (position: nat)
    requires 0 < n <= WORD && cursor < WORD < cursor + n && WORD % n != 0
    ensures position < n && !Served(n, cursor, position)
  {
    var before, r := WORD - cursor, WORD % n;
    position := Min(n - 1, r + n - before - 1);
    forall k | 0 <= k < n
      ensures CursorAfter(cursor, k) % n != position
    {
      CursorWraps(cursor, k);
      if cursor + k < WORD {
        MissedBeforeWrap(n, before - k, position);
        assert CursorAfter(cursor, k) == WORD - (before - k);
      } else {
        BlockIsUnique(n, 0, k - before);
        assert CursorAfter(cursor, k) == k - before < position;
      }
    }
  }

  /** What `Select` picks with this cursor: of the active leases of least load, the one the cursor points at. */
  ghost predicate Picks(leases: Leases, order: seq<Id>, cursor: nat, id: Id) {
    && Selectable(leases, id)
    && (forall x :: Selectable(leases, x) ==> leases[id].load <= leases[x].load)
    && var ties := TiesAt(leases, order, leases[id].load);
      |ties| > 0 && id == ties[cursor % |ties|]
  }

  lemma {:induction false} TiesAreDistinct(leases: Leases, order: seq<Id>, load: nat)
    requires Distinct(order)
    ensures Distinct(TiesAt(leases, order, load))
    decreases |order|
  {
    if order != [] {
      TiesAreDistinct(leases, order[..|order| - 1], load);
      TiesAtElements(leases, order[..|order| - 1], load);
    }
  }

  lemma PicksPosition(leases: Leases, order: seq<Id>, load: nat, cursor: nat, position: nat)
    requires Distinct(order) && position < |TiesAt(leases, order, load)|
    requires forall x :: Selectable(leases, x) ==> load <= leases[x].load
    ensures var ties := TiesAt(leases, order, load);
            Picks(leases, order, cursor, ties[position]) <==> cursor % |ties| == position
  {
    var ties := TiesAt(leases, order, load);
    TiesAtElements(leases, order, load);
    TiesAreDistinct(leases, order, load);
    assert ties[position] in ties;
  }

  /** Each of the leases tied at the least load is picked by one of the next selections, as many as there are ties. */
  ghost predicate RoundRobin(leases: Leases, order: seq<Id>, load: nat, cursor: nat) {
    var ties := TiesAt(leases, order, load);
    forall p :: 0 <= p < |ties| ==> PickedWithin(leases, order, cursor, |ties|, ties[p])
  }

  ghost predicate PickedWithin(leases: Leases, order: seq<Id>, cursor: nat, n: nat, id: Id) {
    exists k :: 0 <= k < n && Picks(leases, order, CursorAfter(cursor, k), id)
  }

  lemma PickedIffServed(leases: Leases, order: seq<Id>, load: nat, cursor: nat, position: nat)
    requires Distinct(order) && position < |TiesAt(leases, order, load)|
    requires forall x :: Selectable(leases, x) ==> load <= leases[x].load
    ensures var ties := TiesAt(leases, order, load);
            PickedWithin(leases, order, cursor, |ties|, ties[position]) <==> Served(|ties|, cursor, position)
  {
    var ties := TiesAt(leases, order, load);
    forall k | 0 <= k < |ties|
      ensures Picks(leases, order, CursorAfter(cursor, k), ties[position])
          <==> CursorAfter(cursor, k) % |ties| == position
    {
      PicksPosition(leases, order, load, CursorAfter(cursor, k), position);
    }
  }

  /**
   Round robin, exactly: the next selections serve every lease tied at the
   least load if and only if the 64-bit cursor does not wrap meanwhile, or
   wraps at a multiple of the number of ties.
   */
  lemma SelectionIsFair(leases: Leases, order: seq<Id>, load: nat, cursor: nat)
    requires Distinct(order) && cursor < WORD
    requires forall x :: Selectable(leases, x) ==> load <= leases[x].load
    requires 0 < |TiesAt(leases, order, load)| <= WORD
    ensures var n := |TiesAt(leases, order, load)|;
            RoundRobin(leases, order, load, cursor) <==> cursor + n <= WORD || WORD % n == 0
  {
    var n := |TiesAt(leases, order, load)|;
    if cursor + n <= WORD || WORD % n == 0 {
      forall p | 0 <= p < n
        ensures PickedWithin(leases, order, cursor, n, TiesAt(leases, order, load)[p])
      {
        EveryoneServed(n, cursor, p);
        PickedIffServed(leases, order, load, cursor, p);
      }
    } else {
      var p := SomeonePassedOver(n, cursor);
      PickedIffServed(leases, order, load, cursor, p);
    }
  }

  /** Three ties at the end of the word: the next three selections take positions 0, 0 and 1. */
  lemma WrapPassesOver()
    ensures CursorAfter(MAX_UINT64, 0) % 3 == 0 && CursorAfter(MAX_UINT64, 1) % 3 == 0
    ensures CursorAfter(MAX_UINT64, 2) % 3 == 1 && !Served(3, MAX_UINT64, 2)
  {
    CursorWraps(MAX_UINT64, 1);
    CursorWraps(MAX_UINT64, 2);
  }

  lemma {:induction false} NoTiesBelow(leases: Leases, order: seq<Id>, minimum: nat, load: nat)
    requires load < minimum
    requires forall k :: 0 <= k < |order| && Selectable(leases, order[k]) ==> minimum <= leases[order[k]].load
    ensures TiesAt(leases, order, load) == []
    decreases |order|
  {
    if order != [] {
      NoTiesBelow(leases, order[..|order| - 1], minimum, load);
    }
  }

  /** Where removing an identifier cuts the list: at its first occurrence, if there is one. */
  lemma {:induction false} WithoutFirst(order: seq<Id>, id: Id, i: nat)
    requires i <= |order| && id !in order[..i] && (i < |order| ==> order[i] == id)
    ensures Without(order, id) == if i < |order| then order[..i] + order[i + 1..] else order
    decreases i
  {
    if i > 0 {
      assert order[0] == order[..i][0];
      assert order[1..][..i - 1] == order[..i][1..];
      WithoutFirst(order[1..], id, i - 1);
      assert order == [order[0]] + order[1..];
    }
  }

  class Controller {
    const principal: Id
    const constellation: Id
    const maxActive: nat
    const maxDraining: nat
    var nextId: nat
    var primary: Id
    var tieCursor: nat
    var leases: Leases
    var order: seq<Id>
    var closed: bool
    /** Every resource closed so far. */
    ghost var released: multiset<Resource>

    ghost function View(): (c: Ctl)
      reads this
    {
      Ctl(principal, constellation, maxActive, maxDraining, nextId, primary, leases, order, closed)
    }

    ghost predicate Valid()
      reads this
    {
      LeaseController.Inv(View()) && nextId <= MAX_UINT64 && tieCursor <= MAX_UINT64
    }

    constructor (principal: Id, constellation: Id, maxActive: nat, maxDraining: nat, first: Candidate)
      requires ConfigError(principal, constellation, maxActive, maxDraining).None?
      requires Unstarted(principal, constellation, maxActive, maxDraining).CandidateError(first).None?
      ensures Valid() && released == multiset{}
      ensures View() == Unstarted(principal, constellation, maxActive, maxDraining).Add(first)
    {
      ghost var started := Started(Unstarted(principal, constellation, maxActive, maxDraining), first);
      StartedIsOk(principal, constellation, maxActive, maxDraining, first);
      this.principal, this.constellation := principal, constellation;
      this.maxActive, this.maxDraining := maxActive, maxDraining;
      nextId, primary, tieCursor, closed := 2, 1, 0, false;
      leases := map[1 := Lease(first.key, first.carrier, first.resource, Active, 0)];
      order := [1];
      released := multiset{};
      new;
      assert View() == started;
    }

    method CountState(state: LeaseState) returns (count: nat)
      ensures count == Count(leases, state)
    {
      count := 0;
      var rest := leases.Keys;
      ghost var matched: set<Id> := {};
      while rest != {}
        invariant rest <= leases.Keys && matched !! rest
        invariant forall id :: id in matched <==> id in InState(leases, state) && id !in rest
        invariant count == |matched|
        decreases rest
      {
        var id :| id in rest;
        rest := rest - {id};
        if leases[id].state == state {
          count, matched := count + 1, matched + {id};
        }
      }
      assert matched == InState(leases, state);
    }

    method FindFirstActive() returns (id: Id)
      ensures id == FirstActive(leases, order)
    {
      var i := 0;
      while i < |order|
        invariant 0 <= i <= |order|
        invariant FirstActive(leases, order) == FirstActive(leases, order[i..])
      {
        if order[i] in leases && leases[order[i]].state.Active? {
          return order[i];
        }
        assert order[i..][1..] == order[i + 1..];
        i := i + 1;
      }
      id := 0;
    }

    method RemoveOrder(id: Id)
      modifies this`order
      ensures order == Without(old(order), id)
    {
      var i := 0;
      while i < |order| && order[i] != id
        invariant 0 <= i <= |order|
        invariant id !in order[..i]
      {
        i := i + 1;
      }
      WithoutFirst(order, id, i);
      if i < |order| {
        order := order[..i] + order[i + 1..];
      }
    }

    method HasKey(key: Id) returns (found: bool)
      ensures found <==> KeyTaken(leases, key)
    {
      var rest := leases.Keys;
      while rest != {}
        invariant rest <= leases.Keys
        invariant forall id :: id in leases && id !in rest ==> leases[id].key != key
        decreases rest
      {
        var id :| id in rest;
        if leases[id].key == key {
          return true;
        }
        rest := rest - {id};
      }
      found := false;
    }

    method Add(candidate: Candidate) returns (id: Id, error: Option<ControllerError>)
      requires Valid()
      modifies this
      ensures error == old(View()).AddError(candidate)
      ensures View() == old(View()).Add(candidate)
      ensures error.None? ==> id == old(View()).Slot()
      ensures old(View()).Slot() !in old(leases) ==> Valid()
      ensures released == old(released) && tieCursor == old(tieCursor)
    {
      if candidate.key == 0 || candidate.resource == 0 || candidate.carrier.UnknownCarrier?
         || candidate.principal != principal || candidate.constellation != constellation {
        return 0, Some(LeaseBinding);
      }
      if closed {
        return 0, Some(ControllerClosed);
      }
      var taken := HasKey(candidate.key);
      if taken {
        return 0, Some(LeaseDuplicate);
      }
      var active := CountState(Active);
      if active >= maxActive {
        return 0, Some(LeaseCapacity);
      }
      AddKeepsInv(View(), candidate);
      id := if nextId == 0 then 1 else nextId;
      nextId := if id >= MAX_UINT64 then 0 else id + 1;
      leases := leases[id := Lease(candidate.key, candidate.carrier, candidate.resource, Active, 0)];
      order := order + [id];
      if primary == 0 {
        primary := id;
      }
      error := None;
    }

    method UpdateLoad(id: Id, load: nat) returns (error: Option<ControllerError>)
      requires Valid()
      modifies this`leases
      ensures Valid() && View() == old(View()).SetLoad(id, load)
      ensures error.None? <==> !closed && id in old(leases)
      ensures if error.None? then LoadSet(old(View()), View(), id, load) else View() == old(View())
    {
      SetLoadSets(View(), id, load);
      if closed {
        return Some(ControllerClosed);
      }
      if id !in leases {
        return Some(LeaseNotFound);
      }
      SetLoadKeepsInv(View(), id, load);
      leases := leases[id := leases[id].(load := load)];
      error := None;
    }

    /** The least load of an active lease, and the leases tied at it. */
    method LeastLoaded() returns (minimum: nat, ties: seq<Id>)
      requires Listed(leases, order)
      requires forall x :: x in leases ==> leases[x].load <= MAX_UINT64
      ensures ties == TiesAt(leases, order, minimum)
      ensures forall x :: x in ties ==> Selectable(leases, x) && leases[x].load == minimum
      ensures forall x :: Selectable(leases, x) ==> minimum <= leases[x].load
      ensures ties == [] <==> InState(leases, Active) == {}
    {
      minimum, ties := ScanLoads();
      TiesAtElements(leases, order, minimum);
      forall x | Selectable(leases, x)
        ensures minimum <= leases[x].load && ties != []
      {
        var k :| 0 <= k < |order| && order[k] == x;
      }
      if ties != [] {
        assert ties[0] in InState(leases, Active);
      }
    }

    /** The loop over the leases in admission order. */
    method ScanLoads() returns (minimum: nat, ties: seq<Id>)
      requires forall x :: x in leases ==> leases[x].load <= MAX_UINT64
      ensures ties == TiesAt(leases, order, minimum)
      ensures forall k :: 0 <= k < |order| && Selectable(leases, order[k]) ==>
                minimum <= leases[order[k]].load && ties != []
    {
      minimum, ties := MAX_UINT64, [];
      for i := 0 to |order|
        invariant ties == TiesAt(leases, order[..i], minimum) && minimum <= MAX_UINT64
        invariant ties == [] ==> minimum == MAX_UINT64
        invariant forall k :: 0 <= k < i && Selectable(leases, order[k]) ==>
                    minimum <= leases[order[k]].load && ties != []
      {
        var lease := order[i];
        assert order[..i + 1][..i] == order[..i];
        if lease in leases && leases[lease].state.Active? {
          if leases[lease].load < minimum {
            NoTiesBelow(leases, order[..i], minimum, leases[lease].load);
            minimum, ties := leases[lease].load, [lease];
          } else if leases[lease].load == minimum {
            ties := ties + [lease];
          }
        }
      }
      assert order[..|order|] == order;
    }

    /** Picks an active lease of least load, rotating among ties. */
    method Select() returns (id: Id, error: Option<ControllerError>)
      requires Valid()
      requires forall x :: x in leases ==> leases[x].load <= MAX_UINT64
      modifies this`tieCursor
      ensures Valid() && View() == old(View())
      ensures error == if closed then Some(ControllerClosed)
                       else if InState(leases, Active) == {} then Some(NoActiveLease) else None
      ensures error.None? ==> Picks(leases, order, old(tieCursor), id)
      ensures tieCursor == if error.Some? then old(tieCursor) else Bumped(old(tieCursor))
    {
      if closed {
        return 0, Some(ControllerClosed);
      }
      var minimum, ties := LeastLoaded();
      if |ties| == 0 {
        return 0, Some(NoActiveLease);
      }
      id := ties[tieCursor % |ties|];
      assert id in ties && id in InState(leases, Active);
      tieCursor := if tieCursor == MAX_UINT64 then 0 else tieCursor + 1;
      error := None;
    }

    method Promote(id: Id) returns (error: Option<ControllerError>)
      requires Valid()
      modifies this`leases, this`primary
      ensures Valid()
      ensures error == old(View()).PromoteError(id)
      ensures View() == old(View()).Promote(id)
      ensures if error.None? then HandedOver(old(View()), View(), id) else View() == old(View())
    {
      PromoteHandsOver(View(), id);
      PromoteKeepsInv(View(), id);
      if closed {
        return Some(ControllerClosed);
      }
      if id !in leases {
        return Some(LeaseNotFound);
      }
      if leases[id].state != Active {
        return Some(LeaseStateError);
      }
      if primary == id {
        return None;
      }
      if primary in leases && leases[primary].state.Active? {
        var draining := CountState(Draining);
        if draining >= maxDraining {
          return Some(LeaseCapacity);
        }
        leases := leases[primary := leases[primary].(state := Draining)];
      }
      primary := id;
      error := None;
    }

    method BeginDrain(id: Id) returns (error: Option<ControllerError>)
      requires Valid()
      modifies this`leases, this`primary
      ensures Valid()
      ensures error == old(View()).BeginDrainError(id)
      ensures View() == old(View()).BeginDrain(id)
      ensures if error.None? then DrainBegun(old(View()), View(), id) else View() == old(View())
    {
      BeginDrainDrains(View(), id);
      BeginDrainKeepsInv(View(), id);
      if closed {
        return Some(ControllerClosed);
      }
      if id !in leases {
        return Some(LeaseNotFound);
      }
      if leases[id].state != Active {
        return Some(LeaseStateError);
      }
      var draining := CountState(Draining);
      if draining >= maxDraining {
        return Some(LeaseCapacity);
      }
      var active := CountState(Active);
      if id == primary && active <= 1 {
        return Some(NoActiveLease);
      }
      leases := leases[id := leases[id].(state := Draining)];
      if id == primary {
        primary := FindFirstActive();
      }
      error := None;
    }

    /** `Fail` and `CompleteDrain`: the lease goes and its resource is closed. */
    method RemoveAndClose(id: Id, requireDraining: bool) returns (error: Option<ControllerError>)
      requires Valid()
      modifies this
      ensures Valid()
      ensures error == old(View()).RemoveError(id, requireDraining)
      ensures View() == old(View()).Remove(id, requireDraining)
      ensures released == old(released) + LeaseController.Closed(old(View()), OpRemove(id, requireDraining))
      ensures tieCursor == old(tieCursor)
    {
      ghost var after := View().Remove(id, requireDraining);
      RemoveKeepsInv(View(), id, requireDraining);
      if closed {
        return Some(ControllerClosed);
      }
      if id !in leases {
        return Some(LeaseNotFound);
      }
      if requireDraining && leases[id].state != Draining {
        return Some(LeaseStateError);
      }
      var resource := leases[id].resource;
      leases := leases - {id};
      RemoveOrder(id);
      if primary == id {
        primary := FindFirstActive();
      }
      released := released + multiset{resource};
      assert View() == after;
      error := None;
    }

    method CollectResources() returns (resources: seq<Resource>)
      requires Listed(leases, order)
      ensures multiset(resources) == Owned(leases, order)
    {
      resources := [];
      ghost var all := Owned(leases, order);
      for i := 0 to |order|
        invariant forall x :: x in order[i..] ==> x in leases
        invariant multiset(resources) + Owned(leases, order[i..]) == all
      {
        assert order[i] in leases;
        assert order[i..][1..] == order[i + 1..];
        resources := resources + [leases[order[i]].resource];
      }
      assert order[|order|..] == [];
    }

    /** Closes every resource still owned, in admission order; a second call does nothing. */
    method Stop() returns (resources: seq<Resource>)
      requires Valid()
      modifies this
      ensures Valid() && View() == old(View()).Stop()
      ensures multiset(resources) == LeaseController.Closed(old(View()), OpStop)
      ensures released == old(released) + multiset(resources)
    {
      StopKeepsInv(View());
      resources := [];
      if closed {
        return;
      }
      resources := CollectResources();
      closed, leases, order, primary := true, map[], [], 0;
      released := released + multiset(resources);
    }
  }
}
