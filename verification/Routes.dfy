/**
 Resolving a user's traffic to a route: the order of routes, the server's own
 resolution, and the resolution of a route a client asks for.
 */
module RouteResolution {
  import opened Common
  import opened ClusterModel

  /** `domain` is already lower-cased and without its trailing dot. */
  datatype Target = Target(domain: string, hasAddress: bool, port: nat, protocol: Protocol)

  /** What the model does not compute: whether a prefix contains the target, and the geographic rules. */
  datatype Oracle = Oracle(contains: (string, Target) -> bool, geo: Option<(Match, Target) -> bool>)

  datatype ResolveError = InvalidState | Unauthorized

  datatype Resolution = Routed(action: Action, routeId: string) | Failed(error: ResolveError)

  const CURRENT: Action := Action(Current, [])

  // ---------------------------------------------------------------------
  // Matching
  // ---------------------------------------------------------------------

  predicate DomainMatches(domain: string, suffix: string) {
    domain == suffix || (|domain| > |suffix| && domain[|domain| - |suffix| - 1..] == "." + suffix)
  }

  /** A suffix stands for itself and for every name below it, label by label. */
  lemma DomainIsUnder(domain: string, suffix: string)
    ensures DomainMatches(domain, suffix) <==> domain == suffix || exists head :: domain == head + "." + suffix
  {
    if |domain| > |suffix| && domain[|domain| - |suffix| - 1..] == "." + suffix {
      var head := domain[..|domain| - |suffix| - 1];
      assert domain == head + ("." + suffix) == head + "." + suffix;
    }
    if head :| domain == head + "." + suffix {
      assert domain == head + ("." + suffix);
    }
  }

  ghost predicate PortMatches(ranges: seq<PortRange>, port: nat) {
    ranges == [] || exists i :: 0 <= i < |ranges| && ranges[i].low <= port <= ranges[i].high
  }

  predicate Unrestricted(rule: Match) {
    rule.domainSuffixes == [] && rule.cidrs == [] && rule.countries == [] && rule.categories == []
  }

  ghost predicate PlaceMatches(rule: Match, t: Target, o: Oracle) {
    || Unrestricted(rule)
    || (exists i :: 0 <= i < |rule.domainSuffixes| && DomainMatches(t.domain, rule.domainSuffixes[i]))
    || (t.hasAddress && exists i :: 0 <= i < |rule.cidrs| && o.contains(rule.cidrs[i], t))
    || (o.geo.Some? && o.geo.value(rule, t))
  }

  ghost predicate Matches(r: Route, t: Target, o: Oracle) {
    && r.enabled && t.port != 0 && t.protocol != OtherProtocol
    && (r.rule.protocols == [] || t.protocol in r.rule.protocols)
    && PortMatches(r.rule.portRanges, t.port) && PlaceMatches(r.rule, t, o)
  }

  /** `MatchesWith`. */
  method MatchesWith(r: Route, t: Target, o: Oracle) returns (matched: bool)
    ensures matched <==> Matches(r, t, o)
  {
    if !r.enabled || t.port == 0 || t.protocol == OtherProtocol {
      return false;
    }
    if |r.rule.protocols| > 0 && t.protocol !in r.rule.protocols {
      return false;
    }
    matched := MatchPort(r.rule.portRanges, t.port);
    if matched {
      matched := MatchPlace(r.rule, t, o);
    }
  }

  method MatchPort(ranges: seq<PortRange>, port: nat) returns (matched: bool)
    ensures matched <==> PortMatches(ranges, port)
  {
    if |ranges| == 0 {
      return true;
    }
    for i := 0 to |ranges|
      invariant forall k :: 0 <= k < i ==> !(ranges[k].low <= port <= ranges[k].high)
    {
      if ranges[i].low <= port <= ranges[i].high {
        return true;
      }
    }
    matched := false;
  }

  method MatchPlace(rule: Match, t: Target, o: Oracle) returns (matched: bool)
    ensures matched <==> PlaceMatches(rule, t, o)
  {
    if Unrestricted(rule) {
      return true;
    }
    for i := 0 to |rule.domainSuffixes|
      invariant forall k :: 0 <= k < i ==> !DomainMatches(t.domain, rule.domainSuffixes[k])
    {
      if DomainMatches(t.domain, rule.domainSuffixes[i]) {
        return true;
      }
    }
    if t.hasAddress {
      for i := 0 to |rule.cidrs|
        invariant forall k :: 0 <= k < i ==> !o.contains(rule.cidrs[k], t)
      {
        if o.contains(rule.cidrs[i], t) {
          return true;
        }
      }
    }
    matched := o.geo.Some? && o.geo.value(rule, t);
  }

  // ---------------------------------------------------------------------
  // The order of routes
  // ---------------------------------------------------------------------

  /** Lexicographic order on identifiers. */
  predicate LexLess(a: string, b: string) {
    if a == [] || b == [] then b != []
    else a[0] < b[0] || (a[0] == b[0] && LexLess(a[1..], b[1..]))
  }

  predicate Before(a: Route, b: Route) {
    if a.mandatory != b.mandatory then a.mandatory
    else if a.priority != b.priority then a.priority < b.priority
    else LexLess(a.id, b.id)
  }

  lemma {:induction false} LexTotal(a: string, b: string)
    ensures a != b ==> (LexLess(a, b) <==> !LexLess(b, a))
    ensures !LexLess(a, a)
    decreases |a|
  {
    if a != [] {
      LexTotal(a[1..], if b == [] then [] else b[1..]);
      if b != [] && a[0] == b[0] && a[1..] == b[1..] {
        assert a == [a[0]] + a[1..] && b == [b[0]] + b[1..];
      }
    }
  }

  lemma {:induction false} LexTransitive(a: string, b: string, c: string)
    requires LexLess(a, b) && LexLess(b, c)
    ensures LexLess(a, c)
    decreases |a|
  {
    if a != [] && a[0] == b[0] == c[0] {
      LexTransitive(a[1..], b[1..], c[1..]);
    }
  }

  /** Routes with different identifiers are ordered one way or the other, never both. */
  lemma BeforeTotal(a: Route, b: Route)
    ensures a.id != b.id ==> (Before(a, b) <==> !Before(b, a))
    ensures !Before(a, a)
  {
    LexTotal(a.id, b.id);
  }

  lemma BeforeTransitive(a: Route, b: Route, c: Route)
    requires Before(a, b) && Before(b, c)
    ensures Before(a, c)
  {
    if a.mandatory == b.mandatory == c.mandatory && a.priority == b.priority == c.priority {
      LexTransitive(a.id, b.id, c.id);
    }
  }

  ghost predicate UniqueIds(routes: seq<Route>) {
    forall i, j :: 0 <= i < j < |routes| ==> routes[i].id != routes[j].id
  }

  ghost predicate Sorted(routes: seq<Route>) {
    forall i, j :: 0 <= i < j < |routes| ==> !Before(routes[j], routes[i])
  }

  // ---------------------------------------------------------------------
  // Effective routes
  // ---------------------------------------------------------------------

  predicate Administered(r: Route) {
    r.enabled && r.source == FromAdmin
  }

  predicate Local(r: Route) {
    r.enabled && r.source == FromClient && !r.mandatory
  }

  function Kept(routes: seq<Route>, keep: Route -> bool): (r: seq<Route>)
    ensures forall x :: x in r <==> x in routes && keep(x)
  {
    if routes == [] then []
    else
      var last := routes[|routes| - 1];
      Kept(routes[..|routes| - 1], keep) + if keep(last) then [last] else []
  }

  ghost function Eligible(admin: seq<Route>, local: seq<Route>, allowClientRoutes: bool): (r: seq<Route>) {
    Kept(admin, Administered) + if allowClientRoutes then Kept(local, Local) else []
  }

  lemma {:induction false} KeptCounts(routes: seq<Route>, keep: Route -> bool, x: Route)
    ensures multiset(Kept(routes, keep))[x] == if keep(x) then multiset(routes)[x] else 0
    decreases |routes|
  {
    if routes != [] {
      var front, last := routes[..|routes| - 1], routes[|routes| - 1];
      assert routes == front + [last];
      KeptCounts(front, keep, x);
    }
  }

  /** How often a route is in effect: as often as it is listed by someone entitled to it. */
  function Occurrences(admin: seq<Route>, local: seq<Route>, allowClientRoutes: bool, x: Route): (n: nat) {
    (if x.enabled && x.source == FromAdmin then multiset(admin)[x] else 0)
    + if allowClientRoutes && x.enabled && x.source == FromClient && !x.mandatory then multiset(local)[x] else 0
  }

  /**
   Mandatory routes come first, then small priorities, then small identifiers;
   that is what the order amounts to.
   */
  predicate Ranked(a: Route, b: Route) {
    && (b.mandatory ==> a.mandatory)
    && (a.mandatory == b.mandatory ==>
          a.priority <= b.priority && (a.priority == b.priority ==> a.id == b.id || LexLess(a.id, b.id)))
  }

  lemma BeforeIsRanked(a: Route, b: Route)
    ensures !Before(b, a) <==> Ranked(a, b)
  {
    LexTotal(a.id, b.id);
  }

  /** The routes in effect, each as often as it is listed, in rank order. */
  ghost predicate InEffect(admin: seq<Route>, local: seq<Route>, allowClientRoutes: bool, r: seq<Route>) {
    && (forall x :: multiset(r)[x] == Occurrences(admin, local, allowClientRoutes, x))
    && forall i, j :: 0 <= i < j < |r| ==> Ranked(r[i], r[j])
  }

  lemma EligibleInEffect(admin: seq<Route>, local: seq<Route>, allowClientRoutes: bool, r: seq<Route>)
    requires multiset(r) == multiset(Eligible(admin, local, allowClientRoutes)) && Sorted(r)
    ensures InEffect(admin, local, allowClientRoutes, r)
  {
    forall x
      ensures multiset(r)[x] == Occurrences(admin, local, allowClientRoutes, x)
    {
      KeptCounts(admin, Administered, x);
      KeptCounts(local, Local, x);
    }
    forall i, j | 0 <= i < j < |r|
      ensures Ranked(r[i], r[j])
    {
      BeforeIsRanked(r[i], r[j]);
    }
  }

  /** `EffectiveRoutes`: the eligible routes, every one of them once, in order. */
  method EffectiveRoutes(admin: seq<Route>, local: seq<Route>, allowClientRoutes: bool) returns (r: seq<Route>)
    ensures multiset(r) == multiset(Eligible(admin, local, allowClientRoutes))
    ensures Sorted(r) && InEffect(admin, local, allowClientRoutes, r)
  {
    r := Keep(admin, Administered);
    if allowClientRoutes {
      var own := Keep(local, Local);
      r := r + own;
    }
    assert r == Eligible(admin, local, allowClientRoutes);
    r := SortRoutes(r);
    EligibleInEffect(admin, local, allowClientRoutes, r);
  }

  method Keep(routes: seq<Route>, keep: Route -> bool) returns (r: seq<Route>)
    ensures r == Kept(routes, keep)
  {
    r := [];
    for i := 0 to |routes|
      invariant r == Kept(routes[..i], keep)
    {
      assert routes[..i + 1][..i] == routes[..i];
      if keep(routes[i]) {
        r := r + [routes[i]];
      }
    }
    assert routes[..|routes|] == routes;
  }

  /** Any sort that leaves a sorted permutation behaves the same; this one inserts route by route. */
  method SortRoutes(routes: seq<Route>) returns (r: seq<Route>)
    ensures multiset(r) == multiset(routes)
    ensures Sorted(r)
  {
    r := [];
    for i := 0 to |routes|
      invariant multiset(r) == multiset(routes[..i])
      invariant Sorted(r)
    {
      assert routes[..i + 1] == routes[..i] + [routes[i]];
      var k := Slot(r, routes[i]);
      assert r == r[..k] + r[k..];
      InsertSorted(r, k, routes[i]);
      r := r[..k] + [routes[i]] + r[k..];
    }
    assert routes[..|routes|] == routes;
  }

  method Slot(sorted: seq<Route>, route: Route) returns (k: nat)
    requires Sorted(sorted)
    ensures k <= |sorted|
    ensures k > 0 ==> !Before(route, sorted[k - 1])
    ensures forall j :: k <= j < |sorted| ==> Before(route, sorted[j])
  {
    k := |sorted|;
    while k > 0 && Before(route, sorted[k - 1])
      invariant k <= |sorted|
      invariant forall j :: k <= j < |sorted| ==> Before(route, sorted[j])
    {
      k := k - 1;
    }
  }

  /** Not coming before is transitive too, which is what sorting needs. */
  lemma NotBeforeTransitive(a: Route, b: Route, c: Route)
    requires !Before(b, a) && !Before(c, b)
    ensures !Before(c, a)
  {
    if Before(c, a) {
      if a.id == b.id || b.id == c.id {
        OrderIgnoresRest(a, b, c);
      } else {
        BeforeTotal(a, b);
        BeforeTransitive(c, a, b);
      }
    }
  }

  lemma OrderIgnoresRest(a: Route, b: Route, c: Route)
    requires a.id == b.id || b.id == c.id
    requires !Before(b, a) && !Before(c, b)
    ensures !Before(c, a)
  {
    LexTotal(a.id, b.id);
    LexTotal(b.id, c.id);
  }

  lemma InsertSorted(sorted: seq<Route>, k: nat, route: Route)
    requires Sorted(sorted) && k <= |sorted|
    requires k > 0 ==> !Before(route, sorted[k - 1])
    requires forall j :: k <= j < |sorted| ==> Before(route, sorted[j])
    ensures Sorted(sorted[..k] + [route] + sorted[k..])
  {
    var r := sorted[..k] + [route] + sorted[k..];
    forall i, j | 0 <= i < j < |r|
      ensures !Before(r[j], r[i])
    {
      if j == k {
        if i < k - 1 {
          NotBeforeTransitive(sorted[i], sorted[k - 1], route);
        }
      } else if i == k {
        Asymmetric(route, sorted[j - 1]);
      }
    }
  }

  lemma Asymmetric(a: Route, b: Route)
    requires Before(a, b)
    ensures !Before(b, a)
  {
    LexTotal(a.id, b.id);
  }

  lemma SameHead(a: seq<Route>, b: seq<Route>)
    requires a != [] && b != [] && multiset(a) == multiset(b) && UniqueIds(a) && Sorted(a) && Sorted(b)
    ensures a[0] == b[0]
  {
    assert a[0] in multiset(a) && b[0] in multiset(b);
    var i :| 0 <= i < |a| && a[i] == b[0];
    var j :| 0 <= j < |b| && b[j] == a[0];
    BeforeTotal(a[0], a[i]);
  }

  lemma SameRest(a: seq<Route>, b: seq<Route>)
    requires a != [] && b != [] && multiset(a) == multiset(b) && a[0] == b[0]
    ensures multiset(a[1..]) == multiset(b[1..])
  {
    assert a == [a[0]] + a[1..] && b == [b[0]] + b[1..];
    assert multiset(a[1..]) == multiset(a) - multiset{a[0]};
    assert multiset(b[1..]) == multiset(b) - multiset{b[0]};
  }

  /** The order of effective routes does not depend on how they were stored. */
  lemma {:induction false} SortedIsUnique(a: seq<Route>, b: seq<Route>)
    requires multiset(a) == multiset(b) && UniqueIds(a) && Sorted(a) && Sorted(b)
    ensures a == b
    decreases |a|
  {
    assert |a| == |multiset(a)| && |b| == |multiset(b)|;
    if a != [] {
      SameHead(a, b);
      SameRest(a, b);
      SortedIsUnique(a[1..], b[1..]);
      assert a == [a[0]] + a[1..] && b == [b[0]] + b[1..];
    }
  }

  // ---------------------------------------------------------------------
  // Resolution
  // ---------------------------------------------------------------------

  ghost predicate AccessOf(s: State, user: string, a: Access) {
    a in s.access && a.userId == user
  }

  ghost predicate HasAccess(s: State, user: string) {
    exists a :: AccessOf(s, user, a)
  }

  /** The routes a resolution for this user and target may pick; `mandatoryOnly` leaves the mandatory ones. */
  ghost predicate Candidate(r: Route, a: Access, t: Target, o: Oracle, mandatoryOnly: bool) {
    Administered(r) && r.id in a.routes && Matches(r, t, o) && (mandatoryOnly ==> r.mandatory)
  }

  ghost predicate HasCandidate(routes: seq<Route>, a: Access, t: Target, o: Oracle, mandatoryOnly: bool) {
    exists r :: r in routes && Candidate(r, a, t, o, mandatoryOnly)
  }

  /** The first candidate in the order of routes, wherever it is stored. */
  ghost predicate First(routes: seq<Route>, a: Access, t: Target, o: Oracle, mandatoryOnly: bool, r: Route) {
    && r in routes && Candidate(r, a, t, o, mandatoryOnly)
    && forall q :: q in routes && Candidate(q, a, t, o, mandatoryOnly) && q != r ==> Before(r, q)
  }

  /**
   The route that decides is in effect, allowed to the user and matching, and
   ranks before every other such route.
   */
  lemma FirstRanks(routes: seq<Route>, a: Access, t: Target, o: Oracle, mandatoryOnly: bool, r: Route, q: Route)
    requires First(routes, a, t, o, mandatoryOnly, r)
    ensures r.enabled && r.source == FromAdmin && r.id in a.routes && Matches(r, t, o)
    ensures mandatoryOnly ==> r.mandatory
    ensures (&& q in routes && q.enabled && q.source == FromAdmin && q.id in a.routes && Matches(q, t, o)
             && (mandatoryOnly ==> q.mandatory)) ==> Ranked(r, q)
  {
    BeforeIsRanked(r, q);
    if q != r && Candidate(q, a, t, o, mandatoryOnly) && q in routes {
      Asymmetric(r, q);
    }
  }

  /** A route that restricts nothing matches every well-formed target, exactly while it is enabled. */
  lemma BareRouteMatches(r: Route, t: Target, o: Oracle)
    requires r.rule.domainSuffixes == [] && r.rule.cidrs == [] && r.rule.countries == [] && r.rule.categories == []
    requires r.rule.portRanges == [] && r.rule.protocols == [] && t.port != 0 && t.protocol != OtherProtocol
    ensures Matches(r, t, o) <==> r.enabled
  {
  }

  ghost predicate AllowedNodes(nodes: seq<string>, a: Access) {
    forall i :: 0 <= i < |nodes| ==> nodes[i] in a.nodes
  }

  /** What the server answers for a user whose access is `a`. */
  ghost predicate ResolvesTo(routes: seq<Route>, a: Access, t: Target, o: Oracle, answer: Resolution) {
    if HasCandidate(routes, a, t, o, false) then
      exists r :: && First(routes, a, t, o, false, r)
                  && answer == if AllowedNodes(r.action.nodes, a) then Routed(r.action, r.id) else Failed(InvalidState)
    else answer == Routed(CURRENT, "")
  }

  /** `ResolveRouteForUser`. */
  ghost predicate IsResolution(s: State, user: string, t: Target, o: Oracle, answer: Resolution) {
    if !ValidState(s) || !ValidOpaqueId(user, 128) || !HasAccess(s, user) then answer == Failed(InvalidState)
    else exists a :: AccessOf(s, user, a) && ResolvesTo(s.routes, a, t, o, answer)
  }

  /** What a client's wish comes to for a user whose access is `a`. */
  ghost predicate ClientResolvesTo(routes: seq<Route>, a: Access, t: Target, o: Oracle, wish: ClientRoute,
                                   answer: Resolution)
  {
    if HasCandidate(routes, a, t, o, true) then
      exists r :: First(routes, a, t, o, true, r) && answer == Routed(r.action, r.id)
    else if wish.action.kind == Auto then ResolvesTo(routes, a, t, o, answer)
    else
      answer == if AllowedNodes(wish.action.nodes, a) then Routed(wish.action, wish.routeId) else Failed(Unauthorized)
  }

  /** `ResolveClientRouteForUser`. */
  ghost predicate IsClientResolution(s: State, user: string, t: Target, o: Oracle, wish: ClientRoute,
                                     answer: Resolution)
  {
    if !ValidState(s) || !ValidClientRoute(wish) || !ValidOpaqueId(user, 128) then answer == Failed(InvalidState)
    else if !(exists a :: AccessOf(s, user, a) && a.allowClientRoutes) then answer == Failed(Unauthorized)
    else exists a :: AccessOf(s, user, a) && a.allowClientRoutes && ClientResolvesTo(s.routes, a, t, o, wish, answer)
  }

  method FindAccess(s: State, user: string) returns (found: Option<Access>)
    ensures found.Some? ==> AccessOf(s, user, found.value)
    ensures found.None? ==> !HasAccess(s, user)
  {
    for i := 0 to |s.access|
      invariant forall k :: 0 <= k < i ==> s.access[k].userId != user
    {
      if s.access[i].userId == user {
        return Some(s.access[i]);
      }
    }
    found := None;
  }

  method CheckAllowed(nodes: seq<string>, a: Access) returns (ok: bool)
    ensures ok <==> AllowedNodes(nodes, a)
  {
    for i := 0 to |nodes|
      invariant forall k :: 0 <= k < i ==> nodes[k] in a.nodes
    {
      if nodes[i] !in a.nodes {
        return false;
      }
    }
    ok := true;
  }

  /** The loop over the effective routes that stops at the first candidate. */
  method FindFirst(routes: seq<Route>, a: Access, t: Target, o: Oracle, mandatoryOnly: bool)
    returns (found: Option<Route>)
    requires UniqueIds(routes)
    ensures found.Some? ==> First(routes, a, t, o, mandatoryOnly, found.value)
    ensures found.None? ==> !HasCandidate(routes, a, t, o, mandatoryOnly)
  {
    var effective := EffectiveRoutes(routes, [], false);
    EffectiveElements(routes, effective);
    for i := 0 to |effective|
      invariant forall k :: 0 <= k < i ==> !Candidate(effective[k], a, t, o, mandatoryOnly)
    {
      var matched := MatchesWith(effective[i], t, o);
      if effective[i].id in a.routes && (mandatoryOnly ==> effective[i].mandatory) && matched {
        FirstInOrder(routes, effective, a, t, o, mandatoryOnly, i);
        return Some(effective[i]);
      }
    }
    found := None;
  }

  lemma EffectiveElements(routes: seq<Route>, effective: seq<Route>)
    requires multiset(effective) == multiset(Eligible(routes, [], false))
    ensures forall x :: x in effective <==> x in routes && Administered(x)
  {
    var eligible := Eligible(routes, [], false);
    assert forall x :: x in effective <==> x in multiset(effective);
    assert forall x :: x in eligible <==> x in multiset(eligible);
    assert eligible == Kept(routes, Administered);
  }

  lemma FirstInOrder(routes: seq<Route>, effective: seq<Route>, a: Access, t: Target, o: Oracle,
                     mandatoryOnly: bool, i: nat)
    requires UniqueIds(routes) && Sorted(effective) && i < |effective|
    requires forall x :: x in effective <==> x in routes && Administered(x)
    requires forall k :: 0 <= k < i ==> !Candidate(effective[k], a, t, o, mandatoryOnly)
    requires Candidate(effective[i], a, t, o, mandatoryOnly)
    ensures First(routes, a, t, o, mandatoryOnly, effective[i])
  {
    var r := effective[i];
    forall q | q in routes && Candidate(q, a, t, o, mandatoryOnly) && q != r
      ensures Before(r, q)
    {
      var j :| 0 <= j < |effective| && effective[j] == q;
      SameIdSameRoute(routes, r, q);
      BeforeTotal(r, q);
      assert i < j;
    }
  }

  lemma SameIdSameRoute(routes: seq<Route>, a: Route, b: Route)
    requires UniqueIds(routes) && a in routes && b in routes
    ensures a.id == b.id ==> a == b
  {
    var i :| 0 <= i < |routes| && routes[i] == a;
    var j :| 0 <= j < |routes| && routes[j] == b;
  }

  method ResolveRoute(s: State, user: string, t: Target, o: Oracle) returns (answer: Resolution)
    ensures IsResolution(s, user, t, o, answer)
  {
    var valid := ValidateState(s);
    if !valid || !ValidOpaqueId(user, 128) {
      return Failed(InvalidState);
    }
    var access := FindAccess(s, user);
    if access.None? {
      return Failed(InvalidState);
    }
    answer := Resolve(s.routes, access.value, t, o);
  }

  method Resolve(routes: seq<Route>, a: Access, t: Target, o: Oracle) returns (answer: Resolution)
    requires UniqueIds(routes)
    ensures ResolvesTo(routes, a, t, o, answer)
  {
    var first := FindFirst(routes, a, t, o, false);
    if first.None? {
      return Routed(CURRENT, "");
    }
    var r := first.value;
    var ok := CheckAllowed(r.action.nodes, a);
    answer := if ok then Routed(r.action, r.id) else Failed(InvalidState);
  }

  method ResolveClientRoute(s: State, user: string, t: Target, o: Oracle, wish: ClientRoute)
    returns (answer: Resolution)
    ensures IsClientResolution(s, user, t, o, wish, answer)
  {
    var valid := ValidateState(s);
    var sensible := ValidateClientRoute(wish);
    if !valid || !sensible || !ValidOpaqueId(user, 128) {
      return Failed(InvalidState);
    }
    var access := FindAccess(s, user);
    if access.None? {
      return Failed(Unauthorized);
    }
    var a := access.value;
    if !a.allowClientRoutes {
      OneAccess(s, user, a);
      return Failed(Unauthorized);
    }
    answer := ResolveWish(s.routes, a, t, o, wish);
  }

  method ResolveWish(routes: seq<Route>, a: Access, t: Target, o: Oracle, wish: ClientRoute)
    returns (answer: Resolution)
    requires UniqueIds(routes)
    ensures ClientResolvesTo(routes, a, t, o, wish, answer)
  {
    var first := FindFirst(routes, a, t, o, true);
    if first.Some? {
      return Routed(first.value.action, first.value.id);
    }
    if wish.action.kind == Auto {
      answer := Resolve(routes, a, t, o);
      return answer;
    }
    var ok := CheckAllowed(wish.action.nodes, a);
    answer := if ok then Routed(wish.action, wish.routeId) else Failed(Unauthorized);
  }

  // ---------------------------------------------------------------------
  // What resolution promises
  // ---------------------------------------------------------------------

  /** A valid state has one access entry per user. */
  lemma OneAccess(s: State, user: string, a: Access)
    requires ValidState(s) && AccessOf(s, user, a)
    ensures forall b :: AccessOf(s, user, b) ==> b == a
  {
    forall b | AccessOf(s, user, b)
      ensures b == a
    {
      var i :| 0 <= i < |s.access| && s.access[i] == a;
      var j :| 0 <= j < |s.access| && s.access[j] == b;
    }
  }

  lemma FirstIsUnique(routes: seq<Route>, stored: seq<Route>, a: Access, t: Target, o: Oracle, mandatoryOnly: bool,
                      r: Route, q: Route)
    requires UniqueIds(routes) && forall x :: x in routes <==> x in stored
    requires First(routes, a, t, o, mandatoryOnly, r) && First(stored, a, t, o, mandatoryOnly, q)
    ensures r == q
  {
    if r != q {
      Asymmetric(r, q);
    }
  }

  /** Two valid states that hold the same entries, stored in any order. */
  ghost predicate SameEntries(s: State, z: State) {
    && (forall x :: x in s.routes <==> x in z.routes)
    && forall x :: x in s.access <==> x in z.access
  }

  /** Resolution has one answer, and it does not depend on the order in which routes and access are stored. */
  lemma ResolutionIgnoresOrder(s: State, z: State, user: string, t: Target, o: Oracle, x: Resolution, y: Resolution)
    requires ValidState(s) && ValidState(z) && SameEntries(s, z)
    requires IsResolution(s, user, t, o, x) && IsResolution(z, user, t, o, y)
    ensures x == y
  {
    if ValidOpaqueId(user, 128) && HasAccess(s, user) {
      var a :| AccessOf(s, user, a) && ResolvesTo(s.routes, a, t, o, x);
      assert AccessOf(z, user, a);
      var b :| AccessOf(z, user, b) && ResolvesTo(z.routes, b, t, o, y);
      OneAccess(z, user, a);
      AnswersAgree(s.routes, z.routes, a, t, o, x, y);
    } else if ValidOpaqueId(user, 128) {
      assert forall a :: AccessOf(z, user, a) ==> AccessOf(s, user, a);
    }
  }

  lemma AnswersAgree(routes: seq<Route>, stored: seq<Route>, a: Access, t: Target, o: Oracle,
                     x: Resolution, y: Resolution)
    requires UniqueIds(routes) && forall r :: r in routes <==> r in stored
    requires ResolvesTo(routes, a, t, o, x) && ResolvesTo(stored, a, t, o, y)
    ensures x == y
  {
    assert HasCandidate(routes, a, t, o, false) <==> HasCandidate(stored, a, t, o, false);
    if HasCandidate(routes, a, t, o, false) {
      var r :| First(routes, a, t, o, false, r)
        && x == if AllowedNodes(r.action.nodes, a) then Routed(r.action, r.id) else Failed(InvalidState);
      var q :| First(stored, a, t, o, false, q)
        && y == if AllowedNodes(q.action.nodes, a) then Routed(q.action, q.id) else Failed(InvalidState);
      FirstIsUnique(routes, stored, a, t, o, false, r, q);
    }
  }

  /** The same for a client's wish. */
  lemma ClientResolutionIgnoresOrder(s: State, z: State, user: string, t: Target, o: Oracle, wish: ClientRoute,
                                     x: Resolution, y: Resolution)
    requires ValidState(s) && ValidState(z) && SameEntries(s, z)
    requires IsClientResolution(s, user, t, o, wish, x) && IsClientResolution(z, user, t, o, wish, y)
    ensures x == y
  {
    if ValidClientRoute(wish) && ValidOpaqueId(user, 128) {
      if a :| AccessOf(s, user, a) && a.allowClientRoutes {
        OneAccess(s, user, a);
        OneAccess(z, user, a);
        ClientAnswersAgree(s.routes, z.routes, a, t, o, wish, x, y);
      } else {
        assert forall a :: AccessOf(z, user, a) ==> AccessOf(s, user, a);
      }
    }
  }

  lemma ClientAnswersAgree(routes: seq<Route>, stored: seq<Route>, a: Access, t: Target, o: Oracle, wish: ClientRoute,
                           x: Resolution, y: Resolution)
    requires UniqueIds(routes) && forall r :: r in routes <==> r in stored
    requires ClientResolvesTo(routes, a, t, o, wish, x) && ClientResolvesTo(stored, a, t, o, wish, y)
    ensures x == y
  {
    assert HasCandidate(routes, a, t, o, true) <==> HasCandidate(stored, a, t, o, true);
    if HasCandidate(routes, a, t, o, true) {
      var r :| First(routes, a, t, o, true, r) && x == Routed(r.action, r.id);
      var q :| First(stored, a, t, o, true, q) && y == Routed(q.action, q.id);
      FirstIsUnique(routes, stored, a, t, o, true, r, q);
    } else if wish.action.kind == Auto {
      AnswersAgree(routes, stored, a, t, o, x, y);
    }
  }

  /** Where a mandatory route applies, the first of all candidates is the first mandatory one. */
  lemma MandatoryComesFirst(routes: seq<Route>, a: Access, t: Target, o: Oracle, r: Route)
    requires UniqueIds(routes) && First(routes, a, t, o, true, r)
    ensures First(routes, a, t, o, false, r)
  {
    forall q | q in routes && Candidate(q, a, t, o, false) && q != r
      ensures Before(r, q)
    {
      if q.mandatory {
        assert Candidate(q, a, t, o, true);
      }
    }
  }

  /** A mandatory route overrides whatever the client asks for: any two wishes get the same answer. */
  lemma MandatoryIgnoresWish(routes: seq<Route>, a: Access, t: Target, o: Oracle, wish: ClientRoute,
                             other: ClientRoute, x: Resolution, y: Resolution)
    requires UniqueIds(routes) && HasCandidate(routes, a, t, o, true)
    requires ClientResolvesTo(routes, a, t, o, wish, x) && ClientResolvesTo(routes, a, t, o, other, y)
    ensures x == y
  {
    var r :| First(routes, a, t, o, true, r) && x == Routed(r.action, r.id);
    var q :| First(routes, a, t, o, true, q) && y == Routed(q.action, q.id);
    FirstIsUnique(routes, routes, a, t, o, true, r, q);
  }

  /**
   A client's wish and no wish at all come to the same under a mandatory
   route exactly when the user may use every node of that route: the server's
   own resolution checks the nodes of a mandatory route, the client's does not.
   */
  lemma WishAgreesIffAllowed(routes: seq<Route>, a: Access, t: Target, o: Oracle, wish: ClientRoute,
                             r: Route, asked: Resolution, unasked: Resolution)
    requires UniqueIds(routes) && First(routes, a, t, o, true, r)
    requires ClientResolvesTo(routes, a, t, o, wish, asked) && ResolvesTo(routes, a, t, o, unasked)
    ensures asked == unasked <==> AllowedNodes(r.action.nodes, a)
  {
    var q :| First(routes, a, t, o, true, q) && asked == Routed(q.action, q.id);
    FirstIsUnique(routes, routes, a, t, o, true, r, q);
    MandatoryComesFirst(routes, a, t, o, r);
    assert HasCandidate(routes, a, t, o, false);
    var p :| First(routes, a, t, o, false, p)
      && unasked == if AllowedNodes(p.action.nodes, a) then Routed(p.action, p.id) else Failed(InvalidState);
    FirstIsUnique(routes, routes, a, t, o, false, r, p);
  }

  /** Without a mandatory route a client reaches allowed nodes only, whatever it asks for. */
  lemma WishStaysAllowed(routes: seq<Route>, a: Access, t: Target, o: Oracle, wish: ClientRoute, answer: Resolution)
    requires !HasCandidate(routes, a, t, o, true)
    requires ClientResolvesTo(routes, a, t, o, wish, answer) && answer.Routed?
    ensures AllowedNodes(answer.action.nodes, a)
  {
    if wish.action.kind == Auto && HasCandidate(routes, a, t, o, false) {
      var r :| First(routes, a, t, o, false, r)
        && answer == if AllowedNodes(r.action.nodes, a) then Routed(r.action, r.id) else Failed(InvalidState);
    }
  }

  /** A mandatory route to the master, for a user with no nodes of their own. */
  function SampleRoute(): (r: Route) {
    Route("r", 0, true, FromAdmin, true, Match([], [], [], [], [], []), Action(ToNode, ["m"]), true)
  }

  function SampleAccess(): (a: Access) {
    Access("u", [], ["r"], true, 1)
  }

  function SampleState(): (s: State) {
    State(1, "c", 1, [Node("m", [Master], true)], [SampleRoute()], [SampleAccess()], true)
  }

  lemma SampleStateIsValid()
    ensures ValidState(SampleState())
  {
    var s := SampleState();
    assert s.nodes[..0] == [];
    assert s.nodes[0].id in NodeIds(s.nodes);
    assert s.routes[0].id in RouteIds(s.routes);
    assert AccessOk(s.access[0], NodeIds(s.nodes), RouteIds(s.routes)) by {
      assert s.access[0].routes == ["r"];
    }
  }

  lemma SampleRouteIsFirst(t: Target, o: Oracle)
    requires t.port != 0 && t.protocol != OtherProtocol
    ensures First([SampleRoute()], SampleAccess(), t, o, true, SampleRoute())
    ensures !AllowedNodes(SampleRoute().action.nodes, SampleAccess())
  {
    assert Matches(SampleRoute(), t, o);
    assert SampleAccess().routes[0] == SampleRoute().id;
    assert SampleRoute().action.nodes[0] !in SampleAccess().nodes;
  }

  /** A mandatory route to a node the user may not use: refused without a wish, granted with any. */
  lemma WishWidensAccess(t: Target, o: Oracle, wish: ClientRoute)
    requires t.port != 0 && t.protocol != OtherProtocol && ValidClientRoute(wish)
    ensures IsResolution(SampleState(), "u", t, o, Failed(InvalidState))
    ensures IsClientResolution(SampleState(), "u", t, o, wish, Routed(Action(ToNode, ["m"]), "r"))
  {
    var s, a, r := SampleState(), SampleAccess(), SampleRoute();
    SampleStateIsValid();
    SampleRouteIsFirst(t, o);
    MandatoryComesFirst(s.routes, a, t, o, r);
    assert AccessOf(s, "u", a);
    assert HasCandidate(s.routes, a, t, o, true) && HasCandidate(s.routes, a, t, o, false);
    assert ResolvesTo(s.routes, a, t, o, Failed(InvalidState));
    assert ClientResolvesTo(s.routes, a, t, o, wish, Routed(r.action, r.id));
  }
}
