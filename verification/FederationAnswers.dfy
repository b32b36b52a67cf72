/** The whole of a route decision, in terms of units and peers. */
module FederationAnswers {
  import opened Wrappers
  import opened Basics
  import opened Federation
  import opened FederationSafety

  predicate Lists(p: Peer, target: string) {
    target in p.remoteUnits || exists i :: 0 <= i < |p.attachments| && p.attachments[i].nodeId == target
  }

  predicate InScope(p: Peer, scope: string) {
    scope == "" || p.scope == scope
  }

  /** How far the peers get towards a route. */
  predicate NoneLists(peers: seq<Peer>, q: Query) {
    forall p :: p in peers ==> !Lists(p, q.target)
  }

  predicate NoneInScope(peers: seq<Peer>, q: Query) {
    forall p :: p in peers ==> !(Lists(p, q.target) && InScope(p, q.scope))
  }

  predicate NoneFresh(peers: seq<Peer>, q: Query) {
    forall p :: p in peers ==> !(Lists(p, q.target) && InScope(p, q.scope) && q.now <= p.expiresAt)
  }

  predicate NoneQualifies(peers: seq<Peer>, q: Query) {
    forall p :: p in peers ==> !Qualifies(p, q)
  }

  /** A route of no core, with its reason. */
  predicate Fails(d: Decision, kind: Kind, status: Status, reason: string) {
    d.kind == kind && d.status == status && d.core == None && d.relayPath == [] && d.reason == reason
  }

  /** The relay path of a peer's first attachment for the target, its empty names left out. */
  predicate RelaysOver(p: Peer, target: string, path: seq<string>) {
    && (forall i :: 0 <= i < |p.attachments| && FirstFor(p.attachments, target, i) ==>
          path == NonEmpty(p.attachments[i].relayPath))
    && ((forall i :: 0 <= i < |p.attachments| ==> p.attachments[i].nodeId != target) ==> path == [])
  }

  /** A route through a peer: ready if it carries the transport. */
  predicate Routes(d: Decision, p: Peer, q: Query) {
    && d.kind == DelegatedCore && d.core == Some(p.coreId) && d.scope == p.scope && RelaysOver(p, q.target, d.relayPath)
    && (if Carries(p, q) then d.status == Ready && d.reason == ""
        else d.status == Rejected && d.reason == "transport_mismatch")
  }

  /** What the i-th peer is the first to do: list the target in the scope, and be current if that is asked. */
  predicate Serves(p: Peer, q: Query, current: bool) {
    Lists(p, q.target) && InScope(p, q.scope) && (current ==> q.now <= p.expiresAt)
  }

  predicate FirstPeer(peers: seq<Peer>, q: Query, current: bool, i: nat) {
    && i < |peers| && Serves(peers[i], q, current) && forall j :: 0 <= j < i ==> !Serves(peers[j], q, current)
  }

  /** The scope reported of a route that fails: the required one, else that of the first such peer. */
  predicate ScopeOf(peers: seq<Peer>, q: Query, current: bool, scope: string) {
    if q.scope != "" then scope == q.scope
    else exists i :: 0 <= i < |peers| && FirstPeer(peers, q, current, i) && peers[i].scope == scope
  }

  lemma {:induction false} FilterNested(xs: seq<Peer>, f: Peer -> bool, g: Peer -> bool, h: Peer -> bool)
    requires forall p :: h(p) <==> f(p) && g(p)
    ensures Filter(Filter(xs, f), g) == Filter(xs, h)
    decreases |xs|
  {
    if xs != [] {
      FilterNested(xs[1..], f, g, h);
      var tail := Filter(xs[1..], f);
      var x := xs[0];
      assert h(x) <==> f(x) && g(x);
      if f(x) {
        assert Filter(xs, f) == [x] + tail && ([x] + tail)[1..] == tail;
      } else {
        assert Filter(xs, f) == tail;
      }
    }
  }

  lemma {:induction false} FirstKept(xs: seq<Peer>, keep: Peer -> bool) returns (i: nat)
    requires Filter(xs, keep) != []
    ensures i < |xs| && keep(xs[i]) && Filter(xs, keep)[0] == xs[i] && forall j :: 0 <= j < i ==> !keep(xs[j])
    decreases |xs|
  {
    if keep(xs[0]) {
      i := 0;
    } else {
      var k := FirstKept(xs[1..], keep);
      i := k + 1;
      assert forall j :: 0 < j < |xs| ==> xs[j] == xs[1..][j - 1];
    }
  }

  function ServesFor(q: Query, current: bool): Peer -> bool {
    (p: Peer) => Serves(p, q, current)
  }

  lemma StagesAreFilters(peers: seq<Peer>, q: Query)
    ensures TrustedOf(Advertising(peers, q.target), q.scope) == Filter(peers, ServesFor(q, false))
    ensures FreshOf(TrustedOf(Advertising(peers, q.target), q.scope), q.now) == Filter(peers, ServesFor(q, true))
  {
    forall p
      ensures Lists(p, q.target) <==> Advertises(p, q.target)
    {
      AttachmentIsFirst(p.attachments, q.target);
    }
    hide Advertises, Lists, Filter;
    FilterNested(peers, AdvertisesTo(q.target), TrustedIn(q.scope), ServesFor(q, false));
    FilterNested(peers, ServesFor(q, false), FreshAt(q.now), ServesFor(q, true));
  }

  lemma ScopeIsFirst(peers: seq<Peer>, q: Query, current: bool)
    requires Filter(peers, ServesFor(q, current)) != []
    ensures ScopeOf(peers, q, current, OrElse(q.scope, Filter(peers, ServesFor(q, current))[0].scope))
  {
    var i := FirstKept(peers, ServesFor(q, current));
    hide Serves, Filter;
    assert FirstPeer(peers, q, current, i);
  }

  lemma StagesMean(peers: seq<Peer>, q: Query)
    ensures Advertising(peers, q.target) == [] <==> NoneLists(peers, q)
    ensures TrustedOf(Advertising(peers, q.target), q.scope) == [] <==> NoneInScope(peers, q)
    ensures FreshOf(TrustedOf(Advertising(peers, q.target), q.scope), q.now) == [] <==> NoneFresh(peers, q)
    ensures Reachables(peers, q) == [] <==> NoneQualifies(peers, q)
  {
    forall p
      ensures Lists(p, q.target) <==> Advertises(p, q.target)
    {
      AttachmentIsFirst(p.attachments, q.target);
    }
    ReachablesMembers(peers, q);
    hide Advertises, Lists, Qualifies, Filter;
    var a := Advertising(peers, q.target);
    var t := TrustedOf(a, q.scope);
    var f := FreshOf(t, q.now);
    var r := Reachables(peers, q);
    FilterMembers(peers, AdvertisesTo(q.target));
    FilterMembers(a, TrustedIn(q.scope));
    FilterMembers(t, FreshAt(q.now));
    assert a != [] ==> a[0] in a;
    assert t != [] ==> t[0] in t;
    assert f != [] ==> f[0] in f;
    assert r != [] ==> r[0] in r;
  }

  lemma ThroughMeans(p: Peer, q: Query)
    ensures Routes(Through(p, q), p, q)
  {
    CarriesMeans(p, q);
    AttachmentIsFirst(p.attachments, q.target);
    assert NonEmpty([]) == [];
    hide AttachmentFor, FirstFor, Carries, NonEmpty;
  }

  /** The decision for a target that is not local: why there is no route, or the route through a peer of
      least core id that qualifies. */
  lemma DelegatedAnswers(peers: seq<Peer>, q: Query)
    ensures var d := PlanDelegated(peers, q);
      if NoneLists(peers, q) then Fails(d, NoKind, NoRoute, "target_node_not_advertised") && d.scope == q.scope
      else if NoneInScope(peers, q) then Fails(d, DelegatedCore, Rejected, "trust_scope_mismatch") && d.scope == q.scope
      else if NoneFresh(peers, q) then
        Fails(d, DelegatedCore, Stale, "peer_advertisement_stale") && ScopeOf(peers, q, false, d.scope)
      else if NoneQualifies(peers, q) then
        Fails(d, DelegatedCore, Failed, "peer_unreachable") && ScopeOf(peers, q, true, d.scope)
      else exists p :: p in peers && Qualifies(p, q) && NamesLeast(peers, q, p.coreId) && Routes(d, p, q)
  {
    StagesMean(peers, q);
    ReachablesMembers(peers, q);
    hide NoneLists, NoneInScope, NoneFresh, NoneQualifies, Qualifies, Routes, Through, Advertising, TrustedOf, FreshOf;
    hide ScopeOf, ServesFor, Filter;
    StagesAreFilters(peers, q);
    if !NoneInScope(peers, q) {
      ScopeIsFirst(peers, q, false);
    }
    if !NoneFresh(peers, q) {
      ScopeIsFirst(peers, q, true);
    }
    if Reachables(peers, q) != [] {
      ReachableNeeds(peers, q);
      var p := Least(Reachables(peers, q));
      ThroughMeans(p, q);
      assert p in peers && Qualifies(p, q) && NamesLeast(peers, q, p.coreId);
    }
  }

  /** The decision for a local unit. */
  lemma LocalAnswers(unit: Unit, localScope: string, q: Query)
    ensures var d, fits := PlanLocal(unit, localScope, q), q.transport == "" || q.transport in unit.transports;
      && d.scope == localScope && d.core == None
      && (if q.scope != "" && q.scope != localScope then
            d.kind == Local && d.status == Rejected && d.reason == "trust_scope_mismatch" && d.relayPath == []
          else
            && d.relayPath == unit.relayPath && d.kind == (if unit.relayPath == [] then Direct else Relay)
            && (d.status == Ready <==> fits && (unit.relayPath == [] || unit.relayCapable))
            && (d.status == Ready || d.status == Rejected)
            && d.reason == (if !fits then "transport_mismatch"
                            else if unit.relayPath != [] && !unit.relayCapable then "relay_capability_mismatch"
                            else ""))
  {
  }
}
