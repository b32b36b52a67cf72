/** Which peer a route names, when a route is ready, and what registration does not change. */
module FederationSafety {
  import opened Orders
  import opened Sorting
  import opened Wrappers
  import opened Basics
  import opened Federation

  /** The i-th attachment is the first for the target. */
  predicate FirstFor(attachments: seq<Attachment>, target: string, i: nat) {
    i < |attachments| && attachments[i].nodeId == target && forall j :: 0 <= j < i ==> attachments[j].nodeId != target
  }

  /** Lists the target as a remote unit or has an attachment for it, is in the required scope, does not
      expire before now, and is reachable. */
  predicate Qualifies(p: Peer, q: Query) {
    && (q.target in p.remoteUnits || exists i :: 0 <= i < |p.attachments| && p.attachments[i].nodeId == q.target)
    && (q.scope == "" || p.scope == q.scope) && q.now <= p.expiresAt && p.reachable
  }

  lemma {:induction false} AttachmentIsFirst(attachments: seq<Attachment>, target: string)
    ensures AttachmentFor(attachments, target).Some?
       <==> exists i :: 0 <= i < |attachments| && attachments[i].nodeId == target
    ensures forall i: nat :: FirstFor(attachments, target, i) ==>
      AttachmentFor(attachments, target) == Some(attachments[i])
    ensures AttachmentFor(attachments, target).Some? ==>
      exists i :: 0 <= i < |attachments| && FirstFor(attachments, target, i)
  {
    if attachments != [] {
      var rest := attachments[1..];
      AttachmentIsFirst(rest, target);
      assert forall j :: 0 < j < |attachments| ==> attachments[j] == rest[j - 1];
      if attachments[0].nodeId == target {
        assert FirstFor(attachments, target, 0);
      } else {
        forall i: nat | FirstFor(attachments, target, i)
          ensures AttachmentFor(attachments, target) == Some(attachments[i])
        {
          assert FirstFor(rest, target, i - 1);
        }
        if AttachmentFor(rest, target).Some? {
          var i :| 0 <= i < |rest| && FirstFor(rest, target, i);
          assert FirstFor(attachments, target, i + 1);
        }
      }
    }
  }

  lemma QualifiesMeans(p: Peer, q: Query)
    ensures Qualifies(p, q) <==> Advertises(p, q.target) && Trusted(p, q.scope) && Fresh(p, q.now) && p.reachable
  {
    AttachmentIsFirst(p.attachments, q.target);
    hide AttachmentFor;
  }

  function Reachables(peers: seq<Peer>, q: Query): seq<Peer> {
    ReachableOf(FreshOf(TrustedOf(Advertising(peers, q.target), q.scope), q.now))
  }

  lemma ReachablesMembers(peers: seq<Peer>, q: Query)
    ensures forall p :: p in Reachables(peers, q) <==> p in peers && Qualifies(p, q)
  {
    forall p
      ensures Qualifies(p, q) <==> Advertises(p, q.target) && Trusted(p, q.scope) && Fresh(p, q.now) && p.reachable
    {
      QualifiesMeans(p, q);
    }
    hide Advertises, Trusted, Fresh, Qualifies;
    FilterMembers(peers, AdvertisesTo(q.target));
    FilterMembers(Advertising(peers, q.target), TrustedIn(q.scope));
    FilterMembers(TrustedOf(Advertising(peers, q.target), q.scope), FreshAt(q.now));
    FilterMembers(FreshOf(TrustedOf(Advertising(peers, q.target), q.scope), q.now), Reachable);
  }

  predicate NamesLeast(peers: seq<Peer>, q: Query, core: string) {
    (exists p :: p in peers && Qualifies(p, q) && p.coreId == core)
    && forall p :: p in peers && Qualifies(p, q) ==> !TextLess(p.coreId, core)
  }

  /** A route through another core names the least core id of the peers that qualify. */
  lemma RouteNamesLeast(units: map<string, Unit>, localScope: string, peers: seq<Peer>, q: Query)
    requires Plan(units, localScope, peers, q).core.Some?
    ensures q.target !in units
    ensures NamesLeast(peers, q, Plan(units, localScope, peers, q).core.value)
  {
    hide Qualifies, Advertises, Trusted, Fresh, TextLess, AttachmentFor, NonEmpty;
    ReachablesMembers(peers, q);
    var p := Least(Reachables(peers, q));
    assert p in peers;
  }

  predicate SomeQualifies(peers: seq<Peer>, q: Query) {
    exists p :: p in peers && Qualifies(p, q)
  }

  /** Without a transport requirement, a route to a target that is not local is ready exactly when
      some peer qualifies. */
  lemma ReadyIff(units: map<string, Unit>, localScope: string, peers: seq<Peer>, q: Query)
    requires q.target !in units && q.transport == ""
    ensures Plan(units, localScope, peers, q).status == Ready <==> SomeQualifies(peers, q)
  {
    hide Qualifies, Advertises, Trusted, Fresh, TextLess, AttachmentFor, NonEmpty;
    ReachablesMembers(peers, q);
    if Reachables(peers, q) != [] {
      assert Reachables(peers, q)[0] in Reachables(peers, q);
      ReachableNeeds(peers, q);
    }
  }

  lemma ReachableNeeds(peers: seq<Peer>, q: Query)
    requires Reachables(peers, q) != []
    ensures FreshOf(TrustedOf(Advertising(peers, q.target), q.scope), q.now) != []
    ensures TrustedOf(Advertising(peers, q.target), q.scope) != []
    ensures Advertising(peers, q.target) != []
  {
    hide Advertises, Trusted, Fresh;
  }

  /** With one, only the least peer is asked: ready exactly when that one names no transports or
      names the required one. */
  lemma ReadyWithTransportIff(units: map<string, Unit>, localScope: string, peers: seq<Peer>, q: Query, core: Peer)
    requires q.target !in units && core in peers && UniqueIds(peers)
    requires NamesLeast(peers, q, core.coreId)
    ensures Plan(units, localScope, peers, q).status == Ready <==> Carries(core, q)
    ensures Plan(units, localScope, peers, q).core == Some(core.coreId)
  {
    hide Qualifies, Advertises, Trusted, Fresh, TextLess, AttachmentFor, NonEmpty;
    ReachablesMembers(peers, q);
    var p :| p in peers && Qualifies(p, q) && p.coreId == core.coreId;
    assert p in Reachables(peers, q);
    ReachableNeeds(peers, q);
    var least := Least(Reachables(peers, q));
    assert least in peers && !TextLess(least.coreId, core.coreId) && !TextLess(core.coreId, least.coreId);
    TextTotal(least.coreId, core.coreId);
    Unique(peers, least, core);
    CarriesMeans(core, q);
    hide Carries;
  }

  /** If the peer's first attachment for the target names transports, the required one is among them. */
  predicate Carries(p: Peer, q: Query) {
    q.transport == "" ||
    forall i :: 0 <= i < |p.attachments| && FirstFor(p.attachments, q.target, i) ==>
      (forall t :: t in p.attachments[i].transports ==> t == "") || q.transport in p.attachments[i].transports
  }

  function Transports(p: Peer, target: string): seq<string> {
    NonEmpty(AttachmentFor(p.attachments, target).GetOr(Attachment(target, [], [])).transports)
  }

  lemma {:induction false} NonEmptyMembers(texts: seq<string>)
    ensures forall t :: t in NonEmpty(texts) <==> t in texts && t != ""
  {
    if texts != [] {
      NonEmptyMembers(texts[1..]);
      assert texts == [texts[0]] + texts[1..];
    }
  }

  lemma CarriesMeans(p: Peer, q: Query)
    ensures Carries(p, q) <==>
      q.transport == "" || Transports(p, q.target) == [] || q.transport in Transports(p, q.target)
  {
    AttachmentIsFirst(p.attachments, q.target);
    hide AttachmentFor, FirstFor;
    if AttachmentFor(p.attachments, q.target).Some? {
      var i :| 0 <= i < |p.attachments| && FirstFor(p.attachments, q.target, i);
      NonEmptyMembers(p.attachments[i].transports);
      var named := Transports(p, q.target);
      if named != [] {
        assert named[0] in named;
      }
    }
  }

  /** A peer that could carry the transport is not tried when a lesser one cannot. */
  lemma LesserPeerBlocks(a: Peer, b: Peer, q: Query)
    requires TextLess(a.coreId, b.coreId) && Qualifies(a, q) && Qualifies(b, q)
    requires !Carries(a, q) && Carries(b, q)
    ensures Plan(map[], "local", [b, a], q).status == Rejected
    ensures Plan(map[], "local", [b], q).status == Ready
  {
    TextOrder(a.coreId, b.coreId, b.coreId);
    LexIrreflexive(Codes(a.coreId));
    LexIrreflexive(Codes(b.coreId));
    assert UniqueIds([b, a]) && UniqueIds([b]);
    hide Qualifies, Advertises, Trusted, Fresh, TextLess, AttachmentFor, NonEmpty, Carries, Plan, UniqueIds;
    ReadyWithTransportIff(map[], "local", [b, a], q, a);
    ThroughRejects([b, a], q);
    ReadyWithTransportIff(map[], "local", [b], q, b);
  }

  lemma ThroughRejects(peers: seq<Peer>, q: Query)
    requires Plan(map[], "local", peers, q).core.Some? && Plan(map[], "local", peers, q).status != Ready
    ensures Plan(map[], "local", peers, q).status == Rejected
  {
    hide AttachmentFor, NonEmpty, Advertises;
  }

  // ---------- Registration ----------

  predicate OtherCore(a: Peer, b: Peer) {
    a.coreId != b.coreId
  }

  predicate UniqueIds(peers: seq<Peer>) {
    Pairwise(peers, OtherCore)
  }

  lemma Unique(peers: seq<Peer>, a: Peer, b: Peer)
    requires UniqueIds(peers) && a in peers && b in peers && a.coreId == b.coreId
    ensures a == b
  {
    var i :| 0 <= i < |peers| && peers[i] == a;
    var j :| 0 <= j < |peers| && peers[j] == b;
  }

  lemma {:induction false} PutMembers(peers: seq<Peer>, p: Peer)
    requires UniqueIds(peers)
    ensures UniqueIds(Put(peers, p))
    ensures forall x :: x in Put(peers, p) <==> x == p || (x in peers && x.coreId != p.coreId)
    decreases |peers|
  {
    if peers == [] {
    } else {
      assert peers == [peers[0]] + peers[1..];
      PairwiseTail(peers, OtherCore);
      PutMembers(peers[1..], p);
      PairwiseCons(if peers[0].coreId == p.coreId then p else peers[0],
                   if peers[0].coreId == p.coreId then peers[1..] else Put(peers[1..], p), OtherCore);
    }
  }

  function RegisterAll(peers: seq<Peer>, more: seq<Peer>): seq<Peer>
    decreases |more|
  {
    if more == [] then peers else RegisterAll(Put(peers, more[0]), more[1..])
  }

  /** The peer registered last under its core id. */
  predicate LastOf(more: seq<Peer>, p: Peer) {
    exists i :: 0 <= i < |more| && more[i] == p && forall j :: i < j < |more| ==> more[j].coreId != p.coreId
  }

  /** After any registrations there is one peer to a core id, the one registered last. */
  lemma {:induction false} Registered(peers: seq<Peer>, more: seq<Peer>, p: Peer)
    requires UniqueIds(peers)
    ensures UniqueIds(RegisterAll(peers, more))
    ensures p in RegisterAll(peers, more)
       <==> LastOf(more, p) || (p in peers && forall m :: m in more ==> m.coreId != p.coreId)
    decreases |more|
  {
    assert !LastOf([], p);
    hide UniqueIds, LastOf, Put;
    if more == [] {
    } else {
      PutMembers(peers, more[0]);
      Registered(Put(peers, more[0]), more[1..], p);
      assert more == [more[0]] + more[1..];
      LastCons(more, p);
    }
  }

  lemma LastCons(more: seq<Peer>, p: Peer)
    requires more != []
    ensures LastOf(more, p)
       <==> LastOf(more[1..], p) || (p == more[0] && forall m :: m in more[1..] ==> m.coreId != p.coreId)
  {
    if LastOf(more, p) {
      var i :| 0 <= i < |more| && more[i] == p && forall j :: i < j < |more| ==> more[j].coreId != p.coreId;
      if i > 0 {
        assert more[1..][i - 1] == p;
      }
    }
    if LastOf(more[1..], p) {
      var i :| 0 <= i < |more[1..]| && more[1..][i] == p
               && forall j :: i < j < |more[1..]| ==> more[1..][j].coreId != p.coreId;
      assert more[i + 1] == p;
      forall j | i + 1 < j < |more|
        ensures more[j].coreId != p.coreId
      {
        assert more[j] == more[1..][j - 1];
      }
    }
    if p == more[0] && forall m :: m in more[1..] ==> m.coreId != p.coreId {
      forall j | 0 < j < |more|
        ensures more[j].coreId != p.coreId
      {
        assert more[j] == more[1..][j - 1] && more[j] in more[1..];
      }
    }
  }

  predicate SamePeers(a: seq<Peer>, b: seq<Peer>) {
    UniqueIds(a) && UniqueIds(b) && (forall p :: p in a ==> p in b) && forall p :: p in b ==> p in a
  }

  function Unscoped(d: Decision): Decision {
    d.(scope := "")
  }

  lemma EmptyIff(a: seq<Peer>, b: seq<Peer>)
    requires (forall p :: p in a ==> p in b) && forall p :: p in b ==> p in a
    ensures a == [] <==> b == []
  {
    if a != [] {
      assert a[0] in b;
    }
    if b != [] {
      assert b[0] in a;
    }
  }

  /** The decision, but for the scope reported on failure, does not depend on the order in which
      the peers were registered; a decision that names a core does not depend on it at all. */
  lemma OrderDoesNotMatter(units: map<string, Unit>, localScope: string, a: seq<Peer>, b: seq<Peer>, q: Query)
    requires SamePeers(a, b)
    ensures Unscoped(Plan(units, localScope, a, q)) == Unscoped(Plan(units, localScope, b, q))
    ensures Plan(units, localScope, a, q).core.Some? ==>
              Plan(units, localScope, a, q) == Plan(units, localScope, b, q)
  {
    hide Qualifies, Advertises, Trusted, Fresh, TextLess, AttachmentFor, NonEmpty, UniqueIds;
    var x, y := Advertising(a, q.target), Advertising(b, q.target);
    FilterMembers(a, AdvertisesTo(q.target));
    FilterMembers(b, AdvertisesTo(q.target));
    EmptyIff(x, y);
    var t, u := TrustedOf(x, q.scope), TrustedOf(y, q.scope);
    FilterMembers(x, TrustedIn(q.scope));
    FilterMembers(y, TrustedIn(q.scope));
    EmptyIff(t, u);
    var f, g := FreshOf(t, q.now), FreshOf(u, q.now);
    FilterMembers(t, FreshAt(q.now));
    FilterMembers(u, FreshAt(q.now));
    EmptyIff(f, g);
    var r, s := ReachableOf(f), ReachableOf(g);
    FilterMembers(f, Reachable);
    FilterMembers(g, Reachable);
    EmptyIff(r, s);
    if r != [] {
      LeastSame(r, s, a);
    }
  }

  lemma LeastSame(r: seq<Peer>, s: seq<Peer>, peers: seq<Peer>)
    requires r != [] && s != [] && UniqueIds(peers)
    requires (forall p :: p in r <==> p in s) && forall p :: p in r ==> p in peers
    ensures Least(r) == Least(s)
  {
    hide TextLess;
    var x, y := Least(r), Least(s);
    assert x in s && y in r;
    TextTotal(x.coreId, y.coreId);
    Unique(peers, x, y);
  }

  lemma PlanIs(units: map<string, Unit>, localScope: string, peers: seq<Peer>, q: Query)
    ensures Plan(units, localScope, peers, q).core.Some? <==> q.target !in units && Reachables(peers, q) != []
    ensures Plan(units, localScope, peers, q).core.Some? ==>
              Plan(units, localScope, peers, q) == Through(Least(Reachables(peers, q)), q)
              && Plan(units, localScope, peers, q).core == Some(Least(Reachables(peers, q)).coreId)
  {
    hide Advertises, AttachmentFor, NonEmpty, Least;
    if Reachables(peers, q) != [] {
      ReachableNeeds(peers, q);
    }
  }

  /** Adding a peer with a new id, greater than the one named, leaves the decision as it is. */
  lemma GreaterPeerChangesNothing(units: map<string, Unit>, localScope: string, peers: seq<Peer>, p: Peer, q: Query)
    requires UniqueIds(peers) && forall x :: x in peers ==> x.coreId != p.coreId
    requires Plan(units, localScope, peers, q).core.Some?
    requires TextLess(Plan(units, localScope, peers, q).core.value, p.coreId)
    ensures Plan(units, localScope, Put(peers, p), q) == Plan(units, localScope, peers, q)
  {
    hide Qualifies, TextLess, Plan, Through, Reachables, Put, UniqueIds;
    var more := Put(peers, p);
    PlanIs(units, localScope, peers, q);
    PlanIs(units, localScope, more, q);
    PutMembers(peers, p);
    ReachablesMembers(peers, q);
    ReachablesMembers(more, q);
    var r, s := Reachables(peers, q), Reachables(more, q);
    assert Least(r) in s;
    var x, y := Least(r), Least(s);
    assert !TextLess(x.coreId, y.coreId);
    assert y != p && y in r;
    TextTotal(x.coreId, y.coreId);
    Unique(peers, x, y);
  }

  /** A delegated proposal can be built exactly when the target is not local, some peer qualifies
      and the least one carries the transport; it names that peer. */
  lemma ProposalIff(units: map<string, Unit>, localScope: string, peers: seq<Peer>, q: Query, resource: string,
                    scope: string)
    requires UniqueIds(peers)
    ensures BuildProposal(Plan(units, localScope, peers, q), q, resource, scope).Ok?
       <==> q.target !in units
            && exists p :: p in peers && Qualifies(p, q) && NamesLeast(peers, q, p.coreId) && Carries(p, q)
    ensures BuildProposal(Plan(units, localScope, peers, q), q, resource, scope).Ok? ==>
              var proposal := BuildProposal(Plan(units, localScope, peers, q), q, resource, scope).value;
              NamesLeast(peers, q, proposal.core) && proposal.target == q.target
              && proposal.resource == resource && proposal.scope == scope
  {
    hide Qualifies, Advertises, Trusted, Fresh, TextLess, AttachmentFor, NonEmpty, Plan, Carries, UniqueIds;
    var d := Plan(units, localScope, peers, q);
    PlanIs(units, localScope, peers, q);
    if d.core.Some? {
      RouteNamesLeast(units, localScope, peers, q);
      var p :| p in peers && Qualifies(p, q) && p.coreId == d.core.value;
      ReadyWithTransportIff(units, localScope, peers, q, p);
      forall x | x in peers && NamesLeast(peers, q, x.coreId)
        ensures d.status == Ready <==> Carries(x, q)
      {
        ReadyWithTransportIff(units, localScope, peers, q, x);
      }
    } else {
      forall x | x in peers && NamesLeast(peers, q, x.coreId) && q.target !in units
        ensures false
      {
        ReadyWithTransportIff(units, localScope, peers, q, x);
      }
    }
  }

  /** A local unit shadows every peer: its route is ready exactly when the scope and the transport
      fit and a relayed unit can relay. */
  lemma LocalReadyIff(units: map<string, Unit>, localScope: string, peers: seq<Peer>, q: Query)
    requires q.target in units
    ensures Plan(units, localScope, peers, q).status == Ready
       <==> (q.scope == "" || q.scope == localScope)
            && (q.transport == "" || q.transport in units[q.target].transports)
            && (units[q.target].relayPath == [] || units[q.target].relayCapable)
    ensures Plan(units, localScope, peers, q).status == Ready ==>
              Plan(units, localScope, peers, q).relayPath == units[q.target].relayPath
              && (Plan(units, localScope, peers, q).kind == Relay <==> units[q.target].relayPath != [])
  {
  }
}
