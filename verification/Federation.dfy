/** Route planning in a federation of cores: which peer a target is reached through. */
module Federation {
  import opened Orders
  import opened Wrappers
  import opened Basics

  datatype Unit = Unit(nodeId: string, transports: seq<string>, relayCapable: bool, relayPath: seq<string>)

  datatype Attachment = Attachment(nodeId: string, relayPath: seq<string>, transports: seq<string>)

  /** A peer core; its expiry is an instant. */
  datatype Peer = Peer(coreId: string, scope: string, remoteUnits: seq<string>, attachments: seq<Attachment>,
                       expiresAt: int, reachable: bool)

  /** What a route is asked for; a scope or transport of "" is no requirement. */
  datatype Query = Query(target: string, now: int, scope: string, transport: string)

  datatype Kind = Local | Direct | Relay | DelegatedCore | NoKind

  datatype Status = Ready | Rejected | NoRoute | Stale | Failed

  datatype Decision = Decision(kind: Kind, status: Status, scope: string, core: Option<string>,
                               relayPath: seq<string>, reason: string)

  // ---------- Peers ----------

  function AttachmentFor(attachments: seq<Attachment>, target: string): Option<Attachment> {
    if attachments == [] then None
    else if attachments[0].nodeId == target then Some(attachments[0])
    else AttachmentFor(attachments[1..], target)
  }

  predicate Advertises(p: Peer, target: string) {
    target in p.remoteUnits || AttachmentFor(p.attachments, target).Some?
  }

  predicate Trusted(p: Peer, scope: string) {
    scope == "" || p.scope == scope
  }

  predicate Fresh(p: Peer, now: int) {
    p.expiresAt >= now
  }

  function AdvertisesTo(target: string): Peer -> bool {
    (p: Peer) => Advertises(p, target)
  }

  function TrustedIn(scope: string): Peer -> bool {
    (p: Peer) => Trusted(p, scope)
  }

  function FreshAt(now: int): Peer -> bool {
    (p: Peer) => Fresh(p, now)
  }

  predicate Reachable(p: Peer) {
    p.reachable
  }

  function Advertising(peers: seq<Peer>, target: string): seq<Peer> {
    Filter(peers, AdvertisesTo(target))
  }

  function TrustedOf(peers: seq<Peer>, scope: string): seq<Peer> {
    Filter(peers, TrustedIn(scope))
  }

  function FreshOf(peers: seq<Peer>, now: int): seq<Peer> {
    Filter(peers, FreshAt(now))
  }

  function ReachableOf(peers: seq<Peer>): seq<Peer> {
    Filter(peers, Reachable)
  }

  /** The first peer of least core id. */
  function Least(peers: seq<Peer>): (p: Peer)
    requires peers != []
    ensures p in peers && forall q :: q in peers ==> !TextLess(q.coreId, p.coreId)
  {
    LexIrreflexive(Codes(peers[0].coreId));
    if |peers| == 1 then peers[0]
    else
      assert peers == [peers[0]] + peers[1..];
      var rest := Least(peers[1..]);
      LeastStep(peers, rest);
      if TextLess(rest.coreId, peers[0].coreId) then rest else peers[0]
  }

  lemma LeastStep(peers: seq<Peer>, rest: Peer)
    requires |peers| > 1 && forall q :: q in peers[1..] ==> !TextLess(q.coreId, rest.coreId)
    ensures !TextLess(rest.coreId, peers[0].coreId) ==> forall q :: q in peers ==> !TextLess(q.coreId, peers[0].coreId)
    ensures TextLess(rest.coreId, peers[0].coreId) ==> forall q :: q in peers ==> !TextLess(q.coreId, rest.coreId)
  {
    assert peers == [peers[0]] + peers[1..];
    if TextLess(rest.coreId, peers[0].coreId) {
      TextOrder(rest.coreId, peers[0].coreId, peers[0].coreId);
    } else {
      LexIrreflexive(Codes(peers[0].coreId));
      forall q | q in peers[1..]
        ensures !TextLess(q.coreId, peers[0].coreId)
      {
        if TextLess(q.coreId, peers[0].coreId) {
          TextTotal(rest.coreId, peers[0].coreId);
          if TextLess(peers[0].coreId, rest.coreId) {
            LexTransitive(Codes(q.coreId), Codes(peers[0].coreId), Codes(rest.coreId));
          }
        }
      }
    }
  }

  // ---------- Plans ----------

  function PlanLocal(unit: Unit, localScope: string, q: Query): Decision {
    var relays := unit.relayPath != [];
    if q.scope != "" && q.scope != localScope then
      Decision(Local, Rejected, localScope, None, [], "trust_scope_mismatch")
    else if q.transport != "" && q.transport !in unit.transports then
      Decision(if relays then Relay else Direct, Rejected, localScope, None, unit.relayPath, "transport_mismatch")
    else if relays && !unit.relayCapable then
      Decision(Relay, Rejected, localScope, None, unit.relayPath, "relay_capability_mismatch")
    else
      Decision(if relays then Relay else Direct, Ready, localScope, None, unit.relayPath, "")
  }

  function NonEmpty(texts: seq<string>): seq<string> {
    if texts == [] then []
    else (if texts[0] != "" then [texts[0]] else []) + NonEmpty(texts[1..])
  }

  function Through(p: Peer, q: Query): Decision {
    var attachment := AttachmentFor(p.attachments, q.target).GetOr(Attachment(q.target, [], []));
    var relay, transports := NonEmpty(attachment.relayPath), NonEmpty(attachment.transports);
    if q.transport != "" && transports != [] && q.transport !in transports then
      Decision(DelegatedCore, Rejected, p.scope, Some(p.coreId), relay, "transport_mismatch")
    else
      Decision(DelegatedCore, Ready, p.scope, Some(p.coreId), relay, "")
  }

  function PlanDelegated(peers: seq<Peer>, q: Query): Decision {
    var advertising := Advertising(peers, q.target);
    var trusted := TrustedOf(advertising, q.scope);
    var current := FreshOf(trusted, q.now);
    var reachable := ReachableOf(current);
    if advertising == [] then
      Decision(NoKind, NoRoute, q.scope, None, [], "target_node_not_advertised")
    else if trusted == [] then
      Decision(DelegatedCore, Rejected, q.scope, None, [], "trust_scope_mismatch")
    else if current == [] then
      Decision(DelegatedCore, Stale, OrElse(q.scope, trusted[0].scope), None, [], "peer_advertisement_stale")
    else if reachable == [] then
      Decision(DelegatedCore, Failed, OrElse(q.scope, current[0].scope), None, [], "peer_unreachable")
    else Through(Least(reachable), q)
  }

  function Plan(units: map<string, Unit>, localScope: string, peers: seq<Peer>, q: Query): Decision {
    if q.target in units then PlanLocal(units[q.target], localScope, q) else PlanDelegated(peers, q)
  }

  // ---------- Registration ----------

  /** Registering replaces the peer of the same core in place, or adds a new one at the end. */
  function Put(peers: seq<Peer>, p: Peer): seq<Peer> {
    if peers == [] then [p]
    else if peers[0].coreId == p.coreId then [p] + peers[1..]
    else [peers[0]] + Put(peers[1..], p)
  }

  class Registry {
    const localScope: string
    var units: map<string, Unit>
    var peers: seq<Peer>

    constructor (localScope: string)
      ensures this.localScope == localScope && units == map[] && peers == []
    {
      this.localScope := localScope;
      units, peers := map[], [];
    }

    method RegisterLocalUnit(unit: Unit)
      modifies `units
      ensures units == old(units)[unit.nodeId := unit]
    {
      units := units[unit.nodeId := unit];
    }

    method RegisterPeer(p: Peer)
      modifies `peers
      ensures peers == Put(old(peers), p)
    {
      peers := Put(peers, p);
    }

    method PlanRoute(q: Query) returns (d: Decision)
      ensures d == Plan(units, localScope, peers, q)
    {
      if q.target in units {
        return PlanLocal(units[q.target], localScope, q);
      }
      return PlanDelegated(peers, q);
    }
  }

  // ---------- Delegation ----------

  datatype Proposal = Proposal(core: string, target: string, resource: string, scope: string)

  function BuildProposal(d: Decision, q: Query, resource: string, scope: string): Result<Proposal, string> {
    if d.kind != DelegatedCore || d.core.None? || d.status != Ready
    then Err("delegated_execution_requires_ready_delegated_core_route")
    else Ok(Proposal(d.core.value, q.target, resource, scope))
  }
}
