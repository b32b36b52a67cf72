/** The persona: signals that move its numbers and relationships, redaction of relationships, and
    the growth record. Numbers are integers in ten-thousandths. */
module Persona {
  import opened Orders
  import opened Sorting
  import opened Wrappers
  import opened Basics

  const ONE: int := 10000

  datatype Relationship = Relationship(principal: string, trust: int, familiarity: int, address: string,
                                       boundaries: seq<string>, lastReason: string)

  /** Absent texts are "". */
  datatype Signal = Signal(reason: string, mood: string, valence: int, arousal: int, curiosity: int, fatigue: int,
                           openness: int, principal: string, trust: int, familiarity: int, address: string,
                           note: string)

  datatype Feelings = Feelings(mood: string, valence: int, arousal: int, curiosity: int, fatigue: int, openness: int)

  datatype Source = Social | UnitEvent | RelationshipNote | VitalityChange | Improvement | Other(name: string)

  datatype Evidence = Evidence(eventId: string, source: Source, reason: string, at: string)

  datatype Growth = Growth(personaId: string, fingerprint: string, revision: nat, social: nat, unitEvents: nat,
                           relationships: nat, vitality: nat, improvements: nat, ids: seq<string>,
                           last: Option<Evidence>, hash: string)

  type Digest = Growth -> string

  /** What can hang on a persona besides its state proper. */
  datatype Attachments = Attachments(seedName: Option<string>, growth: Option<Growth>, provenance: Option<string>)

  const NOTHING_ATTACHED: Attachments := Attachments(None, None, None)

  datatype State = State(id: string, version: int, feelings: Feelings, vitality: string,
                         relationships: seq<Relationship>, updatedAt: string, attached: Attachments)

  function Feel(f: Feelings, s: Signal): Feelings {
    Feelings(OrElse(s.mood, f.mood), Clamp(f.valence + s.valence, -ONE, ONE), Clamp(f.arousal + s.arousal, 0, ONE),
             Clamp(f.curiosity + s.curiosity, 0, ONE), Clamp(f.fatigue + s.fatigue, 0, ONE),
             Clamp(f.openness + s.openness, 0, ONE))
  }

  // ---------- Relationships as a dictionary in insertion order ----------

  function Find(rs: seq<Relationship>, principal: string): Option<Relationship> {
    if rs == [] then None
    else if rs[0].principal == principal then Some(rs[0])
    else Find(rs[1..], principal)
  }

  function Put(rs: seq<Relationship>, r: Relationship): seq<Relationship> {
    if rs == [] then [r]
    else if rs[0].principal == r.principal then [r] + rs[1..]
    else [rs[0]] + Put(rs[1..], r)
  }

  /** The dictionary of a list: a later entry replaces an earlier one of its principal. */
  function PutAll(dict: seq<Relationship>, rs: seq<Relationship>): seq<Relationship>
    decreases |rs|
  {
    if rs == [] then dict else PutAll(Put(dict, rs[0]), rs[1..])
  }

  function Touched(previous: Relationship, s: Signal): Relationship {
    Relationship(s.principal, Clamp(previous.trust + s.trust, 0, ONE),
                 Clamp(previous.familiarity + s.familiarity, 0, ONE), OrElse(s.address, previous.address),
                 if s.note != "" && s.note !in previous.boundaries then previous.boundaries + [s.note]
                 else previous.boundaries,
                 s.reason)
  }

  function NewRelationship(principal: string): Relationship {
    Relationship(principal, 5000, 0, "", [], "")
  }

  function Relate(dict: seq<Relationship>, s: Signal): seq<Relationship> {
    if s.principal == "" then dict
    else Put(dict, Touched(Find(dict, s.principal).GetOr(NewRelationship(s.principal)), s))
  }

  function RelateAll(dict: seq<Relationship>, signals: seq<Signal>): seq<Relationship>
    decreases |signals|
  {
    if signals == [] then dict else RelateAll(Relate(dict, signals[0]), signals[1..])
  }

  function FeelAll(f: Feelings, signals: seq<Signal>): Feelings
    decreases |signals|
  {
    if signals == [] then f else FeelAll(Feel(f, signals[0]), signals[1..])
  }

  predicate ByPrincipal(a: Relationship, b: Relationship) {
    TextLess(a.principal, b.principal)
  }

  function Applied(state: State, signals: seq<Signal>, vitality: string, now: string): State {
    State(state.id, state.version, FeelAll(state.feelings, signals), OrElse(vitality, state.vitality),
          Sort(RelateAll(PutAll([], state.relationships), signals), ByPrincipal),
          OrElse(now, state.updatedAt), NOTHING_ATTACHED)
  }

  function Without(rs: seq<Relationship>, removed: set<string>): seq<Relationship> {
    if rs == [] then []
    else (if rs[0].principal in removed then [] else [rs[0]]) + Without(rs[1..], removed)
  }

  function Redacted(state: State, removed: set<string>, now: string): State {
    State(state.id, state.version, state.feelings, state.vitality, Without(state.relationships, removed),
          OrElse(now, state.updatedAt), NOTHING_ATTACHED)
  }

  method ApplySignals(state: State, signals: seq<Signal>, vitality: string, now: string) returns (r: State)
    ensures r == Applied(state, signals, vitality, now)
  {
    hide Feel, Relate, Put, Sort;
    var feelings, dict := state.feelings, PutAll([], state.relationships);
    ghost var start := dict;
    assert signals[0..] == signals;
    for i := 0 to |signals|
      invariant FeelAll(feelings, signals[i..]) == FeelAll(state.feelings, signals)
      invariant RelateAll(dict, signals[i..]) == RelateAll(start, signals)
    {
      assert signals[i..][0] == signals[i] && signals[i..][1..] == signals[i + 1..];
      feelings := Feel(feelings, signals[i]);
      dict := Relate(dict, signals[i]);
    }
    assert signals[|signals|..] == [];
    r := State(state.id, state.version, feelings, OrElse(vitality, state.vitality), Sort(dict, ByPrincipal),
               OrElse(now, state.updatedAt), NOTHING_ATTACHED);
  }

  // ---------- Growth ----------

  function Hash(g: Growth, digest: Digest): string {
    digest(g.(hash := ""))
  }

  function InitialGrowth(personaId: string, fingerprint: string, digest: Digest): Growth {
    var g := Growth(personaId, fingerprint, 0, 0, 0, 0, 0, 0, [], None, "");
    g.(hash := Hash(g, digest))
  }

  function Step(b: bool): nat {
    if b then 1 else 0
  }

  function Grow(g: Growth, e: Evidence, digest: Digest): Result<Growth, string> {
    if e.source.Other? then Err("persona_growth_requires_runtime_evidence")
    else if e.eventId == "" then Err("persona_growth_requires_event_id")
    else if e.eventId in g.ids then Err("persona_growth_event_already_recorded")
    else
      var next := Growth(g.personaId, g.fingerprint, g.revision + 1, g.social + Step(e.source.Social?),
                         g.unitEvents + Step(e.source.UnitEvent?), g.relationships + Step(e.source.RelationshipNote?),
                         g.vitality + Step(e.source.VitalityChange?), g.improvements + Step(e.source.Improvement?),
                         g.ids + [e.eventId], Some(e), "");
      Ok(next.(hash := Hash(next, digest)))
  }

  /** A sequence of evidence; what is refused leaves the record as it was. */
  function GrowAll(g: Growth, es: seq<Evidence>, digest: Digest): Growth {
    if es == [] then g
    else
      var before := GrowAll(g, es[..|es| - 1], digest);
      match Grow(before, es[|es| - 1], digest)
      case Ok(next) => next
      case Err(_) => before
  }
}
