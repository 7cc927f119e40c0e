/** Publishing the same thing again: when it is recognised and when it is a conflict. */
module Republication {
  import opened Foundation
  import opened Sorting
  import opened Records
  import opened Mutations

  // ---- repeating a publication -----------------------------------------------------------

  /** An admitted rack publication repeated verbatim changes nothing, whatever was stamped onto the record. */
  lemma RackRepublicationIsIdempotent(s: State, now: Timestamp, incoming: RackReference, generation: u64)
    ensures RepublishGate(Admission(s, now, incoming, generation), incoming) == Same
  {
    hide SortUnique;
    var held := Admission(s, now, incoming, generation).reference;
    assert Canonicalize(held).endpoints == Canonicalize(incoming).endpoints;
    assert Canonicalize(held).hints == Canonicalize(incoming).hints;
    assert Canonicalize(held).composition == Canonicalize(incoming).composition;
  }

  /** Nothing an admission looks at has changed since: the racks, the fenced and the retired. */
  predicate SameStanding(t: State, u: State) {
    u.racks == t.racks && u.sc.fenced == t.sc.fenced && u.sc.retired == t.sc.retired
  }

  /** What the incarnation check says to the repetition of a publication it let through. */
  function RepeatGate(now: Timestamp, req: Request): Gate {
    var authority, r := req.authority, req.reference;
    if authority.boot.None? then Same
    else if AdmittedEvidence(now, r).IsCurrent() && r.boot != authority.boot.value then Refuse(NotAuthorized)
    else if Differ(authority.publisher, r.publisher) then Refuse(NotAuthorized)
    else if r.boot == authority.boot.value && 0 < authority.publication < r.publication then Refuse(StalePublication)
    else Same
  }

  lemma RepeatedContent(s: State, now: Timestamp, req: Request, generation: u64)
    ensures var c := Canonicalize(req.reference); SameContent(Admission(s, now, c, generation).reference, c)
  {
    hide SortUnique;
  }

  lemma RepeatedIncarnation(s: State, now: Timestamp, req: Request, u: State, generation: u64)
    requires var rack := req.reference.rack;
      rack in u.racks && u.racks[rack] == Admission(s, now, Canonicalize(req.reference), generation)
    requires req.authority.boot.Some? ==> !u.IsFenced(req.authority.boot.value)
    ensures var gate := ValidateBoot(u, req, req.reference.rack);
      gate == if RepeatGate(now, req).Refuse? then RepeatGate(now, req) else Pass
  {
    RepeatedContent(s, now, req, generation);
    hide SameContent; hide State.IsFenced; hide SortUnique;
  }

  /**
   * The accepted publication of a rack, repeated verbatim at any later time, changes nothing, except that the
   * incarnation check refuses it in two cases: current evidence or a publisher of somebody else, and a counter in the
   * authority that is behind the one in the reference.
   */
  lemma RackRepublication(cfg: Config, now: Timestamp, later: Timestamp, s: State, req: Request, u: State)
    requires ApplyAdd(cfg, now, s, req).Changed? && SameStanding(ApplyAdd(cfg, now, s, req).next, u)
    ensures ApplyAdd(cfg, later, u, req)
      == match RepeatGate(now, req) case Refuse(reason) => Refused(reason) case _ => NoChange
  {
    var c, t := Canonicalize(req.reference), ApplyAdd(cfg, now, s, req).next;
    var generation := t.racks[c.rack].membershipGeneration;
    assert c.rack == req.reference.rack;
    assert t.racks[c.rack] == Admission(s, now, c, generation);
    RackRepublicationIsIdempotent(s, now, c, generation);
    assert ValidReference(c) && !s.IsRetired(c.rack) && !ValidateBoot(s, req, c.rack).Refuse?;
    assert u.IsRetired(c.rack) == s.IsRetired(c.rack);
    if req.authority.boot.Some? {
      assert u.IsFenced(req.authority.boot.value) == s.IsFenced(req.authority.boot.value);
    }
    RepeatedIncarnation(s, now, req, u, generation);
    hide Canonicalize; hide ValidReference; hide State.IsRetired; hide State.IsFenced; hide Admission; hide SameContent;
  }

  predicate StampedAlready(s: State, h: Header) {
    h.clusterEpoch == s.sc.epoch && h.coordinatorEpoch == s.sc.coordinatorEpoch
  }

  /** A link repeated verbatim is recognised exactly when the payload carried the stamps it was stored with. */
  lemma LinkRepublication(cfg: Config, s: State, l: Link)
    requires ApplyLink(cfg, s, Some(l)).Changed?
    ensures LinkGate(cfg, ApplyLink(cfg, s, Some(l)).next, Some(l))
      == if StampedAlready(s, l.header) && l.topologyGeneration == s.sc.topologyGeneration then Same
         else Refuse(Conflict)
  {
    hide SortUnique;
    var t := ApplyLink(cfg, s, Some(l)).next;
    assert t.racks == s.racks && t.domains == s.domains && t.links[l.id] == PublishedLink(s, l);
    assert forall r :: t.IsMember(r) == s.IsMember(r);
    hide TopologyMoved; hide State.IsMember;
  }

  /** The same for domains of every class. */
  lemma DomainRepublication(cfg: Config, s: State, kind: DomainKind, d: Domain)
    requires ApplyDomain(cfg, s, kind, Some(d)).Changed?
    ensures DomainGate(cfg, ApplyDomain(cfg, s, kind, Some(d)).next, kind, Some(d))
      == if StampedAlready(s, d.header) then Same else Refuse(Conflict)
  {
    var t := ApplyDomain(cfg, s, kind, Some(d)).next;
    var n := Normalized(kind, d);
    assert t.racks == s.racks && t.domains[(kind, n.id)] == n.(header := Stamped(s, n.header));
    assert forall r :: t.IsMember(r) == s.IsMember(r);
    assert SameZero(n) == SameZero(n.(header := Stamped(s, n.header))) <==> StampedAlready(s, d.header) by {
      StampsShow(s, n);
    }
    hide SortUnique; hide Sort; hide FirstRefusal; hide SameZero; hide State.IsMember; hide State.DomainIds;
    hide AdvanceAggregate; hide DomainGenerations.Set;
  }

  lemma StampsShow(s: State, n: Domain)
    ensures SameZero(n) == SameZero(n.(header := Stamped(s, n.header))) <==> StampedAlready(s, n.header)
  {
    var m := n.(header := Stamped(s, n.header));
    assert SameZero(n).quantities == SameZero(m).quantities;
  }
}
