/** Every mutation keeps the self-maintaining invariants, before any checker looks at the result. */
module Preservation {
  import opened Foundation
  import opened Sorting
  import opened EvidenceStamps
  import opened Records
  import opened Invariants
  import opened Mutations

  // ---- what a step may do to each part of the state --------------------------------------

  /** Epochs and the cluster generation stand still; every other counter only moves forward. */
  predicate CountersAdvance(a: Scalars, b: Scalars) {
    && b.epoch == a.epoch && b.coordinatorEpoch == a.coordinatorEpoch && b.generation == a.generation
    && a.membershipGeneration <= b.membershipGeneration <= a.membershipGeneration + 1
    && a.topologyEpoch <= b.topologyEpoch
    && a.topologyGeneration <= b.topologyGeneration <= a.topologyGeneration + 1
    && a.connectivityGeneration <= b.connectivityGeneration && a.healthGeneration <= b.healthGeneration
    && a.constraintGeneration <= b.constraintGeneration
    && b.snapshotGeneration - a.snapshotGeneration == b.publicationGeneration - a.publicationGeneration >= 0
    && b.topology.epoch == b.topologyEpoch && b.topology.generation == b.topologyGeneration
    && forall kind: DomainKind :: a.domainGenerations.Get(kind) <= b.domainGenerations.Get(kind)
  }

  predicate SameEnds(a: Link, b: Link) {
    && b.id == a.id && b.source == a.source && b.destination == a.destination
    && b.failureDomains == a.failureDomains && b.networkDomain == a.networkDomain && b.linkDomain == a.linkDomain
    && b.header.generation == a.header.generation && b.topologyEpoch == a.topologyEpoch
    && b.topologyGeneration == a.topologyGeneration && b.direction == a.direction
  }

  predicate LinkResolves(s: State, l: Link) {
    && s.IsMember(l.source) && s.IsMember(l.destination)
    && (forall d | d in l.failureDomains :: (Failure, d) in s.domains)
    && (l.networkDomain.Some? ==> (Network, l.networkDomain.value) in s.domains)
    && (l.linkDomain.Some? ==> (LinkGroup, l.linkDomain.value) in s.domains)
  }

  predicate LinkPlaced(s: State, k: Id, l: Link) {
    && l.id == k && l.header.generation != 0
    && l.topologyEpoch <= s.sc.topologyEpoch && l.topologyGeneration < s.sc.topologyGeneration
  }

  /** No member is lost. */
  predicate MembersStay(s: State, t: State) { forall r | r in s.racks && s.IsMember(r) :: t.IsMember(r) }

  predicate LinksStep(s: State, t: State) {
    forall k | k in t.links ::
      (k in s.links && SameEnds(s.links[k], t.links[k]))
        || (LinkResolves(s, t.links[k]) && LinkPlaced(t, k, t.links[k]))
  }

  predicate DomainPlaced(s: State, t: State, k: DomainKey)
    requires k in t.domains
  {
    && (forall r | r in t.domains[k].racks :: s.IsMember(r))
    && t.domains[k].id == k.1 && k.1 != [] && t.domains[k].header.generation != 0
    && t.domains[k].header.generation <= t.sc.domainGenerations.Get(k.0)
  }

  /** No domain is lost and none goes back to an earlier generation. */
  predicate DomainsLast(s: State, t: State) {
    forall k | k in s.domains :: k in t.domains && s.domains[k].header.generation <= t.domains[k].header.generation
  }

  predicate ConstraintsLast(s: State, t: State) {
    forall k | k in s.constraints ::
      k in t.constraints && s.constraints[k].header.generation <= t.constraints[k].header.generation
  }

  predicate DomainsStep(s: State, t: State) {
    && DomainsLast(s, t)
    && forall k | k in t.domains :: (k in s.domains && t.domains[k] == s.domains[k]) || DomainPlaced(s, t, k)
  }

  predicate ConstraintsStep(s: State, t: State) {
    && ConstraintsLast(s, t)
    && forall k | k in t.constraints ::
      || (k in s.constraints && t.constraints[k] == s.constraints[k])
      || (&& (forall r | r in t.constraints[k].racks :: s.IsMember(r))
          && t.constraints[k].id == k && t.constraints[k].header.generation != 0)
  }

  predicate RackPlaced(t: State, k: Id, r: RackRecord) {
    && k != [] && r.reference.rack == k && r.reference.generation != 0
    && r.membershipGeneration <= t.sc.membershipGeneration
    && (r.authoritative ==> r.reference.evidence.IsCurrent())
  }

  /** Generations never fall and a decided membership never becomes undecided again. */
  predicate RackFollows(a: RackRecord, b: RackRecord) {
    && a.reference.generation <= b.reference.generation
    && (!a.membership.Unknown? ==> !b.membership.Unknown?)
    && (a.membership.Retired? ==> b.membership.Retired?)
  }

  predicate RacksStep(s: State, t: State) {
    && (forall k | k in s.racks :: k in t.racks && RackFollows(s.racks[k], t.racks[k]))
    && forall k | k in t.racks :: (k in s.racks && t.racks[k] == s.racks[k]) || RackPlaced(t, k, t.racks[k])
  }

  /** Everything a mutation of a declared cluster does, seen from outside. */
  predicate Step(s: State, t: State) {
    && t.id == s.id && CountersAdvance(s.sc, t.sc)
    && RacksStep(s, t) && LinksStep(s, t) && DomainsStep(s, t) && ConstraintsStep(s, t)
    && RetirementExact(t) && (forall r | r in s.sc.retired :: r in t.sc.retired)
    && (forall f | f in s.sc.fenced :: f in t.sc.fenced)
  }

  lemma StepKeepsReferences(s: State, t: State)
    requires ReferencesResolve(s) && MembersStay(s, t)
    requires LinksStep(s, t) && DomainsStep(s, t) && ConstraintsStep(s, t)
    ensures ReferencesResolve(t)
  {
    forall k | k in t.links ensures LinkResolves(t, t.links[k]) {
      if k in s.links && SameEnds(s.links[k], t.links[k]) { assert LinkResolves(s, s.links[k]); }
    }
  }

  lemma StepKeepsPlacement(s: State, t: State)
    requires RecordsPlaced(s) && AuthorityJustified(s) && CountersAdvance(s.sc, t.sc)
    requires RacksStep(s, t) && LinksStep(s, t) && DomainsStep(s, t) && ConstraintsStep(s, t)
    ensures RecordsPlaced(t) && AuthorityJustified(t)
  {
    forall k | k in t.racks ensures RackPlaced(t, k, t.racks[k]) {}
    forall k | k in t.links ensures LinkPlaced(t, k, t.links[k]) {}
  }

  lemma StepKeepsWired(s: State, t: State)
    requires Wired(s) && s.Declared() && Step(s, t)
    ensures Wired(t) && t.Declared()
  {
    StepKeepsReferences(s, t);
    StepKeepsPlacement(s, t);
  }

  // ---- one lemma a mutation ---------------------------------------------------------------

  /** Links are rewritten in place: the same identities, the same ends. */
  predicate LinksRewritten(a: map<Id, Link>, b: map<Id, Link>) {
    forall k | k in b :: k in a && SameEnds(a[k], b[k])
  }

  predicate RetiredUntouched(s: State, sc: Scalars) { sc.retired == s.sc.retired && sc.fenced == s.sc.fenced }

  /** One rack record is written, links at most rewritten, under counters that only advance. */
  lemma RackWriteSteps(s: State, sc: Scalars, k: Id, r: RackRecord, links: map<Id, Link>)
    requires Wired(s) && s.Declared() && CountersAdvance(s.sc, sc)
    requires RackPlaced(s.(sc := sc), k, r)
    requires k in s.racks ==> RackFollows(s.racks[k], r)
    requires LinksRewritten(s.links, links)
    requires RetirementExact(s.(sc := sc, racks := s.racks[k := r], links := links))
    requires (forall x | x in s.sc.retired :: x in sc.retired) && sc.fenced == s.sc.fenced
    ensures Step(s, s.(sc := sc, racks := s.racks[k := r], links := links))
  {
    hide ReferencesResolve; hide RetirementExact; hide RecordsPlaced; hide AuthorityJustified;
    var t := s.(sc := sc, racks := s.racks[k := r], links := links);
    assert LinksStep(s, t) && DomainsStep(s, t) && ConstraintsStep(s, t);
    assert RacksStep(s, t);
  }

  lemma RetirementFramed(s: State, t: State, k: Id)
    requires RetirementExact(s) && t.sc.retired == s.sc.retired && k in t.racks
    requires t.racks == s.racks[k := t.racks[k]]
    requires t.racks[k].membership.Retired? <==> s.IsRetired(k)
    ensures RetirementExact(t)
  {
    assert forall x :: t.IsRetired(x) == s.IsRetired(x);
  }

  lemma RackWrite(s: State, sc: Scalars, k: Id, r: RackRecord, links: map<Id, Link>)
    requires Wired(s) && s.Declared() && CountersAdvance(s.sc, sc) && RetiredUntouched(s, sc)
    requires RackPlaced(s.(sc := sc), k, r)
    requires k in s.racks ==> RackFollows(s.racks[k], r)
    requires r.membership.Retired? <==> s.IsRetired(k)
    requires LinksRewritten(s.links, links)
    ensures Step(s, s.(sc := sc, racks := s.racks[k := r], links := links))
  {
    hide Step; hide ReferencesResolve; hide RecordsPlaced; hide AuthorityJustified;
    RetirementFramed(s, s.(sc := sc, racks := s.racks[k := r], links := links), k);
    RackWriteSteps(s, sc, k, r, links);
  }

  /** No rack changes. */
  lemma RacksUntouched(s: State, t: State)
    requires Wired(s) && s.Declared() && t.id == s.id && t.racks == s.racks
    requires CountersAdvance(s.sc, t.sc) && RetiredUntouched(s, t.sc)
    requires LinksStep(s, t) && DomainsStep(s, t) && ConstraintsStep(s, t)
    ensures Step(s, t)
  {
    hide ReferencesResolve;
    assert RacksStep(s, t);
    assert RetirementExact(t) by {
      assert forall x :: t.IsRetired(x) == s.IsRetired(x);
    }
  }

  lemma RegisterStep(cfg: Config, s: State, req: Request)
    requires Wired(s) && s.Declared() && ApplyRegister(cfg, s, req).Changed?
    ensures Step(s, ApplyRegister(cfg, s, req).next)
  {
    hide Step; hide ReferencesResolve;
    RackWrite(s, s.sc, req.Subject(), Registration(s, req), s.links);
  }

  lemma AddStep(cfg: Config, now: Timestamp, s: State, req: Request)
    requires Wired(s) && s.Declared() && ApplyAdd(cfg, now, s, req).Changed?
    ensures Step(s, ApplyAdd(cfg, now, s, req).next)
  {
    hide Step; hide ReferencesResolve;
    var t := ApplyAdd(cfg, now, s, req).next;
    var k := Canonicalize(req.reference).rack;
    RackWrite(s, t.sc, k, t.racks[k], s.links);
  }

  lemma UpdateStep(s: State, req: Request)
    requires Wired(s) && s.Declared() && ApplyUpdate(s, req).Changed?
    ensures Step(s, ApplyUpdate(s, req).next)
  {
    hide Step; hide ReferencesResolve;
    var t, k := ApplyUpdate(s, req).next, req.Subject();
    RackWrite(s, t.sc, k, t.racks[k], s.links);
  }

  lemma RecoverStep(s: State, req: Request)
    requires Wired(s) && s.Declared() && ApplyRecover(s, req).Changed?
    ensures Step(s, ApplyRecover(s, req).next)
  {
    hide Step; hide ReferencesResolve;
    var t, k := ApplyRecover(s, req).next, RecoverySubject(req);
    RackWrite(s, t.sc, k, t.racks[k], s.links);
  }

  /** Retirement writes the record and the remembered identity together. */
  lemma RetirementGrows(s: State, t: State, entry: RetiredIdentity)
    requires RetirementExact(s) && entry.rack in t.racks && !s.IsRetired(entry.rack)
    requires t.racks == s.racks[entry.rack := t.racks[entry.rack]] && t.racks[entry.rack].membership.Retired?
    requires t.sc.retired == Sort(s.sc.retired + [entry], RetiredBefore)
    ensures RetirementExact(t) && forall x | x in s.sc.retired :: x in t.sc.retired
  {
    SortAdds(s.sc.retired, entry, RetiredBefore);
    forall x ensures t.IsRetired(x) == (s.IsRetired(x) || x == entry.rack) { assert entry in t.sc.retired; }
  }

  lemma RetireStep(now: Timestamp, s: State, req: Request)
    requires Wired(s) && s.Declared() && ApplyMembership(now, s, req, Membership.Retired).Changed?
    ensures Step(s, ApplyMembership(now, s, req, Membership.Retired).next)
  {
    hide Step; hide ReferencesResolve;
    var t, k := ApplyMembership(now, s, req, Membership.Retired).next, req.Subject();
    RetirementGrows(s, t, RetiredIdentity(k, s.racks[k].reference.generation, now, req.reason));
    RackWriteSteps(s, t.sc, k, t.racks[k], s.links);
  }

  lemma MembershipStep(now: Timestamp, s: State, req: Request, target: Membership)
    requires Wired(s) && s.Declared() && (target.Unavailable? || target.Withdrawn? || target.Retired?)
    requires ApplyMembership(now, s, req, target).Changed?
    ensures Step(s, ApplyMembership(now, s, req, target).next)
  {
    hide Step; hide ReferencesResolve;
    var t, k := ApplyMembership(now, s, req, target).next, req.Subject();
    if target.Retired? { RetireStep(now, s, req); } else { RackWrite(s, t.sc, k, t.racks[k], s.links); }
  }

  lemma DomainStep(cfg: Config, s: State, kind: DomainKind, payload: Option<Domain>)
    requires Wired(s) && s.Declared() && ApplyDomain(cfg, s, kind, payload).Changed?
    ensures Step(s, ApplyDomain(cfg, s, kind, payload).next)
  {
    hide Step; hide ReferencesResolve; hide RetirementExact; hide AuthorityJustified; hide RecordsPlaced;
    var t := ApplyDomain(cfg, s, kind, payload).next;
    SortUniqueIds(payload.value.racks);
    assert DomainPlaced(s, t, (kind, payload.value.id));
    RacksUntouched(s, t);
  }

  lemma ConstraintStep(cfg: Config, s: State, payload: Option<Constraint>)
    requires Wired(s) && s.Declared() && ApplyConstraint(cfg, s, payload).Changed?
    ensures Step(s, ApplyConstraint(cfg, s, payload).next)
  {
    hide Step; hide ReferencesResolve; hide RetirementExact; hide AuthorityJustified; hide RecordsPlaced;
    SortUniqueIds(payload.value.racks);
    RacksUntouched(s, ApplyConstraint(cfg, s, payload).next);
  }

  lemma LinkStep(cfg: Config, s: State, payload: Option<Link>)
    requires Wired(s) && s.Declared() && ApplyLink(cfg, s, payload).Changed?
    ensures Step(s, ApplyLink(cfg, s, payload).next)
  {
    hide Step; hide ReferencesResolve; hide RetirementExact; hide AuthorityJustified; hide RecordsPlaced;
    var t := ApplyLink(cfg, s, payload).next;
    SortUniqueIds(payload.value.failureDomains);
    assert LinkResolves(s, PublishedLink(s, payload.value));
    assert LinkPlaced(t, payload.value.id, PublishedLink(s, payload.value));
    RacksUntouched(s, t);
  }

  lemma WithdrawLinkStep(s: State, id: Option<Id>)
    requires Wired(s) && s.Declared() && ApplyWithdrawLink(s, id).Changed?
    ensures Step(s, ApplyWithdrawLink(s, id).next)
  {
    hide Step; hide ReferencesResolve; hide RetirementExact; hide AuthorityJustified; hide RecordsPlaced;
    RacksUntouched(s, ApplyWithdrawLink(s, id).next);
  }

  lemma SupersedeStep(now: Timestamp, s: State, req: Request)
    requires Wired(s) && s.Declared() && ApplySupersede(now, s, req).Changed?
    ensures Step(s, ApplySupersede(now, s, req).next)
  {
    hide Step; hide ReferencesResolve; hide RetirementExact; hide AuthorityJustified; hide RecordsPlaced;
    var t := ApplySupersede(now, s, req).next;
    assert forall k | k in t.links :: k in s.links && SameEnds(s.links[k], t.links[k]);
    RacksUntouched(s, t);
  }

  lemma HealthStep(s: State, req: Request)
    requires Wired(s) && s.Declared() && ApplyHealth(s, req).Changed?
    ensures Step(s, ApplyHealth(s, req).next)
  {
    hide Step; hide ReferencesResolve;
    var t, k := ApplyHealth(s, req).next, req.Subject();
    RackWrite(s, t.sc, k, t.racks[k], t.links);
  }

  lemma WithdrawEvidenceStep(s: State, req: Request)
    requires Wired(s) && s.Declared() && ApplyWithdrawEvidence(s, req).Changed?
    ensures Step(s, ApplyWithdrawEvidence(s, req).next)
  {
    hide Step; hide ReferencesResolve;
    var t, k := ApplyWithdrawEvidence(s, req).next, req.Subject();
    assert k in s.racks;
    RackWrite(s, t.sc, k, t.racks[k], t.links);
  }

  lemma RetireClusterStep(s: State)
    requires Wired(s) && s.Declared() && ApplyRetireCluster(s).Changed?
    ensures Step(s, ApplyRetireCluster(s).next)
  {
    hide ReferencesResolve;
    var t := ApplyRetireCluster(s).next;
    assert LinksStep(s, t) && DomainsStep(s, t) && ConstraintsStep(s, t);
    assert RacksStep(s, t);
    assert forall x :: t.IsRetired(x) == s.IsRetired(x);
  }

  lemma ScalarStep(s: State, sc: Scalars)
    requires Wired(s) && s.Declared() && CountersAdvance(s.sc, sc) && RetiredUntouched(s, sc)
    ensures Step(s, s.(sc := sc))
  {
    hide Step; hide ReferencesResolve; hide RetirementExact; hide AuthorityJustified; hide RecordsPlaced;
    RacksUntouched(s, s.(sc := sc));
  }

  /** Whatever the request, a changed declared cluster has taken one step. */
  lemma ApplySteps(cfg: Config, now: Timestamp, s: State, req: Request)
    requires Wired(s) && s.Declared() && Apply(cfg, now, s, req).Changed?
    ensures Step(s, Apply(cfg, now, s, req).next)
  {
    hide Step; hide ReferencesResolve; hide RecordsPlaced; hide RetirementExact; hide AuthorityJustified;
    match req.kind
    case Unknown =>
    case DeclareCluster => ScalarStep(s, ApplyDeclare(now, s, req).next.sc);
    case RegisterPublisher => RegisterStep(cfg, s, req);
    case AddRack => AddStep(cfg, now, s, req);
    case UpdateRackGeneration => UpdateStep(s, req);
    case MarkUnavailable => MembershipStep(now, s, req, Membership.Unavailable);
    case WithdrawRack => MembershipStep(now, s, req, Membership.Withdrawn);
    case RetireRack => MembershipStep(now, s, req, Membership.Retired);
    case RecoverRack => RecoverStep(s, req);
    case PublishLink => LinkStep(cfg, s, req.link);
    case WithdrawLink => WithdrawLinkStep(s, req.linkId);
    case PublishDomain(kind) => DomainStep(cfg, s, kind, req.domain);
    case PublishConstraint => ConstraintStep(cfg, s, req.constraint);
    case PublishHealth => HealthStep(s, req);
    case WithdrawEvidence => WithdrawEvidenceStep(s, req);
    case SupersedeTopology => SupersedeStep(now, s, req);
    case PublishSnapshot => ScalarStep(s, ApplySnapshot(s).next.sc);
    case Revalidate => ScalarStep(s, s.sc);
    case RetireCluster => RetireClusterStep(s);
  }
}
