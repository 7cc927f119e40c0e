/** The invariants the checker enforces, and the stronger ones that keep themselves. */
module Invariants {
  import opened Foundation
  import opened Sorting
  import opened EvidenceStamps
  import opened Records
  import opened Readiness

  // ---- what check_invariants accepts -----------------------------------------------------

  predicate CountersSound(s: State) {
    && s.id != [] && s.sc.epoch != 0 && s.sc.coordinatorEpoch != 0 && s.sc.generation != 0
    && s.sc.membershipGeneration != 0 && s.sc.topologyEpoch != 0 && s.sc.topologyGeneration != 0
    && s.sc.topology.epoch == s.sc.topologyEpoch && s.sc.topology.generation == s.sc.topologyGeneration
    && s.sc.membershipGeneration <= s.sc.generation && s.sc.topologyGeneration <= s.sc.generation
    && s.sc.snapshotGeneration <= s.sc.publicationGeneration
  }

  predicate CountsSound(s: State) {
    && |s.racks| <= MAX_RACKS && |s.links| <= MAX_LINKS && |s.constraints| <= MAX_CONSTRAINTS
    && forall kind: DomainKind :: |s.DomainIds(kind)| <= MAX_DOMAINS_PER_CLASS
  }

  predicate RackSound(s: State, k: Id)
    requires k in s.racks
  {
    var r := s.racks[k];
    && r.reference.rack == k && r.reference.generation != 0
    && |r.reference.endpoints| <= MAX_RACK_ENDPOINTS && |r.reference.hints| <= MAX_FAILURE_DOMAIN_REFS
    && (r.membership.Unknown? ==>
          !r.authoritative
          && (r.reference.currentness.Unknown? || r.reference.currentness.RevalidationRequired?))
    && r.membershipGeneration <= s.sc.membershipGeneration
    && (r.authoritative ==>
          && !s.IsFenced(r.reference.boot) && !s.IsRetired(k)
          && !r.reference.evidence.provenance.Unknown? && !r.reference.evidence.provenance.Reconstructed?)
  }

  /** A link of a superseded epoch may stay only as a record that claims nothing. */
  predicate LinkQuiet(l: Link) {
    && l.header.evidence.RequiresRevalidation()
    && !l.reachability.Reachable? && !l.reachability.Unreachable? && l.health == 0
  }

  predicate LinkSound(s: State, k: Id)
    requires k in s.links
  {
    var l := s.links[k];
    && l.id == k && s.IsMember(l.source) && s.IsMember(l.destination) && l.source != l.destination
    && !l.direction.Unknown?
    && (l.topologyEpoch != s.sc.topologyEpoch ==> LinkQuiet(l))
    && l.topologyGeneration <= s.sc.topologyGeneration
    && forall d | d in l.failureDomains :: (Failure, d) in s.domains
  }

  ghost predicate DomainSound(s: State, k: DomainKey)
    requires k in s.domains
  {
    var d := s.domains[k];
    && (Classed(k.0) ==> d.klass != 0)
    && (forall r | r in d.racks :: s.IsMember(r))
    && Ascending(d.racks, Before)
    && d.header.generation <= s.sc.domainGenerations.Get(k.0)
  }

  predicate ConstraintSound(s: State, k: Id)
    requires k in s.constraints
  {
    forall r | r in s.constraints[k].racks :: s.IsMember(r)
  }

  ghost predicate WithdrawnSound(s: State) {
    && Ascending(s.sc.withdrawn, Before)
    && (forall r | r in s.sc.withdrawn :: r in s.racks && s.racks[r].membership.Withdrawn?)
    && (forall k | k in s.racks && s.racks[k].membership.Withdrawn? :: k in s.sc.withdrawn)
  }

  ghost predicate FencedSound(s: State) {
    && Ascending(s.sc.fenced, FencedBefore)
    && forall f | f in s.sc.fenced ::
         !(f.rack in s.racks && s.racks[f.rack].authoritative && s.racks[f.rack].reference.boot == f.boot)
  }

  predicate LifecycleSound(s: State) {
    && (s.sc.lifecycle.Ready? ==> Satisfied(s))
    && (s.sc.lifecycle.Retired? ==> forall k | k in s.racks :: !s.racks[k].authoritative)
  }

  /** Every clause about records and lists. */
  ghost predicate BodySound(s: State) {
    && CountsSound(s)
    && (forall k | k in s.racks :: RackSound(s, k))
    && (forall k | k in s.links :: LinkSound(s, k))
    && (forall k | k in s.domains :: DomainSound(s, k))
    && (forall k | k in s.constraints :: ConstraintSound(s, k))
    && WithdrawnSound(s) && FencedSound(s) && Ascending(s.sc.retired, RetiredBefore)
  }

  ghost predicate EveryClauseHolds(s: State) { CountersSound(s) && BodySound(s) && LifecycleSound(s) }

  /** check_invariants reports nothing. A cluster with nothing recorded is never questioned. */
  ghost predicate Sound(s: State) { s.Blank() || EveryClauseHolds(s) }

  // ---- what keeps itself, whatever the checker does --------------------------------------

  /** Every rack and domain that a record names is there, and is decided. */
  predicate ReferencesResolve(s: State) {
    && (forall k | k in s.links ::
          && s.IsMember(s.links[k].source) && s.IsMember(s.links[k].destination)
          && (forall d | d in s.links[k].failureDomains :: (Failure, d) in s.domains)
          && (s.links[k].networkDomain.Some? ==> (Network, s.links[k].networkDomain.value) in s.domains)
          && (s.links[k].linkDomain.Some? ==> (LinkGroup, s.links[k].linkDomain.value) in s.domains))
    && (forall k | k in s.domains :: forall r | r in s.domains[k].racks :: s.IsMember(r))
    && (forall k | k in s.constraints :: forall r | r in s.constraints[k].racks :: s.IsMember(r))
  }

  /** RETIRED membership and the retired list say the same thing. */
  predicate RetirementExact(s: State) {
    && (forall k | k in s.racks :: s.racks[k].membership.Retired? <==> s.IsRetired(k))
    && (forall r | r in s.sc.retired :: r.rack in s.racks)
  }

  /** Authority always rests on current evidence. */
  predicate AuthorityJustified(s: State) {
    forall k | k in s.racks && s.racks[k].authoritative :: s.racks[k].reference.evidence.IsCurrent()
  }

  /** Records sit under their own identity and carry known generations below their aggregates. */
  predicate RecordsPlaced(s: State) {
    && (forall k | k in s.racks ::
          && k != [] && s.racks[k].reference.rack == k && s.racks[k].reference.generation != 0
          && s.racks[k].membershipGeneration <= s.sc.membershipGeneration)
    && (forall k | k in s.links ::
          && s.links[k].id == k && s.links[k].header.generation != 0
          && s.links[k].topologyEpoch <= s.sc.topologyEpoch
          && s.links[k].topologyGeneration < s.sc.topologyGeneration)
    && (forall k | k in s.domains ::
          && s.domains[k].id == k.1 && k.1 != [] && s.domains[k].header.generation != 0
          && s.domains[k].header.generation <= s.sc.domainGenerations.Get(k.0))
    && (forall k | k in s.constraints :: s.constraints[k].id == k && s.constraints[k].header.generation != 0)
  }

  predicate CountersKnown(s: State) {
    && s.id != [] && s.sc.coordinatorEpoch != 0 && s.sc.generation != 0
    && s.sc.membershipGeneration != 0 && s.sc.topologyEpoch != 0 && s.sc.topologyGeneration != 0
    && s.sc.topology.epoch == s.sc.topologyEpoch && s.sc.topology.generation == s.sc.topologyGeneration
    && s.sc.snapshotGeneration <= s.sc.publicationGeneration
    && s.sc.connectivityGeneration != 0 && s.sc.healthGeneration != 0 && s.sc.constraintGeneration != 0
    && s.sc.snapshotGeneration != 0 && s.sc.publicationGeneration != 0
  }

  /** Nothing is recorded before the first declaration; afterwards every counter is known. */
  predicate Wired(s: State) {
    && s.sc.coordinatorEpoch != 0
    && (!s.Declared() ==> s.Blank() && s.sc.generation == 0)
    && (s.Declared() ==> CountersKnown(s))
    && ReferencesResolve(s) && RetirementExact(s) && AuthorityJustified(s) && RecordsPlaced(s)
  }

  /** Membership and topology generations stay strictly below the cluster generation. */
  predicate Paced(s: State) {
    s.Declared() ==>
      s.sc.membershipGeneration < s.sc.generation && s.sc.topologyGeneration < s.sc.generation
  }

  /** The invariant of every reachable state. */
  ghost predicate Inv(s: State) { Sound(s) && Settled(s) && Wired(s) && Paced(s) }
}
