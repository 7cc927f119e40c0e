/** What every mutation writes and what it leaves alone, field by field. */
module Effects {
  import opened Foundation
  import opened TextOrder
  import opened Sorting
  import opened EvidenceStamps
  import opened Records
  import opened Readiness
  import opened Mutations
  import opened Engine
  import Permits

  // ---- what is left alone ----------------------------------------------------------------

  /** Only the record of one rack and the scalars may differ. */
  predicate OneRack(s: State, t: State, k: Id) {
    && t.id == s.id && t.links == s.links && t.domains == s.domains && t.constraints == s.constraints
    && t.racks.Keys == s.racks.Keys + {k} && forall x | x in s.racks && x != k :: t.racks[x] == s.racks[x]
  }

  /** Both topology counters move by one, the topology record follows, and no other scalar changes. */
  predicate TopologyAdvances(a: Scalars, b: Scalars) {
    && b.topologyGeneration == a.topologyGeneration + 1 && b.connectivityGeneration == a.connectivityGeneration + 1
    && b == a.(topologyGeneration := b.topologyGeneration, connectivityGeneration := b.connectivityGeneration,
               topology := a.topology.(generation := b.topologyGeneration))
  }

  /** A commit adds to the candidate a generation, a time and a fresh lifecycle, and nothing else. */
  lemma CommitAdds(cfg: Config, now: Timestamp, s: State, req: Request)
    requires Proposal(cfg, now, s, req).Some?
    ensures Apply(cfg, now, s, req).Changed?
    ensures var t, u := Apply(cfg, now, s, req).next, Proposal(cfg, now, s, req).value;
      && u.id == t.id && u.racks == t.racks && u.links == t.links && u.domains == t.domains
      && u.constraints == t.constraints && u.sc.generation == t.sc.generation + 1 && u.sc.lastMutationAt == now
      && u.sc.lifecycle == Evaluate(t)
      && u.sc == t.sc.(generation := u.sc.generation, lastMutationAt := now, lifecycle := u.sc.lifecycle)
  {
    hide Apply; hide Evaluate;
  }

  // ---- racks -----------------------------------------------------------------------------

  lemma RegistrationWrites(cfg: Config, s: State, req: Request)
    requires ApplyRegister(cfg, s, req).Changed?
    ensures var t, k := ApplyRegister(cfg, s, req).next, req.authority.rack.GetOr(req.reference.rack);
      && OneRack(s, t, k) && k !in s.racks && t.sc == s.sc
      && var r, f := t.racks[k], t.racks[k].reference;
         && r.membership.Unknown? && !r.authoritative && r.membershipEvidence == req.evidence
         && r.membershipGeneration == s.sc.membershipGeneration && r.acceptedAt == s.sc.generation
         && f.rack == k && f.generation == req.authority.rackGeneration.GetOr(req.reference.generation)
         && f.publisher == req.authority.publisher && f.publication == req.authority.publication
         && f.boot == req.authority.boot.GetOr(req.reference.boot) && f.evidence == req.evidence
         && f.currentness.Unknown? && f.health == 0 && f.endpoints == [] && f.hints == []
         && f.composition == req.reference.composition && f.rackLifecycle == req.reference.rackLifecycle
         && f.origin == req.reference.origin
         && f.clusterEpoch == s.sc.epoch && f.coordinatorEpoch == s.sc.coordinatorEpoch
  {
    hide State.IsRetired; hide Ascii;
  }

  /** The same members but one. */
  predicate Lacks(xs: seq<Id>, ys: seq<Id>, k: Id) {
    (forall y | y in ys :: y in xs && y != k) && forall x | x in xs && x != k :: x in ys
  }

  lemma {:induction false} WithoutLacks(xs: seq<Id>, x: Id)
    ensures Lacks(xs, Without(xs, x), x)
  {
    if xs != [] {
      WithoutLacks(xs[1..], x);
      assert xs == [xs[0]] + xs[1..];
    }
  }

  /** Evidence that arrives with unknown freshness is judged by its age; any other is kept as it came. */
  predicate JudgedOnArrival(now: Timestamp, was: Evidence, e: Evidence) {
    && e == was.(freshness := e.freshness)
    && (was.freshness.Unknown? && was.observedAt > 0 ==>
          e.freshness == if was.ttl <= 0 || now < was.observedAt || now - was.observedAt <= was.ttl
                         then Freshness.Fresh else Freshness.Stale)
    && (!(was.freshness.Unknown? && was.observedAt > 0) ==> e == was)
  }

  /** The record an admission of the reference stores. */
  predicate Admitted(s: State, now: Timestamp, asked: RackReference, r: RackRecord) {
    var f := r.reference;
    && r.membership.Active? && (r.authoritative <==> f.evidence.IsCurrent()) && r.acceptedAt == s.sc.generation
    && r.membershipEvidence == f.evidence && JudgedOnArrival(now, asked.evidence, f.evidence)
    && f.rack == asked.rack && f.generation == asked.generation && f.rackLifecycle == asked.rackLifecycle
    && f.publisher == asked.publisher && f.publication == asked.publication && f.boot == asked.boot
    && f.health == asked.health && f.origin == asked.origin && f.currentness.Current?
    && f.clusterEpoch == s.sc.epoch && f.coordinatorEpoch == s.sc.coordinatorEpoch
    && f.composition == asked.composition.(accelerators := f.composition.accelerators)
    && f.composition.accelerators == SortUnique(asked.composition.accelerators, AcceleratorBefore)
    && f.endpoints == SortUnique(asked.endpoints, EndpointBefore)
    && f.hints == SortUnique(asked.hints, HintBefore)
  }

  lemma AdmissionRecord(s: State, now: Timestamp, asked: RackReference, generation: u64)
    ensures Admitted(s, now, asked, Admission(s, now, Canonicalize(asked), generation))
    ensures Admission(s, now, Canonicalize(asked), generation).membershipGeneration == generation
  {
    hide SortUnique; hide Ascii;
  }

  lemma AdmissionWrites(cfg: Config, now: Timestamp, s: State, req: Request)
    requires ApplyAdd(cfg, now, s, req).Changed?
    ensures var t, k, asked := ApplyAdd(cfg, now, s, req).next, req.reference.rack, req.reference;
      && OneRack(s, t, k)
      && var moves := k !in s.racks || !s.racks[k].membership.Active?
                      || asked.generation > s.racks[k].reference.generation;
         && t.sc.membershipGeneration == s.sc.membershipGeneration + (if moves then 1 else 0)
         && t.sc == s.sc.(membershipGeneration := t.sc.membershipGeneration, withdrawn := t.sc.withdrawn)
         && Lacks(s.sc.withdrawn, t.sc.withdrawn, k) && Admitted(s, now, asked, t.racks[k])
         && t.racks[k].membershipGeneration
            == (if moves then t.sc.membershipGeneration else s.racks[k].membershipGeneration)
  {
    hide ValidateBoot; hide RepublishGate; hide ValidReference; hide SortUnique; hide State.IsRetired; hide Without;
    hide Lacks; hide Admission; hide Admitted;
    WithoutLacks(s.sc.withdrawn, req.reference.rack);
    forall g: u64 { AdmissionRecord(s, now, req.reference, g); }
  }

  lemma UpdateWrites(s: State, req: Request)
    requires ApplyUpdate(s, req).Changed?
    ensures var t, k := ApplyUpdate(s, req).next, req.authority.rack.GetOr(req.reference.rack);
      && k in s.racks && OneRack(s, t, k) && t.sc.membershipGeneration == s.sc.membershipGeneration + 1
      && t.sc == s.sc.(membershipGeneration := t.sc.membershipGeneration)
      && var was, r, f := s.racks[k].reference, t.racks[k], t.racks[k].reference;
         && r.membership == s.racks[k].membership && r.membershipEvidence == s.racks[k].membershipEvidence
         && (r.authoritative <==> req.evidence.IsCurrent()) && r.acceptedAt == s.sc.generation
         && r.membershipGeneration == t.sc.membershipGeneration
         && req.newGeneration == Some(f.generation) && f.evidence == req.evidence
         && f.rackLifecycle == req.reference.rackLifecycle && f.publication == req.authority.publication
         && f.boot == req.authority.boot.GetOr(was.boot)
         && f.publisher == (if req.authority.publisher.Some? then req.authority.publisher else was.publisher)
         && f.composition == (if req.reference.composition.Empty() then was.composition else req.reference.composition)
         && f.currentness.Current? && f.clusterEpoch == s.sc.epoch && f.coordinatorEpoch == s.sc.coordinatorEpoch
         && f.rack == was.rack && f.endpoints == was.endpoints && f.hints == was.hints && f.health == was.health
         && f.origin == was.origin
  {
    hide ValidateBoot;
  }

  lemma {:induction false} RemoveFirstAdds(xs: seq<Id>, x: Id)
    ensures forall y | y != x :: y in RemoveFirst(xs, x) <==> y in xs
  {
    if xs != [] {
      RemoveFirstAdds(xs[1..], x);
      assert xs == [xs[0]] + xs[1..];
    }
  }

  lemma WithdrawnWrites(xs: seq<Id>, k: Id, target: Membership)
    ensures var ys := WithdrawnAfter(xs, k, target);
      && (forall y | y != k :: y in ys <==> y in xs) && (target.Withdrawn? ==> k in ys)
  {
    if target.Withdrawn? { SortAdds(xs, k, Before); } else { RemoveFirstAdds(xs, k); }
  }

  lemma RetiredWrites(s: State, now: Timestamp, req: Request, k: Id, generation: u64)
    ensures forall e :: e in RetiredAfter(s, now, req, k, generation) <==>
      e in s.sc.retired || (!s.IsRetired(k) && e == RetiredIdentity(k, generation, now, req.reason))
  {
    hide Sort; hide State.IsRetired;
    SortAdds(s.sc.retired, RetiredIdentity(k, generation, now, req.reason), RetiredBefore);
  }

  lemma ExclusionWrites(now: Timestamp, s: State, req: Request, target: Membership)
    requires ApplyMembership(now, s, req, target).Changed?
    ensures var t, k := ApplyMembership(now, s, req, target).next, req.authority.rack.GetOr(req.reference.rack);
      && k in s.racks && OneRack(s, t, k) && t.sc.membershipGeneration == s.sc.membershipGeneration + 1
      && t.sc == s.sc.(membershipGeneration := t.sc.membershipGeneration, withdrawn := t.sc.withdrawn,
                       retired := t.sc.retired)
      && (forall y | y != k :: y in t.sc.withdrawn <==> y in s.sc.withdrawn)
      && (target.Withdrawn? ==> k in t.sc.withdrawn)
      && (forall e :: e in t.sc.retired <==>
            || e in s.sc.retired
            || (target.Retired? && !s.IsRetired(k)
                && e == RetiredIdentity(k, s.racks[k].reference.generation, now, req.reason)))
      && var r := t.racks[k];
         && r.membership == target && !r.authoritative && r.membershipEvidence == req.evidence
         && r.membershipGeneration == t.sc.membershipGeneration && r.reference.currentness.RevalidationRequired?
         && r.reference == s.racks[k].reference.(currentness := r.reference.currentness)
         && r.acceptedAt == s.racks[k].acceptedAt
  {
    hide ValidateBoot; hide WithdrawnAfter; hide RetiredAfter; hide State.IsRetired; hide TargetName; hide Ascii;
    var k := req.Subject();
    WithdrawnWrites(s.sc.withdrawn, k, target);
    if k in s.racks { RetiredWrites(s, now, req, k, s.racks[k].reference.generation); }
  }

  lemma RecoveryWrites(s: State, req: Request)
    requires ApplyRecover(s, req).Changed?
    ensures var t := ApplyRecover(s, req).next;
      var k := if req.reference.rack == [] then req.authority.rack.GetOr([]) else req.reference.rack;
      && k in s.racks && OneRack(s, t, k) && t.sc.membershipGeneration == s.sc.membershipGeneration + 1
      && t.sc == s.sc.(membershipGeneration := t.sc.membershipGeneration, withdrawn := t.sc.withdrawn)
      && Lacks(s.sc.withdrawn, t.sc.withdrawn, k)
      && var was, r, f, asked := s.racks[k].reference, t.racks[k], t.racks[k].reference, req.reference;
         && r.membership.Active? && r.membershipEvidence == req.evidence && r.acceptedAt == s.sc.generation
         && (r.authoritative <==> req.evidence.IsCurrent()) && r.membershipGeneration == t.sc.membershipGeneration
         && f.rack == k && f.generation == req.newGeneration.GetOr(was.generation)
         && f.composition == (if asked.composition.Empty() then was.composition else asked.composition)
         && f.endpoints == (if asked.endpoints == [] then was.endpoints else asked.endpoints)
         && f.hints == (if asked.hints == [] then was.hints else asked.hints)
         && f.rackLifecycle == asked.rackLifecycle && f.health == asked.health && f.evidence == req.evidence
         && f.publisher == (if req.authority.publisher.Some? then req.authority.publisher else was.publisher)
         && Some(f.boot) == req.authority.boot && f.publication == req.authority.publication
         && f.currentness.Current? && f.clusterEpoch == s.sc.epoch && f.coordinatorEpoch == s.sc.coordinatorEpoch
         && f.origin == was.origin
  {
    hide State.IsRetired; hide State.IsFenced; hide Without; hide Lacks; hide Ascii; hide Composition.Empty;
    WithoutLacks(s.sc.withdrawn, RecoverySubject(req));
  }

  // ---- evidence --------------------------------------------------------------------------

  predicate At(l: Link, k: Id) { l.source == k || l.destination == k }

  /**
   * A health report reaches its rack and, with a known reachability, every link with an end there; no other record
   * moves, and no field but those reported.
   */
  predicate HealthWritten(s: State, t: State, req: Request) {
    var k := req.authority.rack.GetOr(req.reference.rack);
    && k in s.racks && OneRack(s, t.(links := s.links), k) && t.links.Keys == s.links.Keys
    && (var r, f := t.racks[k], t.racks[k].reference;
        && f.health == req.health && f.evidence == req.evidence && f.publication == req.authority.publication
        && f.coordinatorEpoch == s.sc.coordinatorEpoch && (r.authoritative <==> req.evidence.IsCurrent())
        && f == s.racks[k].reference.(health := f.health, evidence := f.evidence, publication := f.publication,
                                      coordinatorEpoch := f.coordinatorEpoch)
        && r == s.racks[k].(reference := f, authoritative := r.authoritative, reason := r.reason))
    && forall l | l in s.links ::
         if !req.reachability.Unknown? && At(s.links[l], k) then
           && t.links[l].reachability == req.reachability && t.links[l].header.evidence == req.evidence
           && t.links[l] == s.links[l].(reachability := req.reachability,
                                        header := s.links[l].header.(evidence := req.evidence))
         else t.links[l] == s.links[l]
  }

  lemma HealthWrites(s: State, req: Request)
    requires ApplyHealth(s, req).Changed?
    ensures HealthWritten(s, ApplyHealth(s, req).next, req)
    ensures var t := ApplyHealth(s, req).next;
      && t.sc.healthGeneration == s.sc.healthGeneration + 1
      && t.sc.connectivityGeneration == s.sc.connectivityGeneration + (if req.reachability.Unknown? then 0 else 1)
      && t.sc == s.sc.(healthGeneration := t.sc.healthGeneration, connectivityGeneration := t.sc.connectivityGeneration)
  {
    hide ValidateBoot; hide State.IsRetired; hide Ascii;
  }

  /** Withdrawn evidence takes the rack's authority; unless only its health was meant, its links lose theirs too. */
  lemma WithdrawalWrites(s: State, req: Request)
    requires ApplyWithdrawEvidence(s, req).Changed?
    ensures var t, k := ApplyWithdrawEvidence(s, req).next, req.authority.rack.GetOr(req.reference.rack);
      && k in s.racks && OneRack(s, t.(links := s.links), k) && t.links.Keys == s.links.Keys
      && var r, f := t.racks[k], t.racks[k].reference;
         && !r.authoritative && f.currentness.RevalidationRequired? && f.evidence.freshness.RevalidationRequired?
         && f.evidence == s.racks[k].reference.evidence.(freshness := f.evidence.freshness)
         && f == s.racks[k].reference.(currentness := f.currentness, evidence := f.evidence)
         && r == s.racks[k].(reference := f, authoritative := false, reason := r.reason)
    ensures var t, k := ApplyWithdrawEvidence(s, req).next, req.authority.rack.GetOr(req.reference.rack);
      forall l | l in s.links ::
        if req.selector != Ascii("rack_health") && At(s.links[l], k) then
          && t.links[l].reachability.RevalidationRequired? && t.links[l].header.evidence.freshness.RevalidationRequired?
          && t.links[l].header.evidence
             == s.links[l].header.evidence.(freshness := t.links[l].header.evidence.freshness)
          && t.links[l] == s.links[l].(reachability := t.links[l].reachability,
                                       header := s.links[l].header.(evidence := t.links[l].header.evidence))
        else t.links[l] == s.links[l]
    ensures var t := ApplyWithdrawEvidence(s, req).next;
      && t.sc.healthGeneration == s.sc.healthGeneration + 1
      && t.sc.connectivityGeneration
         == s.sc.connectivityGeneration + (if req.selector == Ascii("rack_health") then 0 else 1)
      && t.sc == s.sc.(healthGeneration := t.sc.healthGeneration, connectivityGeneration := t.sc.connectivityGeneration)
  {
    Permits.SelectorsDiffer();
    hide Ascii;
    assert req.Subject() in s.racks;
  }

  // ---- topology --------------------------------------------------------------------------

  lemma LinkWrites(cfg: Config, s: State, payload: Option<Link>)
    requires ApplyLink(cfg, s, payload).Changed?
    ensures payload.Some?
    ensures var t, l := ApplyLink(cfg, s, payload).next, payload.value;
      && t.id == s.id && t.racks == s.racks && t.domains == s.domains && t.constraints == s.constraints
      && t.links.Keys == s.links.Keys + {l.id} && (forall k | k in s.links && k != l.id :: t.links[k] == s.links[k])
      && TopologyAdvances(s.sc, t.sc)
      && var n := t.links[l.id];
         && n.topologyGeneration == s.sc.topologyGeneration
         && n.header.clusterEpoch == s.sc.epoch && n.header.coordinatorEpoch == s.sc.coordinatorEpoch
         && n.failureDomains == SortUnique(l.failureDomains, Before)
         && n == l.(failureDomains := n.failureDomains, topologyGeneration := n.topologyGeneration,
                    header := l.header.(clusterEpoch := s.sc.epoch, coordinatorEpoch := s.sc.coordinatorEpoch))
  {
    hide SortUnique; hide State.IsMember;
  }

  lemma LinkWithdrawalWrites(s: State, id: Option<Id>)
    requires ApplyWithdrawLink(s, id).Changed?
    ensures id.Some? && id.value in s.links
    ensures var t := ApplyWithdrawLink(s, id).next;
      && t.id == s.id && t.racks == s.racks && t.domains == s.domains && t.constraints == s.constraints
      && t.links.Keys == s.links.Keys - {id.value} && (forall k | k in t.links :: t.links[k] == s.links[k])
      && TopologyAdvances(s.sc, t.sc)
  {}

  /** Superseding keeps every link, takes back what each of them claims, and moves to the epoch asked for. */
  lemma SupersedingWrites(now: Timestamp, s: State, req: Request)
    requires ApplySupersede(now, s, req).Changed?
    ensures var t := ApplySupersede(now, s, req).next;
      && t.id == s.id && t.racks == s.racks && t.domains == s.domains && t.constraints == s.constraints
      && Some(t.sc.topologyEpoch) == req.targetEpoch && t.sc.topologyEpoch > s.sc.topologyEpoch
      && t.sc.topology.epoch == t.sc.topologyEpoch && t.sc.topology.establishedAt == now
      && TopologyAdvances(s.sc, t.sc.(topologyEpoch := s.sc.topologyEpoch,
                                      topology := s.sc.topology.(generation := t.sc.topology.generation)))
      && (req.topologyReason != [] ==> t.sc.topology.reason == req.topologyReason)
      && t.links.Keys == s.links.Keys
      && forall l | l in s.links ::
           && t.links[l].reachability.Unknown? && t.links[l].health == 0
           && t.links[l].header.evidence.freshness.RevalidationRequired?
           && t.links[l].header.evidence
              == s.links[l].header.evidence.(freshness := t.links[l].header.evidence.freshness)
           && t.links[l] == s.links[l].(reachability := t.links[l].reachability, health := 0,
                                        header := s.links[l].header.(evidence := t.links[l].header.evidence))
  {
    hide Ascii;
  }

  // ---- domains and constraints -----------------------------------------------------------

  lemma DomainWrites(cfg: Config, s: State, kind: DomainKind, payload: Option<Domain>)
    requires ApplyDomain(cfg, s, kind, payload).Changed?
    ensures payload.Some?
    ensures var t, d := ApplyDomain(cfg, s, kind, payload).next, payload.value; var key := (kind, d.id);
      && t.id == s.id && t.racks == s.racks && t.links == s.links && t.constraints == s.constraints
      && t.domains.Keys == s.domains.Keys + {key}
      && (forall k | k in s.domains && k != key :: t.domains[k] == s.domains[k])
      && t.sc.topologyGeneration == s.sc.topologyGeneration + 1
      && (forall k: DomainKind | k != kind :: t.sc.domainGenerations.Get(k) == s.sc.domainGenerations.Get(k))
      && (s.sc.domainGenerations.Get(kind) < MAX_U64 ==>
            && t.sc.domainGenerations.Get(kind) > s.sc.domainGenerations.Get(kind)
            && t.sc.domainGenerations.Get(kind) >= d.header.generation
            && (t.sc.domainGenerations.Get(kind) == s.sc.domainGenerations.Get(kind) + 1
                || t.sc.domainGenerations.Get(kind) == d.header.generation))
      && t.sc == s.sc.(topologyGeneration := t.sc.topologyGeneration, domainGenerations := t.sc.domainGenerations,
                       topology := s.sc.topology.(generation := t.sc.topologyGeneration))
      && var n := t.domains[key];
         && n.racks == SortUnique(d.racks, Before)
         && n.quantities == (if kind.Capacity? then Sort(d.quantities, QuantityBefore) else d.quantities)
         && n == d.(racks := n.racks, quantities := n.quantities,
                    header := d.header.(clusterEpoch := s.sc.epoch, coordinatorEpoch := s.sc.coordinatorEpoch))
  {
    hide SortUnique; hide Sort; hide FirstRefusal; hide SameZero; hide State.IsMember; hide State.DomainIds;
    hide DomainGenerations.Get; hide DomainGenerations.Set;
  }

  lemma ConstraintWrites(cfg: Config, s: State, payload: Option<Constraint>)
    requires ApplyConstraint(cfg, s, payload).Changed?
    ensures payload.Some?
    ensures var t, c := ApplyConstraint(cfg, s, payload).next, payload.value;
      && t.id == s.id && t.racks == s.racks && t.links == s.links && t.domains == s.domains
      && t.constraints.Keys == s.constraints.Keys + {c.id}
      && (forall k | k in s.constraints && k != c.id :: t.constraints[k] == s.constraints[k])
      && t.sc.constraintGeneration == s.sc.constraintGeneration + 1
      && t.sc == s.sc.(constraintGeneration := t.sc.constraintGeneration)
      && var n := t.constraints[c.id];
         && n.racks == SortUnique(c.racks, Before)
         && n == c.(racks := n.racks,
                    header := c.header.(clusterEpoch := s.sc.epoch, coordinatorEpoch := s.sc.coordinatorEpoch))
  {
    hide SortUnique; hide State.IsMember;
  }

  // ---- the cluster -----------------------------------------------------------------------

  /** The first declaration starts every counter at one; a later one replaces contract and lifecycle alone. */
  lemma DeclarationWrites(now: Timestamp, s: State, req: Request)
    requires ApplyDeclare(now, s, req).Changed?
    ensures var t := ApplyDeclare(now, s, req).next;
      && t.racks == s.racks && t.links == s.links && t.domains == s.domains && t.constraints == s.constraints
      && t.sc.contract == req.contract
      && (s.Declared() ==>
            t.id == s.id && t.sc == s.sc.(contract := req.contract, lifecycle := req.lifecycle))
      && (!s.Declared() ==>
            && t.id == req.cluster && t.sc.lifecycle.Declared? && t.sc.declaredAt == now && t.sc.lastMutationAt == now
            && t.sc.epoch == (if req.authority.clusterEpoch == 0 then 1 else req.authority.clusterEpoch)
            && t.sc.coordinatorEpoch == (if req.authority.coordinatorEpoch == 0 then s.sc.coordinatorEpoch
                                         else req.authority.coordinatorEpoch)
            && t.sc.generation == t.sc.membershipGeneration == t.sc.topologyEpoch == t.sc.topologyGeneration == 1
            && t.sc.connectivityGeneration == t.sc.healthGeneration == t.sc.constraintGeneration == 1
            && t.sc.snapshotGeneration == t.sc.publicationGeneration == 1
            && (forall kind: DomainKind :: t.sc.domainGenerations.Get(kind) == 1)
            && t.sc.topology.epoch == 1 && t.sc.topology.generation == 1 && t.sc.topology.establishedAt == now
            && t.sc.fenced == s.sc.fenced && t.sc.retired == s.sc.retired && t.sc.withdrawn == s.sc.withdrawn)
  {
    hide Ascii;
  }

  /** Retiring the cluster takes every authority and leaves the records otherwise as they were. */
  lemma RetirementWrites(s: State)
    requires ApplyRetireCluster(s).Changed?
    ensures var t := ApplyRetireCluster(s).next;
      && t.id == s.id && t.links == s.links && t.domains == s.domains && t.constraints == s.constraints
      && t.sc == s.sc.(lifecycle := Lifecycle.Retired) && t.racks.Keys == s.racks.Keys
      && forall k | k in s.racks ::
           && !t.racks[k].authoritative
           && (if !s.racks[k].authoritative then t.racks[k] == s.racks[k]
               else
                 && t.racks[k].reference.currentness.RevalidationRequired?
                 && t.racks[k].reference == s.racks[k].reference.(currentness := t.racks[k].reference.currentness)
                 && t.racks[k] == s.racks[k].(reference := t.racks[k].reference, authoritative := false,
                                              reason := t.racks[k].reason))
  {
    hide Ascii;
  }

  lemma SnapshotWrites(s: State)
    requires ApplySnapshot(s).Changed?
    ensures var t := ApplySnapshot(s).next;
      && t == s.(sc := t.sc) && t.sc.snapshotGeneration == s.sc.snapshotGeneration + 1
      && t.sc.publicationGeneration == s.sc.publicationGeneration + 1
      && t.sc == s.sc.(snapshotGeneration := t.sc.snapshotGeneration,
                       publicationGeneration := t.sc.publicationGeneration)
  {}

  /** A revalidation writes nothing. It is accepted exactly if every rack it means holds current authority. */
  lemma RevalidationExactly(s: State, req: Request)
    ensures var r := ApplyRevalidate(s, req);
      && (r.Changed? ==> r.next == s)
      && (r.Refused? <==> exists x | x in req.racks :: x !in s.racks)
      && (r.NoChange? <==> req.racks == [] && s.racks == map[])
      && (r.Changed? <==>
            && (req.racks != [] || s.racks != map[]) && (forall x | x in req.racks :: x in s.racks)
            && forall k | k in s.racks && (req.racks == [] || k in req.racks) ::
                 s.racks[k].authoritative && s.racks[k].reference.evidence.IsCurrent())
  {
    forall k | k in s.racks
      ensures FreshlyHeld(s.racks[k]) <==> s.racks[k].authoritative && s.racks[k].reference.evidence.IsCurrent() {}
    hide FreshlyHeld;
  }

  // ---- fences ----------------------------------------------------------------------------

  /** A fence reaches the racks and links of its incarnation, and the list; nothing else. */
  lemma FenceWrites(s: State, boot: Id, reason: Text, stamp: Timestamp, now: Timestamp)
    requires FenceProposal(s, boot, reason, stamp, now).Some?
    ensures var t := FenceProposal(s, boot, reason, stamp, now).value;
      && t.id == s.id && t.domains == s.domains && t.constraints == s.constraints
      && t.racks.Keys == s.racks.Keys && t.links.Keys == s.links.Keys
      && (forall k | k in s.racks && s.racks[k].reference.boot != boot :: t.racks[k] == s.racks[k])
      && (forall k | k in s.racks && s.racks[k].reference.boot == boot ::
            && !t.racks[k].authoritative && t.racks[k].reference.currentness.RevalidationRequired?
            && t.racks[k].reference.evidence.freshness.RevalidationRequired? && t.racks[k].reason == reason
            && t.racks[k].reference
               == s.racks[k].reference.(currentness := t.racks[k].reference.currentness,
                                        evidence := s.racks[k].reference.evidence.(
                                          freshness := t.racks[k].reference.evidence.freshness))
            && t.racks[k] == s.racks[k].(reference := t.racks[k].reference, authoritative := false, reason := reason))
      && (forall l | l in s.links && s.links[l].boot != Some(boot) :: t.links[l] == s.links[l])
      && (forall l | l in s.links && s.links[l].boot == Some(boot) ::
            && t.links[l].reachability.Unknown? && t.links[l].health == 0
            && t.links[l].header.evidence.freshness.RevalidationRequired?
            && t.links[l] == s.links[l].(reachability := t.links[l].reachability, health := 0,
                                         header := s.links[l].header.(evidence := s.links[l].header.evidence.(
                                           freshness := t.links[l].header.evidence.freshness))))
  {
    hide Evaluate; hide FencedList;
  }

  lemma FenceCounts(s: State, boot: Id, reason: Text, stamp: Timestamp, now: Timestamp)
    requires FenceProposal(s, boot, reason, stamp, now).Some?
    ensures var t := FenceProposal(s, boot, reason, stamp, now).value;
      && t.sc.generation == s.sc.generation + 1 && t.sc.healthGeneration == s.sc.healthGeneration + 1
      && t.sc.lastMutationAt == now
      && t.sc == s.sc.(generation := t.sc.generation, healthGeneration := t.sc.healthGeneration,
                       lastMutationAt := now, lifecycle := t.sc.lifecycle, fenced := t.sc.fenced)
      && (s.IsFenced(boot) ==> t.sc.fenced == s.sc.fenced)
      && (!s.IsFenced(boot) ==> forall e :: e in t.sc.fenced <==>
            e in s.sc.fenced || e == FencedAuthority(boot, FenceSubject(s.racks, boot), reason, stamp))
  {
    hide Evaluate; hide FencedRacks; hide FencedLinks; hide Owns;
    if !s.IsFenced(boot) {
      SortAdds(s.sc.fenced, FencedAuthority(boot, FenceSubject(s.racks, boot), reason, stamp), FencedBefore);
    }
    hide Sort; hide FenceSubject;
  }

  /** The fence remembers the first rack of the incarnation in identity order, or a placeholder. */
  lemma FenceNamesFirst(racks: map<Id, RackRecord>, boot: Id)
    ensures var k := FenceSubject(racks, boot);
      if exists x | x in racks :: racks[x].reference.boot == boot then
        k in racks && racks[k].reference.boot == boot
        && forall x | x in racks && racks[x].reference.boot == boot :: x == k || Less(k, x)
      else k == Ascii("unknown-rack")
  {
    var k := FenceSubject(racks, boot);
    forall x | x in racks && racks[x].reference.boot == boot ensures x == k || Less(k, x) {
      assert x in RacksOf(racks, boot);
      assert x == k || Before(k, x);
    }
    if x: Id :| x in racks && racks[x].reference.boot == boot {
      assert x in RacksOf(racks, boot);
      assert k in RacksOf(racks, boot);
    }
    hide Ascii;
  }
}
