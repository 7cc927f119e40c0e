/** The readiness contract, evaluated deterministically from canonical state. */
module Readiness {
  import opened Foundation
  import opened EvidenceStamps
  import opened Records

  predicate IsActive(r: RackRecord) { r.membership.Active? }

  predicate IsCurrentActive(r: RackRecord) { IsActive(r) && r.authoritative }

  predicate NeedsRevalidation(r: RackRecord) {
    IsActive(r) && (r.reference.currentness.RevalidationRequired? || r.reference.evidence.RequiresRevalidation())
  }

  function ActiveRacks(s: State): set<Id> { set k | k in s.racks && IsActive(s.racks[k]) }

  function CurrentRacks(s: State): set<Id> { set k | k in s.racks && IsCurrentActive(s.racks[k]) }

  function CurrentLinks(s: State): set<Id> { set k | k in s.links && s.links[k].header.evidence.IsCurrent() }

  predicate AnyRevalidation(s: State) { exists k | k in s.racks :: NeedsRevalidation(s.racks[k]) }

  /** Present, ACTIVE and authoritative current. */
  predicate MandatoryMet(s: State, rack: Id) { rack in s.racks && IsCurrentActive(s.racks[rack]) }

  /** Present and ACTIVE but not current: only this blocker demands revalidation. */
  predicate MandatoryLapsed(s: State, rack: Id) {
    rack in s.racks && IsActive(s.racks[rack]) && !s.racks[rack].authoritative
  }

  /** At least one current domain of the kind carries the class. */
  predicate ClassCovered(s: State, kind: DomainKind, klass: nat) {
    exists k | k in s.domains :: k.0 == kind && s.domains[k].klass == klass && s.domains[k].header.evidence.IsCurrent()
  }

  predicate Conflicted(s: State) {
    || (exists k | k in s.links :: s.links[k].source !in s.racks || s.links[k].destination !in s.racks)
    || (exists k | k in s.racks ::
          s.racks[k].authoritative && (s.IsFenced(s.racks[k].reference.boot) || s.IsRetired(k)))
  }

  /** No readiness blocker is recorded. */
  predicate Satisfied(s: State) {
    var c := s.sc.contract;
    && ActiveRacks(s) != {}
    && |CurrentRacks(s)| >= c.minimumRacks
    && (forall m | m in c.mandatory :: MandatoryMet(s, m))
    && (c.allCurrent ==> forall k | k in s.racks :: IsActive(s.racks[k]) ==> s.racks[k].authoritative)
    && !AnyRevalidation(s)
    && (c.connectivity ==> CurrentLinks(s) != {})
    && |CurrentLinks(s)| >= c.minimumLinks
    && (forall p | p in c.placementClasses :: ClassCovered(s, Placement, p))
    && (forall f | f in c.failureClasses :: ClassCovered(s, Failure, f))
    && (c.noConflicts ==> !Conflicted(s))
  }

  /** A required element of the contract waits for revalidation. */
  predicate RevalidationBlocks(s: State) {
    var c := s.sc.contract;
    || (|CurrentRacks(s)| < c.minimumRacks && AnyRevalidation(s))
    || (exists m | m in c.mandatory :: MandatoryLapsed(s, m))
    || (AnyRevalidation(s) && !c.allowDegraded)
  }

  predicate KnowinglyIncomplete(s: State) {
    || (exists k | k in s.racks :: s.racks[k].membership.Unavailable? || s.racks[k].membership.Withdrawn?)
    || s.sc.withdrawn != []
  }

  function Evaluate(s: State): Lifecycle {
    if s.sc.lifecycle.Retired? then Lifecycle.Retired
    else if s.sc.lifecycle.Retiring? then Lifecycle.Retiring
    else if RevalidationBlocks(s) then Lifecycle.RevalidationRequired
    else if Satisfied(s) then
      if KnowinglyIncomplete(s) && s.sc.contract.allowPartial then Lifecycle.Partial else Lifecycle.Ready
    else if CurrentRacks(s) != {} then Lifecycle.Degraded
    else if ActiveRacks(s) != {} then Lifecycle.Forming
    else Lifecycle.Declared
  }

  /** The cached lifecycle is a fresh evaluation. */
  predicate Settled(s: State) { s.sc.lifecycle == Evaluate(s) }

  function Settle(s: State): State { s.(sc := s.sc.(lifecycle := Evaluate(s))) }

  /** Everything the evaluation reads, apart from the cached lifecycle. */
  predicate SameView(s: State, t: State) {
    && s.racks == t.racks && s.links == t.links && s.domains == t.domains
    && s.sc.contract == t.sc.contract && s.sc.fenced == t.sc.fenced
    && s.sc.retired == t.sc.retired && s.sc.withdrawn == t.sc.withdrawn
  }

  lemma SameViewSamePredicates(s: State, t: State)
    requires SameView(s, t)
    ensures ActiveRacks(s) == ActiveRacks(t) && CurrentRacks(s) == CurrentRacks(t) && CurrentLinks(s) == CurrentLinks(t)
    ensures AnyRevalidation(s) == AnyRevalidation(t) && RevalidationBlocks(s) == RevalidationBlocks(t)
    ensures KnowinglyIncomplete(s) == KnowinglyIncomplete(t)
    ensures Satisfied(s) == Satisfied(t)
  {
    assert forall b :: s.IsFenced(b) == t.IsFenced(b);
    assert forall r :: s.IsRetired(r) == t.IsRetired(r);
    assert Conflicted(s) == Conflicted(t);
    assert forall k, c :: ClassCovered(s, k, c) == ClassCovered(t, k, c);
    assert forall m :: MandatoryMet(s, m) == MandatoryMet(t, m);
    assert forall m :: MandatoryLapsed(s, m) == MandatoryLapsed(t, m);
  }

  /** Evaluating again changes nothing, whatever the generation counters do meanwhile. */
  lemma EvaluationIsIdempotent(s: State, t: State)
    requires SameView(s, t) && t.sc.lifecycle == Evaluate(s)
    ensures Settled(t)
  {
    SameViewSamePredicates(s, t);
  }

  /** The contract asks for some rack to be current: a number, a particular one, or all of them. */
  predicate AsksForCurrentRack(c: Contract) { c.minimumRacks >= 1 || c.mandatory != [] || c.allCurrent }

  /** UNKNOWN never becomes positive: a consumable cluster that asks for a current rack has one. */
  lemma ConsumableHasCurrentRack(s: State)
    requires Settled(s) && Consumable(s.sc.lifecycle) && AsksForCurrentRack(s.sc.contract)
    ensures exists k | k in s.racks :: IsCurrentActive(s.racks[k])
  {
    var c := s.sc.contract;
    if s.sc.lifecycle.Degraded? || c.minimumRacks >= 1 {
      assert CurrentRacks(s) != {};
      var k :| k in CurrentRacks(s);
      assert IsCurrentActive(s.racks[k]);
    } else if c.mandatory != [] {
      assert MandatoryMet(s, c.mandatory[0]);
    } else {
      var k :| k in ActiveRacks(s);
      assert IsCurrentActive(s.racks[k]);
    }
  }

  // ---- what stands in the way, one blocker at a time --------------------------------------

  /** The blocker codes of the source, each with its subject; texts are not modelled. */
  datatype Blocker =
    | ClusterRetired | ClusterRetiring | NoActiveRack | MinimumRacksNotMet
    | MandatoryMissing(rack: Id) | MandatoryNotActive(rack: Id) | MandatoryNotCurrent(rack: Id)
    | ActiveNotCurrent(rack: Id) | RevalidationPending(rack: Id)
    | ConnectivityMissing | MinimumLinksNotMet | PlacementMissing(placement: PlacementClass)
    | FailureMissing(failure: FailureClass) | DanglingLink(link: Id)
    | HeldWhileFenced(rack: Id) | HeldWhileRetired(rack: Id)

  predicate Ending(s: State) { s.sc.lifecycle.Retired? || s.sc.lifecycle.Retiring? }

  predicate ActiveAt(s: State, rack: Id) { rack in s.racks && s.racks[rack].membership.Active? }

  /** The demand that the blocker names, read off the contract and the records. */
  predicate Unmet(s: State, b: Blocker) {
    var c := s.sc.contract;
    match b
    case ClusterRetired => false
    case ClusterRetiring => false
    case NoActiveRack => forall k | k in s.racks :: !s.racks[k].membership.Active?
    case MinimumRacksNotMet =>
      |set k | k in s.racks && s.racks[k].membership.Active? && s.racks[k].authoritative| < c.minimumRacks
    case MandatoryMissing(k) => k in c.mandatory && k !in s.racks
    case MandatoryNotActive(k) => k in c.mandatory && k in s.racks && !s.racks[k].membership.Active?
    case MandatoryNotCurrent(k) => k in c.mandatory && ActiveAt(s, k) && !s.racks[k].authoritative
    case ActiveNotCurrent(k) => c.allCurrent && ActiveAt(s, k) && !s.racks[k].authoritative
    case RevalidationPending(k) =>
      && ActiveAt(s, k)
      && (s.racks[k].reference.currentness.RevalidationRequired?
          || s.racks[k].reference.evidence.RequiresRevalidation())
    case ConnectivityMissing => c.connectivity && forall k | k in s.links :: !s.links[k].header.evidence.IsCurrent()
    case MinimumLinksNotMet => |set k | k in s.links && s.links[k].header.evidence.IsCurrent()| < c.minimumLinks
    case PlacementMissing(p) =>
      && p in c.placementClasses
      && forall k | k in s.domains && k.0.Placement? && s.domains[k].klass == p ::
           !s.domains[k].header.evidence.IsCurrent()
    case FailureMissing(f) =>
      && f in c.failureClasses
      && forall k | k in s.domains && k.0.Failure? && s.domains[k].klass == f ::
           !s.domains[k].header.evidence.IsCurrent()
    case DanglingLink(k) =>
      c.noConflicts && k in s.links && (s.links[k].source !in s.racks || s.links[k].destination !in s.racks)
    case HeldWhileFenced(k) =>
      && c.noConflicts && k in s.racks && s.racks[k].authoritative
      && exists f | f in s.sc.fenced :: f.boot == s.racks[k].reference.boot
    case HeldWhileRetired(k) =>
      && c.noConflicts && k in s.racks && s.racks[k].authoritative
      && exists r | r in s.sc.retired :: r.rack == k
  }

  /** A retired or retiring cluster has that one blocker; any other has its unmet demands. */
  predicate Blocks(s: State, b: Blocker) {
    if b.ClusterRetired? then s.sc.lifecycle.Retired?
    else if b.ClusterRetiring? then s.sc.lifecycle.Retiring?
    else !Ending(s) && Unmet(s, b)
  }

  lemma RackDemands(s: State)
    ensures ActiveRacks(s) != {} <==> !Unmet(s, NoActiveRack)
    ensures |CurrentRacks(s)| >= s.sc.contract.minimumRacks <==> !Unmet(s, MinimumRacksNotMet)
    ensures AnyRevalidation(s) <==> exists k :: Unmet(s, RevalidationPending(k))
    ensures CurrentRacks(s) != {} <==> exists k :: ActiveAt(s, k) && s.racks[k].authoritative
  {
    assert CurrentRacks(s) == set k | k in s.racks && s.racks[k].membership.Active? && s.racks[k].authoritative;
    if !Unmet(s, NoActiveRack) {
      var k :| k in s.racks && s.racks[k].membership.Active?;
      assert k in ActiveRacks(s);
    }
    if AnyRevalidation(s) {
      var k :| k in s.racks && NeedsRevalidation(s.racks[k]);
      assert Unmet(s, RevalidationPending(k));
    }
    if k: Id :| Unmet(s, RevalidationPending(k)) { assert NeedsRevalidation(s.racks[k]); }
    if CurrentRacks(s) != {} {
      var k :| k in CurrentRacks(s);
      assert ActiveAt(s, k);
    }
    if k: Id :| ActiveAt(s, k) && s.racks[k].authoritative { assert k in CurrentRacks(s); }
  }

  lemma NamedDemands(s: State)
    ensures (forall m | m in s.sc.contract.mandatory :: MandatoryMet(s, m)) <==>
      forall k ::
        !Unmet(s, MandatoryMissing(k)) && !Unmet(s, MandatoryNotActive(k)) && !Unmet(s, MandatoryNotCurrent(k))
    ensures (exists m | m in s.sc.contract.mandatory :: MandatoryLapsed(s, m)) <==>
      exists k :: Unmet(s, MandatoryNotCurrent(k))
    ensures (s.sc.contract.allCurrent ==> forall k | k in s.racks :: IsActive(s.racks[k]) ==> s.racks[k].authoritative)
      <==> forall k :: !Unmet(s, ActiveNotCurrent(k))
  {
    forall k ensures
      (!Unmet(s, MandatoryMissing(k)) && !Unmet(s, MandatoryNotActive(k)) && !Unmet(s, MandatoryNotCurrent(k)))
      <==> (k in s.sc.contract.mandatory ==> MandatoryMet(s, k)) {}
    forall k ensures Unmet(s, MandatoryNotCurrent(k)) <==> k in s.sc.contract.mandatory && MandatoryLapsed(s, k) {}
    forall k ensures Unmet(s, ActiveNotCurrent(k)) <==>
      s.sc.contract.allCurrent && k in s.racks && IsActive(s.racks[k]) && !s.racks[k].authoritative {}
    hide MandatoryMet; hide MandatoryLapsed; hide Unmet;
  }

  lemma PlacementDemand(s: State, p: PlacementClass)
    ensures Unmet(s, PlacementMissing(p)) <==> p in s.sc.contract.placementClasses && !ClassCovered(s, Placement, p)
  {}

  lemma FailureDemand(s: State, f: FailureClass)
    ensures Unmet(s, FailureMissing(f)) <==> f in s.sc.contract.failureClasses && !ClassCovered(s, Failure, f)
  {}

  lemma LinkDemands(s: State)
    ensures Unmet(s, ConnectivityMissing) <==> s.sc.contract.connectivity && CurrentLinks(s) == {}
    ensures Unmet(s, MinimumLinksNotMet) <==> |CurrentLinks(s)| < s.sc.contract.minimumLinks
  {
    assert CurrentLinks(s) == set k | k in s.links && s.links[k].header.evidence.IsCurrent();
    if k: Id :| k in s.links && s.links[k].header.evidence.IsCurrent() { assert k in CurrentLinks(s); }
  }

  lemma TopologyDemands(s: State)
    ensures (s.sc.contract.connectivity ==> CurrentLinks(s) != {}) <==> !Unmet(s, ConnectivityMissing)
    ensures |CurrentLinks(s)| >= s.sc.contract.minimumLinks <==> !Unmet(s, MinimumLinksNotMet)
    ensures (forall p | p in s.sc.contract.placementClasses :: ClassCovered(s, Placement, p))
      <==> forall p: PlacementClass :: !Unmet(s, PlacementMissing(p))
    ensures (forall f | f in s.sc.contract.failureClasses :: ClassCovered(s, Failure, f))
      <==> forall f: FailureClass :: !Unmet(s, FailureMissing(f))
  {
    hide ClassCovered; hide Unmet; hide CurrentLinks;
    LinkDemands(s);
    forall p: PlacementClass { PlacementDemand(s, p); }
    forall f: FailureClass { FailureDemand(s, f); }
  }

  predicate Dangles(s: State, k: Id) {
    k in s.links && (s.links[k].source !in s.racks || s.links[k].destination !in s.racks)
  }

  predicate Usurps(s: State, k: Id) {
    k in s.racks && s.racks[k].authoritative && (s.IsFenced(s.racks[k].reference.boot) || s.IsRetired(k))
  }

  lemma ConflictDemand(s: State, k: Id)
    ensures Unmet(s, DanglingLink(k)) <==> s.sc.contract.noConflicts && Dangles(s, k)
    ensures Unmet(s, HeldWhileFenced(k)) || Unmet(s, HeldWhileRetired(k)) <==>
      s.sc.contract.noConflicts && Usurps(s, k)
  {}

  lemma ConflictFound(s: State)
    ensures Conflicted(s) <==> exists k :: Dangles(s, k) || Usurps(s, k)
  {
    if k: Id :| Dangles(s, k) || Usurps(s, k) {}
    if Conflicted(s) {
      if k: Id :| k in s.links && (s.links[k].source !in s.racks || s.links[k].destination !in s.racks) {
        assert Dangles(s, k);
      } else {
        var k :| k in s.racks && s.racks[k].authoritative
                 && (s.IsFenced(s.racks[k].reference.boot) || s.IsRetired(k));
        assert Usurps(s, k);
      }
    }
    hide State.IsFenced; hide State.IsRetired;
  }

  lemma ConflictDemands(s: State)
    ensures (s.sc.contract.noConflicts ==> !Conflicted(s)) <==>
      forall k :: !Unmet(s, DanglingLink(k)) && !Unmet(s, HeldWhileFenced(k)) && !Unmet(s, HeldWhileRetired(k))
  {
    hide Unmet; hide Dangles; hide Usurps; hide Conflicted;
    ConflictFound(s);
    forall k
      ensures !Unmet(s, DanglingLink(k)) && !Unmet(s, HeldWhileFenced(k)) && !Unmet(s, HeldWhileRetired(k))
        <==> !(s.sc.contract.noConflicts && (Dangles(s, k) || Usurps(s, k)))
    {
      ConflictDemand(s, k);
    }
  }

  /** No demand of the contract is unmet. */
  ghost predicate Unblocked(s: State) { forall b: Blocker :: !Unmet(s, b) }

  lemma SatisfiedExactly(s: State)
    ensures Satisfied(s) <==> Unblocked(s)
  {
    hide Unmet; hide MandatoryMet; hide ClassCovered; hide Conflicted; hide AnyRevalidation; hide ActiveRacks;
    hide CurrentRacks; hide CurrentLinks; hide IsActive;
    RackDemands(s);
    NamedDemands(s);
    TopologyDemands(s);
    ConflictDemands(s);
    if Satisfied(s) {
      forall b: Blocker ensures !Unmet(s, b) {
        match b
        case ClusterRetired => NeverUnmet(s);
        case ClusterRetiring => NeverUnmet(s);
        case _ =>
      }
    }
    hide Satisfied;
  }

  lemma NeverUnmet(s: State)
    ensures !Unmet(s, ClusterRetired) && !Unmet(s, ClusterRetiring)
  {}

  // ---- the lifecycle, exactly --------------------------------------------------------------

  predicate HasCurrentRack(s: State) { exists k | k in s.racks :: ActiveAt(s, k) && s.racks[k].authoritative }

  ghost predicate Pending(s: State) { exists k :: Unmet(s, RevalidationPending(k)) }

  /** Something the contract requires waits for revalidation. */
  ghost predicate Awaiting(s: State) {
    || (Unmet(s, MinimumRacksNotMet) && Pending(s))
    || (exists k :: Unmet(s, MandatoryNotCurrent(k)))
    || (Pending(s) && !s.sc.contract.allowDegraded)
  }

  /** A rack is known to be away. */
  predicate RackIsAway(s: State) {
    || s.sc.withdrawn != []
    || exists k | k in s.racks :: s.racks[k].membership.Unavailable? || s.racks[k].membership.Withdrawn?
  }

  /** Every answer of the evaluation, from the contract and the records. */
  lemma LifecycleExactly(s: State)
    ensures var l := Evaluate(s);
      && (Ending(s) ==> l == s.sc.lifecycle)
      && (!Ending(s) ==>
            && (l.RevalidationRequired? <==> Awaiting(s))
            && (l.Ready? <==> !Awaiting(s) && Unblocked(s) && !(RackIsAway(s) && s.sc.contract.allowPartial))
            && (l.Partial? <==> !Awaiting(s) && Unblocked(s) && RackIsAway(s) && s.sc.contract.allowPartial)
            && (l.Degraded? <==> !Awaiting(s) && !Unblocked(s) && HasCurrentRack(s))
            && (l.Forming? <==> !Awaiting(s) && !HasCurrentRack(s) && !Unblocked(s) && !Unmet(s, NoActiveRack))
            && (l.Declared? <==> !Awaiting(s) && !HasCurrentRack(s) && Unmet(s, NoActiveRack)))
  {
    SatisfiedExactly(s);
    RackDemands(s);
    NamedDemands(s);
    assert HasCurrentRack(s) <==> CurrentRacks(s) != {};
    assert KnowinglyIncomplete(s) <==> RackIsAway(s);
    hide Unmet; hide Satisfied; hide KnowinglyIncomplete; hide RackIsAway; hide AnyRevalidation; hide ActiveRacks;
    hide CurrentRacks; hide MandatoryMet; hide MandatoryLapsed; hide HasCurrentRack;
    assert RevalidationBlocks(s) <==> Awaiting(s);
    if HasCurrentRack(s) { CurrentIsActive(s); }
  }

  lemma CurrentIsActive(s: State)
    requires HasCurrentRack(s)
    ensures !Unmet(s, NoActiveRack)
  {}

  /** READY and PARTIAL promise each demand of the contract separately. */
  lemma ReadyMeetsEveryDemand(s: State)
    requires Evaluate(s).Ready? || Evaluate(s).Partial?
    ensures var c := s.sc.contract;
      && (exists k | k in s.racks :: s.racks[k].membership.Active?)
      && |set k | k in s.racks && s.racks[k].membership.Active? && s.racks[k].authoritative| >= c.minimumRacks
      && (forall m | m in c.mandatory :: ActiveAt(s, m) && s.racks[m].authoritative)
      && (c.allCurrent ==> forall k | k in s.racks && s.racks[k].membership.Active? :: s.racks[k].authoritative)
      && (c.connectivity ==> exists k | k in s.links :: s.links[k].header.evidence.IsCurrent())
      && |set k | k in s.links && s.links[k].header.evidence.IsCurrent()| >= c.minimumLinks
      && (forall p | p in c.placementClasses :: exists k | k in s.domains ::
            k.0.Placement? && s.domains[k].klass == p && s.domains[k].header.evidence.IsCurrent())
      && (forall f | f in c.failureClasses :: exists k | k in s.domains ::
            k.0.Failure? && s.domains[k].klass == f && s.domains[k].header.evidence.IsCurrent())
  {
    hide Evaluate; hide Awaiting; hide RackIsAway; hide Unmet;
    LifecycleExactly(s);
    SimpleDemandsMet(s);
    var c := s.sc.contract;
    forall m | m in c.mandatory ensures ActiveAt(s, m) && s.racks[m].authoritative { MandatoryDemandMet(s, m); }
    forall k | c.allCurrent && k in s.racks && s.racks[k].membership.Active? ensures s.racks[k].authoritative {
      CurrentDemandMet(s, k);
    }
    forall p | p in c.placementClasses
      ensures exists k | k in s.domains ::
        k.0.Placement? && s.domains[k].klass == p && s.domains[k].header.evidence.IsCurrent()
    {
      PlacementDemand(s, p);
    }
    forall f | f in c.failureClasses
      ensures exists k | k in s.domains ::
        k.0.Failure? && s.domains[k].klass == f && s.domains[k].header.evidence.IsCurrent()
    {
      FailureDemand(s, f);
    }
  }

  lemma SimpleDemandsMet(s: State)
    requires Unblocked(s)
    ensures var c := s.sc.contract;
      && (exists k | k in s.racks :: s.racks[k].membership.Active?)
      && |set k | k in s.racks && s.racks[k].membership.Active? && s.racks[k].authoritative| >= c.minimumRacks
      && (c.connectivity ==> exists k | k in s.links :: s.links[k].header.evidence.IsCurrent())
      && |set k | k in s.links && s.links[k].header.evidence.IsCurrent()| >= c.minimumLinks
  {
    assert !Unmet(s, NoActiveRack) && !Unmet(s, MinimumRacksNotMet);
    assert !Unmet(s, ConnectivityMissing) && !Unmet(s, MinimumLinksNotMet);
  }

  lemma MandatoryDemandMet(s: State, m: Id)
    requires Unblocked(s) && m in s.sc.contract.mandatory
    ensures ActiveAt(s, m) && s.racks[m].authoritative
  {
    assert !Unmet(s, MandatoryMissing(m)) && !Unmet(s, MandatoryNotActive(m)) && !Unmet(s, MandatoryNotCurrent(m));
  }

  lemma CurrentDemandMet(s: State, k: Id)
    requires Unblocked(s) && s.sc.contract.allCurrent && ActiveAt(s, k)
    ensures s.racks[k].authoritative
  {
    assert !Unmet(s, ActiveNotCurrent(k));
  }

  /** One unmet demand is enough: with a current rack and nothing awaited, the cluster is DEGRADED. */
  lemma UnmetDemandDegrades(s: State, b: Blocker)
    requires !Ending(s) && Unmet(s, b) && HasCurrentRack(s) && !Pending(s)
    requires forall k :: !Unmet(s, MandatoryNotCurrent(k))
    ensures Evaluate(s).Degraded?
  {
    hide Unmet; hide Evaluate; hide HasCurrentRack; hide RackIsAway;
    LifecycleExactly(s);
  }
}
