/** The loops of evaluate_readiness and check_invariants, against what they are meant to decide. */
module Checking {
  import opened Foundation
  import opened TextOrder
  import opened Sorting
  import opened Iteration
  import opened EvidenceStamps
  import opened Records
  import opened Readiness
  import opened Invariants
  import opened Durable
  import Engine

  // ---- searching and ordering ------------------------------------------------------------

  /** std::binary_search; on an unordered list the answer means nothing. */
  method BinarySearch(list: seq<Id>, key: Id) returns (found: bool)
    ensures Ascending(list, Before) ==> (found <==> key in list)
  {
    var lo, hi := 0, |list|;
    while lo < hi
      invariant 0 <= lo <= hi <= |list|
      invariant Ascending(list, Before) ==> Split(list, key, lo, hi)
    {
      var mid := (lo + hi) / 2;
      if Ascending(list, Before) { Halves(list, key, lo, mid, hi); }
      if Less(list[mid], key) { lo := mid + 1; } else { hi := mid; }
    }
    found := lo < |list| && !Less(key, list[lo]);
    if Ascending(list, Before) { FoundExactly(list, key, lo); }
  }

  /** Everything below lo is less than the key, nothing from hi on is. */
  ghost predicate Split(list: seq<Id>, key: Id, lo: nat, hi: nat) {
    forall i | 0 <= i < |list| :: (i < lo ==> Before(list[i], key)) && (i >= hi ==> !Before(list[i], key))
  }

  lemma Halves(list: seq<Id>, key: Id, lo: nat, mid: nat, hi: nat)
    requires Ascending(list, Before) && Split(list, key, lo, hi) && lo <= mid < hi <= |list|
    ensures if Less(list[mid], key) then Split(list, key, mid + 1, hi) else Split(list, key, lo, mid)
  {
    TextIsOrdered();
    forall i | 0 <= i < |list|
      ensures Before(list[mid], key) && i <= mid ==> Before(list[i], key)
      ensures !Before(list[mid], key) && i >= mid ==> !Before(list[i], key)
    {
      if i < mid { assert Before(list[i], list[mid]); }
      if mid < i { assert Before(list[mid], list[i]); }
    }
  }

  lemma FoundExactly(list: seq<Id>, key: Id, lo: nat)
    requires lo <= |list| && Ascending(list, Before) && Split(list, key, lo, lo)
    ensures (lo < |list| && !Less(key, list[lo])) <==> key in list
  {
    TextIsOrdered();
    if lo < |list| { Trichotomy(list[lo], key); }
    if key in list {
      var i :| 0 <= i < |list| && list[i] == key;
      assert forall j | lo < j < |list| :: Before(list[lo], list[j]);
    }
  }

  /** Adjacent comparisons decide the order of the whole list. */
  method InOrder<T(!new)>(list: seq<T>, lt: (T, T) -> bool) returns (ok: bool)
    requires StrictOrder(lt)
    ensures ok <==> Ascending(list, lt)
  {
    var i := 1;
    while i < |list|
      invariant 1 <= i && (|list| > 0 ==> i <= |list| && Ascending(list[..i], lt))
    {
      if !lt(list[i - 1], list[i]) {
        assert !Ascending(list, lt);
        return false;
      }
      forall a | 0 <= a < i ensures lt(list[a], list[i]) {
        if a < i - 1 { assert lt(list[..i][a], list[..i][i - 1]); }
      }
      i := i + 1;
    }
    ok := true;
    if |list| > 0 { assert list[..|list|] == list; }
  }

  // ---- readiness -------------------------------------------------------------------------

  method CountRacks(s: State) returns (active: nat, current: nat, revalidation: bool)
    ensures active == |ActiveRacks(s)| && current == |CurrentRacks(s)| && revalidation == AnyRevalidation(s)
  {
    CountedRacks(s);
    hide IsLeast; hide IsActive; hide IsCurrentActive; hide NeedsRevalidation; hide Chosen; hide ActiveRacks;
    hide CurrentRacks;
    active, current, revalidation := 0, 0, false;
    var rest := s.racks.Keys;
    ghost var seen: set<Id> := {};
    while rest != {}
      invariant rest == s.racks.Keys - seen && seen <= s.racks.Keys
      invariant active == |Chosen(s.racks, seen, IsActive)| && current == |Chosen(s.racks, seen, IsCurrentActive)|
      invariant revalidation <==> exists k | k in s.racks && k in seen :: NeedsRevalidation(s.racks[k])
      decreases rest
    {
      var k := SmallestOf(rest);
      var r := s.racks[k];
      ChosenGrows(s.racks, seen, k, IsActive);
      ChosenGrows(s.racks, seen, k, IsCurrentActive);
      InactiveCountsNowhere(r);
      if IsActive(r) {
        active := active + 1;
        if IsCurrentActive(r) { current := current + 1; }
        if NeedsRevalidation(r) { revalidation := true; }
      }
      rest, seen := rest - {k}, seen + {k};
    }
    assert seen == s.racks.Keys;
  }

  lemma CountedRacks(s: State)
    ensures Chosen(s.racks, s.racks.Keys, IsActive) == ActiveRacks(s)
    ensures Chosen(s.racks, s.racks.Keys, IsCurrentActive) == CurrentRacks(s)
    ensures Chosen(s.racks, {}, IsActive) == {} && Chosen(s.racks, {}, IsCurrentActive) == {}
  {}

  lemma InactiveCountsNowhere(r: RackRecord)
    ensures !IsActive(r) ==> !IsCurrentActive(r) && !NeedsRevalidation(r)
  {}

  predicate HasCurrentEvidence(l: Link) { l.header.evidence.IsCurrent() }

  method CountLinks(s: State) returns (current: nat)
    ensures current == |CurrentLinks(s)|
  {
    assert Chosen(s.links, s.links.Keys, HasCurrentEvidence) == CurrentLinks(s);
    assert Chosen(s.links, {}, HasCurrentEvidence) == {};
    hide IsLeast; hide HasCurrentEvidence; hide Chosen; hide CurrentLinks;
    current := 0;
    var rest := s.links.Keys;
    ghost var seen: set<Id> := {};
    while rest != {}
      invariant rest == s.links.Keys - seen && seen <= s.links.Keys
      invariant current == |Chosen(s.links, seen, HasCurrentEvidence)|
      decreases rest
    {
      var k := SmallestOf(rest);
      ChosenGrows(s.links, seen, k, HasCurrentEvidence);
      if HasCurrentEvidence(s.links[k]) { current := current + 1; }
      rest, seen := rest - {k}, seen + {k};
    }
    assert seen == s.links.Keys;
  }

  predicate AboutMandatory(b: Blocker) { b.MandatoryMissing? || b.MandatoryNotActive? || b.MandatoryNotCurrent? }

  /** What one mandatory rack lacks; the first thing found ends the comparison. */
  function MandatoryBlocker(s: State, m: Id): seq<Blocker> {
    if m !in s.racks then [MandatoryMissing(m)]
    else if !s.racks[m].membership.Active? then [MandatoryNotActive(m)]
    else if !s.racks[m].authoritative then [MandatoryNotCurrent(m)]
    else []
  }

  lemma MandatoryBlockerExactly(s: State, m: Id, b: Blocker)
    requires m in s.sc.contract.mandatory
    ensures b in MandatoryBlocker(s, m) <==> AboutMandatory(b) && b.rack == m && Unmet(s, b)
  {}

  lemma MandatoryIsNamed(s: State, b: Blocker)
    requires AboutMandatory(b) && Unmet(s, b)
    ensures b.rack in s.sc.contract.mandatory
  {}

  method MandatoryRacks(s: State) returns (blockers: seq<Blocker>, lapsed: bool)
    ensures forall b :: b in blockers <==> AboutMandatory(b) && Unmet(s, b)
    ensures lapsed <==> exists k :: Unmet(s, MandatoryNotCurrent(k))
  {
    var list := s.sc.contract.mandatory;
    blockers, lapsed := [], false;
    for i := 0 to |list|
      invariant forall b :: b in blockers <==> AboutMandatory(b) && b.rack in list[..i] && Unmet(s, b)
      invariant lapsed <==> exists k | k in list[..i] :: Unmet(s, MandatoryNotCurrent(k))
    {
      hide Unmet; hide AboutMandatory;
      assert list[..i + 1] == list[..i] + [list[i]];
      forall b { MandatoryBlockerExactly(s, list[i], b); }
      blockers := blockers + MandatoryBlocker(s, list[i]);
      if MandatoryNotCurrent(list[i]) in MandatoryBlocker(s, list[i]) { lapsed := true; }
    }
    assert list[..|list|] == list;
    hide Unmet; hide MandatoryBlocker;
    forall b | AboutMandatory(b) && Unmet(s, b) ensures b.rack in list { MandatoryIsNamed(s, b); }
    forall k | Unmet(s, MandatoryNotCurrent(k)) ensures k in list { MandatoryIsNamed(s, MandatoryNotCurrent(k)); }
  }

  /** A loop over a map that records a blocker for every entry it looks for. */
  method Collect<V>(m: map<Id, V>, wanted: (Id, V) -> bool, make: Id -> Blocker) returns (blockers: seq<Blocker>)
    ensures forall b :: b in blockers <==> exists k | k in m :: wanted(k, m[k]) && b == make(k)
  {
    hide IsLeast;
    blockers := [];
    var rest := m.Keys;
    while rest != {}
      invariant rest <= m.Keys
      invariant forall b :: b in blockers <==> exists k | k in m && k !in rest :: wanted(k, m[k]) && b == make(k)
      decreases rest
    {
      var k := SmallestOf(rest);
      if wanted(k, m[k]) { blockers := blockers + [make(k)]; }
      rest := rest - {k};
    }
  }

  predicate Lags(k: Id, r: RackRecord) { r.membership.Active? && !r.authoritative }

  predicate Lapses(k: Id, r: RackRecord) {
    && r.membership.Active?
    && (r.reference.currentness.RevalidationRequired? || r.reference.evidence.RequiresRevalidation())
  }

  predicate Away(k: Id, r: RackRecord) { r.membership.Unavailable? || r.membership.Withdrawn? }

  method LaggingRacks(s: State) returns (blockers: seq<Blocker>)
    ensures forall b :: b in blockers <==> b.ActiveNotCurrent? && Unmet(s, b)
  {
    if !s.sc.contract.allCurrent { return []; }
    blockers := Collect(s.racks, Lags, (k: Id) => ActiveNotCurrent(k));
  }

  method LapsedRacks(s: State) returns (blockers: seq<Blocker>)
    ensures forall b :: b in blockers <==> b.RevalidationPending? && Unmet(s, b)
  {
    blockers := Collect(s.racks, Lapses, (k: Id) => RevalidationPending(k));
  }

  method CoversClass(s: State, kind: DomainKind, klass: nat) returns (found: bool)
    ensures found <==> ClassCovered(s, kind, klass)
  {
    var column := Column(s, kind);
    found := Finds(column, (k: Id, d: Domain) => d.klass == klass && d.header.evidence.IsCurrent());
    if ClassCovered(s, kind, klass) {
      var k :| k in s.domains && k.0 == kind && s.domains[k].klass == klass && s.domains[k].header.evidence.IsCurrent();
      assert k.1 in column;
    }
    if found {
      var k :| k in column && column[k].klass == klass && column[k].header.evidence.IsCurrent();
      assert (kind, k) in s.domains;
    }
  }

  method MissingPlacements(s: State) returns (blockers: seq<Blocker>)
    ensures forall b :: b in blockers <==> b.PlacementMissing? && Unmet(s, b)
  {
    var list := s.sc.contract.placementClasses;
    blockers := [];
    for i := 0 to |list|
      invariant forall b :: b in blockers <==> b.PlacementMissing? && b.placement in list[..i] && Unmet(s, b)
    {
      hide Unmet; hide ClassCovered;
      assert list[..i + 1] == list[..i] + [list[i]];
      PlacementDemand(s, list[i]);
      var found := CoversClass(s, Placement, list[i]);
      if !found { blockers := blockers + [PlacementMissing(list[i])]; }
    }
    assert list[..|list|] == list;
    hide Unmet; hide ClassCovered;
    forall b: Blocker | b.PlacementMissing? { PlacementDemand(s, b.placement); }
  }

  method MissingFailures(s: State) returns (blockers: seq<Blocker>)
    ensures forall b :: b in blockers <==> b.FailureMissing? && Unmet(s, b)
  {
    var list := s.sc.contract.failureClasses;
    blockers := [];
    for i := 0 to |list|
      invariant forall b :: b in blockers <==> b.FailureMissing? && b.failure in list[..i] && Unmet(s, b)
    {
      hide Unmet; hide ClassCovered;
      assert list[..i + 1] == list[..i] + [list[i]];
      FailureDemand(s, list[i]);
      var found := CoversClass(s, Failure, list[i]);
      if !found { blockers := blockers + [FailureMissing(list[i])]; }
    }
    assert list[..|list|] == list;
    hide Unmet; hide ClassCovered;
    forall b: Blocker | b.FailureMissing? { FailureDemand(s, b.failure); }
  }

  predicate AboutConflict(b: Blocker) { b.DanglingLink? || b.HeldWhileFenced? || b.HeldWhileRetired? }

  method DanglingLinks(s: State) returns (blockers: seq<Blocker>)
    requires s.sc.contract.noConflicts
    ensures forall b :: b in blockers <==> b.DanglingLink? && Unmet(s, b)
  {
    blockers := Collect(s.links, (k: Id, l: Link) => l.source !in s.racks || l.destination !in s.racks,
                        (k: Id) => DanglingLink(k));
  }

  method FencedHolders(s: State) returns (blockers: seq<Blocker>)
    requires s.sc.contract.noConflicts
    ensures forall b :: b in blockers <==> b.HeldWhileFenced? && Unmet(s, b)
  {
    blockers := Collect(s.racks, (k: Id, r: RackRecord) => r.authoritative && s.IsFenced(r.reference.boot),
                        (k: Id) => HeldWhileFenced(k));
  }

  method RetiredHolders(s: State) returns (blockers: seq<Blocker>)
    requires s.sc.contract.noConflicts
    ensures forall b :: b in blockers <==> b.HeldWhileRetired? && Unmet(s, b)
  {
    blockers := Collect(s.racks, (k: Id, r: RackRecord) => r.authoritative && s.IsRetired(k),
                        (k: Id) => HeldWhileRetired(k));
  }

  lemma NoConflictAsked(s: State, b: Blocker)
    requires !s.sc.contract.noConflicts && AboutConflict(b)
    ensures !Unmet(s, b)
  {}

  method Conflicts(s: State) returns (blockers: seq<Blocker>)
    ensures forall b :: b in blockers <==> AboutConflict(b) && Unmet(s, b)
  {
    hide Unmet;
    if !s.sc.contract.noConflicts {
      forall b | AboutConflict(b) ensures !Unmet(s, b) { NoConflictAsked(s, b); }
      return [];
    }
    var dangling := DanglingLinks(s);
    var fenced := FencedHolders(s);
    var retired := RetiredHolders(s);
    blockers := dangling + fenced + retired;
  }

  lemma AwayIsIncomplete(s: State)
    ensures KnowinglyIncomplete(s) <==> (exists k | k in s.racks :: Away(k, s.racks[k])) || s.sc.withdrawn != []
  {}

  function Only(blocked: bool, b: Blocker): seq<Blocker> { if blocked then [b] else [] }

  /** The blockers of a cluster that is neither retired nor retiring, in source order. */
  method Blockers(s: State, active: nat, current: nat, links: nat) returns (blockers: seq<Blocker>, lapsed: bool)
    requires active == |ActiveRacks(s)| && current == |CurrentRacks(s)| && links == |CurrentLinks(s)|
    ensures forall b :: b in blockers <==> Unmet(s, b)
    ensures lapsed <==> exists k :: Unmet(s, MandatoryNotCurrent(k))
  {
    hide Unmet; hide ActiveRacks; hide CurrentRacks; hide CurrentLinks;
    var c := s.sc.contract;
    RackDemands(s);
    LinkDemands(s);
    NeverUnmet(s);
    blockers := Only(active == 0, NoActiveRack) + Only(current < c.minimumRacks, MinimumRacksNotMet);
    var mandatory;
    mandatory, lapsed := MandatoryRacks(s);
    var lagging := LaggingRacks(s);
    var pending := LapsedRacks(s);
    var connections :=
      Only(c.connectivity && links == 0, ConnectivityMissing) + Only(links < c.minimumLinks, MinimumLinksNotMet);
    var placements := MissingPlacements(s);
    var failures := MissingFailures(s);
    var conflicts := Conflicts(s);
    blockers := blockers + mandatory + lagging + pending + connections + placements + failures + conflicts;
  }

  /** evaluate_readiness: the lifecycle and the blockers that were recorded, before they are sorted. */
  method EvaluateReadiness(s: State) returns (lifecycle: Lifecycle, blockers: seq<Blocker>)
    ensures lifecycle == Evaluate(s)
    ensures forall b :: b in blockers <==> Blocks(s, b)
    ensures !Ending(s) ==> (blockers == [] <==> Satisfied(s))
  {
    hide AnyRevalidation; hide ActiveRacks; hide CurrentRacks; hide CurrentLinks; hide Satisfied; hide Unmet;
    hide KnowinglyIncomplete; hide MandatoryLapsed;
    if s.sc.lifecycle.Retired? { return Lifecycle.Retired, [ClusterRetired]; }
    if s.sc.lifecycle.Retiring? { return Lifecycle.Retiring, [ClusterRetiring]; }
    var c := s.sc.contract;
    var active, current, revalidation := CountRacks(s);
    var links := CountLinks(s);
    var lapsed;
    blockers, lapsed := Blockers(s, active, current, links);
    NeverUnmet(s);
    SatisfiedExactly(s);
    NamedDemands(s);
    assert blockers == [] <==> Satisfied(s) by {
      if blockers != [] { assert blockers[0] in blockers && Unmet(s, blockers[0]); }
      assert Unblocked(s) <==> blockers == [];
    }
    var required := (current < c.minimumRacks && revalidation) || lapsed || (revalidation && !c.allowDegraded);
    assert required <==> RevalidationBlocks(s);
    if required { lifecycle := Lifecycle.RevalidationRequired; }
    else if blockers == [] {
      var away := Finds(s.racks, Away);
      AwayIsIncomplete(s);
      var incomplete := away || s.sc.withdrawn != [];
      lifecycle := if incomplete && c.allowPartial then Lifecycle.Partial else Lifecycle.Ready;
    }
    else if current > 0 { lifecycle := Lifecycle.Degraded; }
    else if active > 0 { lifecycle := Lifecycle.Forming; }
    else { lifecycle := Lifecycle.Declared; }
  }

  // ---- the invariant checker -------------------------------------------------------------

  /** The identifiers under which violations are reported; subjects and texts are not modelled. */
  datatype Clause =
    | SingleClusterIdentity | ClusterEpochKnown | CoordinatorEpochKnown | ClusterGenerationKnown | GenerationsMonotonic
    | TopologyEpochKnown | TopologyGenerationConsistent | MembershipGenerationConsistent | CountsWithinBounds
    | RackIdentitiesValid | RackGenerationAuthoritative | RackReferenceBounded | RackMembershipConsistent
    | RackNotFenced | RackNotRetired | UnknownNeverPositive | RecoveredEvidenceNotCurrent
    | LinkIdentitiesUnique | LinkEndpointsResolve | LinkNoSelfLoop | LinkDirectionConsistent
    | DomainClassConsistent | DomainMembersResolve | DomainGenerationsConsistent | ConstraintReferencesResolve
    | FencedAuthorityConsistent | LifecycleConsistent | SnapshotMapMatchesState

  // ---- what each identifier stands for, read off the state ---------------------------------

  predicate CounterBreaks(s: State, c: Clause) {
    match c
    case SingleClusterIdentity => s.id == []
    case ClusterEpochKnown => s.sc.epoch == 0
    case CoordinatorEpochKnown => s.sc.coordinatorEpoch == 0
    case ClusterGenerationKnown => s.sc.generation == 0
    case GenerationsMonotonic => s.sc.membershipGeneration == 0
    case TopologyEpochKnown => s.sc.topologyEpoch == 0
    case TopologyGenerationConsistent =>
      || s.sc.topologyGeneration == 0 || s.sc.topology.epoch != s.sc.topologyEpoch
      || s.sc.topology.generation != s.sc.topologyGeneration || s.sc.topologyGeneration > s.sc.generation
    case MembershipGenerationConsistent => s.sc.membershipGeneration > s.sc.generation
    case SnapshotMapMatchesState => s.sc.snapshotGeneration > s.sc.publicationGeneration
    case _ => false
  }

  predicate CountBreaks(s: State, c: Clause) {
    && c.CountsWithinBounds?
    && (|| |s.racks| > 16384 || |s.links| > 262144 || |s.constraints| > 4096
        || exists kind: DomainKind :: |s.DomainIds(kind)| > 16384)
  }

  predicate RackBreaks(s: State, k: Id, c: Clause)
    requires k in s.racks
  {
    var r := s.racks[k];
    match c
    case RackIdentitiesValid => r.reference.rack != k
    case RackGenerationAuthoritative => r.reference.generation == 0
    case RackReferenceBounded => |r.reference.endpoints| > 256 || |r.reference.hints| > 256
    case RackMembershipConsistent =>
      r.membership.Unknown?
      && (r.authoritative || r.reference.currentness.Current? || r.reference.currentness.Superseded?)
    case MembershipGenerationConsistent => r.membershipGeneration > s.sc.membershipGeneration
    case RackNotFenced => r.authoritative && s.IsFenced(r.reference.boot)
    case RackNotRetired => r.authoritative && s.IsRetired(k)
    case UnknownNeverPositive => r.authoritative && r.reference.evidence.provenance.Unknown?
    case RecoveredEvidenceNotCurrent => r.authoritative && r.reference.evidence.provenance.Reconstructed?
    case _ => false
  }

  predicate LinkBreaks(s: State, k: Id, c: Clause)
    requires k in s.links
  {
    var l := s.links[k];
    match c
    case LinkIdentitiesUnique => l.id != k
    case LinkEndpointsResolve =>
      !s.IsMember(l.source) || !s.IsMember(l.destination) || LinkDangles(s, l)
    case LinkNoSelfLoop => l.source == l.destination
    case LinkDirectionConsistent => l.direction.Unknown?
    case TopologyGenerationConsistent =>
      || l.topologyGeneration > s.sc.topologyGeneration
      || (l.topologyEpoch != s.sc.topologyEpoch
          && !(l.header.evidence.RequiresRevalidation() && l.health == 0
               && (l.reachability.Unknown? || l.reachability.RevalidationRequired?)))
    case _ => false
  }

  predicate LinkDangles(s: State, l: Link) {
    exists i | 0 <= i < |l.failureDomains| :: (Failure, l.failureDomains[i]) !in s.domains
  }

  predicate Strangers(s: State, racks: seq<Id>) { exists i | 0 <= i < |racks| :: !s.IsMember(racks[i]) }

  ghost predicate DomainBreaks(s: State, k: DomainKey, c: Clause)
    requires k in s.domains
  {
    var d := s.domains[k];
    match c
    case DomainClassConsistent =>
      d.klass == 0 && (k.0.Placement? || k.0.Capacity? || k.0.Failure? || k.0.Network?)
    case DomainMembersResolve => Strangers(s, d.racks) || !Ascending(d.racks, Before)
    case DomainGenerationsConsistent => d.header.generation > s.sc.domainGenerations.Get(k.0)
    case _ => false
  }

  ghost predicate ListBreaks(s: State, c: Clause) {
    match c
    case RackMembershipConsistent =>
      || !Ascending(s.sc.withdrawn, Before)
      || (exists r | r in s.sc.withdrawn :: r !in s.racks || !s.racks[r].membership.Withdrawn?)
      || (exists k | k in s.racks :: s.racks[k].membership.Withdrawn? && k !in s.sc.withdrawn)
    case FencedAuthorityConsistent =>
      || !Ascending(s.sc.fenced, FencedBefore)
      || (exists f | f in s.sc.fenced ::
            f.rack in s.racks && s.racks[f.rack].authoritative && s.racks[f.rack].reference.boot == f.boot)
    case RackNotRetired => !Ascending(s.sc.retired, RetiredBefore)
    case _ => false
  }

  ghost predicate RecordBreaks(s: State, c: Clause) {
    || CountBreaks(s, c)
    || (exists k | k in s.racks :: RackBreaks(s, k, c))
    || (exists k | k in s.links :: LinkBreaks(s, k, c))
    || (exists k | k in s.domains :: DomainBreaks(s, k, c))
    || (c.ConstraintReferencesResolve? && exists k | k in s.constraints :: Strangers(s, s.constraints[k].racks))
    || ListBreaks(s, c)
  }

  /** READY without satisfying the contract, or RETIRED with authority left. */
  ghost predicate LifecycleBreaks(s: State) {
    || (s.sc.lifecycle.Ready? && !Satisfied(s))
    || (s.sc.lifecycle.Retired? && exists k | k in s.racks :: s.racks[k].authoritative)
  }

  /** The identifier is reported for the state. */
  ghost predicate Breaks(s: State, c: Clause) {
    CounterBreaks(s, c) || RecordBreaks(s, c) || (c.LifecycleConsistent? && LifecycleBreaks(s))
  }

  /** The report with one more entry, if there is reason for it. */
  function Told(report: seq<Clause>, broken: bool, c: Clause): (r: seq<Clause>)
    ensures forall x :: x in r <==> x in report || (broken && x == c)
    ensures r == [] <==> report == [] && !broken
  {
    if broken then report + [c] else report
  }

  function Joined(a: seq<Clause>, b: seq<Clause>): (r: seq<Clause>)
    ensures forall x :: x in r <==> x in a || x in b
    ensures r == [] <==> a == [] && b == []
  {
    a + b
  }

  // ---- the checker -----------------------------------------------------------------------

  method CheckCounters(s: State) returns (report: seq<Clause>)
    ensures report == [] <==> CountersSound(s)
    ensures forall c :: c in report <==> CounterBreaks(s, c)
  {
    hide Told;
    report := Told([], s.id == [], SingleClusterIdentity);
    report := Told(report, s.sc.epoch == 0, ClusterEpochKnown);
    report := Told(report, s.sc.coordinatorEpoch == 0, CoordinatorEpochKnown);
    report := Told(report, s.sc.generation == 0, ClusterGenerationKnown);
    report := Told(report, s.sc.membershipGeneration == 0, GenerationsMonotonic);
    report := Told(report, s.sc.topologyEpoch == 0, TopologyEpochKnown);
    report := Told(report, s.sc.topologyGeneration == 0, TopologyGenerationConsistent);
    report := Told(report, s.sc.topology.epoch != s.sc.topologyEpoch, TopologyGenerationConsistent);
    report := Told(report, s.sc.topology.generation != s.sc.topologyGeneration, TopologyGenerationConsistent);
    report := Told(report, s.sc.membershipGeneration > s.sc.generation, MembershipGenerationConsistent);
    report := Told(report, s.sc.topologyGeneration > s.sc.generation, TopologyGenerationConsistent);
    report := Told(report, s.sc.snapshotGeneration > s.sc.publicationGeneration, SnapshotMapMatchesState);
  }

  const KINDS: seq<DomainKind> := [Placement, Capacity, Failure, Network, Storage, Power, Cooling, LinkGroup]

  lemma KindIndex(kind: DomainKind) returns (j: nat)
    ensures j < |KINDS| && KINDS[j] == kind
  {
    j := match kind
      case Placement => 0
      case Capacity => 1
      case Failure => 2
      case Network => 3
      case Storage => 4
      case Power => 5
      case Cooling => 6
      case LinkGroup => 7;
  }

  method CheckCounts(s: State) returns (report: seq<Clause>)
    ensures report == [] <==> CountsSound(s)
    ensures forall c :: c in report <==> CountBreaks(s, c)
  {
    hide State.DomainIds; hide Told;
    report := Told([], |s.racks| > MAX_RACKS, CountsWithinBounds);
    report := Told(report, |s.links| > MAX_LINKS, CountsWithinBounds);
    report := Told(report, |s.constraints| > MAX_CONSTRAINTS, CountsWithinBounds);
    ghost var before := report;
    for i := 0 to |KINDS|
      invariant report == before && forall j | 0 <= j < i :: |s.DomainIds(KINDS[j])| <= MAX_DOMAINS_PER_CLASS
    {
      if |s.DomainIds(KINDS[i])| > MAX_DOMAINS_PER_CLASS {
        report := Told(report, true, CountsWithinBounds);
        return;
      }
    }
    forall kind: DomainKind ensures |s.DomainIds(kind)| <= MAX_DOMAINS_PER_CLASS {
      var j := KindIndex(kind);
    }
  }

  lemma SoundRackBreaksNothing(s: State, k: Id, c: Clause)
    requires k in s.racks && RackSound(s, k)
    ensures !RackBreaks(s, k, c)
  {
    hide State.IsFenced; hide State.IsRetired;
  }

  lemma RackSoundUnlessBroken(s: State, k: Id)
    requires k in s.racks
    ensures RackSound(s, k) <==> forall c :: !RackBreaks(s, k, c)
  {
    if RackSound(s, k) {
      forall c ensures !RackBreaks(s, k, c) { SoundRackBreaksNothing(s, k, c); }
    } else {
      hide State.IsFenced; hide State.IsRetired;
      assert || RackBreaks(s, k, RackIdentitiesValid) || RackBreaks(s, k, RackGenerationAuthoritative)
             || RackBreaks(s, k, RackReferenceBounded) || RackBreaks(s, k, RackMembershipConsistent)
             || RackBreaks(s, k, MembershipGenerationConsistent) || RackBreaks(s, k, RackNotFenced)
             || RackBreaks(s, k, RackNotRetired) || RackBreaks(s, k, UnknownNeverPositive)
             || RackBreaks(s, k, RecoveredEvidenceNotCurrent);
    }
  }

  predicate OfAuthority(c: Clause) {
    c.RackNotFenced? || c.RackNotRetired? || c.UnknownNeverPositive? || c.RecoveredEvidenceNotCurrent?
  }

  /** What an authoritative rack must not be. */
  method CheckAuthority(before: seq<Clause>, s: State, k: Id) returns (report: seq<Clause>)
    requires k in s.racks && s.racks[k].authoritative
    ensures forall c ::
      c in report <==>
      c in before || ((OfAuthority(c) || c.RackGenerationAuthoritative?) && RackBreaks(s, k, c))
  {
    hide State.IsFenced; hide State.IsRetired; hide Told;
    var r := s.racks[k];
    report := Told(before, r.reference.generation == 0, RackGenerationAuthoritative);
    report := Told(report, s.IsFenced(r.reference.boot), RackNotFenced);
    report := Told(report, s.IsRetired(k), RackNotRetired);
    report := Told(report, r.reference.evidence.provenance.Unknown?, UnknownNeverPositive);
    report := Told(report, r.reference.evidence.provenance.Reconstructed?, RecoveredEvidenceNotCurrent);
  }

  predicate OfReference(c: Clause) {
    c.RackIdentitiesValid? || c.RackGenerationAuthoritative? || c.RackReferenceBounded?
  }

  method CheckReference(s: State, k: Id) returns (report: seq<Clause>)
    requires k in s.racks
    ensures forall c :: c in report <==> OfReference(c) && RackBreaks(s, k, c)
  {
    hide State.IsFenced; hide State.IsRetired; hide Told;
    var r := s.racks[k];
    report := Told([], r.reference.rack != k, RackIdentitiesValid);
    report := Told(report, r.reference.generation == 0, RackGenerationAuthoritative);
    report := Told(report, |r.reference.endpoints| > MAX_RACK_ENDPOINTS, RackReferenceBounded);
    report := Told(report, |r.reference.hints| > MAX_FAILURE_DOMAIN_REFS, RackReferenceBounded);
  }

  /** The clauses about any rack, whether it holds authority or not. */
  method CheckStanding(s: State, k: Id) returns (report: seq<Clause>)
    requires k in s.racks
    ensures forall c :: c in report <==> !OfAuthority(c) && RackBreaks(s, k, c)
  {
    hide State.IsFenced; hide State.IsRetired; hide Told;
    var r := s.racks[k];
    report := CheckReference(s, k);
    if r.membership.Unknown? {
      report := Told(report, r.authoritative, RackMembershipConsistent);
      var placed := !r.reference.currentness.Unknown? && !r.reference.currentness.RevalidationRequired?;
      report := Told(report, placed, RackMembershipConsistent);
    }
    report := Told(report, r.membershipGeneration > s.sc.membershipGeneration, MembershipGenerationConsistent);
  }

  /** The clauses about one rack, in source order. */
  method CheckRack(s: State, k: Id) returns (report: seq<Clause>)
    requires k in s.racks
    ensures report == [] <==> RackSound(s, k)
    ensures forall c :: c in report <==> RackBreaks(s, k, c)
  {
    report := CheckStanding(s, k);
    if s.racks[k].authoritative { report := CheckAuthority(report, s, k); }
    else { assert forall c | OfAuthority(c) :: !RackBreaks(s, k, c); }
    RackSoundUnlessBroken(s, k);
    hide RackSound; hide RackBreaks; hide OfAuthority;
    NothingTold(report);
  }

  lemma NothingTold(report: seq<Clause>)
    ensures report == [] <==> forall c :: c !in report
  {
    if report != [] { assert report[0] in report; }
  }

  method CheckRacks(s: State) returns (report: seq<Clause>)
    ensures report == [] <==> forall k | k in s.racks :: RackSound(s, k)
    ensures forall c :: c in report <==> exists k | k in s.racks :: RackBreaks(s, k, c)
  {
    hide RackSound; hide RackBreaks; hide IsLeast; hide Joined;
    report := [];
    var rest := s.racks.Keys;
    while rest != {}
      invariant rest <= s.racks.Keys
      invariant report == [] <==> forall k | k in s.racks && k !in rest :: RackSound(s, k)
      invariant forall c :: c in report <==> exists k | k in s.racks && k !in rest :: RackBreaks(s, k, c)
      decreases rest
    {
      var k := SmallestOf(rest);
      var more := CheckRack(s, k);
      report := Joined(report, more);
      rest := rest - {k};
    }
  }

  lemma LinkSoundUnlessBroken(s: State, k: Id)
    requires k in s.links
    ensures LinkSound(s, k) <==> forall c :: !LinkBreaks(s, k, c)
  {
    hide State.IsMember;
    if forall c :: !LinkBreaks(s, k, c) {
      assert !LinkBreaks(s, k, LinkIdentitiesUnique) && !LinkBreaks(s, k, LinkEndpointsResolve);
      assert !LinkBreaks(s, k, LinkNoSelfLoop) && !LinkBreaks(s, k, LinkDirectionConsistent);
      assert !LinkBreaks(s, k, TopologyGenerationConsistent);
    }
  }

  /** Failure domains that are not there, one entry each. */
  method CheckFailureDomains(before: seq<Clause>, s: State, l: Link) returns (report: seq<Clause>)
    ensures forall c :: c in report <==> c in before || (c.LinkEndpointsResolve? && LinkDangles(s, l))
  {
    hide Told;
    report := before;
    for i := 0 to |l.failureDomains|
      invariant forall c ::
        c in report <==>
        (|| c in before
         || (c.LinkEndpointsResolve? && exists j | 0 <= j < i :: (Failure, l.failureDomains[j]) !in s.domains))
    {
      report := Told(report, (Failure, l.failureDomains[i]) !in s.domains, LinkEndpointsResolve);
    }
  }

  /** The clauses about one link, in source order. */
  method ListLinkClauses(s: State, k: Id) returns (report: seq<Clause>)
    requires k in s.links
    ensures forall c :: c in report <==> LinkBreaks(s, k, c)
  {
    hide State.IsMember; hide Told; hide LinkDangles;
    var l := s.links[k];
    report := Told([], l.id != k, LinkIdentitiesUnique);
    report := Told(report, !s.IsMember(l.source), LinkEndpointsResolve);
    report := Told(report, !s.IsMember(l.destination), LinkEndpointsResolve);
    report := Told(report, l.source == l.destination, LinkNoSelfLoop);
    report := Told(report, l.direction.Unknown?, LinkDirectionConsistent);
    var superseded := l.topologyEpoch != s.sc.topologyEpoch;
    var standing := superseded && !l.header.evidence.RequiresRevalidation();
    report := Told(report, standing, TopologyGenerationConsistent);
    var claims := superseded && (l.reachability.Reachable? || l.reachability.Unreachable? || l.health != 0);
    report := Told(report, claims, TopologyGenerationConsistent);
    report := Told(report, l.topologyGeneration > s.sc.topologyGeneration, TopologyGenerationConsistent);
    report := CheckFailureDomains(report, s, l);
  }

  method CheckLink(s: State, k: Id) returns (report: seq<Clause>)
    requires k in s.links
    ensures report == [] <==> LinkSound(s, k)
    ensures forall c :: c in report <==> LinkBreaks(s, k, c)
  {
    report := ListLinkClauses(s, k);
    LinkSoundUnlessBroken(s, k);
    hide LinkSound; hide LinkBreaks;
    NothingTold(report);
  }

  method CheckLinks(s: State) returns (report: seq<Clause>)
    ensures report == [] <==> forall k | k in s.links :: LinkSound(s, k)
    ensures forall c :: c in report <==> exists k | k in s.links :: LinkBreaks(s, k, c)
  {
    hide LinkSound; hide LinkBreaks; hide IsLeast; hide Joined;
    report := [];
    var rest := s.links.Keys;
    while rest != {}
      invariant rest <= s.links.Keys
      invariant report == [] <==> forall k | k in s.links && k !in rest :: LinkSound(s, k)
      invariant forall c :: c in report <==> exists k | k in s.links && k !in rest :: LinkBreaks(s, k, c)
      decreases rest
    {
      var k := SmallestOf(rest);
      var more := CheckLink(s, k);
      report := Joined(report, more);
      rest := rest - {k};
    }
  }

  /** Every rack of a list is a member. */
  method CheckMembers(s: State, racks: seq<Id>, clause: Clause) returns (report: seq<Clause>)
    ensures report == [] <==> forall r | r in racks :: s.IsMember(r)
    ensures forall c :: c in report <==> c == clause && Strangers(s, racks)
  {
    hide State.IsMember; hide Told;
    report := [];
    for i := 0 to |racks|
      invariant report == [] <==> forall j | 0 <= j < i :: s.IsMember(racks[j])
      invariant forall c :: c in report <==> c == clause && exists j | 0 <= j < i :: !s.IsMember(racks[j])
    {
      report := Told(report, !s.IsMember(racks[i]), clause);
    }
  }

  method CheckDomain(s: State, k: DomainKey) returns (report: seq<Clause>)
    requires k in s.domains
    ensures report == [] <==> DomainSound(s, k)
    ensures forall c :: c in report <==> DomainBreaks(s, k, c)
  {
    TextIsOrdered();
    hide State.IsMember; hide Ascending; hide StrictOrder; hide Told; hide Joined; hide Strangers;
    hide DomainGenerations.Get;
    var d := s.domains[k];
    report := Told([], Classed(k.0) && d.klass == 0, DomainClassConsistent);
    var members := CheckMembers(s, d.racks, DomainMembersResolve);
    report := Joined(report, members);
    var ordered := InOrder(d.racks, Before);
    report := Told(report, !ordered, DomainMembersResolve);
    var ahead := d.header.generation > s.sc.domainGenerations.Get(k.0);
    report := Told(report, ahead, DomainGenerationsConsistent);
  }

  ghost predicate KindBreaks(s: State, kind: DomainKind, c: Clause) {
    exists k | k in s.domains && k.0 == kind :: DomainBreaks(s, k, c)
  }

  method CheckDomains(s: State, kind: DomainKind) returns (report: seq<Clause>)
    ensures report == [] <==> KindSound(s, kind)
    ensures forall c :: c in report <==> KindBreaks(s, kind, c)
  {
    hide IsLeast; hide DomainSound; hide DomainBreaks; hide Joined;
    report := [];
    var rest := s.DomainIds(kind);
    ghost var all := rest;
    while rest != {}
      invariant rest <= all
      invariant report == [] <==> forall id | id in all && id !in rest :: DomainSound(s, (kind, id))
      invariant forall c :: c in report <==> exists id | id in all && id !in rest :: DomainBreaks(s, (kind, id), c)
      decreases rest
    {
      var id := SmallestOf(rest);
      var more := CheckDomain(s, (kind, id));
      report := Joined(report, more);
      rest := rest - {id};
    }
    assert forall k | k in s.domains && k.0 == kind :: k == (kind, k.1) && k.1 in all;
    assert forall id | id in all :: (kind, id) in s.domains;
  }

  ghost predicate KindSound(s: State, kind: DomainKind) {
    forall k | k in s.domains && k.0 == kind :: DomainSound(s, k)
  }

  method CheckAllDomains(s: State) returns (report: seq<Clause>)
    ensures report == [] <==> forall k | k in s.domains :: DomainSound(s, k)
    ensures forall c :: c in report <==> exists k | k in s.domains :: DomainBreaks(s, k, c)
  {
    hide DomainSound; hide DomainBreaks; hide Joined;
    report := [];
    for i := 0 to |KINDS|
      invariant report == [] <==> forall j | 0 <= j < i :: KindSound(s, KINDS[j])
      invariant forall c :: c in report <==> exists j | 0 <= j < i :: KindBreaks(s, KINDS[j], c)
    {
      var more := CheckDomains(s, KINDS[i]);
      report := Joined(report, more);
    }
    forall k, c | k in s.domains && DomainBreaks(s, k, c) ensures c in report {
      var j := KindIndex(k.0);
      assert KindBreaks(s, KINDS[j], c);
    }
    forall k | k in s.domains && report == [] ensures DomainSound(s, k) {
      var j := KindIndex(k.0);
      assert KindSound(s, KINDS[j]);
    }
  }

  method CheckConstraints(s: State) returns (report: seq<Clause>)
    ensures report == [] <==> forall k | k in s.constraints :: ConstraintSound(s, k)
    ensures forall c ::
      c in report <==>
      c.ConstraintReferencesResolve? && exists k | k in s.constraints :: Strangers(s, s.constraints[k].racks)
  {
    hide IsLeast; hide State.IsMember; hide Strangers; hide Joined;
    report := [];
    var rest := s.constraints.Keys;
    while rest != {}
      invariant rest <= s.constraints.Keys
      invariant report == [] <==> forall k | k in s.constraints && k !in rest :: ConstraintSound(s, k)
      invariant forall c ::
        c in report <==>
        && c.ConstraintReferencesResolve?
        && exists k | k in s.constraints && k !in rest :: Strangers(s, s.constraints[k].racks)
      decreases rest
    {
      var k := SmallestOf(rest);
      var more := CheckMembers(s, s.constraints[k].racks, ConstraintReferencesResolve);
      report := Joined(report, more);
      rest := rest - {k};
    }
  }

  method CheckWithdrawn(s: State) returns (ok: bool)
    ensures ok <==> WithdrawnSound(s)
  {
    TextIsOrdered();
    ok := InOrder(s.sc.withdrawn, Before);
    if exists r | r in s.sc.withdrawn :: !(r in s.racks && s.racks[r].membership.Withdrawn?) { ok := false; }
    hide IsLeast; hide StrictOrder; hide Ascending;
    ghost var before := ok;
    var rest := s.racks.Keys;
    while rest != {}
      invariant rest <= s.racks.Keys
      invariant ok ==> before
      invariant before ==>
        (ok <==> forall k | k in s.racks && k !in rest && s.racks[k].membership.Withdrawn? :: k in s.sc.withdrawn)
      decreases rest
    {
      var k := SmallestOf(rest);
      var listed := BinarySearch(s.sc.withdrawn, k);
      if s.racks[k].membership.Withdrawn? && !listed { ok := false; }
      rest := rest - {k};
    }
  }

  method CheckFenced(s: State) returns (ok: bool)
    ensures ok <==> FencedSound(s)
  {
    Engine.FencedIsOrdered();
    hide StrictOrder; hide Ascending;
    ok := InOrder(s.sc.fenced, FencedBefore);
    ghost var ordered := ok;
    for i := 0 to |s.sc.fenced|
      invariant ok <==> ordered && forall j | 0 <= j < i ::
        var f := s.sc.fenced[j];
        !(f.rack in s.racks && s.racks[f.rack].authoritative && s.racks[f.rack].reference.boot == f.boot)
    {
      var f := s.sc.fenced[i];
      if f.rack in s.racks && s.racks[f.rack].authoritative && s.racks[f.rack].reference.boot == f.boot { ok := false; }
    }
  }

  lemma ListsSoundUnlessBroken(s: State)
    ensures WithdrawnSound(s) <==> !ListBreaks(s, RackMembershipConsistent)
    ensures FencedSound(s) <==> !ListBreaks(s, FencedAuthorityConsistent)
    ensures Ascending(s.sc.retired, RetiredBefore) <==> !ListBreaks(s, RackNotRetired)
  {
    hide Ascending;
  }

  method CheckLists(s: State) returns (report: seq<Clause>)
    ensures report == [] <==> WithdrawnSound(s) && FencedSound(s) && Ascending(s.sc.retired, RetiredBefore)
    ensures forall c :: c in report <==> ListBreaks(s, c)
  {
    hide StrictOrder; hide Ascending; hide Told;
    var withdrawn := CheckWithdrawn(s);
    var fenced := CheckFenced(s);
    Engine.RetiredIsOrdered();
    var retired := InOrder(s.sc.retired, RetiredBefore);
    ListsSoundUnlessBroken(s);
    hide WithdrawnSound; hide FencedSound;
    report := Told([], !withdrawn, RackMembershipConsistent);
    report := Told(report, !fenced, FencedAuthorityConsistent);
    report := Told(report, !retired, RackNotRetired);
    assert forall c: Clause | !c.RackMembershipConsistent? && !c.FencedAuthorityConsistent? && !c.RackNotRetired? ::
      !ListBreaks(s, c);
    hide ListBreaks;
  }

  /** Every clause about records and lists, in source order. */
  method CheckRecords(s: State) returns (report: seq<Clause>)
    ensures report == [] <==> BodySound(s)
    ensures forall c :: c in report <==> RecordBreaks(s, c)
  {
    hide RackSound; hide LinkSound; hide ConstraintSound; hide DomainSound; hide WithdrawnSound; hide FencedSound;
    hide CountsSound; hide StrictOrder; hide Ascending; hide CountBreaks; hide RackBreaks; hide LinkBreaks;
    hide DomainBreaks; hide ListBreaks; hide Strangers; hide Joined;
    report := CheckCounts(s);
    var racks := CheckRacks(s);
    report := Joined(report, racks);
    var links := CheckLinks(s);
    report := Joined(report, links);
    var domains := CheckAllDomains(s);
    report := Joined(report, domains);
    var constraints := CheckConstraints(s);
    report := Joined(report, constraints);
    var lists := CheckLists(s);
    report := Joined(report, lists);
  }

  method CheckLifecycle(s: State) returns (ok: bool)
    ensures ok <==> LifecycleSound(s)
  {
    hide Satisfied;
    ok := true;
    if s.sc.lifecycle.Ready? {
      var _, blockers := EvaluateReadiness(s);
      ok := blockers == [];
    }
    if s.sc.lifecycle.Retired? {
      var holding := Finds(s.racks, (k: Id, r: RackRecord) => r.authoritative);
      ok := !holding;
    }
  }

  /** check_invariants reports exactly the identifiers of what is broken, and nothing exactly for sound states. */
  method CheckInvariants(s: State) returns (report: seq<Clause>)
    ensures report == [] <==> Sound(s)
    ensures forall c :: c in report <==> !s.Blank() && Breaks(s, c)
  {
    if s.Blank() { return []; }
    hide BodySound; hide LifecycleSound; hide CountersSound; hide CounterBreaks; hide RecordBreaks; hide Told;
    hide Joined;
    report := CheckCounters(s);
    var records := CheckRecords(s);
    report := Joined(report, records);
    var lifecycle := CheckLifecycle(s);
    assert lifecycle <==> !LifecycleBreaks(s) by { hide Satisfied; LifecycleUnlessBroken(s); }
    hide LifecycleBreaks;
    report := Told(report, !lifecycle, LifecycleConsistent);
  }

  lemma LifecycleUnlessBroken(s: State)
    ensures LifecycleSound(s) <==> !LifecycleBreaks(s)
  {
    hide Satisfied;
  }
}
