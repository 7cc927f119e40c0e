/** How an observation was obtained, how fresh it is, and what may count as current. */
module EvidenceStamps {
  import opened Foundation

  datatype Provenance = Unknown | Measured | Reported | Derived | Estimated | Synthetic | Reconstructed

  datatype Freshness = Unknown | Fresh | Stale | RevalidationRequired

  function Classify(observedAt: Timestamp, now: Timestamp, ttl: i64): Freshness {
    if observedAt <= 0 then Freshness.Unknown
    else if ttl <= 0 then Freshness.Fresh
    else if now < observedAt then Freshness.Fresh
    else if now - observedAt <= ttl then Freshness.Fresh
    else Freshness.Stale
  }

  datatype Evidence = Evidence(provenance: Provenance, observedAt: Timestamp, freshness: Freshness, ttl: i64) {

    predicate IsCurrent() {
      (provenance.Measured? || provenance.Reported?) && observedAt > 0 && freshness.Fresh?
    }

    predicate RequiresRevalidation() {
      freshness.RevalidationRequired? || provenance.Reconstructed?
    }

    /** Revalidation-required stamps are never downgraded by time alone. */
    function Refreshed(now: Timestamp): Evidence {
      if freshness.RevalidationRequired? then this
      else this.(freshness := Classify(observedAt, now, ttl))
    }

    function Orphaned(): Evidence {
      this.(freshness := Freshness.RevalidationRequired)
    }
  }

  const NO_EVIDENCE := Evidence(Provenance.Unknown, 0, Freshness.Unknown, 0)

  function Stamp(provenance: Provenance, at: Timestamp, ttl: i64): Evidence {
    Evidence(provenance, at, Classify(at, at, ttl), ttl)
  }

  /** Time alone never lifts an orphaned stamp, and an orphaned stamp backs nothing. */
  lemma OrphanedStaysOrphaned(e: Evidence, now: Timestamp)
    ensures e.Orphaned().Refreshed(now) == e.Orphaned()
    ensures e.Orphaned().RequiresRevalidation() && !e.Orphaned().IsCurrent()
    ensures e.Refreshed(now).RequiresRevalidation() <==> e.RequiresRevalidation()
  {}
}

/** The canonical records of a cluster. */
module Records {
  import opened Foundation
  import opened EvidenceStamps
  import opened TextOrder

  const MAX_RACKS: nat := 16384
  const MAX_LINKS: nat := 262144
  const MAX_DOMAINS_PER_CLASS: nat := 16384
  const MAX_DOMAIN_MEMBERS: nat := 16384
  const MAX_FAILURE_DOMAIN_REFS: nat := 256
  const MAX_CONSTRAINTS: nat := 4096
  const MAX_RACK_ENDPOINTS: nat := 256
  const MAX_CAPACITY_QUANTITIES: nat := 64

  datatype Lifecycle = Declared | Forming | Partial | Ready | Degraded | RevalidationRequired | Retiring | Retired

  predicate Consumable(l: Lifecycle) { l.Ready? || l.Partial? || l.Degraded? }

  datatype Membership = Unknown | Active | Unavailable | Withdrawn | Retired

  datatype Currentness = Unknown | Current | Superseded | RevalidationRequired

  datatype Reachability = Unknown | Reachable | Unreachable | RevalidationRequired

  datatype Direction = Unknown | Unidirectional | Bidirectional

  // Enumerations the coordinator only relays keep their wire codes; zero is UNKNOWN.
  type RackLifecycle = n: nat | n <= 6
  type Health = n: nat | n <= 3
  type Connectivity = n: nat | n <= 5
  type BandwidthClass = n: nat | n <= 4
  type LatencyClass = n: nat | n <= 4
  type Vendor = n: nat | n <= 4
  type ConstraintKind = n: nat | n <= 5
  type FailureClass = n: nat | n <= 9
  type PlacementClass = n: nat | n <= 7
  type DomainClass = n: nat | n <= 9

  datatype Accelerator = Accelerator(vendor: Vendor, family: Text, devices: Option<u32>, memory: Option<u64>)

  datatype Composition = Composition(
    accelerators: seq<Accelerator>, sockets: Option<u32>, cores: Option<u32>, hostMemory: Option<u64>,
    nics: Option<u32>, switches: Option<u32>, title: Text, provenance: Provenance)
  {
    predicate Empty() {
      accelerators == [] && sockets.None? && cores.None? && hostMemory.None? && nics.None? && switches.None?
        && title == []
    }
  }

  datatype Endpoint = Endpoint(
    id: Id, networkDomain: Option<Id>, linkDomain: Option<Id>, connectivity: Connectivity, evidence: Evidence)

  datatype Hint = Hint(klass: FailureClass, id: Id, evidence: Evidence)

  datatype RackReference = RackReference(
    rack: Id, generation: u64, rackLifecycle: RackLifecycle, currentness: Currentness, composition: Composition,
    endpoints: seq<Endpoint>, hints: seq<Hint>, evidence: Evidence, publisher: Option<Id>, publication: u64,
    boot: Id, clusterEpoch: u64, coordinatorEpoch: u64, health: Health, origin: Text)

  datatype RackRecord = RackRecord(
    reference: RackReference, membership: Membership, membershipGeneration: u64, acceptedAt: u64,
    membershipEvidence: Evidence, authoritative: bool, reason: Text)

  datatype Header = Header(
    evidence: Evidence, generation: u64, publisher: Option<Id>, clusterEpoch: u64, coordinatorEpoch: u64, title: Text)

  /** The eight domain maps of the cluster share one record shape. */
  datatype DomainKind = Placement | Capacity | Failure | Network | Storage | Power | Cooling | LinkGroup

  /** Placement, capacity and failure domains carry a class, network domains a connectivity class. */
  predicate Classed(kind: DomainKind) { kind.Placement? || kind.Capacity? || kind.Failure? || kind.Network? }

  /** A quantity's value is the 64-bit pattern of an IEEE double. */
  datatype Quantity = Quantity(unit: Text, value: Option<u64>, provenance: Provenance, aggregated: bool)

  datatype Domain = Domain(
    id: Id, klass: DomainClass, racks: seq<Id>, quantities: seq<Quantity>, parent: Option<Id>, header: Header)

  datatype Constraint = Constraint(
    id: Id, kind: ConstraintKind, racks: seq<Id>, domainRef: Text, statement: Text, header: Header)

  datatype Link = Link(
    id: Id, source: Id, destination: Id, direction: Direction, connectivity: Connectivity,
    networkDomain: Option<Id>, linkDomain: Option<Id>, sourceEndpoint: Option<Id>, destinationEndpoint: Option<Id>,
    bandwidthClass: BandwidthClass, bandwidth: Option<u64>, latencyClass: LatencyClass, latency: Option<u64>,
    hops: Option<u32>, reachability: Reachability, health: Health, failureDomains: seq<Id>, header: Header,
    topologyEpoch: u64, topologyGeneration: u64, publication: u64, boot: Option<Id>)
  {
    predicate Touches(rack: Id) { source == rack || destination == rack }

    /** The link as it stands once the authority behind its observation is gone. */
    function Silenced(): Link {
      this.(reachability := Reachability.Unknown, health := 0,
        header := header.(evidence := header.evidence.Orphaned()))
    }
  }

  datatype TopologyRecord = TopologyRecord(
    epoch: u64, generation: u64, establishedAt: Timestamp, evidence: Evidence, reason: Text)

  datatype Contract = Contract(
    minimumRacks: u64, mandatory: seq<Id>, allCurrent: bool, connectivity: bool, minimumLinks: u64,
    placementClasses: seq<PlacementClass>, failureClasses: seq<FailureClass>,
    allowPartial: bool, allowDegraded: bool, noConflicts: bool)

  datatype DomainGenerations = DomainGenerations(
    placement: u64, capacity: u64, failure: u64, network: u64, storage: u64, power: u64, cooling: u64, link: u64)
  {
    function Get(kind: DomainKind): u64 {
      match kind
      case Placement => placement
      case Capacity => capacity
      case Failure => failure
      case Network => network
      case Storage => storage
      case Power => power
      case Cooling => cooling
      case LinkGroup => link
    }

    function Set(kind: DomainKind, value: u64): (r: DomainGenerations)
      ensures forall k: DomainKind :: r.Get(k) == if k == kind then value else Get(k)
    {
      match kind
      case Placement => this.(placement := value)
      case Capacity => this.(capacity := value)
      case Failure => this.(failure := value)
      case Network => this.(network := value)
      case Storage => this.(storage := value)
      case Power => this.(power := value)
      case Cooling => this.(cooling := value)
      case LinkGroup => this.(link := value)
    }
  }

  datatype FencedAuthority = FencedAuthority(boot: Id, rack: Id, reason: Text, at: Timestamp)

  datatype RetiredIdentity = RetiredIdentity(rack: Id, lastGeneration: u64, at: Timestamp, reason: Text)

  /** Everything outside the canonical maps that a mutation may change, except the cluster identity. */
  datatype Scalars = Scalars(
    epoch: u64, coordinatorEpoch: u64, generation: u64, membershipGeneration: u64, topologyEpoch: u64,
    topologyGeneration: u64, connectivityGeneration: u64, healthGeneration: u64, constraintGeneration: u64,
    domainGenerations: DomainGenerations, snapshotGeneration: u64, publicationGeneration: u64,
    lifecycle: Lifecycle, contract: Contract, topology: TopologyRecord,
    fenced: seq<FencedAuthority>, retired: seq<RetiredIdentity>, withdrawn: seq<Id>,
    lastMutationAt: Timestamp, declaredAt: Timestamp)

  type DomainKey = (DomainKind, Id)

  datatype State = State(
    id: Id, sc: Scalars, racks: map<Id, RackRecord>, links: map<Id, Link>,
    domains: map<DomainKey, Domain>, constraints: map<Id, Constraint>)
  {
    /** Registered racks with UNKNOWN membership are not members. */
    predicate IsMember(rack: Id) { rack in racks && !racks[rack].membership.Unknown? }

    predicate IsFenced(boot: Id) { exists f | f in sc.fenced :: f.boot == boot }

    predicate IsRetired(rack: Id) { exists r | r in sc.retired :: r.rack == rack }

    predicate Declared() { sc.epoch != 0 }

    /** The identities of one kind's map. */
    function DomainIds(kind: DomainKind): set<Id> {
      set k | k in domains && k.0 == kind :: k.1
    }

    predicate Blank() {
      && racks == map[] && links == map[] && domains == map[] && constraints == map[]
      && sc.retired == [] && sc.withdrawn == [] && sc.fenced == []
    }
  }

  predicate FencedBefore(a: FencedAuthority, b: FencedAuthority) { Less(a.boot, b.boot) }

  predicate RetiredBefore(a: RetiredIdentity, b: RetiredIdentity) { Less(a.rack, b.rack) }

  const NO_GENERATIONS := DomainGenerations(0, 0, 0, 0, 0, 0, 0, 0)

  const NO_TOPOLOGY := TopologyRecord(0, 0, 0, NO_EVIDENCE, [])

  /** A default-constructed ClusterState under a configured identity and contract. */
  function FreshState(id: Id, contract: Contract, coordinatorEpoch: u64): State {
    State(id,
          Scalars(0, coordinatorEpoch, 0, 0, 0, 0, 0, 0, 0, NO_GENERATIONS, 0, 0, Lifecycle.Declared, contract,
                  NO_TOPOLOGY, [], [], [], 0, 0),
          map[], map[], map[], map[])
  }
}
