/** Record codecs of the durable container: every record is read back exactly, or refused. */
module RecordCodecs {
  import opened Foundation
  import opened EvidenceStamps
  import opened Records
  import opened Mutations
  import opened Durable
  import opened Wire

  // ---- enumerations ----------------------------------------------------------------------

  function ProvenanceOf(code: byte): Provenance
    requires code <= 6
  {
    if code == 0 then Provenance.Unknown else if code == 1 then Measured else if code == 2 then Provenance.Reported
    else if code == 3 then Derived else if code == 4 then Estimated else if code == 5 then Synthetic else Reconstructed
  }

  function FreshnessCode(f: Freshness): byte {
    match f
    case Unknown => 0
    case Fresh => 1
    case Stale => 2
    case RevalidationRequired => 3
  }

  function FreshnessOf(code: byte): Freshness
    requires code <= 3
  {
    if code == 0 then Freshness.Unknown else if code == 1 then Fresh else if code == 2 then Stale
    else Freshness.RevalidationRequired
  }

  function LifecycleCode(l: Lifecycle): byte {
    match l
    case Declared => 0
    case Forming => 1
    case Partial => 2
    case Ready => 3
    case Degraded => 4
    case RevalidationRequired => 5
    case Retiring => 6
    case Retired => 7
  }

  function LifecycleOf(code: byte): Lifecycle
    requires code <= 7
  {
    if code == 0 then Lifecycle.Declared else if code == 1 then Forming else if code == 2 then Partial
    else if code == 3 then Ready else if code == 4 then Degraded else if code == 5 then Lifecycle.RevalidationRequired
    else if code == 6 then Retiring else Lifecycle.Retired
  }

  function MembershipCode(m: Membership): byte {
    match m
    case Unknown => 0
    case Active => 1
    case Unavailable => 2
    case Withdrawn => 3
    case Retired => 4
  }

  function MembershipOf(code: byte): Membership
    requires code <= 4
  {
    if code == 0 then Membership.Unknown else if code == 1 then Active else if code == 2 then Unavailable
    else if code == 3 then Withdrawn else Membership.Retired
  }

  function ReachabilityCode(r: Reachability): byte {
    match r
    case Unknown => 0
    case Reachable => 1
    case Unreachable => 2
    case RevalidationRequired => 3
  }

  function ReachabilityOf(code: byte): Reachability
    requires code <= 3
  {
    if code == 0 then Reachability.Unknown else if code == 1 then Reachable else if code == 2 then Unreachable
    else Reachability.RevalidationRequired
  }

  function DirectionCode(d: Direction): byte {
    match d
    case Unknown => 0
    case Unidirectional => 1
    case Bidirectional => 2
  }

  function DirectionOf(code: byte): Direction
    requires code <= 2
  {
    if code == 0 then Direction.Unknown else if code == 1 then Unidirectional else Bidirectional
  }

  // ---- evidence and headers --------------------------------------------------------------

  function PutEvidence(e: Evidence, tail: Out): Out {
    PutU8(ProvenanceCode(e.provenance), PutI64(e.observedAt, PutU8(FreshnessCode(e.freshness), PutI64(e.ttl, tail))))
  }

  function GetEvidence(b: seq<byte>): Read<Evidence> {
    var (provenance, b) :- GetCode(6, b);
    var (observedAt, b) :- GetI64(b);
    var (freshness, b) :- GetCode(3, b);
    var (ttl, b) :- GetI64(b);
    Got(Evidence(ProvenanceOf(provenance), observedAt, FreshnessOf(freshness), ttl), b)
  }

  lemma TripEvidence(e: Evidence, tail: Out)
    ensures PutEvidence(e, tail).Some? ==> tail.Some?
    ensures PutEvidence(e, tail).Some? ==> GetEvidence(PutEvidence(e, tail).value) == Got(e, tail.value)
  {
    hide PutU8; hide GetCode; hide PutI64; hide GetI64;
    var t3 := PutI64(e.ttl, tail);
    var t2 := PutU8(FreshnessCode(e.freshness), t3);
    var t1 := PutI64(e.observedAt, t2);
    TripI64(e.ttl, tail);
    TripCode(3, FreshnessCode(e.freshness), t3);
    TripI64(e.observedAt, t2);
    TripCode(6, ProvenanceCode(e.provenance), t1);
  }

  function PutHeader(h: Header, tail: Out): Out {
    PutEvidence(h.evidence, PutU64(h.generation, PutOptId(h.publisher,
      PutU64(h.clusterEpoch, PutU64(h.coordinatorEpoch, PutText(h.title, tail))))))
  }

  function GetHeader(b: seq<byte>): Read<Header> {
    var (evidence, b) :- GetEvidence(b);
    var (generation, b) :- GetU64(b);
    var (publisher, b) :- GetOptId(b);
    var (clusterEpoch, b) :- GetU64(b);
    var (coordinatorEpoch, b) :- GetU64(b);
    var (title, b) :- GetText(b);
    Got(Header(evidence, generation, publisher, clusterEpoch, coordinatorEpoch, title), b)
  }

  predicate AcceptsHeader(h: Header) { AcceptsOptId(h.publisher) }

  lemma TripHeader(h: Header, tail: Out)
    ensures PutHeader(h, tail).Some? ==> tail.Some?
    ensures PutHeader(h, tail).Some? ==>
      GetHeader(PutHeader(h, tail).value) == Answer(AcceptsHeader(h), h, tail.value)
  {
    hide PutEvidence; hide GetEvidence; hide PutU64; hide GetU64; hide PutOptId; hide GetOptId; hide PutText;
    hide GetText;
    hide AcceptsOptId;
    var t5 := PutText(h.title, tail);
    var t4 := PutU64(h.coordinatorEpoch, t5);
    var t3 := PutU64(h.clusterEpoch, t4);
    var t2 := PutOptId(h.publisher, t3);
    var t1 := PutU64(h.generation, t2);
    TripText(h.title, tail);
    TripU64(h.coordinatorEpoch, t5);
    TripU64(h.clusterEpoch, t4);
    TripOptId(h.publisher, t3);
    TripU64(h.generation, t2);
    TripEvidence(h.evidence, t1);
  }

  // ---- racks -----------------------------------------------------------------------------

  function PutIds(ids: seq<Id>, tail: Out): Out { PutList(ids, PutText, tail) }

  function GetIds(bound: nat, b: seq<byte>): Read<seq<Id>> { GetList(bound, GetId, b) }

  predicate AcceptsIds(ids: seq<Id>, bound: nat) { AcceptsList(ids, bound, IsIdentity) }

  lemma TripIds(ids: seq<Id>, bound: nat, tail: Out)
    ensures PutIds(ids, tail).Some? ==> tail.Some?
    ensures PutIds(ids, tail).Some? ==>
      GetIds(bound, PutIds(ids, tail).value) == Answer(AcceptsIds(ids, bound), ids, tail.value)
  {
    assert Trips(PutText, GetId, IsIdentity) by {
      hide PutText; hide GetId; hide IsIdentity;
      forall t: Id, rest: Out { TripId(t, rest); }
    }
    hide Trips;
    TripList(ids, bound, PutText, GetId, IsIdentity, tail);
  }

  function PutAccelerator(a: Accelerator, tail: Out): Out {
    PutU8(a.vendor, PutText(a.family, PutOptU32(a.devices, PutOptU64(a.memory, tail))))
  }

  function GetAccelerator(b: seq<byte>): Read<Accelerator> {
    var (vendor, b) :- GetCode(4, b);
    var (family, b) :- GetText(b);
    var (devices, b) :- GetOptU32(b);
    var (memory, b) :- GetOptU64(b);
    Got(Accelerator(vendor, family, devices, memory), b)
  }

  predicate Anything<T>(x: T) { true }

  lemma TripAccelerator(a: Accelerator, tail: Out)
    ensures PutAccelerator(a, tail).Some? ==> tail.Some?
    ensures PutAccelerator(a, tail).Some? ==> GetAccelerator(PutAccelerator(a, tail).value) == Got(a, tail.value)
  {
    hide PutU8; hide GetCode; hide PutText; hide GetText; hide PutOptU32; hide GetOptU32; hide PutOptU64;
    hide GetOptU64;
    var t3 := PutOptU64(a.memory, tail);
    var t2 := PutOptU32(a.devices, t3);
    var t1 := PutText(a.family, t2);
    TripOptU64(a.memory, tail);
    TripOptU32(a.devices, t3);
    TripText(a.family, t2);
    TripCode(4, a.vendor, t1);
  }

  function PutComposition(c: Composition, tail: Out): Out {
    PutU8(ProvenanceCode(c.provenance), PutList(c.accelerators, PutAccelerator,
      PutOptU32(c.sockets, PutOptU32(c.cores, PutOptU64(c.hostMemory,
        PutOptU32(c.nics, PutOptU32(c.switches, PutText(c.title, tail))))))))
  }

  function GetComposition(b: seq<byte>): Read<Composition> {
    var (provenance, b) :- GetCode(6, b);
    var (accelerators, b) :- GetList(MAX_CAPACITY_QUANTITIES, GetAccelerator, b);
    var (sockets, b) :- GetOptU32(b);
    var (cores, b) :- GetOptU32(b);
    var (hostMemory, b) :- GetOptU64(b);
    var (nics, b) :- GetOptU32(b);
    var (switches, b) :- GetOptU32(b);
    var (title, b) :- GetText(b);
    Got(Composition(accelerators, sockets, cores, hostMemory, nics, switches, title, ProvenanceOf(provenance)), b)
  }

  predicate AcceptsComposition(c: Composition) { |c.accelerators| <= MAX_CAPACITY_QUANTITIES }

  lemma TripAccelerators(items: seq<Accelerator>, tail: Out)
    ensures PutList(items, PutAccelerator, tail).Some? ==> tail.Some?
    ensures PutList(items, PutAccelerator, tail).Some? ==>
      GetList(MAX_CAPACITY_QUANTITIES, GetAccelerator, PutList(items, PutAccelerator, tail).value)
      == Answer(|items| <= MAX_CAPACITY_QUANTITIES, items, tail.value)
  {
    assert Trips(PutAccelerator, GetAccelerator, Anything<Accelerator>) by {
      hide PutAccelerator; hide GetAccelerator;
      forall a: Accelerator, rest: Out { TripAccelerator(a, rest); }
    }
    hide Trips; hide PutAccelerator; hide GetAccelerator;
    TripList(items, MAX_CAPACITY_QUANTITIES, PutAccelerator, GetAccelerator, Anything<Accelerator>, tail);
  }

  lemma TripComposition(c: Composition, tail: Out)
    ensures PutComposition(c, tail).Some? ==> tail.Some?
    ensures PutComposition(c, tail).Some? ==>
      GetComposition(PutComposition(c, tail).value) == Answer(AcceptsComposition(c), c, tail.value)
  {
    hide PutU8; hide GetCode; hide PutText; hide GetText; hide PutOptU32; hide GetOptU32; hide PutOptU64;
    hide GetOptU64;
    hide PutList; hide GetList; hide PutAccelerator; hide GetAccelerator;
    var t7 := PutText(c.title, tail);
    var t6 := PutOptU32(c.switches, t7);
    var t5 := PutOptU32(c.nics, t6);
    var t4 := PutOptU64(c.hostMemory, t5);
    var t3 := PutOptU32(c.cores, t4);
    var t2 := PutOptU32(c.sockets, t3);
    var t1 := PutList(c.accelerators, PutAccelerator, t2);
    TripText(c.title, tail);
    TripOptU32(c.switches, t7);
    TripOptU32(c.nics, t6);
    TripOptU64(c.hostMemory, t5);
    TripOptU32(c.cores, t4);
    TripOptU32(c.sockets, t3);
    TripAccelerators(c.accelerators, t2);
    TripCode(6, ProvenanceCode(c.provenance), t1);
  }

  function PutEndpoint(e: Endpoint, tail: Out): Out {
    PutText(e.id, PutOptId(e.networkDomain,
      PutOptId(e.linkDomain, PutU8(e.connectivity, PutEvidence(e.evidence, tail)))))
  }

  function GetEndpoint(b: seq<byte>): Read<Endpoint> {
    var (id, b) :- GetId(b);
    var (networkDomain, b) :- GetOptId(b);
    var (linkDomain, b) :- GetOptId(b);
    var (connectivity, b) :- GetCode(5, b);
    var (evidence, b) :- GetEvidence(b);
    Got(Endpoint(id, networkDomain, linkDomain, connectivity, evidence), b)
  }

  predicate AcceptsEndpoint(e: Endpoint) {
    IsIdentity(e.id) && AcceptsOptId(e.networkDomain) && AcceptsOptId(e.linkDomain)
  }

  lemma TripEndpoint(e: Endpoint, tail: Out)
    ensures PutEndpoint(e, tail).Some? ==> tail.Some?
    ensures PutEndpoint(e, tail).Some? ==>
      GetEndpoint(PutEndpoint(e, tail).value) == Answer(AcceptsEndpoint(e), e, tail.value)
  {
    hide PutU8; hide GetCode; hide PutText; hide GetId; hide PutOptId; hide GetOptId; hide PutEvidence;
    hide GetEvidence;
    hide AcceptsOptId; hide IsIdentity;
    var t4 := PutEvidence(e.evidence, tail);
    var t3 := PutU8(e.connectivity, t4);
    var t2 := PutOptId(e.linkDomain, t3);
    var t1 := PutOptId(e.networkDomain, t2);
    TripEvidence(e.evidence, tail);
    TripCode(5, e.connectivity, t4);
    TripOptId(e.linkDomain, t3);
    TripOptId(e.networkDomain, t2);
    TripId(e.id, t1);
  }

  function PutHint(h: Hint, tail: Out): Out { PutU8(h.klass, PutText(h.id, PutEvidence(h.evidence, tail))) }

  function GetHint(b: seq<byte>): Read<Hint> {
    var (klass, b) :- GetCode(9, b);
    var (id, b) :- GetId(b);
    var (evidence, b) :- GetEvidence(b);
    Got(Hint(klass, id, evidence), b)
  }

  predicate AcceptsHint(h: Hint) { IsIdentity(h.id) }

  lemma TripHint(h: Hint, tail: Out)
    ensures PutHint(h, tail).Some? ==> tail.Some?
    ensures PutHint(h, tail).Some? ==> GetHint(PutHint(h, tail).value) == Answer(AcceptsHint(h), h, tail.value)
  {
    hide PutU8; hide GetCode; hide PutText; hide GetId; hide PutEvidence; hide GetEvidence; hide IsIdentity;
    var t2 := PutEvidence(h.evidence, tail);
    var t1 := PutText(h.id, t2);
    TripEvidence(h.evidence, tail);
    TripId(h.id, t2);
    TripCode(9, h.klass, t1);
  }

  function PutEndpoints(items: seq<Endpoint>, tail: Out): Out { PutList(items, PutEndpoint, tail) }

  function GetEndpoints(b: seq<byte>): Read<seq<Endpoint>> { GetList(MAX_RACK_ENDPOINTS, GetEndpoint, b) }

  predicate AcceptsEndpoints(items: seq<Endpoint>) { AcceptsList(items, MAX_RACK_ENDPOINTS, AcceptsEndpoint) }

  lemma TripEndpoints(items: seq<Endpoint>, tail: Out)
    ensures PutEndpoints(items, tail).Some? ==> tail.Some?
    ensures PutEndpoints(items, tail).Some? ==>
      GetEndpoints(PutEndpoints(items, tail).value) == Answer(AcceptsEndpoints(items), items, tail.value)
  {
    assert Trips(PutEndpoint, GetEndpoint, AcceptsEndpoint) by {
      hide PutEndpoint; hide GetEndpoint; hide AcceptsEndpoint;
      forall e: Endpoint, rest: Out { TripEndpoint(e, rest); }
    }
    hide Trips;
    TripList(items, MAX_RACK_ENDPOINTS, PutEndpoint, GetEndpoint, AcceptsEndpoint, tail);
  }

  function PutHints(items: seq<Hint>, tail: Out): Out { PutList(items, PutHint, tail) }

  function GetHints(b: seq<byte>): Read<seq<Hint>> { GetList(MAX_FAILURE_DOMAIN_REFS, GetHint, b) }

  predicate AcceptsHints(items: seq<Hint>) { AcceptsList(items, MAX_FAILURE_DOMAIN_REFS, AcceptsHint) }

  lemma TripHints(items: seq<Hint>, tail: Out)
    ensures PutHints(items, tail).Some? ==> tail.Some?
    ensures PutHints(items, tail).Some? ==>
      GetHints(PutHints(items, tail).value) == Answer(AcceptsHints(items), items, tail.value)
  {
    assert Trips(PutHint, GetHint, AcceptsHint) by {
      hide PutHint; hide GetHint; hide AcceptsHint;
      forall h: Hint, rest: Out { TripHint(h, rest); }
    }
    hide Trips;
    TripList(items, MAX_FAILURE_DOMAIN_REFS, PutHint, GetHint, AcceptsHint, tail);
  }

  function PutRack(r: DurableRack, tail: Out): Out {
    PutText(r.rack, PutU64(r.generation, PutU8(MembershipCode(r.membership), PutText(r.publisher,
      PutU64(r.publication, PutText(r.boot, PutComposition(r.composition, PutEndpoints(r.endpoints,
        PutHints(r.hints, PutU8(r.rackLifecycle, PutU64(r.membershipGeneration, PutText(r.origin,
          PutI64(r.declaredAt, tail)))))))))))))
  }

  function GetRack(b: seq<byte>): Read<DurableRack> {
    var (rack, b) :- GetId(b);
    var (generation, b) :- GetU64(b);
    var (membership, b) :- GetCode(4, b);
    var (publisher, b) :- GetId(b);
    var (publication, b) :- GetU64(b);
    var (boot, b) :- GetId(b);
    var (composition, b) :- GetComposition(b);
    var (endpoints, b) :- GetEndpoints(b);
    var (hints, b) :- GetHints(b);
    var (rackLifecycle, b) :- GetCode(6, b);
    var (membershipGeneration, b) :- GetU64(b);
    var (origin, b) :- GetText(b);
    var (declaredAt, b) :- GetI64(b);
    Got(DurableRack(rack, generation, MembershipOf(membership), publisher, publication, boot, composition, endpoints,
                    hints, rackLifecycle, membershipGeneration, origin, declaredAt), b)
  }

  predicate AcceptsRack(r: DurableRack) {
    && IsIdentity(r.rack) && IsIdentity(r.publisher) && IsIdentity(r.boot)
    && AcceptsComposition(r.composition) && AcceptsEndpoints(r.endpoints) && AcceptsHints(r.hints)
  }

  lemma TripRack(r: DurableRack, tail: Out)
    ensures PutRack(r, tail).Some? ==> tail.Some?
    ensures PutRack(r, tail).Some? ==> GetRack(PutRack(r, tail).value) == Answer(AcceptsRack(r), r, tail.value)
  {
    hide PutU8; hide GetCode; hide PutText; hide GetText; hide GetId; hide PutU64; hide GetU64; hide PutI64;
    hide GetI64;
    hide PutComposition; hide GetComposition; hide PutEndpoints; hide GetEndpoints; hide PutHints; hide GetHints;
    hide IsIdentity; hide AcceptsComposition; hide AcceptsEndpoints; hide AcceptsHints;
    var t12 := PutI64(r.declaredAt, tail);
    var t11 := PutText(r.origin, t12);
    var t10 := PutU64(r.membershipGeneration, t11);
    var t9 := PutU8(r.rackLifecycle, t10);
    var t8 := PutHints(r.hints, t9);
    var t7 := PutEndpoints(r.endpoints, t8);
    var t6 := PutComposition(r.composition, t7);
    var t5 := PutText(r.boot, t6);
    var t4 := PutU64(r.publication, t5);
    var t3 := PutText(r.publisher, t4);
    var t2 := PutU8(MembershipCode(r.membership), t3);
    var t1 := PutU64(r.generation, t2);
    TripI64(r.declaredAt, tail);
    TripText(r.origin, t12);
    TripU64(r.membershipGeneration, t11);
    TripCode(6, r.rackLifecycle, t10);
    TripHints(r.hints, t9);
    TripEndpoints(r.endpoints, t8);
    TripComposition(r.composition, t7);
    TripId(r.boot, t6);
    TripU64(r.publication, t5);
    TripId(r.publisher, t4);
    TripCode(4, MembershipCode(r.membership), t3);
    TripU64(r.generation, t2);
    TripId(r.rack, t1);
  }

  function PutRacks(items: seq<DurableRack>, tail: Out): Out { PutList(items, PutRack, tail) }

  function GetRacks(b: seq<byte>): Read<seq<DurableRack>> { GetList(MAX_RACKS, GetRack, b) }

  predicate AcceptsRacks(items: seq<DurableRack>) { AcceptsList(items, MAX_RACKS, AcceptsRack) }

  lemma TripRacks(items: seq<DurableRack>, tail: Out)
    ensures PutRacks(items, tail).Some? ==> tail.Some?
    ensures PutRacks(items, tail).Some? ==>
      GetRacks(PutRacks(items, tail).value) == Answer(AcceptsRacks(items), items, tail.value)
  {
    assert Trips(PutRack, GetRack, AcceptsRack) by {
      hide PutRack; hide GetRack; hide AcceptsRack;
      forall x: DurableRack, rest: Out { TripRack(x, rest); }
    }
    hide Trips;
    TripList(items, MAX_RACKS, PutRack, GetRack, AcceptsRack, tail);
  }

  // ---- readiness contract, counters and topology -----------------------------------------

  function PutPlacementClass(c: PlacementClass, tail: Out): Out {
    PutU8(c, tail)
  }

  function GetPlacementClass(b: seq<byte>): Read<PlacementClass> {
    var (code, b) :- GetCode(7, b);
    Got(code, b)
  }

  lemma TripPlacementClass(c: PlacementClass, tail: Out)
    ensures PutPlacementClass(c, tail).Some? ==> tail.Some?
    ensures PutPlacementClass(c, tail).Some? ==>
      GetPlacementClass(PutPlacementClass(c, tail).value) == Got(c, tail.value)
  {
    hide PutU8; hide GetCode;
    TripCode(7, c, tail);
  }

  function PutPlacementClasses(items: seq<PlacementClass>, tail: Out): Out { PutList(items, PutPlacementClass, tail) }

  function GetPlacementClasses(b: seq<byte>): Read<seq<PlacementClass>> {
    GetList(MAX_DOMAINS_PER_CLASS, GetPlacementClass, b)
  }

  predicate AcceptsPlacementClasses(items: seq<PlacementClass>) {
    AcceptsList(items, MAX_DOMAINS_PER_CLASS, Anything<PlacementClass>)
  }

  lemma TripPlacementClasses(items: seq<PlacementClass>, tail: Out)
    ensures PutPlacementClasses(items, tail).Some? ==> tail.Some?
    ensures PutPlacementClasses(items, tail).Some? ==>
      GetPlacementClasses(PutPlacementClasses(items, tail).value)
        == Answer(AcceptsPlacementClasses(items), items, tail.value)
  {
    assert Trips(PutPlacementClass, GetPlacementClass, Anything<PlacementClass>) by {
      hide PutPlacementClass; hide GetPlacementClass;
      forall x: PlacementClass, rest: Out { TripPlacementClass(x, rest); }
    }
    hide Trips;
    TripList(items, MAX_DOMAINS_PER_CLASS, PutPlacementClass, GetPlacementClass, Anything<PlacementClass>, tail);
  }

  function PutFailureClass(c: FailureClass, tail: Out): Out {
    PutU8(c, tail)
  }

  function GetFailureClass(b: seq<byte>): Read<FailureClass> {
    var (code, b) :- GetCode(9, b);
    Got(code, b)
  }

  lemma TripFailureClass(c: FailureClass, tail: Out)
    ensures PutFailureClass(c, tail).Some? ==> tail.Some?
    ensures PutFailureClass(c, tail).Some? ==>
      GetFailureClass(PutFailureClass(c, tail).value) == Got(c, tail.value)
  {
    hide PutU8; hide GetCode;
    TripCode(9, c, tail);
  }

  function PutFailureClasses(items: seq<FailureClass>, tail: Out): Out { PutList(items, PutFailureClass, tail) }

  function GetFailureClasses(b: seq<byte>): Read<seq<FailureClass>> {
    GetList(MAX_DOMAINS_PER_CLASS, GetFailureClass, b)
  }

  predicate AcceptsFailureClasses(items: seq<FailureClass>) {
    AcceptsList(items, MAX_DOMAINS_PER_CLASS, Anything<FailureClass>)
  }

  lemma TripFailureClasses(items: seq<FailureClass>, tail: Out)
    ensures PutFailureClasses(items, tail).Some? ==> tail.Some?
    ensures PutFailureClasses(items, tail).Some? ==>
      GetFailureClasses(PutFailureClasses(items, tail).value) == Answer(AcceptsFailureClasses(items), items, tail.value)
  {
    assert Trips(PutFailureClass, GetFailureClass, Anything<FailureClass>) by {
      hide PutFailureClass; hide GetFailureClass;
      forall x: FailureClass, rest: Out { TripFailureClass(x, rest); }
    }
    hide Trips;
    TripList(items, MAX_DOMAINS_PER_CLASS, PutFailureClass, GetFailureClass, Anything<FailureClass>, tail);
  }

  function PutContract(c: Contract, tail: Out): Out {
    PutU64(c.minimumRacks, PutIds(c.mandatory, PutBool(c.allCurrent, PutBool(c.connectivity,
      PutU64(c.minimumLinks, PutPlacementClasses(c.placementClasses, PutFailureClasses(c.failureClasses,
      PutBool(c.allowPartial, PutBool(c.allowDegraded, PutBool(c.noConflicts, tail))))))))))
  }

  function GetContract(b: seq<byte>): Read<Contract> {
    var (minimumRacks, b) :- GetU64(b);
    if minimumRacks > MAX_RACKS then Fail else
    var (mandatory, b) :- GetIds(MAX_RACKS, b);
    var (allCurrent, b) :- GetBool(b);
    var (connectivity, b) :- GetBool(b);
    var (minimumLinks, b) :- GetU64(b);
    if minimumLinks > MAX_LINKS then Fail else
    var (placementClasses, b) :- GetPlacementClasses(b);
    var (failureClasses, b) :- GetFailureClasses(b);
    var (allowPartial, b) :- GetBool(b);
    var (allowDegraded, b) :- GetBool(b);
    var (noConflicts, b) :- GetBool(b);
    Got(Contract(minimumRacks, mandatory, allCurrent, connectivity, minimumLinks, placementClasses,
      failureClasses, allowPartial, allowDegraded, noConflicts), b)
  }

  predicate AcceptsContract(c: Contract) {
    && AcceptsIds(c.mandatory, MAX_RACKS)
    && AcceptsPlacementClasses(c.placementClasses)
    && AcceptsFailureClasses(c.failureClasses)
    && c.minimumRacks <= MAX_RACKS
    && c.minimumLinks <= MAX_LINKS
  }

  lemma TripContract(c: Contract, tail: Out)
    ensures PutContract(c, tail).Some? ==> tail.Some?
    ensures PutContract(c, tail).Some? ==>
      GetContract(PutContract(c, tail).value) == Answer(AcceptsContract(c), c, tail.value)
  {
    hide PutU64; hide GetU64; hide PutIds; hide GetIds; hide AcceptsIds; hide PutBool; hide GetBool;
    hide PutPlacementClasses; hide GetPlacementClasses; hide AcceptsPlacementClasses; hide PutFailureClasses;
    hide GetFailureClasses; hide AcceptsFailureClasses;
    var t9 := PutBool(c.noConflicts, tail);
    var t8 := PutBool(c.allowDegraded, t9);
    var t7 := PutBool(c.allowPartial, t8);
    var t6 := PutFailureClasses(c.failureClasses, t7);
    var t5 := PutPlacementClasses(c.placementClasses, t6);
    var t4 := PutU64(c.minimumLinks, t5);
    var t3 := PutBool(c.connectivity, t4);
    var t2 := PutBool(c.allCurrent, t3);
    var t1 := PutIds(c.mandatory, t2);
    TripBool(c.noConflicts, tail);
    TripBool(c.allowDegraded, t9);
    TripBool(c.allowPartial, t8);
    TripFailureClasses(c.failureClasses, t7);
    TripPlacementClasses(c.placementClasses, t6);
    TripU64(c.minimumLinks, t5);
    TripBool(c.connectivity, t4);
    TripBool(c.allCurrent, t3);
    TripIds(c.mandatory, MAX_RACKS, t2);
    TripU64(c.minimumRacks, t1);
  }

  function PutGenerations(g: DomainGenerations, tail: Out): Out {
    PutU64(g.placement, PutU64(g.capacity, PutU64(g.failure, PutU64(g.network, PutU64(g.storage, PutU64(g.power,
      PutU64(g.cooling, PutU64(g.link, tail))))))))
  }

  function GetGenerations(b: seq<byte>): Read<DomainGenerations> {
    var (placement, b) :- GetU64(b);
    var (capacity, b) :- GetU64(b);
    var (failure, b) :- GetU64(b);
    var (network, b) :- GetU64(b);
    var (storage, b) :- GetU64(b);
    var (power, b) :- GetU64(b);
    var (cooling, b) :- GetU64(b);
    var (link, b) :- GetU64(b);
    Got(DomainGenerations(placement, capacity, failure, network, storage, power, cooling, link), b)
  }

  lemma TripGenerations(g: DomainGenerations, tail: Out)
    ensures PutGenerations(g, tail).Some? ==> tail.Some?
    ensures PutGenerations(g, tail).Some? ==>
      GetGenerations(PutGenerations(g, tail).value) == Got(g, tail.value)
  {
    hide PutU64; hide GetU64;
    var t7 := PutU64(g.link, tail);
    var t6 := PutU64(g.cooling, t7);
    var t5 := PutU64(g.power, t6);
    var t4 := PutU64(g.storage, t5);
    var t3 := PutU64(g.network, t4);
    var t2 := PutU64(g.failure, t3);
    var t1 := PutU64(g.capacity, t2);
    TripU64(g.link, tail);
    TripU64(g.cooling, t7);
    TripU64(g.power, t6);
    TripU64(g.storage, t5);
    TripU64(g.network, t4);
    TripU64(g.failure, t3);
    TripU64(g.capacity, t2);
    TripU64(g.placement, t1);
  }

  function PutTopology(t: TopologyRecord, tail: Out): Out {
    PutU64(t.epoch, PutU64(t.generation, PutI64(t.establishedAt, PutEvidence(t.evidence, PutText(t.reason,
      tail)))))
  }

  function GetTopology(b: seq<byte>): Read<TopologyRecord> {
    var (epoch, b) :- GetU64(b);
    var (generation, b) :- GetU64(b);
    var (establishedAt, b) :- GetI64(b);
    var (evidence, b) :- GetEvidence(b);
    var (reason, b) :- GetText(b);
    Got(TopologyRecord(epoch, generation, establishedAt, evidence, reason), b)
  }

  lemma TripTopology(t: TopologyRecord, tail: Out)
    ensures PutTopology(t, tail).Some? ==> tail.Some?
    ensures PutTopology(t, tail).Some? ==>
      GetTopology(PutTopology(t, tail).value) == Got(t, tail.value)
  {
    hide PutU64; hide GetU64; hide PutI64; hide GetI64; hide PutEvidence; hide GetEvidence; hide PutText;
    hide GetText;
    var t4 := PutText(t.reason, tail);
    var t3 := PutEvidence(t.evidence, t4);
    var t2 := PutI64(t.establishedAt, t3);
    var t1 := PutU64(t.generation, t2);
    TripText(t.reason, tail);
    TripEvidence(t.evidence, t4);
    TripI64(t.establishedAt, t3);
    TripU64(t.generation, t2);
    TripU64(t.epoch, t1);
  }

  // ---- domains ---------------------------------------------------------------------------

  function PutQuantity(q: Quantity, tail: Out): Out {
    PutText(q.unit, PutOptU64(q.value, PutU8(ProvenanceCode(q.provenance), PutBool(q.aggregated, tail))))
  }

  function GetQuantity(b: seq<byte>): Read<Quantity> {
    var (unit, b) :- GetText(b);
    var (value, b) :- GetOptU64(b);
    var (provenance, b) :- GetCode(6, b);
    var (aggregated, b) :- GetBool(b);
    Got(Quantity(unit, value, ProvenanceOf(provenance), aggregated), b)
  }

  lemma TripQuantity(q: Quantity, tail: Out)
    ensures PutQuantity(q, tail).Some? ==> tail.Some?
    ensures PutQuantity(q, tail).Some? ==>
      GetQuantity(PutQuantity(q, tail).value) == Got(q, tail.value)
  {
    hide PutText; hide GetText; hide PutOptU64; hide GetOptU64; hide PutU8; hide GetCode; hide PutBool;
    hide GetBool;
    var t3 := PutBool(q.aggregated, tail);
    var t2 := PutU8(ProvenanceCode(q.provenance), t3);
    var t1 := PutOptU64(q.value, t2);
    TripBool(q.aggregated, tail);
    TripCode(6, ProvenanceCode(q.provenance), t3);
    TripOptU64(q.value, t2);
    TripText(q.unit, t1);
  }

  function PutQuantities(items: seq<Quantity>, tail: Out): Out { PutList(items, PutQuantity, tail) }

  function GetQuantities(b: seq<byte>): Read<seq<Quantity>> { GetList(MAX_CAPACITY_QUANTITIES, GetQuantity, b) }

  predicate AcceptsQuantities(items: seq<Quantity>) { AcceptsList(items, MAX_CAPACITY_QUANTITIES, Anything<Quantity>) }

  lemma TripQuantities(items: seq<Quantity>, tail: Out)
    ensures PutQuantities(items, tail).Some? ==> tail.Some?
    ensures PutQuantities(items, tail).Some? ==>
      GetQuantities(PutQuantities(items, tail).value) == Answer(AcceptsQuantities(items), items, tail.value)
  {
    assert Trips(PutQuantity, GetQuantity, Anything<Quantity>) by {
      hide PutQuantity; hide GetQuantity;
      forall x: Quantity, rest: Out { TripQuantity(x, rest); }
    }
    hide Trips;
    TripList(items, MAX_CAPACITY_QUANTITIES, PutQuantity, GetQuantity, Anything<Quantity>, tail);
  }

  predicate Nested(kind: DomainKind) { kind.Power? || kind.Cooling? }

  /** The bound the decoder puts on a class code. */
  function ClassBound(kind: DomainKind): (r: nat)
    ensures r <= 9
  {
    match kind
    case Placement => 7
    case Failure => 9
    case _ => 5
  }

  /** A record carries only the fields its own type has; the shared shape admits no others. */
  predicate Shaped(kind: DomainKind, d: Domain) {
    && (Classed(kind) || d.klass == 0)
    && (kind.Capacity? || d.quantities == [])
    && (Nested(kind) || d.parent.None?)
  }

  function PutClass(kind: DomainKind, klass: DomainClass, tail: Out): Out {
    if Classed(kind) then PutU8(klass, tail) else tail
  }

  function GetClass(kind: DomainKind, b: seq<byte>): Read<DomainClass> {
    if !Classed(kind) then Got(0, b)
    else
      var (klass, b) :- GetCode(ClassBound(kind), b);
      Got(klass, b)
  }

  function PutDetail(kind: DomainKind, d: Domain, tail: Out): Out {
    if kind.Capacity? then PutQuantities(d.quantities, tail)
    else if Nested(kind) then PutOptId(d.parent, tail)
    else tail
  }

  function GetDetail(kind: DomainKind, b: seq<byte>): Read<(seq<Quantity>, Option<Id>)> {
    if kind.Capacity? then
      var (quantities, b) :- GetQuantities(b);
      Got((quantities, None), b)
    else if Nested(kind) then
      var (parent, b) :- GetOptId(b);
      Got(([], parent), b)
    else Got(([], None), b)
  }

  predicate AcceptsDetail(kind: DomainKind, d: Domain) {
    && (kind.Capacity? ==> AcceptsQuantities(d.quantities))
    && (Nested(kind) ==> AcceptsOptId(d.parent))
  }

  lemma TripClass(kind: DomainKind, klass: DomainClass, tail: Out)
    requires Classed(kind) || klass == 0
    ensures PutClass(kind, klass, tail).Some? ==> tail.Some?
    ensures PutClass(kind, klass, tail).Some? ==>
      GetClass(kind, PutClass(kind, klass, tail).value)
      == Answer(Classed(kind) ==> klass <= ClassBound(kind), klass, tail.value)
  {
    TripCode(ClassBound(kind), klass, tail);
  }

  lemma TripDetail(kind: DomainKind, d: Domain, tail: Out)
    requires Shaped(kind, d)
    ensures PutDetail(kind, d, tail).Some? ==> tail.Some?
    ensures PutDetail(kind, d, tail).Some? ==>
      GetDetail(kind, PutDetail(kind, d, tail).value)
      == Answer(AcceptsDetail(kind, d), (d.quantities, d.parent), tail.value)
  {
    hide PutQuantities; hide GetQuantities; hide AcceptsQuantities; hide PutOptId; hide GetOptId; hide AcceptsOptId;
    TripQuantities(d.quantities, tail);
    TripOptId(d.parent, tail);
  }

  function PutDomain(kind: DomainKind, d: Domain, tail: Out): Out {
    if !Shaped(kind, d) then None
    else PutText(d.id, PutClass(kind, d.klass, PutIds(d.racks, PutDetail(kind, d, PutHeader(d.header, tail)))))
  }

  function GetDomain(kind: DomainKind, b: seq<byte>): Read<Domain> {
    var (id, b) :- GetId(b);
    var (klass, b) :- GetClass(kind, b);
    var (racks, b) :- GetIds(MAX_DOMAIN_MEMBERS, b);
    var (detail, b) :- GetDetail(kind, b);
    var (header, b) :- GetHeader(b);
    Got(Domain(id, klass, racks, detail.0, detail.1, header), b)
  }

  predicate AcceptsDomain(kind: DomainKind, d: Domain) {
    && IsIdentity(d.id) && (Classed(kind) ==> d.klass <= ClassBound(kind))
    && AcceptsIds(d.racks, MAX_DOMAIN_MEMBERS) && AcceptsDetail(kind, d) && AcceptsHeader(d.header)
  }

  lemma TripDomain(kind: DomainKind, d: Domain, tail: Out)
    ensures PutDomain(kind, d, tail).Some? ==> tail.Some?
    ensures PutDomain(kind, d, tail).Some? ==>
      GetDomain(kind, PutDomain(kind, d, tail).value) == Answer(AcceptsDomain(kind, d), d, tail.value)
  {
    if Shaped(kind, d) {
      hide PutText; hide GetId; hide IsIdentity; hide PutClass; hide GetClass; hide PutIds; hide GetIds;
      hide AcceptsIds;
      hide PutDetail; hide GetDetail; hide AcceptsDetail; hide PutHeader; hide GetHeader; hide AcceptsHeader;
      hide Shaped;
      hide Classed; hide ClassBound;
      var t4 := PutHeader(d.header, tail);
      var t3 := PutDetail(kind, d, t4);
      var t2 := PutIds(d.racks, t3);
      var t1 := PutClass(kind, d.klass, t2);
      TripHeader(d.header, tail);
      TripDetail(kind, d, t4);
      TripIds(d.racks, MAX_DOMAIN_MEMBERS, t3);
      ClassIsShaped(kind, d);
      TripClass(kind, d.klass, t2);
      TripId(d.id, t1);
    }
  }

  lemma ClassIsShaped(kind: DomainKind, d: Domain)
    requires Shaped(kind, d)
    ensures Classed(kind) || d.klass == 0
  {}

  function DomainWriter(kind: DomainKind): (Domain, Out) -> Out { (d, tail) => PutDomain(kind, d, tail) }
  function DomainReader(kind: DomainKind): seq<byte> -> Read<Domain> { b => GetDomain(kind, b) }
  function DomainFilter(kind: DomainKind): Domain -> bool { d => AcceptsDomain(kind, d) }

  function PutDomains(kind: DomainKind, items: seq<Domain>, tail: Out): Out {
    PutList(items, DomainWriter(kind), tail)
  }

  function GetDomains(kind: DomainKind, b: seq<byte>): Read<seq<Domain>> {
    GetList(MAX_DOMAINS_PER_CLASS, DomainReader(kind), b)
  }

  predicate AcceptsDomains(kind: DomainKind, items: seq<Domain>) {
    AcceptsList(items, MAX_DOMAINS_PER_CLASS, DomainFilter(kind))
  }

  lemma TripDomains(kind: DomainKind, items: seq<Domain>, tail: Out)
    ensures PutDomains(kind, items, tail).Some? ==> tail.Some?
    ensures PutDomains(kind, items, tail).Some? ==>
      GetDomains(kind, PutDomains(kind, items, tail).value) == Answer(AcceptsDomains(kind, items), items, tail.value)
  {
    assert Trips(DomainWriter(kind), DomainReader(kind), DomainFilter(kind)) by {
      hide PutDomain; hide GetDomain; hide AcceptsDomain;
      forall d: Domain, rest: Out { TripDomain(kind, d, rest); }
    }
    hide Trips; hide DomainWriter; hide DomainReader; hide DomainFilter;
    TripList(items, MAX_DOMAINS_PER_CLASS, DomainWriter(kind), DomainReader(kind), DomainFilter(kind), tail);
  }

  // The eight domain lists in container order.

  function PutDomainLists(lists: DomainLists, tail: Out): Out {
    PutDomains(Placement, lists.placement, PutDomains(Capacity, lists.capacity, PutDomains(Failure,
      lists.failure, PutDomains(Network, lists.network, PutDomains(Storage, lists.storage, PutDomains(Power,
      lists.power, PutDomains(Cooling, lists.cooling, PutDomains(LinkGroup, lists.link, tail))))))))
  }

  function GetDomainLists(b: seq<byte>): Read<DomainLists> {
    var (placement, b) :- GetDomains(Placement, b);
    var (capacity, b) :- GetDomains(Capacity, b);
    var (failure, b) :- GetDomains(Failure, b);
    var (network, b) :- GetDomains(Network, b);
    var (storage, b) :- GetDomains(Storage, b);
    var (power, b) :- GetDomains(Power, b);
    var (cooling, b) :- GetDomains(Cooling, b);
    var (link, b) :- GetDomains(LinkGroup, b);
    Got(DomainLists(placement, capacity, failure, network, storage, power, cooling, link), b)
  }

  predicate AcceptsDomainLists(lists: DomainLists) {
    forall kind: DomainKind :: AcceptsDomains(kind, lists.Get(kind))
  }

  lemma TripDomainLists(lists: DomainLists, tail: Out)
    ensures PutDomainLists(lists, tail).Some? ==> tail.Some?
    ensures PutDomainLists(lists, tail).Some? ==>
      GetDomainLists(PutDomainLists(lists, tail).value) == Answer(AcceptsDomainLists(lists), lists, tail.value)
  {
    hide PutDomains; hide GetDomains; hide AcceptsDomains;
    var t8 := tail;
    var t7 := PutDomains(LinkGroup, lists.link, t8);
    var t6 := PutDomains(Cooling, lists.cooling, t7);
    var t5 := PutDomains(Power, lists.power, t6);
    var t4 := PutDomains(Storage, lists.storage, t5);
    var t3 := PutDomains(Network, lists.network, t4);
    var t2 := PutDomains(Failure, lists.failure, t3);
    var t1 := PutDomains(Capacity, lists.capacity, t2);
    TripDomains(LinkGroup, lists.link, t8);
    TripDomains(Cooling, lists.cooling, t7);
    TripDomains(Power, lists.power, t6);
    TripDomains(Storage, lists.storage, t5);
    TripDomains(Network, lists.network, t4);
    TripDomains(Failure, lists.failure, t3);
    TripDomains(Capacity, lists.capacity, t2);
    TripDomains(Placement, lists.placement, t1);
    SplitDomainLists(lists);
  }

  lemma SplitDomainLists(lists: DomainLists)
    ensures AcceptsDomainLists(lists) <==>
      && AcceptsDomains(Placement, lists.placement) && AcceptsDomains(Capacity, lists.capacity)
      && AcceptsDomains(Failure, lists.failure) && AcceptsDomains(Network, lists.network)
      && AcceptsDomains(Storage, lists.storage) && AcceptsDomains(Power, lists.power)
      && AcceptsDomains(Cooling, lists.cooling) && AcceptsDomains(LinkGroup, lists.link)
  {
    hide AcceptsDomains;
    assert lists.Get(Placement) == lists.placement && lists.Get(Capacity) == lists.capacity;
    assert lists.Get(Failure) == lists.failure && lists.Get(Network) == lists.network;
    assert lists.Get(Storage) == lists.storage && lists.Get(Power) == lists.power;
    assert lists.Get(Cooling) == lists.cooling && lists.Get(LinkGroup) == lists.link;
  }

  // ---- links, constraints and identity lists ---------------------------------------------

  function PutLink(l: Link, tail: Out): Out {
    PutText(l.id, PutText(l.source, PutText(l.destination, PutU8(DirectionCode(l.direction),
      PutU8(l.connectivity, PutOptId(l.networkDomain, PutOptId(l.linkDomain, PutOptId(l.sourceEndpoint,
      PutOptId(l.destinationEndpoint, PutU8(l.bandwidthClass, PutOptU64(l.bandwidth, PutU8(l.latencyClass,
      PutOptU64(l.latency, PutOptU32(l.hops, PutU8(ReachabilityCode(l.reachability), PutU8(l.health,
      PutIds(l.failureDomains, PutHeader(l.header, PutU64(l.topologyEpoch, PutU64(l.topologyGeneration,
      PutU64(l.publication, PutOptId(l.boot, tail))))))))))))))))))))))
  }

  function GetLink(b: seq<byte>): Read<Link> {
    var (id, b) :- GetId(b);
    var (source, b) :- GetId(b);
    var (destination, b) :- GetId(b);
    var (direction, b) :- GetCode(2, b);
    var (connectivity, b) :- GetCode(5, b);
    var (networkDomain, b) :- GetOptId(b);
    var (linkDomain, b) :- GetOptId(b);
    var (sourceEndpoint, b) :- GetOptId(b);
    var (destinationEndpoint, b) :- GetOptId(b);
    var (bandwidthClass, b) :- GetCode(4, b);
    var (bandwidth, b) :- GetOptU64(b);
    var (latencyClass, b) :- GetCode(4, b);
    var (latency, b) :- GetOptU64(b);
    var (hops, b) :- GetOptU32(b);
    var (reachability, b) :- GetCode(3, b);
    var (health, b) :- GetCode(3, b);
    var (failureDomains, b) :- GetIds(MAX_FAILURE_DOMAIN_REFS, b);
    var (header, b) :- GetHeader(b);
    var (topologyEpoch, b) :- GetU64(b);
    var (topologyGeneration, b) :- GetU64(b);
    var (publication, b) :- GetU64(b);
    var (boot, b) :- GetOptId(b);
    Got(Link(id, source, destination, DirectionOf(direction), connectivity, networkDomain, linkDomain,
      sourceEndpoint, destinationEndpoint, bandwidthClass, bandwidth, latencyClass, latency, hops,
      ReachabilityOf(reachability), health, failureDomains, header, topologyEpoch, topologyGeneration,
      publication, boot), b)
  }

  predicate AcceptsLink(l: Link) {
    && IsIdentity(l.id)
    && IsIdentity(l.source)
    && IsIdentity(l.destination)
    && AcceptsOptId(l.networkDomain)
    && AcceptsOptId(l.linkDomain)
    && AcceptsOptId(l.sourceEndpoint)
    && AcceptsOptId(l.destinationEndpoint)
    && AcceptsIds(l.failureDomains, MAX_FAILURE_DOMAIN_REFS)
    && AcceptsHeader(l.header)
    && AcceptsOptId(l.boot)
  }

  lemma TripLink(l: Link, tail: Out)
    ensures PutLink(l, tail).Some? ==> tail.Some?
    ensures PutLink(l, tail).Some? ==>
      GetLink(PutLink(l, tail).value) == Answer(AcceptsLink(l), l, tail.value)
  {
    hide PutText; hide GetId; hide IsIdentity; hide PutU8; hide GetCode; hide PutOptId; hide GetOptId;
    hide AcceptsOptId; hide PutOptU64; hide GetOptU64; hide PutOptU32; hide GetOptU32; hide PutIds; hide GetIds;
    hide AcceptsIds; hide PutHeader; hide GetHeader; hide AcceptsHeader; hide PutU64; hide GetU64;
    var t21 := PutOptId(l.boot, tail);
    var t20 := PutU64(l.publication, t21);
    var t19 := PutU64(l.topologyGeneration, t20);
    var t18 := PutU64(l.topologyEpoch, t19);
    var t17 := PutHeader(l.header, t18);
    var t16 := PutIds(l.failureDomains, t17);
    var t15 := PutU8(l.health, t16);
    var t14 := PutU8(ReachabilityCode(l.reachability), t15);
    var t13 := PutOptU32(l.hops, t14);
    var t12 := PutOptU64(l.latency, t13);
    var t11 := PutU8(l.latencyClass, t12);
    var t10 := PutOptU64(l.bandwidth, t11);
    var t9 := PutU8(l.bandwidthClass, t10);
    var t8 := PutOptId(l.destinationEndpoint, t9);
    var t7 := PutOptId(l.sourceEndpoint, t8);
    var t6 := PutOptId(l.linkDomain, t7);
    var t5 := PutOptId(l.networkDomain, t6);
    var t4 := PutU8(l.connectivity, t5);
    var t3 := PutU8(DirectionCode(l.direction), t4);
    var t2 := PutText(l.destination, t3);
    var t1 := PutText(l.source, t2);
    TripOptId(l.boot, tail);
    TripU64(l.publication, t21);
    TripU64(l.topologyGeneration, t20);
    TripU64(l.topologyEpoch, t19);
    TripHeader(l.header, t18);
    TripIds(l.failureDomains, MAX_FAILURE_DOMAIN_REFS, t17);
    TripCode(3, l.health, t16);
    TripCode(3, ReachabilityCode(l.reachability), t15);
    TripOptU32(l.hops, t14);
    TripOptU64(l.latency, t13);
    TripCode(4, l.latencyClass, t12);
    TripOptU64(l.bandwidth, t11);
    TripCode(4, l.bandwidthClass, t10);
    TripOptId(l.destinationEndpoint, t9);
    TripOptId(l.sourceEndpoint, t8);
    TripOptId(l.linkDomain, t7);
    TripOptId(l.networkDomain, t6);
    TripCode(5, l.connectivity, t5);
    TripCode(2, DirectionCode(l.direction), t4);
    TripId(l.destination, t3);
    TripId(l.source, t2);
    TripId(l.id, t1);
  }

  function PutLinks(items: seq<Link>, tail: Out): Out { PutList(items, PutLink, tail) }

  function GetLinks(b: seq<byte>): Read<seq<Link>> { GetList(MAX_LINKS, GetLink, b) }

  predicate AcceptsLinks(items: seq<Link>) { AcceptsList(items, MAX_LINKS, AcceptsLink) }

  lemma TripLinks(items: seq<Link>, tail: Out)
    ensures PutLinks(items, tail).Some? ==> tail.Some?
    ensures PutLinks(items, tail).Some? ==>
      GetLinks(PutLinks(items, tail).value) == Answer(AcceptsLinks(items), items, tail.value)
  {
    assert Trips(PutLink, GetLink, AcceptsLink) by {
      hide PutLink; hide GetLink; hide AcceptsLink;
      forall x: Link, rest: Out { TripLink(x, rest); }
    }
    hide Trips;
    TripList(items, MAX_LINKS, PutLink, GetLink, AcceptsLink, tail);
  }

  function PutConstraint(c: Constraint, tail: Out): Out {
    PutText(c.id, PutU8(c.kind, PutIds(c.racks, PutText(c.domainRef, PutText(c.statement, PutHeader(c.header,
      tail))))))
  }

  function GetConstraint(b: seq<byte>): Read<Constraint> {
    var (id, b) :- GetId(b);
    var (kind, b) :- GetCode(5, b);
    var (racks, b) :- GetIds(MAX_DOMAIN_MEMBERS, b);
    var (domainRef, b) :- GetText(b);
    var (statement, b) :- GetText(b);
    var (header, b) :- GetHeader(b);
    Got(Constraint(id, kind, racks, domainRef, statement, header), b)
  }

  predicate AcceptsConstraint(c: Constraint) {
    IsIdentity(c.id) && AcceptsIds(c.racks, MAX_DOMAIN_MEMBERS) && AcceptsHeader(c.header)
  }

  lemma TripConstraint(c: Constraint, tail: Out)
    ensures PutConstraint(c, tail).Some? ==> tail.Some?
    ensures PutConstraint(c, tail).Some? ==>
      GetConstraint(PutConstraint(c, tail).value) == Answer(AcceptsConstraint(c), c, tail.value)
  {
    hide PutText; hide GetId; hide IsIdentity; hide PutU8; hide GetCode; hide PutIds; hide GetIds;
    hide AcceptsIds; hide GetText; hide PutHeader; hide GetHeader; hide AcceptsHeader;
    var t5 := PutHeader(c.header, tail);
    var t4 := PutText(c.statement, t5);
    var t3 := PutText(c.domainRef, t4);
    var t2 := PutIds(c.racks, t3);
    var t1 := PutU8(c.kind, t2);
    TripHeader(c.header, tail);
    TripText(c.statement, t5);
    TripText(c.domainRef, t4);
    TripIds(c.racks, MAX_DOMAIN_MEMBERS, t3);
    TripCode(5, c.kind, t2);
    TripId(c.id, t1);
  }

  function PutConstraints(items: seq<Constraint>, tail: Out): Out { PutList(items, PutConstraint, tail) }

  function GetConstraints(b: seq<byte>): Read<seq<Constraint>> { GetList(MAX_CONSTRAINTS, GetConstraint, b) }

  predicate AcceptsConstraints(items: seq<Constraint>) { AcceptsList(items, MAX_CONSTRAINTS, AcceptsConstraint) }

  lemma TripConstraints(items: seq<Constraint>, tail: Out)
    ensures PutConstraints(items, tail).Some? ==> tail.Some?
    ensures PutConstraints(items, tail).Some? ==>
      GetConstraints(PutConstraints(items, tail).value) == Answer(AcceptsConstraints(items), items, tail.value)
  {
    assert Trips(PutConstraint, GetConstraint, AcceptsConstraint) by {
      hide PutConstraint; hide GetConstraint; hide AcceptsConstraint;
      forall x: Constraint, rest: Out { TripConstraint(x, rest); }
    }
    hide Trips;
    TripList(items, MAX_CONSTRAINTS, PutConstraint, GetConstraint, AcceptsConstraint, tail);
  }

  function PutRetired(r: RetiredIdentity, tail: Out): Out {
    PutText(r.rack, PutU64(r.lastGeneration, PutI64(r.at, PutText(r.reason, tail))))
  }

  function GetRetired(b: seq<byte>): Read<RetiredIdentity> {
    var (rack, b) :- GetId(b);
    var (lastGeneration, b) :- GetU64(b);
    var (at, b) :- GetI64(b);
    var (reason, b) :- GetText(b);
    Got(RetiredIdentity(rack, lastGeneration, at, reason), b)
  }

  predicate AcceptsRetired(r: RetiredIdentity) {
    IsIdentity(r.rack)
  }

  lemma TripRetired(r: RetiredIdentity, tail: Out)
    ensures PutRetired(r, tail).Some? ==> tail.Some?
    ensures PutRetired(r, tail).Some? ==>
      GetRetired(PutRetired(r, tail).value) == Answer(AcceptsRetired(r), r, tail.value)
  {
    hide PutText; hide GetId; hide IsIdentity; hide PutU64; hide GetU64; hide PutI64; hide GetI64; hide GetText;
    var t3 := PutText(r.reason, tail);
    var t2 := PutI64(r.at, t3);
    var t1 := PutU64(r.lastGeneration, t2);
    TripText(r.reason, tail);
    TripI64(r.at, t3);
    TripU64(r.lastGeneration, t2);
    TripId(r.rack, t1);
  }

  function PutRetiredList(items: seq<RetiredIdentity>, tail: Out): Out { PutList(items, PutRetired, tail) }

  function GetRetiredList(b: seq<byte>): Read<seq<RetiredIdentity>> { GetList(MAX_RACKS, GetRetired, b) }

  predicate AcceptsRetiredList(items: seq<RetiredIdentity>) { AcceptsList(items, MAX_RACKS, AcceptsRetired) }

  lemma TripRetiredList(items: seq<RetiredIdentity>, tail: Out)
    ensures PutRetiredList(items, tail).Some? ==> tail.Some?
    ensures PutRetiredList(items, tail).Some? ==>
      GetRetiredList(PutRetiredList(items, tail).value) == Answer(AcceptsRetiredList(items), items, tail.value)
  {
    assert Trips(PutRetired, GetRetired, AcceptsRetired) by {
      hide PutRetired; hide GetRetired; hide AcceptsRetired;
      forall x: RetiredIdentity, rest: Out { TripRetired(x, rest); }
    }
    hide Trips;
    TripList(items, MAX_RACKS, PutRetired, GetRetired, AcceptsRetired, tail);
  }

  function PutFenced(f: FencedAuthority, tail: Out): Out {
    PutText(f.boot, PutText(f.rack, PutText(f.reason, PutI64(f.at, tail))))
  }

  function GetFenced(b: seq<byte>): Read<FencedAuthority> {
    var (boot, b) :- GetId(b);
    var (rack, b) :- GetId(b);
    var (reason, b) :- GetText(b);
    var (at, b) :- GetI64(b);
    Got(FencedAuthority(boot, rack, reason, at), b)
  }

  predicate AcceptsFenced(f: FencedAuthority) {
    IsIdentity(f.boot) && IsIdentity(f.rack)
  }

  lemma TripFenced(f: FencedAuthority, tail: Out)
    ensures PutFenced(f, tail).Some? ==> tail.Some?
    ensures PutFenced(f, tail).Some? ==>
      GetFenced(PutFenced(f, tail).value) == Answer(AcceptsFenced(f), f, tail.value)
  {
    hide PutText; hide GetId; hide IsIdentity; hide GetText; hide PutI64; hide GetI64;
    var t3 := PutI64(f.at, tail);
    var t2 := PutText(f.reason, t3);
    var t1 := PutText(f.rack, t2);
    TripI64(f.at, tail);
    TripText(f.reason, t3);
    TripId(f.rack, t2);
    TripId(f.boot, t1);
  }

  function PutFencedList(items: seq<FencedAuthority>, tail: Out): Out { PutList(items, PutFenced, tail) }

  function GetFencedList(b: seq<byte>): Read<seq<FencedAuthority>> { GetList(MAX_RACKS, GetFenced, b) }

  predicate AcceptsFencedList(items: seq<FencedAuthority>) { AcceptsList(items, MAX_RACKS, AcceptsFenced) }

  lemma TripFencedList(items: seq<FencedAuthority>, tail: Out)
    ensures PutFencedList(items, tail).Some? ==> tail.Some?
    ensures PutFencedList(items, tail).Some? ==>
      GetFencedList(PutFencedList(items, tail).value) == Answer(AcceptsFencedList(items), items, tail.value)
  {
    assert Trips(PutFenced, GetFenced, AcceptsFenced) by {
      hide PutFenced; hide GetFenced; hide AcceptsFenced;
      forall x: FencedAuthority, rest: Out { TripFenced(x, rest); }
    }
    hide Trips;
    TripList(items, MAX_RACKS, PutFenced, GetFenced, AcceptsFenced, tail);
  }
}
