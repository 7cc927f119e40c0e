/** When a state can be encoded at all, and how long its encoding is. */
module Sizes {
  import opened Foundation
  import opened EvidenceStamps
  import opened Records
  import opened Mutations
  import opened Durable
  import opened Wire
  import opened RecordCodecs
  import opened Container

  /** A writer in front of a tail fails exactly if the tail did or what it writes does not fit, and adds its size. */
  predicate Adds(out: Out, fits: bool, size: nat, tail: Out) {
    && (out.Some? <==> tail.Some? && fits)
    && (out.Some? ==> |out.value| == size + |tail.value|)
  }

  // ---- primitives ------------------------------------------------------------------------

  lemma {:induction false} LESize(n: nat, v: nat)
    ensures |LE(n, v)| == n
  {
    if n > 0 { LESize(n - 1, v / 256); }
  }

  lemma U8Adds(v: byte, tail: Out)
    ensures Adds(PutU8(v, tail), true, 1, tail)
  {}

  lemma U32Adds(v: u32, tail: Out)
    ensures Adds(PutU32(v, tail), true, 4, tail)
  {
    LESize(4, v);
    hide LE;
  }

  lemma U64Adds(v: u64, tail: Out)
    ensures Adds(PutU64(v, tail), true, 8, tail)
  {
    LESize(8, v);
    hide LE;
  }

  lemma I64Adds(v: i64, tail: Out)
    ensures Adds(PutI64(v, tail), true, 8, tail)
  {
    hide PutU64;
    U64Adds(if v < 0 then v + 0x1_0000_0000_0000_0000 else v, tail);
  }

  lemma BoolAdds(v: bool, tail: Out)
    ensures Adds(PutBool(v, tail), true, 1, tail)
  {}

  predicate FitsText(t: Text) { |t| <= MAX_TEXT }

  function SizeText(t: Text): nat { 4 + |t| }

  lemma TextAdds(t: Text, tail: Out)
    ensures Adds(PutText(t, tail), FitsText(t), SizeText(t), tail)
  {
    hide PutU32;
    if FitsText(t) { U32Adds(|t|, Prepend(t, tail)); }
  }

  predicate FitsOptId(t: Option<Id>) { t.Some? ==> FitsText(t.value) }

  function SizeOptId(t: Option<Id>): nat { 1 + if t.Some? then SizeText(t.value) else 0 }

  lemma OptIdAdds(t: Option<Id>, tail: Out)
    ensures Adds(PutOptId(t, tail), FitsOptId(t), SizeOptId(t), tail)
  {
    hide PutText; hide PutBool;
    BoolAdds(t.Some?, if t.Some? then PutText(t.value, tail) else tail);
    if t.Some? { TextAdds(t.value, tail); }
  }

  lemma OptU32Adds(v: Option<u32>, tail: Out)
    ensures Adds(PutOptU32(v, tail), true, 5, tail)
  {
    hide PutU32; hide PutBool;
    U32Adds(v.GetOr(0), tail);
    BoolAdds(v.Some?, PutU32(v.GetOr(0), tail));
  }

  lemma OptU64Adds(v: Option<u64>, tail: Out)
    ensures Adds(PutOptU64(v, tail), true, 9, tail)
  {
    hide PutU64; hide PutBool;
    U64Adds(v.GetOr(0), tail);
    BoolAdds(v.Some?, PutU64(v.GetOr(0), tail));
  }

  // ---- lists -----------------------------------------------------------------------------

  function Total<T>(items: seq<T>, size: T -> nat): nat {
    if items == [] then 0 else size(items[0]) + Total(items[1..], size)
  }

  /** The count fits its field and every element fits. */
  predicate FitsList<T>(items: seq<T>, fits: T -> bool) { |items| <= MAX_U32 && All(items, fits) }

  function SizeList<T>(items: seq<T>, size: T -> nat): nat { 4 + Total(items, size) }

  ghost predicate EachAdds<T(!new)>(put: (T, Out) -> Out, fits: T -> bool, size: T -> nat) {
    forall x: T, tail: Out :: Adds(put(x, tail), fits(x), size(x), tail)
  }

  lemma {:induction false} ItemsAdd<T(!new)>(
      items: seq<T>, put: (T, Out) -> Out, fits: T -> bool, size: T -> nat, tail: Out)
    requires EachAdds(put, fits, size)
    ensures Adds(PutItems(items, put, tail), All(items, fits), Total(items, size), tail)
  {
    if items != [] {
      ItemsAdd(items[1..], put, fits, size, tail);
      assert Adds(put(items[0], PutItems(items[1..], put, tail)), fits(items[0]), size(items[0]),
                  PutItems(items[1..], put, tail));
      assert All(items, fits) <==> fits(items[0]) && All(items[1..], fits) by {
        assert items == [items[0]] + items[1..];
      }
    }
  }

  lemma ListAdds<T(!new)>(items: seq<T>, put: (T, Out) -> Out, fits: T -> bool, size: T -> nat, tail: Out)
    requires EachAdds(put, fits, size)
    ensures Adds(PutList(items, put, tail), FitsList(items, fits), SizeList(items, size), tail)
  {
    hide PutU32; hide EachAdds; hide PutItems; hide Total; hide All;
    ItemsAdd(items, put, fits, size, tail);
    if |items| <= MAX_U32 { U32Adds(|items|, PutItems(items, put, tail)); }
  }

  // ---- records ---------------------------------------------------------------------------

  lemma EvidenceAdds(e: Evidence, tail: Out)
    ensures Adds(PutEvidence(e, tail), true, 18, tail)
  {
    hide PutU8; hide PutI64;
    var t3 := PutI64(e.ttl, tail);
    var t2 := PutU8(FreshnessCode(e.freshness), t3);
    var t1 := PutI64(e.observedAt, t2);
    I64Adds(e.ttl, tail);
    U8Adds(FreshnessCode(e.freshness), t3);
    I64Adds(e.observedAt, t2);
    U8Adds(ProvenanceCode(e.provenance), t1);
  }

  predicate FitsHeader(h: Header) { FitsOptId(h.publisher) && FitsText(h.title) }

  function SizeHeader(h: Header): nat { 42 + SizeOptId(h.publisher) + SizeText(h.title) }

  lemma HeaderAdds(h: Header, tail: Out)
    ensures Adds(PutHeader(h, tail), FitsHeader(h), SizeHeader(h), tail)
  {
    hide PutEvidence; hide PutU64; hide PutOptId; hide PutText; hide FitsOptId; hide FitsText; hide SizeOptId;
    hide SizeText;
    var t5 := PutText(h.title, tail);
    var t4 := PutU64(h.coordinatorEpoch, t5);
    var t3 := PutU64(h.clusterEpoch, t4);
    var t2 := PutOptId(h.publisher, t3);
    var t1 := PutU64(h.generation, t2);
    TextAdds(h.title, tail);
    U64Adds(h.coordinatorEpoch, t5);
    U64Adds(h.clusterEpoch, t4);
    OptIdAdds(h.publisher, t3);
    U64Adds(h.generation, t2);
    EvidenceAdds(h.evidence, t1);
  }

  predicate FitsIds(items: seq<Id>) { FitsList(items, FitsText) }

  function SizeIds(items: seq<Id>): nat { SizeList(items, SizeText) }

  lemma IdsAdds(items: seq<Id>, tail: Out)
    ensures Adds(PutIds(items, tail), FitsIds(items), SizeIds(items), tail)
  {
    assert EachAdds(PutText, FitsText, SizeText) by {
      hide PutText; hide FitsText; hide SizeText;
      forall x: Id, rest: Out { TextAdds(x, rest); }
    }
    hide EachAdds;
    ListAdds(items, PutText, FitsText, SizeText, tail);
  }

  predicate FitsAccelerator(a: Accelerator) { FitsText(a.family) }

  function SizeAccelerator(a: Accelerator): nat { 15 + SizeText(a.family) }

  lemma AcceleratorAdds(a: Accelerator, tail: Out)
    ensures Adds(PutAccelerator(a, tail), FitsAccelerator(a), SizeAccelerator(a), tail)
  {
    hide PutU8; hide PutText; hide PutOptU32; hide PutOptU64; hide FitsText; hide SizeText;
    var t3 := PutOptU64(a.memory, tail);
    var t2 := PutOptU32(a.devices, t3);
    var t1 := PutText(a.family, t2);
    OptU64Adds(a.memory, tail);
    OptU32Adds(a.devices, t3);
    TextAdds(a.family, t2);
    U8Adds(a.vendor, t1);
  }

  predicate FitsAccelerators(items: seq<Accelerator>) { FitsList(items, FitsAccelerator) }

  function SizeAccelerators(items: seq<Accelerator>): nat { SizeList(items, SizeAccelerator) }

  lemma AcceleratorsAdds(items: seq<Accelerator>, tail: Out)
    ensures Adds(PutList(items, PutAccelerator, tail), FitsAccelerators(items), SizeAccelerators(items), tail)
  {
    assert EachAdds(PutAccelerator, FitsAccelerator, SizeAccelerator) by {
      hide PutAccelerator; hide FitsAccelerator; hide SizeAccelerator;
      forall x: Accelerator, rest: Out { AcceleratorAdds(x, rest); }
    }
    hide EachAdds;
    ListAdds(items, PutAccelerator, FitsAccelerator, SizeAccelerator, tail);
  }

  predicate FitsComposition(c: Composition) { FitsAccelerators(c.accelerators) && FitsText(c.title) }

  function SizeComposition(c: Composition): nat { 30 + SizeAccelerators(c.accelerators) + SizeText(c.title) }

  lemma CompositionAdds(c: Composition, tail: Out)
    ensures Adds(PutComposition(c, tail), FitsComposition(c), SizeComposition(c), tail)
  {
    hide PutU8; hide PutList; hide PutAccelerator; hide PutOptU32; hide PutOptU64; hide PutText; hide FitsAccelerators;
    hide FitsText; hide SizeAccelerators; hide SizeText;
    var t7 := PutText(c.title, tail);
    var t6 := PutOptU32(c.switches, t7);
    var t5 := PutOptU32(c.nics, t6);
    var t4 := PutOptU64(c.hostMemory, t5);
    var t3 := PutOptU32(c.cores, t4);
    var t2 := PutOptU32(c.sockets, t3);
    var t1 := PutList(c.accelerators, PutAccelerator, t2);
    TextAdds(c.title, tail);
    OptU32Adds(c.switches, t7);
    OptU32Adds(c.nics, t6);
    OptU64Adds(c.hostMemory, t5);
    OptU32Adds(c.cores, t4);
    OptU32Adds(c.sockets, t3);
    AcceleratorsAdds(c.accelerators, t2);
    U8Adds(ProvenanceCode(c.provenance), t1);
  }

  predicate FitsEndpoint(e: Endpoint) { FitsText(e.id) && FitsOptId(e.networkDomain) && FitsOptId(e.linkDomain) }

  function SizeEndpoint(e: Endpoint): nat {
    19 + SizeText(e.id) + SizeOptId(e.networkDomain) + SizeOptId(e.linkDomain)
  }

  lemma EndpointAdds(e: Endpoint, tail: Out)
    ensures Adds(PutEndpoint(e, tail), FitsEndpoint(e), SizeEndpoint(e), tail)
  {
    hide PutText; hide PutOptId; hide PutU8; hide PutEvidence; hide FitsText; hide FitsOptId; hide SizeText;
    hide SizeOptId;
    var t4 := PutEvidence(e.evidence, tail);
    var t3 := PutU8(e.connectivity, t4);
    var t2 := PutOptId(e.linkDomain, t3);
    var t1 := PutOptId(e.networkDomain, t2);
    EvidenceAdds(e.evidence, tail);
    U8Adds(e.connectivity, t4);
    OptIdAdds(e.linkDomain, t3);
    OptIdAdds(e.networkDomain, t2);
    TextAdds(e.id, t1);
  }

  predicate FitsEndpoints(items: seq<Endpoint>) { FitsList(items, FitsEndpoint) }

  function SizeEndpoints(items: seq<Endpoint>): nat { SizeList(items, SizeEndpoint) }

  lemma EndpointsAdds(items: seq<Endpoint>, tail: Out)
    ensures Adds(PutEndpoints(items, tail), FitsEndpoints(items), SizeEndpoints(items), tail)
  {
    assert EachAdds(PutEndpoint, FitsEndpoint, SizeEndpoint) by {
      hide PutEndpoint; hide FitsEndpoint; hide SizeEndpoint;
      forall x: Endpoint, rest: Out { EndpointAdds(x, rest); }
    }
    hide EachAdds;
    ListAdds(items, PutEndpoint, FitsEndpoint, SizeEndpoint, tail);
  }

  predicate FitsHint(h: Hint) { FitsText(h.id) }

  function SizeHint(h: Hint): nat { 19 + SizeText(h.id) }

  lemma HintAdds(h: Hint, tail: Out)
    ensures Adds(PutHint(h, tail), FitsHint(h), SizeHint(h), tail)
  {
    hide PutU8; hide PutText; hide PutEvidence; hide FitsText; hide SizeText;
    var t2 := PutEvidence(h.evidence, tail);
    var t1 := PutText(h.id, t2);
    EvidenceAdds(h.evidence, tail);
    TextAdds(h.id, t2);
    U8Adds(h.klass, t1);
  }

  predicate FitsHints(items: seq<Hint>) { FitsList(items, FitsHint) }

  function SizeHints(items: seq<Hint>): nat { SizeList(items, SizeHint) }

  lemma HintsAdds(items: seq<Hint>, tail: Out)
    ensures Adds(PutHints(items, tail), FitsHints(items), SizeHints(items), tail)
  {
    assert EachAdds(PutHint, FitsHint, SizeHint) by {
      hide PutHint; hide FitsHint; hide SizeHint;
      forall x: Hint, rest: Out { HintAdds(x, rest); }
    }
    hide EachAdds;
    ListAdds(items, PutHint, FitsHint, SizeHint, tail);
  }

  predicate FitsRack(r: DurableRack) {
    && FitsText(r.rack) && FitsText(r.publisher) && FitsText(r.boot) && FitsComposition(r.composition)
    && FitsEndpoints(r.endpoints) && FitsHints(r.hints) && FitsText(r.origin)
  }

  function SizeRack(r: DurableRack): nat {
    34 + SizeText(r.rack) + SizeText(r.publisher) + SizeText(r.boot) + SizeComposition(r.composition)
    + SizeEndpoints(r.endpoints) + SizeHints(r.hints) + SizeText(r.origin)
  }

  lemma RackAdds(r: DurableRack, tail: Out)
    ensures Adds(PutRack(r, tail), FitsRack(r), SizeRack(r), tail)
  {
    hide PutText; hide PutU64; hide PutU8; hide PutComposition; hide PutEndpoints; hide PutHints; hide PutI64;
    hide FitsText; hide FitsComposition; hide FitsEndpoints; hide FitsHints; hide SizeText; hide SizeComposition;
    hide SizeEndpoints; hide SizeHints;
    var t12 := PutI64(r.declaredAt, tail);
    var t11 := PutText(r.origin, t12);
    var t10 := PutU64(r.membershipGeneration, t11);
    var t9 := PutU8(r.rackLifecycle, t10);
    var t8 := PutHints(r.hints, t9);
    var t7 := PutEndpoints(r.endpoints, t8);
    var t6 := PutComposition(r.composition, t7);
    var t5 := PutText(r.boot, t6);
    var t4 := PutU64(r.publication, t5);
    var t3 := PutText(r.publisher, t4);
    var t2 := PutU8(MembershipCode(r.membership), t3);
    var t1 := PutU64(r.generation, t2);
    I64Adds(r.declaredAt, tail);
    TextAdds(r.origin, t12);
    U64Adds(r.membershipGeneration, t11);
    U8Adds(r.rackLifecycle, t10);
    HintsAdds(r.hints, t9);
    EndpointsAdds(r.endpoints, t8);
    CompositionAdds(r.composition, t7);
    TextAdds(r.boot, t6);
    U64Adds(r.publication, t5);
    TextAdds(r.publisher, t4);
    U8Adds(MembershipCode(r.membership), t3);
    U64Adds(r.generation, t2);
    TextAdds(r.rack, t1);
  }

  predicate FitsRacks(items: seq<DurableRack>) { FitsList(items, FitsRack) }

  function SizeRacks(items: seq<DurableRack>): nat { SizeList(items, SizeRack) }

  lemma RacksAdds(items: seq<DurableRack>, tail: Out)
    ensures Adds(PutRacks(items, tail), FitsRacks(items), SizeRacks(items), tail)
  {
    assert EachAdds(PutRack, FitsRack, SizeRack) by {
      hide PutRack; hide FitsRack; hide SizeRack;
      forall x: DurableRack, rest: Out { RackAdds(x, rest); }
    }
    hide EachAdds;
    ListAdds(items, PutRack, FitsRack, SizeRack, tail);
  }

  function One<T>(x: T): nat { 1 }

  lemma PlacementClassAdds(c: PlacementClass, tail: Out)
    ensures Adds(PutPlacementClass(c, tail), true, 1, tail)
  {}

  predicate FitsPlacementClasses(items: seq<PlacementClass>) { |items| <= MAX_U32 }

  function SizePlacementClasses(items: seq<PlacementClass>): nat { 4 + |items| }

  lemma PlacementClassesAdds(items: seq<PlacementClass>, tail: Out)
    ensures Adds(PutPlacementClasses(items, tail), FitsPlacementClasses(items), SizePlacementClasses(items), tail)
  {
    assert EachAdds(PutPlacementClass, Anything<PlacementClass>, One<PlacementClass>) by {
      hide PutPlacementClass;
      forall x: PlacementClass, rest: Out { PlacementClassAdds(x, rest); }
    }
    hide EachAdds;
    ListAdds(items, PutPlacementClass, Anything<PlacementClass>, One<PlacementClass>, tail);
    OnesCount(items);
  }

  lemma FailureClassAdds(c: FailureClass, tail: Out)
    ensures Adds(PutFailureClass(c, tail), true, 1, tail)
  {}

  predicate FitsFailureClasses(items: seq<FailureClass>) { |items| <= MAX_U32 }

  function SizeFailureClasses(items: seq<FailureClass>): nat { 4 + |items| }

  lemma FailureClassesAdds(items: seq<FailureClass>, tail: Out)
    ensures Adds(PutFailureClasses(items, tail), FitsFailureClasses(items), SizeFailureClasses(items), tail)
  {
    assert EachAdds(PutFailureClass, Anything<FailureClass>, One<FailureClass>) by {
      hide PutFailureClass;
      forall x: FailureClass, rest: Out { FailureClassAdds(x, rest); }
    }
    hide EachAdds;
    ListAdds(items, PutFailureClass, Anything<FailureClass>, One<FailureClass>, tail);
    OnesCount(items);
  }

  lemma {:induction false} OnesCount<T>(items: seq<T>)
    ensures Total(items, One<T>) == |items|
  {
    if items != [] { OnesCount(items[1..]); }
  }

  predicate FitsContract(c: Contract) {
    FitsIds(c.mandatory) && FitsPlacementClasses(c.placementClasses) && FitsFailureClasses(c.failureClasses)
  }

  function SizeContract(c: Contract): nat {
    21 + SizeIds(c.mandatory) + SizePlacementClasses(c.placementClasses) + SizeFailureClasses(c.failureClasses)
  }

  lemma ContractAdds(c: Contract, tail: Out)
    ensures Adds(PutContract(c, tail), FitsContract(c), SizeContract(c), tail)
  {
    hide PutU64; hide PutIds; hide PutBool; hide PutPlacementClasses; hide PutFailureClasses; hide FitsIds;
    hide FitsPlacementClasses; hide FitsFailureClasses; hide SizeIds; hide SizePlacementClasses;
    hide SizeFailureClasses;
    var t9 := PutBool(c.noConflicts, tail);
    var t8 := PutBool(c.allowDegraded, t9);
    var t7 := PutBool(c.allowPartial, t8);
    var t6 := PutFailureClasses(c.failureClasses, t7);
    var t5 := PutPlacementClasses(c.placementClasses, t6);
    var t4 := PutU64(c.minimumLinks, t5);
    var t3 := PutBool(c.connectivity, t4);
    var t2 := PutBool(c.allCurrent, t3);
    var t1 := PutIds(c.mandatory, t2);
    BoolAdds(c.noConflicts, tail);
    BoolAdds(c.allowDegraded, t9);
    BoolAdds(c.allowPartial, t8);
    FailureClassesAdds(c.failureClasses, t7);
    PlacementClassesAdds(c.placementClasses, t6);
    U64Adds(c.minimumLinks, t5);
    BoolAdds(c.connectivity, t4);
    BoolAdds(c.allCurrent, t3);
    IdsAdds(c.mandatory, t2);
    U64Adds(c.minimumRacks, t1);
  }

  lemma GenerationsAdds(g: DomainGenerations, tail: Out)
    ensures Adds(PutGenerations(g, tail), true, 64, tail)
  {
    hide PutU64;
    var t7 := PutU64(g.link, tail);
    var t6 := PutU64(g.cooling, t7);
    var t5 := PutU64(g.power, t6);
    var t4 := PutU64(g.storage, t5);
    var t3 := PutU64(g.network, t4);
    var t2 := PutU64(g.failure, t3);
    var t1 := PutU64(g.capacity, t2);
    U64Adds(g.link, tail);
    U64Adds(g.cooling, t7);
    U64Adds(g.power, t6);
    U64Adds(g.storage, t5);
    U64Adds(g.network, t4);
    U64Adds(g.failure, t3);
    U64Adds(g.capacity, t2);
    U64Adds(g.placement, t1);
  }

  predicate FitsTopology(t: TopologyRecord) { FitsText(t.reason) }

  function SizeTopology(t: TopologyRecord): nat { 42 + SizeText(t.reason) }

  lemma TopologyAdds(t: TopologyRecord, tail: Out)
    ensures Adds(PutTopology(t, tail), FitsTopology(t), SizeTopology(t), tail)
  {
    hide PutU64; hide PutI64; hide PutEvidence; hide PutText; hide FitsText; hide SizeText;
    var t4 := PutText(t.reason, tail);
    var t3 := PutEvidence(t.evidence, t4);
    var t2 := PutI64(t.establishedAt, t3);
    var t1 := PutU64(t.generation, t2);
    TextAdds(t.reason, tail);
    EvidenceAdds(t.evidence, t4);
    I64Adds(t.establishedAt, t3);
    U64Adds(t.generation, t2);
    U64Adds(t.epoch, t1);
  }

  predicate FitsQuantity(q: Quantity) { FitsText(q.unit) }

  function SizeQuantity(q: Quantity): nat { 11 + SizeText(q.unit) }

  lemma QuantityAdds(q: Quantity, tail: Out)
    ensures Adds(PutQuantity(q, tail), FitsQuantity(q), SizeQuantity(q), tail)
  {
    hide PutText; hide PutOptU64; hide PutU8; hide PutBool; hide FitsText; hide SizeText;
    var t3 := PutBool(q.aggregated, tail);
    var t2 := PutU8(ProvenanceCode(q.provenance), t3);
    var t1 := PutOptU64(q.value, t2);
    BoolAdds(q.aggregated, tail);
    U8Adds(ProvenanceCode(q.provenance), t3);
    OptU64Adds(q.value, t2);
    TextAdds(q.unit, t1);
  }

  predicate FitsQuantities(items: seq<Quantity>) { FitsList(items, FitsQuantity) }

  function SizeQuantities(items: seq<Quantity>): nat { SizeList(items, SizeQuantity) }

  lemma QuantitiesAdds(items: seq<Quantity>, tail: Out)
    ensures Adds(PutQuantities(items, tail), FitsQuantities(items), SizeQuantities(items), tail)
  {
    assert EachAdds(PutQuantity, FitsQuantity, SizeQuantity) by {
      hide PutQuantity; hide FitsQuantity; hide SizeQuantity;
      forall x: Quantity, rest: Out { QuantityAdds(x, rest); }
    }
    hide EachAdds;
    ListAdds(items, PutQuantity, FitsQuantity, SizeQuantity, tail);
  }

  predicate FitsDetail(kind: DomainKind, d: Domain) {
    if kind.Capacity? then FitsQuantities(d.quantities) else Nested(kind) ==> FitsOptId(d.parent)
  }

  function SizeDetail(kind: DomainKind, d: Domain): nat {
    if kind.Capacity? then SizeQuantities(d.quantities) else if Nested(kind) then SizeOptId(d.parent) else 0
  }

  lemma DetailAdds(kind: DomainKind, d: Domain, tail: Out)
    ensures Adds(PutDetail(kind, d, tail), FitsDetail(kind, d), SizeDetail(kind, d), tail)
  {
    hide PutQuantities; hide PutOptId; hide FitsQuantities; hide FitsOptId; hide SizeQuantities; hide SizeOptId;
    if kind.Capacity? { QuantitiesAdds(d.quantities, tail); }
    else if Nested(kind) { OptIdAdds(d.parent, tail); }
  }

  /** The record uses no field of another class, and each of its fields fits. */
  predicate FitsDomain(kind: DomainKind, d: Domain) {
    Shaped(kind, d) && FitsText(d.id) && FitsIds(d.racks) && FitsDetail(kind, d) && FitsHeader(d.header)
  }

  function SizeDomain(kind: DomainKind, d: Domain): nat {
    SizeText(d.id) + (if Classed(kind) then 1 else 0) + SizeIds(d.racks) + SizeDetail(kind, d) + SizeHeader(d.header)
  }

  lemma DomainAdds(kind: DomainKind, d: Domain, tail: Out)
    ensures Adds(PutDomain(kind, d, tail), FitsDomain(kind, d), SizeDomain(kind, d), tail)
  {
    hide PutText; hide PutU8; hide PutIds; hide PutDetail; hide PutHeader; hide Shaped;
    hide FitsText; hide FitsIds; hide FitsDetail; hide FitsHeader; hide SizeText; hide SizeIds; hide SizeDetail;
    hide SizeHeader;
    var t4 := PutHeader(d.header, tail);
    var t3 := PutDetail(kind, d, t4);
    var t2 := PutIds(d.racks, t3);
    var t1 := PutClass(kind, d.klass, t2);
    HeaderAdds(d.header, tail);
    DetailAdds(kind, d, t4);
    IdsAdds(d.racks, t3);
    U8Adds(d.klass, t2);
    TextAdds(d.id, t1);
  }

  function DomainFit(kind: DomainKind): Domain -> bool { (d: Domain) => FitsDomain(kind, d) }

  function DomainSize(kind: DomainKind): Domain -> nat { (d: Domain) => SizeDomain(kind, d) }

  predicate FitsDomains(kind: DomainKind, items: seq<Domain>) { FitsList(items, DomainFit(kind)) }

  function SizeDomains(kind: DomainKind, items: seq<Domain>): nat { SizeList(items, DomainSize(kind)) }

  lemma DomainsAdds(kind: DomainKind, items: seq<Domain>, tail: Out)
    ensures Adds(PutDomains(kind, items, tail), FitsDomains(kind, items), SizeDomains(kind, items), tail)
  {
    assert EachAdds(DomainWriter(kind), DomainFit(kind), DomainSize(kind)) by {
      hide PutDomain; hide FitsDomain; hide SizeDomain;
      forall d: Domain, rest: Out { DomainAdds(kind, d, rest); }
    }
    hide EachAdds;
    ListAdds(items, DomainWriter(kind), DomainFit(kind), DomainSize(kind), tail);
  }

  predicate FitsDomainLists(lists: DomainLists) {
    forall kind: DomainKind :: FitsDomains(kind, lists.Get(kind))
  }

  function SizeDomainLists(lists: DomainLists): nat {
    SizeDomains(Placement, lists.placement) + SizeDomains(Capacity, lists.capacity)
    + SizeDomains(Failure, lists.failure) + SizeDomains(Network, lists.network) + SizeDomains(Storage, lists.storage)
    + SizeDomains(Power, lists.power) + SizeDomains(Cooling, lists.cooling) + SizeDomains(LinkGroup, lists.link)
  }

  lemma DomainListsAdds(lists: DomainLists, tail: Out)
    ensures Adds(PutDomainLists(lists, tail), FitsDomainLists(lists), SizeDomainLists(lists), tail)
  {
    hide PutDomains; hide FitsDomains; hide SizeDomains;
    var t7 := PutDomains(LinkGroup, lists.link, tail);
    var t6 := PutDomains(Cooling, lists.cooling, t7);
    var t5 := PutDomains(Power, lists.power, t6);
    var t4 := PutDomains(Storage, lists.storage, t5);
    var t3 := PutDomains(Network, lists.network, t4);
    var t2 := PutDomains(Failure, lists.failure, t3);
    var t1 := PutDomains(Capacity, lists.capacity, t2);
    DomainsAdds(LinkGroup, lists.link, tail);
    DomainsAdds(Cooling, lists.cooling, t7);
    DomainsAdds(Power, lists.power, t6);
    DomainsAdds(Storage, lists.storage, t5);
    DomainsAdds(Network, lists.network, t4);
    DomainsAdds(Failure, lists.failure, t3);
    DomainsAdds(Capacity, lists.capacity, t2);
    DomainsAdds(Placement, lists.placement, t1);
    assert FitsDomainLists(lists) <==>
      FitsDomains(Placement, lists.Get(Placement)) && FitsDomains(Capacity, lists.Get(Capacity))
      && FitsDomains(Failure, lists.Get(Failure)) && FitsDomains(Network, lists.Get(Network))
      && FitsDomains(Storage, lists.Get(Storage)) && FitsDomains(Power, lists.Get(Power))
      && FitsDomains(Cooling, lists.Get(Cooling)) && FitsDomains(LinkGroup, lists.Get(LinkGroup));
  }

  predicate FitsLink(l: Link) {
    && FitsText(l.id) && FitsText(l.source) && FitsText(l.destination) && FitsOptId(l.networkDomain)
    && FitsOptId(l.linkDomain) && FitsOptId(l.sourceEndpoint) && FitsOptId(l.destinationEndpoint)
    && FitsIds(l.failureDomains) && FitsHeader(l.header) && FitsOptId(l.boot)
  }

  function SizeLink(l: Link): nat {
    53 + SizeText(l.id) + SizeText(l.source) + SizeText(l.destination) + SizeOptId(l.networkDomain)
    + SizeOptId(l.linkDomain) + SizeOptId(l.sourceEndpoint) + SizeOptId(l.destinationEndpoint)
    + SizeIds(l.failureDomains) + SizeHeader(l.header) + SizeOptId(l.boot)
  }

  lemma LinkAdds(l: Link, tail: Out)
    ensures Adds(PutLink(l, tail), FitsLink(l), SizeLink(l), tail)
  {
    hide PutText; hide PutU8; hide PutOptId; hide PutOptU64; hide PutOptU32; hide PutIds; hide PutHeader; hide PutU64;
    hide FitsText; hide FitsOptId; hide FitsIds; hide FitsHeader; hide SizeText; hide SizeOptId; hide SizeIds;
    hide SizeHeader;
    var t21 := PutOptId(l.boot, tail);
    var t20 := PutU64(l.publication, t21);
    var t19 := PutU64(l.topologyGeneration, t20);
    var t18 := PutU64(l.topologyEpoch, t19);
    var t17 := PutHeader(l.header, t18);
    var t16 := PutIds(l.failureDomains, t17);
    var t15 := PutU8(l.health, t16);
    var t14 := PutU8(ReachabilityCode(l.reachability), t15);
    var t13 := PutOptU32(l.hops, t14);
    var t12 := PutOptU64(l.latency, t13);
    var t11 := PutU8(l.latencyClass, t12);
    var t10 := PutOptU64(l.bandwidth, t11);
    var t9 := PutU8(l.bandwidthClass, t10);
    var t8 := PutOptId(l.destinationEndpoint, t9);
    var t7 := PutOptId(l.sourceEndpoint, t8);
    var t6 := PutOptId(l.linkDomain, t7);
    var t5 := PutOptId(l.networkDomain, t6);
    var t4 := PutU8(l.connectivity, t5);
    var t3 := PutU8(DirectionCode(l.direction), t4);
    var t2 := PutText(l.destination, t3);
    var t1 := PutText(l.source, t2);
    OptIdAdds(l.boot, tail);
    U64Adds(l.publication, t21);
    U64Adds(l.topologyGeneration, t20);
    U64Adds(l.topologyEpoch, t19);
    HeaderAdds(l.header, t18);
    IdsAdds(l.failureDomains, t17);
    U8Adds(l.health, t16);
    U8Adds(ReachabilityCode(l.reachability), t15);
    OptU32Adds(l.hops, t14);
    OptU64Adds(l.latency, t13);
    U8Adds(l.latencyClass, t12);
    OptU64Adds(l.bandwidth, t11);
    U8Adds(l.bandwidthClass, t10);
    OptIdAdds(l.destinationEndpoint, t9);
    OptIdAdds(l.sourceEndpoint, t8);
    OptIdAdds(l.linkDomain, t7);
    OptIdAdds(l.networkDomain, t6);
    U8Adds(l.connectivity, t5);
    U8Adds(DirectionCode(l.direction), t4);
    TextAdds(l.destination, t3);
    TextAdds(l.source, t2);
    TextAdds(l.id, t1);
  }

  predicate FitsLinks(items: seq<Link>) { FitsList(items, FitsLink) }

  function SizeLinks(items: seq<Link>): nat { SizeList(items, SizeLink) }

  lemma LinksAdds(items: seq<Link>, tail: Out)
    ensures Adds(PutLinks(items, tail), FitsLinks(items), SizeLinks(items), tail)
  {
    assert EachAdds(PutLink, FitsLink, SizeLink) by {
      hide PutLink; hide FitsLink; hide SizeLink;
      forall x: Link, rest: Out { LinkAdds(x, rest); }
    }
    hide EachAdds;
    ListAdds(items, PutLink, FitsLink, SizeLink, tail);
  }

  predicate FitsConstraint(c: Constraint) {
    FitsText(c.id) && FitsIds(c.racks) && FitsText(c.domainRef) && FitsText(c.statement) && FitsHeader(c.header)
  }

  function SizeConstraint(c: Constraint): nat {
    1 + SizeText(c.id) + SizeIds(c.racks) + SizeText(c.domainRef) + SizeText(c.statement) + SizeHeader(c.header)
  }

  lemma ConstraintAdds(c: Constraint, tail: Out)
    ensures Adds(PutConstraint(c, tail), FitsConstraint(c), SizeConstraint(c), tail)
  {
    hide PutText; hide PutU8; hide PutIds; hide PutHeader; hide FitsText; hide FitsIds; hide FitsHeader;
    hide SizeText; hide SizeIds; hide SizeHeader;
    var t5 := PutHeader(c.header, tail);
    var t4 := PutText(c.statement, t5);
    var t3 := PutText(c.domainRef, t4);
    var t2 := PutIds(c.racks, t3);
    var t1 := PutU8(c.kind, t2);
    HeaderAdds(c.header, tail);
    TextAdds(c.statement, t5);
    TextAdds(c.domainRef, t4);
    IdsAdds(c.racks, t3);
    U8Adds(c.kind, t2);
    TextAdds(c.id, t1);
  }

  predicate FitsConstraints(items: seq<Constraint>) { FitsList(items, FitsConstraint) }

  function SizeConstraints(items: seq<Constraint>): nat { SizeList(items, SizeConstraint) }

  lemma ConstraintsAdds(items: seq<Constraint>, tail: Out)
    ensures Adds(PutConstraints(items, tail), FitsConstraints(items), SizeConstraints(items), tail)
  {
    assert EachAdds(PutConstraint, FitsConstraint, SizeConstraint) by {
      hide PutConstraint; hide FitsConstraint; hide SizeConstraint;
      forall x: Constraint, rest: Out { ConstraintAdds(x, rest); }
    }
    hide EachAdds;
    ListAdds(items, PutConstraint, FitsConstraint, SizeConstraint, tail);
  }

  predicate FitsRetired(r: RetiredIdentity) { FitsText(r.rack) && FitsText(r.reason) }

  function SizeRetired(r: RetiredIdentity): nat { 16 + SizeText(r.rack) + SizeText(r.reason) }

  lemma RetiredAdds(r: RetiredIdentity, tail: Out)
    ensures Adds(PutRetired(r, tail), FitsRetired(r), SizeRetired(r), tail)
  {
    hide PutText; hide PutU64; hide PutI64; hide FitsText; hide SizeText;
    var t3 := PutText(r.reason, tail);
    var t2 := PutI64(r.at, t3);
    var t1 := PutU64(r.lastGeneration, t2);
    TextAdds(r.reason, tail);
    I64Adds(r.at, t3);
    U64Adds(r.lastGeneration, t2);
    TextAdds(r.rack, t1);
  }

  predicate FitsRetiredList(items: seq<RetiredIdentity>) { FitsList(items, FitsRetired) }

  function SizeRetiredList(items: seq<RetiredIdentity>): nat { SizeList(items, SizeRetired) }

  lemma RetiredListAdds(items: seq<RetiredIdentity>, tail: Out)
    ensures Adds(PutRetiredList(items, tail), FitsRetiredList(items), SizeRetiredList(items), tail)
  {
    assert EachAdds(PutRetired, FitsRetired, SizeRetired) by {
      hide PutRetired; hide FitsRetired; hide SizeRetired;
      forall x: RetiredIdentity, rest: Out { RetiredAdds(x, rest); }
    }
    hide EachAdds;
    ListAdds(items, PutRetired, FitsRetired, SizeRetired, tail);
  }

  predicate FitsFenced(f: FencedAuthority) { FitsText(f.boot) && FitsText(f.rack) && FitsText(f.reason) }

  function SizeFenced(f: FencedAuthority): nat { 8 + SizeText(f.boot) + SizeText(f.rack) + SizeText(f.reason) }

  lemma FencedAdds(f: FencedAuthority, tail: Out)
    ensures Adds(PutFenced(f, tail), FitsFenced(f), SizeFenced(f), tail)
  {
    hide PutText; hide PutI64; hide FitsText; hide SizeText;
    var t3 := PutI64(f.at, tail);
    var t2 := PutText(f.reason, t3);
    var t1 := PutText(f.rack, t2);
    I64Adds(f.at, tail);
    TextAdds(f.reason, t3);
    TextAdds(f.rack, t2);
    TextAdds(f.boot, t1);
  }

  predicate FitsFencedList(items: seq<FencedAuthority>) { FitsList(items, FitsFenced) }

  function SizeFencedList(items: seq<FencedAuthority>): nat { SizeList(items, SizeFenced) }

  lemma FencedListAdds(items: seq<FencedAuthority>, tail: Out)
    ensures Adds(PutFencedList(items, tail), FitsFencedList(items), SizeFencedList(items), tail)
  {
    assert EachAdds(PutFenced, FitsFenced, SizeFenced) by {
      hide PutFenced; hide FitsFenced; hide SizeFenced;
      forall x: FencedAuthority, rest: Out { FencedAdds(x, rest); }
    }
    hide EachAdds;
    ListAdds(items, PutFenced, FitsFenced, SizeFenced, tail);
  }

  // ---- the whole state -------------------------------------------------------------------

  /** Every text is within its bound, every count fits, and no domain uses a field of another class. */
  predicate FitsState(p: Persisted) {
    && FitsText(p.id) && FitsContract(p.sc.contract) && FitsTopology(p.sc.topology) && FitsRacks(p.racks)
    && FitsDomainLists(p.domains) && FitsLinks(p.links) && FitsConstraints(p.constraints)
    && FitsRetiredList(p.sc.retired) && FitsIds(p.sc.withdrawn) && FitsFencedList(p.sc.fenced)
  }

  function SizeState(p: Persisted): nat {
    169 + SizeText(p.id) + SizeContract(p.sc.contract) + SizeTopology(p.sc.topology) + SizeRacks(p.racks)
    + SizeDomainLists(p.domains) + SizeLinks(p.links) + SizeConstraints(p.constraints) + SizeRetiredList(p.sc.retired)
    + SizeIds(p.sc.withdrawn) + SizeFencedList(p.sc.fenced)
  }

  lemma StateAdds(p: Persisted, tail: Out)
    ensures Adds(PutState(p, tail), FitsState(p), SizeState(p), tail)
  {
    hide PutText; hide PutU64; hide PutGenerations; hide PutU8; hide PutContract; hide PutTopology; hide PutI64;
    hide PutRacks; hide PutDomainLists; hide PutLinks; hide PutConstraints; hide PutRetiredList; hide PutIds;
    hide PutFencedList; hide FitsText; hide FitsContract; hide FitsTopology; hide FitsRacks; hide FitsDomainLists;
    hide FitsLinks; hide FitsConstraints; hide FitsRetiredList; hide FitsIds; hide FitsFencedList; hide SizeText;
    hide SizeContract; hide SizeTopology; hide SizeRacks; hide SizeDomainLists; hide SizeLinks; hide SizeConstraints;
    hide SizeRetiredList; hide SizeIds; hide SizeFencedList;
    var t24 := PutFencedList(p.sc.fenced, tail);
    var t23 := PutIds(p.sc.withdrawn, t24);
    var t22 := PutRetiredList(p.sc.retired, t23);
    var t21 := PutConstraints(p.constraints, t22);
    var t20 := PutLinks(p.links, t21);
    var t19 := PutDomainLists(p.domains, t20);
    var t18 := PutRacks(p.racks, t19);
    var t17 := PutI64(p.sc.lastMutationAt, t18);
    var t16 := PutI64(p.sc.declaredAt, t17);
    var t15 := PutTopology(p.sc.topology, t16);
    var t14 := PutContract(p.sc.contract, t15);
    var t13 := PutU8(LifecycleCode(p.sc.lifecycle), t14);
    var t12 := PutU64(p.sc.publicationGeneration, t13);
    var t11 := PutU64(p.sc.snapshotGeneration, t12);
    var t10 := PutGenerations(p.sc.domainGenerations, t11);
    var t9 := PutU64(p.sc.constraintGeneration, t10);
    var t8 := PutU64(p.sc.healthGeneration, t9);
    var t7 := PutU64(p.sc.connectivityGeneration, t8);
    var t6 := PutU64(p.sc.topologyGeneration, t7);
    var t5 := PutU64(p.sc.topologyEpoch, t6);
    var t4 := PutU64(p.sc.membershipGeneration, t5);
    var t3 := PutU64(p.sc.generation, t4);
    var t2 := PutU64(p.sc.coordinatorEpoch, t3);
    var t1 := PutU64(p.sc.epoch, t2);
    FencedListAdds(p.sc.fenced, tail);
    IdsAdds(p.sc.withdrawn, t24);
    RetiredListAdds(p.sc.retired, t23);
    ConstraintsAdds(p.constraints, t22);
    LinksAdds(p.links, t21);
    DomainListsAdds(p.domains, t20);
    RacksAdds(p.racks, t19);
    I64Adds(p.sc.lastMutationAt, t18);
    I64Adds(p.sc.declaredAt, t17);
    TopologyAdds(p.sc.topology, t16);
    ContractAdds(p.sc.contract, t15);
    U8Adds(LifecycleCode(p.sc.lifecycle), t14);
    U64Adds(p.sc.publicationGeneration, t13);
    U64Adds(p.sc.snapshotGeneration, t12);
    GenerationsAdds(p.sc.domainGenerations, t11);
    U64Adds(p.sc.constraintGeneration, t10);
    U64Adds(p.sc.healthGeneration, t9);
    U64Adds(p.sc.connectivityGeneration, t8);
    U64Adds(p.sc.topologyGeneration, t7);
    U64Adds(p.sc.topologyEpoch, t6);
    U64Adds(p.sc.membershipGeneration, t5);
    U64Adds(p.sc.generation, t4);
    U64Adds(p.sc.coordinatorEpoch, t3);
    U64Adds(p.sc.epoch, t2);
    TextAdds(p.id, t1);
  }

  /** A state is encoded exactly if it fits, record by record, and its size is within the container's limit. */
  lemma EncodesExactly(p: Persisted)
    ensures Encode(p).Some? <==> FitsState(p) && SizeState(p) <= MAX_BYTES - HEADER
    ensures Encode(p).Some? ==> |Encode(p).value| == HEADER + SizeState(p)
  {
    hide PutState; hide FitsState; hide SizeState; hide Boxed;
    StateAdds(p, Some([]));
    if Encode(p).Some? { BoxedSize(PutState(p, Some([])).value); }
  }

  lemma BoxedSize(payload: seq<byte>)
    requires |payload| <= MAX_BYTES
    ensures |Boxed(payload)| == HEADER + |payload|
  {
    PreambleFields(|payload|);
    hide Preamble; hide Seal;
  }

  /** Exactly the states that come back from a container: they fit, and they are acceptable and valid. */
  lemma RoundTripsExactly(p: Persisted)
    ensures (Encode(p).Some? && Decode(Encode(p).value) == Loaded(p)) <==>
      FitsState(p) && SizeState(p) <= MAX_BYTES - HEADER && Accepts(p) && Valid(p)
  {
    hide Encode; hide Decode; hide FitsState; hide SizeState; hide Accepts; hide Valid;
    EncodesExactly(p);
    if Encode(p).Some? { RoundTrip(p); }
  }

  /** A declared cluster without records, superseded for the given reason. */
  function Recordless(reason: Text): Persisted {
    Persisted([65],
              Scalars(1, 1, 1, 1, 1, 1, 1, 1, 1, DomainGenerations(1, 1, 1, 1, 1, 1, 1, 1), 1, 1, Lifecycle.Declared,
                      Contract(0, [], false, false, 0, [], [], true, true, false),
                      TopologyRecord(1, 1, 1, NO_EVIDENCE, reason), [], [], [], 0, 0),
              [], DomainLists([], [], [], [], [], [], [], []), [], [])
  }

  /** A valid state need not fit: nothing bounds the text behind the topology before the writer does. */
  lemma ValidNeedNotEncode(reason: Text)
    ensures Accepts(Recordless(reason)) && Valid(Recordless(reason))
    ensures Encode(Recordless(reason)).Some? <==> |reason| <= MAX_TEXT
  {
    hide Encode; hide Accepts; hide Valid;
    EncodesExactly(Recordless(reason));
    RecordlessIsValid(reason);
    RecordlessFits(reason);
    hide FitsState; hide SizeState;
  }

  lemma RecordlessFits(reason: Text)
    ensures FitsState(Recordless(reason)) <==> |reason| <= MAX_TEXT
    ensures SizeState(Recordless(reason)) <= 1000 + |reason|
  {}

  lemma RecordlessIsValid(reason: Text)
    ensures Accepts(Recordless(reason)) && Valid(Recordless(reason))
  {}
}
