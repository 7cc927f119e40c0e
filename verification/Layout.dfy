/** Where the container keeps what, and what holds of every state that was read from one. */
module Layout {
  import opened Foundation
  import opened TextOrder
  import opened Sorting
  import opened EvidenceStamps
  import opened Records
  import opened Mutations
  import opened Durable
  import opened Wire
  import opened RecordCodecs
  import opened Octets
  import opened Crc
  import opened Container
  import Permits

  // ---- offsets ---------------------------------------------------------------------------

  function Words(xs: seq<u64>, tail: Out): Out {
    if xs == [] then tail else PutU64(xs[0], Words(xs[1..], tail))
  }

  /** The counters behind the cluster identity, in the order of the container. */
  function Counters(sc: Scalars): seq<u64> {
    [sc.epoch, sc.coordinatorEpoch, sc.generation, sc.membershipGeneration, sc.topologyEpoch, sc.topologyGeneration,
     sc.connectivityGeneration, sc.healthGeneration, sc.constraintGeneration]
    + [sc.domainGenerations.Get(Placement), sc.domainGenerations.Get(Capacity), sc.domainGenerations.Get(Failure),
       sc.domainGenerations.Get(Network), sc.domainGenerations.Get(Storage), sc.domainGenerations.Get(Power),
       sc.domainGenerations.Get(Cooling), sc.domainGenerations.Get(LinkGroup)]
    + [sc.snapshotGeneration, sc.publicationGeneration]
  }

  lemma {:induction false} WordsAppend(xs: seq<u64>, ys: seq<u64>, tail: Out)
    ensures Words(xs + ys, tail) == Words(xs, Words(ys, tail))
  {
    if xs == [] {
      assert xs + ys == ys;
    } else {
      assert (xs + ys)[1..] == xs[1..] + ys;
      WordsAppend(xs[1..], ys, tail);
    }
  }

  /** Word k stands at byte 8 k, and the tail behind the last word. */
  lemma {:induction false} WordsAt(xs: seq<u64>, tail: Out, k: nat)
    requires Words(xs, tail).Some? && k < |xs|
    ensures tail.Some? && var b := Words(xs, tail).value;
      |b| == 8 * |xs| + |tail.value| && FromLE(b[8 * k..8 * k + 8]) == xs[k] && b[8 * |xs|..] == tail.value
  {
    hide LE; hide FromLE;
    Widths();
    LEInverts(8, xs[0]);
    hide Pow256;
    var b, rest := Words(xs, tail).value, Words(xs[1..], tail);
    assert b == LE(8, xs[0]) + rest.value;
    if |xs| == 1 {
      assert rest == tail && b[..8] == LE(8, xs[0]) && b[8..] == tail.value;
    } else {
      WordsAt(xs[1..], tail, if k == 0 then 0 else k - 1);
      assert b[8 * |xs|..] == rest.value[8 * (|xs| - 1)..];
      if k == 0 { assert b[..8] == LE(8, xs[0]); } else {
        assert b[8 * k..8 * k + 8] == rest.value[8 * (k - 1)..8 * (k - 1) + 8];
        assert xs[k] == xs[1..][k - 1];
      }
    }
  }

  lemma WordsCons(x: u64, xs: seq<u64>, tail: Out)
    ensures Words([x] + xs, tail) == PutU64(x, Words(xs, tail))
  {
    assert ([x] + xs)[1..] == xs;
  }

  lemma TwoWords(a: u64, b: u64, tail: Out)
    ensures Words([a, b], tail) == PutU64(a, PutU64(b, tail))
  {
    hide PutU64;
    WordsCons(a, [b], tail);
    WordsCons(b, [], tail);
    assert [a, b] == [a] + [b] && [b] == [b] + [];
  }

  lemma FourWords(a: u64, b: u64, c: u64, d: u64, tail: Out)
    ensures Words([a, b, c, d], tail) == PutU64(a, PutU64(b, PutU64(c, PutU64(d, tail))))
  {
    hide PutU64;
    WordsAppend([a, b], [c, d], tail);
    TwoWords(c, d, tail);
    TwoWords(a, b, Words([c, d], tail));
    assert [a, b, c, d] == [a, b] + [c, d];
  }

  lemma GenerationWords(g: DomainGenerations, tail: Out)
    ensures PutGenerations(g, tail)
      == Words([g.Get(Placement), g.Get(Capacity), g.Get(Failure), g.Get(Network), g.Get(Storage), g.Get(Power),
                g.Get(Cooling), g.Get(LinkGroup)], tail)
  {
    hide PutU64; hide Words;
    var xs := [g.Get(Placement), g.Get(Capacity), g.Get(Failure), g.Get(Network)];
    var ys := [g.Get(Storage), g.Get(Power), g.Get(Cooling), g.Get(LinkGroup)];
    WordsAppend(xs, ys, tail);
    FourWords(g.storage, g.power, g.cooling, g.link, tail);
    FourWords(g.placement, g.capacity, g.failure, g.network, Words(ys, tail));
    assert xs + ys == [g.Get(Placement), g.Get(Capacity), g.Get(Failure), g.Get(Network), g.Get(Storage),
                       g.Get(Power), g.Get(Cooling), g.Get(LinkGroup)];
  }

  function Rest(p: Persisted): Out {
    PutContract(p.sc.contract, PutTopology(p.sc.topology,
      PutI64(p.sc.declaredAt, PutI64(p.sc.lastMutationAt, PutRacks(p.racks, PutDomainLists(p.domains,
      PutLinks(p.links, PutConstraints(p.constraints, PutRetiredList(p.sc.retired, PutIds(p.sc.withdrawn,
      PutFencedList(p.sc.fenced, Some([]))))))))))))
  }

  lemma StateBegins(p: Persisted)
    ensures PutState(p, Some([]))
      == PutText(p.id, Words(Counters(p.sc), PutU8(LifecycleCode(p.sc.lifecycle), Rest(p))))
  {
    hide PutU64; hide Words; hide PutText; hide PutContract; hide PutTopology; hide PutI64; hide PutRacks;
    hide PutDomainLists; hide PutLinks; hide PutConstraints; hide PutRetiredList; hide PutIds; hide PutFencedList;
    hide PutU8; hide PutGenerations; hide DomainGenerations.Get;
    var sc, g, tail := p.sc, p.sc.domainGenerations, PutU8(LifecycleCode(p.sc.lifecycle), Rest(p));
    var xs := [sc.epoch, sc.coordinatorEpoch, sc.generation, sc.membershipGeneration, sc.topologyEpoch,
               sc.topologyGeneration, sc.connectivityGeneration, sc.healthGeneration, sc.constraintGeneration];
    var ys := [g.Get(Placement), g.Get(Capacity), g.Get(Failure), g.Get(Network), g.Get(Storage), g.Get(Power),
               g.Get(Cooling), g.Get(LinkGroup)];
    var zs := [sc.snapshotGeneration, sc.publicationGeneration];
    assert Counters(sc) == xs + ys + zs;
    WordsAppend(xs + ys, zs, tail);
    WordsAppend(xs, ys, Words(zs, tail));
    TwoWords(sc.snapshotGeneration, sc.publicationGeneration, tail);
    GenerationWords(g, Words(zs, tail));
    NineWords(sc, Words(ys, Words(zs, tail)));
  }

  lemma NineWords(sc: Scalars, tail: Out)
    ensures Words([sc.epoch, sc.coordinatorEpoch, sc.generation, sc.membershipGeneration, sc.topologyEpoch,
                   sc.topologyGeneration, sc.connectivityGeneration, sc.healthGeneration,
                   sc.constraintGeneration], tail)
      == PutU64(sc.epoch, PutU64(sc.coordinatorEpoch, PutU64(sc.generation, PutU64(sc.membershipGeneration,
           PutU64(sc.topologyEpoch, PutU64(sc.topologyGeneration, PutU64(sc.connectivityGeneration,
           PutU64(sc.healthGeneration, PutU64(sc.constraintGeneration, tail)))))))))
  {
    hide PutU64; hide Words;
    var xs := [sc.epoch, sc.coordinatorEpoch, sc.generation, sc.membershipGeneration];
    var ys := [sc.topologyEpoch, sc.topologyGeneration, sc.connectivityGeneration, sc.healthGeneration];
    var z := [sc.constraintGeneration];
    assert xs + ys + z == [sc.epoch, sc.coordinatorEpoch, sc.generation, sc.membershipGeneration, sc.topologyEpoch,
                           sc.topologyGeneration, sc.connectivityGeneration, sc.healthGeneration,
                           sc.constraintGeneration];
    WordsAppend(xs + ys, z, tail);
    WordsAppend(xs, ys, Words(z, tail));
    OneWord(sc.constraintGeneration, tail);
    FourWords(sc.topologyEpoch, sc.topologyGeneration, sc.connectivityGeneration, sc.healthGeneration, Words(z, tail));
    FourWords(sc.epoch, sc.coordinatorEpoch, sc.generation, sc.membershipGeneration, Words(ys, Words(z, tail)));
  }

  lemma OneWord(a: u64, tail: Out)
    ensures Words([a], tail) == PutU64(a, tail)
  {
    hide PutU64;
    WordsCons(a, [], tail);
    assert [a] == [a] + [];
  }

  /** "CFS1", version 1 and no flags. */
  lemma MagicBytes(length: u32)
    ensures Preamble(length)[..8] == [0x43, 0x46, 0x53, 0x31, 1, 0, 0, 0]
  {
    assert LE(4, MAGIC) == [0x43, 0x46, 0x53, 0x31] by {
      assert LE(3, 0x315346) == [0x46, 0x53, 0x31] by { assert LE(2, 0x3153) == [0x53, 0x31]; }
    }
    assert LE(2, VERSION) == [1, 0] && LE(2, 0) == [0, 0];
  }

  function LifecycleByte(l: Lifecycle): byte {
    match l
    case Declared => 0 case Forming => 1 case Partial => 2 case Ready => 3
    case Degraded => 4 case RevalidationRequired => 5 case Retiring => 6 case Retired => 7
  }

  /**
   * The fixed part of a container: magic, version, flags, length, checksum, identity, nineteen counters of eight
   * bytes each, lifecycle.
   */
  lemma ContainerLayout(p: Persisted, k: nat)
    requires Encode(p).Some? && k < 19
    ensures var b, base := Encode(p).value, 20 + |p.id|;
      && |b| > base + 152 && b[..8] == [0x43, 0x46, 0x53, 0x31, 1, 0, 0, 0]
      && FromLE(b[8..12]) == |b| - 16 && b[12..16] == Bytes(Seal(b[..12], b[16..]))
      && FromLE(b[16..20]) == |p.id| && b[20..base] == p.id
      && FromLE(b[base + 8 * k..base + 8 * k + 8]) == Counters(p.sc)[k]
      && b[base + 152] == LifecycleByte(p.sc.lifecycle)
  {
    hide PutState; hide LE; hide FromLE; hide Words; hide Rest; hide Counters; hide Seal; hide Bytes;
    var payload := PutState(p, Some([])).value;
    var b, base := Encode(p).value, 20 + |p.id|;
    PayloadLayout(p, k);
    PreambleFields(|payload|);
    MagicBytes(|payload|);
    assert |Counters(p.sc)| == 19 by { CountersCount(p.sc); }
    var h := Preamble(|payload|);
    hide Preamble;
    assert |Bytes(Seal(h, payload))| == 4 by { WordOfBytes(Seal(h, payload)); }
    assert b[..12] == h && b[16..] == payload && b[12..16] == Bytes(Seal(h, payload));
    assert b[..8] == h[..8] && b[8..12] == h[8..12];
    assert b[16..20] == payload[..4] && b[20..base] == payload[4..4 + |p.id|];
    assert b[base + 8 * k..base + 8 * k + 8] == payload[base - 16 + 8 * k..base - 16 + 8 * k + 8];
    assert b[base + 152] == payload[base - 16 + 152];
  }

  lemma CountersCount(sc: Scalars)
    ensures |Counters(sc)| == 19
  {}

  lemma PayloadLayout(p: Persisted, k: nat)
    requires PutState(p, Some([])).Some? && k < 19
    ensures |Counters(p.sc)| == 19
    ensures var b, base := PutState(p, Some([])).value, 4 + |p.id|;
      && |b| > base + 152 && FromLE(b[..4]) == |p.id| && b[4..base] == p.id
      && FromLE(b[base + 8 * k..base + 8 * k + 8]) == Counters(p.sc)[k]
      && b[base + 152] == LifecycleByte(p.sc.lifecycle)
  {
    hide PutState; hide LE; hide FromLE; hide Words; hide Rest; hide Counters;
    StateBegins(p);
    CountersCount(p.sc);
    var tail := PutU8(LifecycleCode(p.sc.lifecycle), Rest(p));
    var words := Words(Counters(p.sc), tail);
    WordsAt(Counters(p.sc), tail, k);
    Widths();
    LEInverts(4, |p.id|);
    hide Pow256;
    var b, base := PutState(p, Some([])).value, 4 + |p.id|;
    assert b == LE(4, |p.id|) + (p.id + words.value);
    assert b[..4] == LE(4, |p.id|) && b[4..base] == p.id && b[base..] == words.value;
    assert b[base + 8 * k..base + 8 * k + 8] == words.value[8 * k..8 * k + 8];
    assert b[base + 152] == words.value[152] == words.value[152..][0];
  }

  /** Each refusal to open says what is wrong with the bytes. */
  lemma RefusalsAreTruthful(b: seq<byte>)
    requires Opened(b).Some?
    ensures var length := if |b| < 16 then 0 else FromLE(b[8..12]);
      match Opened(b).value
      case EmptyInput => |b| == 0
      case TruncatedHeader => 0 < |b| < 16
      case BadMagic => |b| >= 16 && FromLE(b[..4]) != 0x31534643
      case UnsupportedVersion => |b| >= 16 && FromLE(b[4..6]) != 1
      case UnsupportedFlags => |b| >= 16 && FromLE(b[6..8]) != 0
      case PayloadTooLarge => |b| >= 16 && length > 0x1000_0000
      case TruncatedBody => |b| >= 16 && |b| < 16 + length
      case TrailingGarbage => |b| > 16 + length
      case ChecksumMismatch =>
        |b| == 16 + length && Bytes(Xor(Checksum(b[..12]), Checksum(b[16..]))) != b[12..16]
      case _ => false
  {
    hide FromLE; hide Word; hide Bytes; hide Checksum; hide Xor;
    if |b| >= 16 { WordOfBytes(Xor(Checksum(b[..12]), Checksum(b[16..]))); }
  }

  // ---- what every loaded state satisfies -------------------------------------------------

  lemma {:induction false} LinkedIsAscending<T(!new)>(s: seq<T>, lt: (T, T) -> bool)
    requires forall a, b, c :: lt(a, b) && lt(b, c) ==> lt(a, c)
    ensures Linked(s, lt) <==> Ascending(s, lt)
  {
    if s != [] && Linked(s, lt) {
      var front, last := s[..|s| - 1], s[|s| - 1];
      LinkedIsAscending(front, lt);
      forall i | 0 <= i < |front| ensures lt(s[i], last) {
        assert lt(s[|s| - 2], last);
        if i < |front| - 1 { assert lt(front[i], front[|front| - 1]); }
      }
    }
  }

  predicate Named(ids: seq<DurableRack>, x: Id) { exists i | 0 <= i < |ids| :: ids[i].rack == x }

  predicate DomainNamed(ds: seq<Domain>, x: Id) { exists i | 0 <= i < |ds| :: ds[i].id == x }

  ghost predicate RackStands(r: DurableRack) {
    && IsIdentity(r.rack) && r.generation > 0 && IsIdentity(r.publisher) && |r.endpoints| <= 256 && |r.hints| <= 256
    && (forall i | 0 <= i < |r.endpoints| :: IsIdentity(r.endpoints[i].id))
    && (forall i, j | 0 <= i < j < |r.endpoints| :: Less(r.endpoints[i].id, r.endpoints[j].id))
    && (forall i | 0 <= i < |r.hints| :: r.hints[i].klass > 0 && IsIdentity(r.hints[i].id))
    && Ascending(r.hints, HintBefore)
  }

  ghost predicate MembersStand(p: Persisted, members: seq<Id>) {
    && |members| <= 16384 && (forall i | 0 <= i < |members| :: IsIdentity(members[i]) && Named(p.racks, members[i]))
    && forall i, j | 0 <= i < j < |members| :: Less(members[i], members[j])
  }

  ghost predicate DomainsStand(p: Persisted, ds: seq<Domain>) {
    && |ds| <= 16384
    && (forall i | 0 <= i < |ds| :: IsIdentity(ds[i].id) && ds[i].header.generation > 0 && MembersStand(p, ds[i].racks))
    && forall i, j | 0 <= i < j < |ds| :: Less(ds[i].id, ds[j].id)
  }

  ghost predicate LinkStands(p: Persisted, l: Link) {
    && IsIdentity(l.id) && l.source != [] && l.destination != [] && l.source != l.destination
    && Named(p.racks, l.source) && Named(p.racks, l.destination) && l.header.generation > 0 && l.topologyEpoch > 0
    && (l.networkDomain.Some? ==> DomainNamed(p.domains.network, l.networkDomain.value))
    && (l.linkDomain.Some? ==> DomainNamed(p.domains.link, l.linkDomain.value))
  }

  ghost predicate QuantitiesStand(qs: seq<Quantity>) {
    && |qs| <= 64
    && (forall i | 0 <= i < |qs| ::
          0 < |qs[i].unit| <= 4096 && (qs[i].value.Some? ==> Finite(qs[i].value.value)))
    && forall i, j | 0 <= i < j < |qs| :: UnitBefore(qs[i], qs[j])
  }

  predicate ScalarsStand(p: Persisted) {
    && IsIdentity(p.id) && (p.sc.topologyEpoch > 0 || p.sc.topology.epoch > 0)
    && 0 !in {p.sc.epoch, p.sc.coordinatorEpoch, p.sc.generation, p.sc.membershipGeneration, p.sc.topologyGeneration,
              p.sc.connectivityGeneration, p.sc.healthGeneration, p.sc.constraintGeneration, p.sc.snapshotGeneration,
              p.sc.publicationGeneration}
    && |p.racks| <= 16384 && |p.links| <= 262144 && |p.constraints| <= 4096
  }

  ghost predicate ListsStand(p: Persisted) {
    && (forall i, j | 0 <= i < j < |p.sc.retired| :: Less(p.sc.retired[i].rack, p.sc.retired[j].rack))
    && (forall i | 0 <= i < |p.sc.retired| :: IsIdentity(p.sc.retired[i].rack) && p.sc.retired[i].lastGeneration > 0)
    && (forall i, j | 0 <= i < j < |p.sc.withdrawn| :: Less(p.sc.withdrawn[i], p.sc.withdrawn[j]))
    && (forall i | 0 <= i < |p.sc.withdrawn| ::
          && IsIdentity(p.sc.withdrawn[i])
          && forall j | 0 <= j < |p.sc.retired| :: p.sc.retired[j].rack != p.sc.withdrawn[i])
    && (forall i | 0 <= i < |p.sc.fenced| ::
          && IsIdentity(p.sc.fenced[i].boot) && IsIdentity(p.sc.fenced[i].rack) && 0 < |p.sc.fenced[i].reason| <= 4096)
  }

  ghost predicate RecordsStand(p: Persisted) {
    && (forall i, j | 0 <= i < j < |p.racks| :: Less(p.racks[i].rack, p.racks[j].rack))
    && (forall i | 0 <= i < |p.racks| :: RackStands(p.racks[i]))
    && (forall kind: DomainKind :: DomainsStand(p, p.domains.Get(kind)))
    && (forall i | 0 <= i < |p.domains.Get(Capacity)| :: QuantitiesStand(p.domains.Get(Capacity)[i].quantities))
    && (forall i, j | 0 <= i < j < |p.links| :: Less(p.links[i].id, p.links[j].id))
    && (forall i | 0 <= i < |p.links| :: LinkStands(p, p.links[i]))
    && (forall i, j | 0 <= i < j < |p.constraints| :: Less(p.constraints[i].id, p.constraints[j].id))
    && (forall i | 0 <= i < |p.constraints| ::
          && IsIdentity(p.constraints[i].id) && p.constraints[i].kind > 0 && p.constraints[i].header.generation > 0
          && MembersStand(p, p.constraints[i].racks))
  }

  lemma RackStandsExactly(r: DurableRack)
    ensures ValidRack(r) <==> RackStands(r)
  {
    Permits.EndpointsAreOrdered();
    Permits.HintsAreOrdered();
    LinkedIsAscending(r.endpoints, EndpointBefore);
    LinkedIsAscending(r.hints, HintBefore);
    hide Linked; hide HintBefore; hide IsIdentity; hide Less; hide StrictOrder;
    assert forall i | 0 <= i < |r.endpoints| :: r.endpoints[i] in r.endpoints;
    assert forall i | 0 <= i < |r.hints| :: r.hints[i] in r.hints;
  }

  lemma MembersStandExactly(p: Persisted, members: seq<Id>)
    ensures ValidMembers(members, RackIds(p.racks)) <==> MembersStand(p, members)
  {
    hide Linked; hide IsIdentity; hide Less; hide StrictOrder;
    TextIsOrdered();
    LinkedIsAscending(members, Before);
    forall x ensures x in RackIds(p.racks) <==> Named(p.racks, x) { NamedExactly(p.racks, x); }
    hide RackIds; hide Named;
    assert forall i | 0 <= i < |members| :: members[i] in members;
    assert forall a: Text, b: Text :: Before(a, b) == Less(a, b);
  }

  lemma NamedExactly(racks: seq<DurableRack>, x: Id)
    ensures x in RackIds(racks) <==> Named(racks, x)
  {
    if i: nat :| i < |racks| && racks[i].rack == x { assert RackIds(racks)[i] == x; }
  }

  lemma DomainNamedExactly(ds: seq<Domain>, x: Id)
    ensures x in Ids(ds) <==> DomainNamed(ds, x)
  {
    if i: nat :| i < |ds| && ds[i].id == x { assert Ids(ds)[i] == x; }
  }

  lemma DomainsStandExactly(p: Persisted, ds: seq<Domain>)
    ensures ValidDomains(ds, RackIds(p.racks)) <==> DomainsStand(p, ds)
  {
    TextIsOrdered();
    assert forall a: Domain, b: Domain :: DomainBefore(a, b) == Before(a.id, b.id);
    LinkedIsAscending(ds, DomainBefore);
    forall i | 0 <= i < |ds| { MembersStandExactly(p, ds[i].racks); }
    hide Linked; hide IsIdentity; hide Less; hide StrictOrder; hide ValidMembers; hide MembersStand; hide RackIds;
    assert forall i | 0 <= i < |ds| :: ds[i] in ds;
  }

  lemma QuantitiesStandExactly(qs: seq<Quantity>)
    ensures ValidQuantities(qs) <==> QuantitiesStand(qs)
  {
    TextIsOrdered();
    assert forall a: Quantity, b: Quantity ::
      UnitBefore(a, b)
      == (Before(a.unit, b.unit)
          || (a.unit == b.unit && ProvenanceCode(a.provenance) < ProvenanceCode(b.provenance)));
    LinkedIsAscending(qs, UnitBefore);
    hide Linked; hide Less; hide StrictOrder; hide UnitBefore; hide Finite;
    assert forall i | 0 <= i < |qs| :: qs[i] in qs;
  }

  lemma LinksStandExactly(p: Persisted)
    ensures ValidLinks(p.links, RackIds(p.racks), Ids(p.domains.network), Ids(p.domains.link)) <==>
      && (forall i, j | 0 <= i < j < |p.links| :: Less(p.links[i].id, p.links[j].id))
      && (forall i | 0 <= i < |p.links| :: LinkStands(p, p.links[i]))
  {
    TextIsOrdered();
    assert forall a: Link, b: Link :: LinkBefore(a, b) == Before(a.id, b.id);
    LinkedIsAscending(p.links, LinkBefore);
    forall x
      ensures x in RackIds(p.racks) <==> Named(p.racks, x)
      ensures x in Ids(p.domains.network) <==> DomainNamed(p.domains.network, x)
      ensures x in Ids(p.domains.link) <==> DomainNamed(p.domains.link, x)
    {
      NamedExactly(p.racks, x);
      DomainNamedExactly(p.domains.network, x);
      DomainNamedExactly(p.domains.link, x);
    }
    hide Linked; hide IsIdentity; hide Less; hide StrictOrder; hide RackIds; hide Ids; hide Named; hide DomainNamed;
    assert forall i | 0 <= i < |p.links| :: p.links[i] in p.links;
  }

  lemma ConstraintsStandExactly(p: Persisted)
    ensures ValidConstraints(p.constraints, RackIds(p.racks)) <==>
      && (forall i, j | 0 <= i < j < |p.constraints| :: Less(p.constraints[i].id, p.constraints[j].id))
      && (forall i | 0 <= i < |p.constraints| ::
            && IsIdentity(p.constraints[i].id) && p.constraints[i].kind > 0 && p.constraints[i].header.generation > 0
            && MembersStand(p, p.constraints[i].racks))
  {
    TextIsOrdered();
    assert forall a: Constraint, b: Constraint :: ConstraintBefore(a, b) == Before(a.id, b.id);
    LinkedIsAscending(p.constraints, ConstraintBefore);
    forall i | 0 <= i < |p.constraints| { MembersStandExactly(p, p.constraints[i].racks); }
    hide Linked; hide IsIdentity; hide Less; hide StrictOrder; hide ValidMembers; hide MembersStand; hide RackIds;
    assert forall i | 0 <= i < |p.constraints| :: p.constraints[i] in p.constraints;
  }

  lemma ListsStandExactly(p: Persisted)
    ensures ListsStand(p) <==>
      ValidRetired(p.sc.retired) && ValidWithdrawn(p.sc.withdrawn, p.sc.retired) && ValidFenced(p.sc.fenced)
  {
    TextIsOrdered();
    assert forall a: RetiredIdentity, b: RetiredIdentity :: RetiredBefore(a, b) == Before(a.rack, b.rack);
    LinkedIsAscending(p.sc.retired, RetiredBefore);
    LinkedIsAscending(p.sc.withdrawn, Before);
    hide Linked; hide IsIdentity; hide Less; hide StrictOrder;
    assert forall i | 0 <= i < |p.sc.retired| :: p.sc.retired[i] in p.sc.retired;
    assert forall i | 0 <= i < |p.sc.withdrawn| :: p.sc.withdrawn[i] in p.sc.withdrawn;
    assert forall i | 0 <= i < |p.sc.fenced| :: p.sc.fenced[i] in p.sc.fenced;
  }

  lemma RacksStandExactly(racks: seq<DurableRack>)
    ensures ValidRacks(racks) <==>
      && (forall i, j | 0 <= i < j < |racks| :: Less(racks[i].rack, racks[j].rack))
      && (forall i | 0 <= i < |racks| :: RackStands(racks[i]))
  {
    TextIsOrdered();
    assert forall a: DurableRack, b: DurableRack :: RackBefore(a, b) == Before(a.rack, b.rack);
    LinkedIsAscending(racks, RackBefore);
    forall i | 0 <= i < |racks| { RackStandsExactly(racks[i]); }
    hide Linked; hide Less; hide StrictOrder; hide ValidRack; hide RackStands;
    assert forall i | 0 <= i < |racks| :: racks[i] in racks;
  }

  lemma ScalarsStandExactly(p: Persisted)
    ensures ValidScalars(p) <==> ScalarsStand(p)
  {
    hide IsIdentity;
  }

  lemma CapacitiesStandExactly(ds: seq<Domain>)
    ensures (forall d | d in ds :: ValidQuantities(d.quantities)) <==>
      forall i | 0 <= i < |ds| :: QuantitiesStand(ds[i].quantities)
  {
    hide ValidQuantities; hide QuantitiesStand;
    forall i | 0 <= i < |ds| { QuantitiesStandExactly(ds[i].quantities); }
    assert forall i | 0 <= i < |ds| :: ds[i] in ds;
  }

  /**
   * Validation accepts a state exactly if its counters are known, its lists are strictly ascending and bounded, and
   * everything a record refers to is there.
   */
  lemma ValidExactly(p: Persisted)
    ensures Valid(p) <==> ScalarsStand(p) && RecordsStand(p) && ListsStand(p)
  {
    hide ValidScalars; hide ScalarsStand; hide ValidRacks; hide RackStands; hide ValidDomains; hide DomainsStand;
    hide ValidQuantities; hide QuantitiesStand; hide ValidLinks; hide LinkStands; hide ValidConstraints;
    hide MembersStand; hide ValidRetired; hide ValidWithdrawn; hide ValidFenced; hide ListsStand; hide RackIds;
    hide Ids; hide IsIdentity; hide Less;
    RacksStandExactly(p.racks);
    forall kind: DomainKind { DomainsStandExactly(p, p.domains.Get(kind)); }
    LinksStandExactly(p);
    ConstraintsStandExactly(p);
    ListsStandExactly(p);
    ScalarsStandExactly(p);
    CapacitiesStandExactly(p.domains.capacity);
    assert p.domains.Get(Capacity) == p.domains.capacity;
    hide DomainLists.Get;
  }

  /** Nothing else is ever loaded, whatever the bytes. */
  lemma LoadedStands(b: seq<byte>)
    requires Decode(b).Loaded?
    ensures var p := Decode(b).state; ScalarsStand(p) && RecordsStand(p) && ListsStand(p)
  {
    hide Opened; hide GetState; hide Valid; hide ScalarsStand; hide RecordsStand; hide ListsStand;
    ValidExactly(Decode(b).state);
  }
}
