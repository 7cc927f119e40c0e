/** The durable container: header, checksum, body, and the validation of what was read. */
module Container {
  import opened Foundation
  import opened TextOrder
  import opened Sorting
  import opened Records
  import opened Mutations
  import opened Durable
  import opened Wire
  import opened RecordCodecs
  import opened Octets
  import opened Crc

  // ---- body ------------------------------------------------------------------------------

  function PutState(p: Persisted, tail: Out): Out {
    PutText(p.id, PutU64(p.sc.epoch, PutU64(p.sc.coordinatorEpoch, PutU64(p.sc.generation,
      PutU64(p.sc.membershipGeneration, PutU64(p.sc.topologyEpoch, PutU64(p.sc.topologyGeneration,
      PutU64(p.sc.connectivityGeneration, PutU64(p.sc.healthGeneration, PutU64(p.sc.constraintGeneration,
      PutGenerations(p.sc.domainGenerations, PutU64(p.sc.snapshotGeneration, PutU64(p.sc.publicationGeneration,
      PutU8(LifecycleCode(p.sc.lifecycle), PutContract(p.sc.contract, PutTopology(p.sc.topology,
      PutI64(p.sc.declaredAt, PutI64(p.sc.lastMutationAt, PutRacks(p.racks, PutDomainLists(p.domains,
      PutLinks(p.links, PutConstraints(p.constraints, PutRetiredList(p.sc.retired, PutIds(p.sc.withdrawn,
      PutFencedList(p.sc.fenced, tail)))))))))))))))))))))))))
  }

  function GetState(b: seq<byte>): Read<Persisted> {
    var (id, b) :- GetId(b);
    var (epoch, b) :- GetU64(b);
    var (coordinatorEpoch, b) :- GetU64(b);
    var (generation, b) :- GetU64(b);
    var (membershipGeneration, b) :- GetU64(b);
    var (topologyEpoch, b) :- GetU64(b);
    var (topologyGeneration, b) :- GetU64(b);
    var (connectivityGeneration, b) :- GetU64(b);
    var (healthGeneration, b) :- GetU64(b);
    var (constraintGeneration, b) :- GetU64(b);
    var (domainGenerations, b) :- GetGenerations(b);
    var (snapshotGeneration, b) :- GetU64(b);
    var (publicationGeneration, b) :- GetU64(b);
    var (lifecycle, b) :- GetCode(7, b);
    var (contract, b) :- GetContract(b);
    var (topology, b) :- GetTopology(b);
    var (declaredAt, b) :- GetI64(b);
    var (lastMutationAt, b) :- GetI64(b);
    var (racks, b) :- GetRacks(b);
    var (domains, b) :- GetDomainLists(b);
    var (links, b) :- GetLinks(b);
    var (constraints, b) :- GetConstraints(b);
    var (retired, b) :- GetRetiredList(b);
    var (withdrawn, b) :- GetIds(MAX_RACKS, b);
    var (fenced, b) :- GetFencedList(b);
    Got(Persisted(id, Scalars(epoch, coordinatorEpoch, generation, membershipGeneration, topologyEpoch,
      topologyGeneration, connectivityGeneration, healthGeneration, constraintGeneration, domainGenerations,
      snapshotGeneration, publicationGeneration, LifecycleOf(lifecycle), contract, topology, fenced, retired,
      withdrawn, lastMutationAt, declaredAt), racks, domains, links, constraints), b)
  }

  /** The count, enumerator and identity bounds of the decoder. */
  predicate Accepts(p: Persisted) {
    && IsIdentity(p.id) && AcceptsContract(p.sc.contract)
    && AcceptsRacks(p.racks) && AcceptsDomainLists(p.domains) && AcceptsLinks(p.links)
    && AcceptsConstraints(p.constraints)
    && AcceptsRetiredList(p.sc.retired) && AcceptsIds(p.sc.withdrawn, MAX_RACKS) && AcceptsFencedList(p.sc.fenced)
  }

  lemma TripState(p: Persisted, tail: Out)
    ensures PutState(p, tail).Some? ==> tail.Some?
    ensures PutState(p, tail).Some? ==> GetState(PutState(p, tail).value) == Answer(Accepts(p), p, tail.value)
  {
    hide PutU8; hide GetCode; hide PutText; hide GetId; hide IsIdentity; hide PutU64; hide GetU64; hide PutI64;
    hide GetI64;
    hide PutGenerations; hide GetGenerations; hide PutContract; hide GetContract; hide AcceptsContract;
    hide PutTopology; hide GetTopology; hide PutRacks; hide GetRacks; hide AcceptsRacks;
    hide PutDomainLists; hide GetDomainLists; hide AcceptsDomainLists; hide PutLinks; hide GetLinks; hide AcceptsLinks;
    hide PutConstraints; hide GetConstraints; hide AcceptsConstraints; hide PutRetiredList; hide GetRetiredList;
    hide AcceptsRetiredList; hide PutIds; hide GetIds; hide AcceptsIds; hide PutFencedList; hide GetFencedList;
    hide AcceptsFencedList;
    var t24 := PutFencedList(p.sc.fenced, tail);
    var t23 := PutIds(p.sc.withdrawn, t24);
    var t22 := PutRetiredList(p.sc.retired, t23);
    var t21 := PutConstraints(p.constraints, t22);
    var t20 := PutLinks(p.links, t21);
    var t19 := PutDomainLists(p.domains, t20);
    var t18 := PutRacks(p.racks, t19);
    var t17 := PutI64(p.sc.lastMutationAt, t18);
    var t16 := PutI64(p.sc.declaredAt, t17);
    var t15 := PutTopology(p.sc.topology, t16);
    var t14 := PutContract(p.sc.contract, t15);
    var t13 := PutU8(LifecycleCode(p.sc.lifecycle), t14);
    var t12 := PutU64(p.sc.publicationGeneration, t13);
    var t11 := PutU64(p.sc.snapshotGeneration, t12);
    var t10 := PutGenerations(p.sc.domainGenerations, t11);
    var t9 := PutU64(p.sc.constraintGeneration, t10);
    var t8 := PutU64(p.sc.healthGeneration, t9);
    var t7 := PutU64(p.sc.connectivityGeneration, t8);
    var t6 := PutU64(p.sc.topologyGeneration, t7);
    var t5 := PutU64(p.sc.topologyEpoch, t6);
    var t4 := PutU64(p.sc.membershipGeneration, t5);
    var t3 := PutU64(p.sc.generation, t4);
    var t2 := PutU64(p.sc.coordinatorEpoch, t3);
    var t1 := PutU64(p.sc.epoch, t2);
    TripFencedList(p.sc.fenced, tail);
    TripIds(p.sc.withdrawn, MAX_RACKS, t24);
    TripRetiredList(p.sc.retired, t23);
    TripConstraints(p.constraints, t22);
    TripLinks(p.links, t21);
    TripDomainLists(p.domains, t20);
    TripRacks(p.racks, t19);
    TripI64(p.sc.lastMutationAt, t18);
    TripI64(p.sc.declaredAt, t17);
    TripTopology(p.sc.topology, t16);
    TripContract(p.sc.contract, t15);
    TripCode(7, LifecycleCode(p.sc.lifecycle), t14);
    TripU64(p.sc.publicationGeneration, t13);
    TripU64(p.sc.snapshotGeneration, t12);
    TripGenerations(p.sc.domainGenerations, t11);
    TripU64(p.sc.constraintGeneration, t10);
    TripU64(p.sc.healthGeneration, t9);
    TripU64(p.sc.connectivityGeneration, t8);
    TripU64(p.sc.topologyGeneration, t7);
    TripU64(p.sc.topologyEpoch, t6);
    TripU64(p.sc.membershipGeneration, t5);
    TripU64(p.sc.generation, t4);
    TripU64(p.sc.coordinatorEpoch, t3);
    TripU64(p.sc.epoch, t2);
    TripId(p.id, t1);
  }

  // ---- structural validation -------------------------------------------------------------

  /** Each element after its predecessor, as the validation loops compare them. */
  predicate Linked<T>(s: seq<T>, lt: (T, T) -> bool) { forall i | 0 < i < |s| :: lt(s[i - 1], s[i]) }

  predicate RackBefore(a: DurableRack, b: DurableRack) { Less(a.rack, b.rack) }
  predicate DomainBefore(a: Domain, b: Domain) { Less(a.id, b.id) }
  predicate LinkBefore(a: Link, b: Link) { Less(a.id, b.id) }
  predicate ConstraintBefore(a: Constraint, b: Constraint) { Less(a.id, b.id) }

  /** Equal units stand in the order of their provenance. */
  predicate UnitBefore(a: Quantity, b: Quantity) {
    Less(a.unit, b.unit) || (a.unit == b.unit && ProvenanceCode(a.provenance) < ProvenanceCode(b.provenance))
  }

  predicate ValidScalars(p: Persisted) {
    && IsIdentity(p.id) && p.sc.epoch != 0 && p.sc.coordinatorEpoch != 0
    && p.sc.generation != 0 && p.sc.membershipGeneration != 0 && p.sc.topologyGeneration != 0
    && p.sc.connectivityGeneration != 0 && p.sc.healthGeneration != 0 && p.sc.constraintGeneration != 0
    && p.sc.snapshotGeneration != 0 && p.sc.publicationGeneration != 0
    && (p.sc.topologyEpoch != 0 || p.sc.topology.epoch != 0)
    && |p.racks| <= MAX_RACKS && |p.links| <= MAX_LINKS && |p.constraints| <= MAX_CONSTRAINTS
  }

  predicate ValidRack(r: DurableRack) {
    && IsIdentity(r.rack) && r.generation != 0 && IsIdentity(r.publisher)
    && |r.endpoints| <= MAX_RACK_ENDPOINTS && (forall e | e in r.endpoints :: IsIdentity(e.id))
    && Linked(r.endpoints, EndpointBefore)
    && |r.hints| <= MAX_FAILURE_DOMAIN_REFS && (forall h | h in r.hints :: h.klass != 0 && IsIdentity(h.id))
    && Linked(r.hints, HintBefore)
  }

  predicate ValidRacks(racks: seq<DurableRack>) {
    Linked(racks, RackBefore) && forall r | r in racks :: ValidRack(r)
  }

  function RackIds(racks: seq<DurableRack>): seq<Id> { seq(|racks|, i requires 0 <= i < |racks| => racks[i].rack) }

  function Ids(domains: seq<Domain>): seq<Id> { seq(|domains|, i requires 0 <= i < |domains| => domains[i].id) }

  predicate ValidMembers(members: seq<Id>, racks: seq<Id>) {
    && |members| <= MAX_DOMAIN_MEMBERS && Linked(members, Before)
    && forall m | m in members :: IsIdentity(m) && m in racks
  }

  predicate ValidDomain(d: Domain, racks: seq<Id>) {
    IsIdentity(d.id) && d.header.generation != 0 && ValidMembers(d.racks, racks)
  }

  predicate ValidDomains(domains: seq<Domain>, racks: seq<Id>) {
    && |domains| <= MAX_DOMAINS_PER_CLASS && Linked(domains, DomainBefore)
    && forall d | d in domains :: ValidDomain(d, racks)
  }

  predicate ValidQuantities(quantities: seq<Quantity>) {
    && |quantities| <= MAX_CAPACITY_QUANTITIES && Linked(quantities, UnitBefore)
    && forall q | q in quantities :: q.unit != [] && |q.unit| <= MAX_TEXT && (q.value.Some? ==> Finite(q.value.value))
  }

  predicate ValidLink(l: Link, racks: seq<Id>, networks: seq<Id>, groups: seq<Id>) {
    && IsIdentity(l.id) && l.source != [] && l.destination != [] && l.source != l.destination
    && l.source in racks && l.destination in racks && l.header.generation != 0 && l.topologyEpoch != 0
    && (l.networkDomain.Some? ==> l.networkDomain.value in networks)
    && (l.linkDomain.Some? ==> l.linkDomain.value in groups)
  }

  predicate ValidLinks(links: seq<Link>, racks: seq<Id>, networks: seq<Id>, groups: seq<Id>) {
    Linked(links, LinkBefore) && forall l | l in links :: ValidLink(l, racks, networks, groups)
  }

  predicate ValidConstraint(c: Constraint, racks: seq<Id>) {
    IsIdentity(c.id) && c.kind != 0 && c.header.generation != 0 && ValidMembers(c.racks, racks)
  }

  predicate ValidConstraints(constraints: seq<Constraint>, racks: seq<Id>) {
    Linked(constraints, ConstraintBefore) && forall c | c in constraints :: ValidConstraint(c, racks)
  }

  predicate ValidRetired(retired: seq<RetiredIdentity>) {
    Linked(retired, RetiredBefore) && forall r | r in retired :: IsIdentity(r.rack) && r.lastGeneration != 0
  }

  predicate ValidWithdrawn(withdrawn: seq<Id>, retired: seq<RetiredIdentity>) {
    && Linked(withdrawn, Before)
    && forall w | w in withdrawn :: IsIdentity(w) && forall r | r in retired :: r.rack != w
  }

  predicate ValidFenced(fenced: seq<FencedAuthority>) {
    forall f | f in fenced :: IsIdentity(f.boot) && IsIdentity(f.rack) && f.reason != [] && |f.reason| <= MAX_TEXT
  }

  /** validate_persisted_state accepts. */
  predicate Valid(p: Persisted) {
    var racks := RackIds(p.racks);
    && ValidScalars(p) && ValidRacks(p.racks)
    && (forall kind: DomainKind :: ValidDomains(p.domains.Get(kind), racks))
    && (forall d | d in p.domains.capacity :: ValidQuantities(d.quantities))
    && ValidLinks(p.links, racks, Ids(p.domains.network), Ids(p.domains.link))
    && ValidConstraints(p.constraints, racks)
    && ValidRetired(p.sc.retired) && ValidWithdrawn(p.sc.withdrawn, p.sc.retired) && ValidFenced(p.sc.fenced)
  }

  // ---- the container ---------------------------------------------------------------------

  const MAGIC: u32 := 0x31534643
  const VERSION: nat := 1
  const HEADER: nat := 16
  const MAX_BYTES: nat := 0x1000_0000

  datatype Status =
    | EmptyInput | TruncatedHeader | BadMagic | UnsupportedVersion | UnsupportedFlags | PayloadTooLarge
    | TruncatedBody | TrailingGarbage | ChecksumMismatch | MalformedBody | InvalidState

  datatype Loading = Loaded(state: Persisted) | Damaged(status: Status)

  function Preamble(length: u32): seq<byte> { LE(4, MAGIC) + LE(2, VERSION) + LE(2, 0) + LE(4, length) }

  function Seal(preamble: seq<byte>, payload: seq<byte>): bv32 { Xor(Checksum(preamble), Checksum(payload)) }

  function Boxed(payload: seq<byte>): seq<byte>
    requires |payload| <= MAX_BYTES
  {
    Preamble(|payload|) + Bytes(Seal(Preamble(|payload|), payload)) + payload
  }

  function Encode(p: Persisted): Out {
    var payload := PutState(p, Some([]));
    if payload.None? || |payload.value| > MAX_BYTES - HEADER then None else Some(Boxed(payload.value))
  }

  /** Everything the decoder asks of the container before it reads the first record. */
  function Opened(b: seq<byte>): (r: Option<Status>)
    ensures r.None? ==> |b| >= HEADER
  {
    if b == [] then Some(EmptyInput)
    else if |b| < HEADER then Some(TruncatedHeader)
    else if FromLE(b[..4]) != MAGIC then Some(BadMagic)
    else if FromLE(b[4..6]) != VERSION then Some(UnsupportedVersion)
    else if FromLE(b[6..8]) != 0 then Some(UnsupportedFlags)
    else if FromLE(b[8..12]) > MAX_BYTES then Some(PayloadTooLarge)
    else if FromLE(b[8..12]) > |b| - HEADER then Some(TruncatedBody)
    else if FromLE(b[8..12]) < |b| - HEADER then Some(TrailingGarbage)
    else if Seal(b[..12], b[HEADER..]) != Word(b[12..HEADER]) then Some(ChecksumMismatch)
    else None
  }

  function Decode(b: seq<byte>): Loading {
    if Opened(b).Some? then Damaged(Opened(b).value)
    else
      match GetState(b[HEADER..])
      case Fail => Damaged(MalformedBody)
      case Got(p, rest) =>
        if rest != [] then Damaged(TrailingGarbage)
        else if !Valid(p) then Damaged(InvalidState)
        else Loaded(p)
  }

  // ---- round trip ------------------------------------------------------------------------

  lemma PreambleFields(length: u32)
    ensures var h := Preamble(length);
      && |h| == 12 && FromLE(h[..4]) == MAGIC && FromLE(h[4..6]) == VERSION
      && FromLE(h[6..8]) == 0 && FromLE(h[8..12]) == length
  {
    Widths();
    hide LE; hide FromLE; hide Pow256;
    LEInverts(4, MAGIC); LEInverts(2, VERSION); LEInverts(2, 0); LEInverts(4, length);
    var h := Preamble(length);
    assert h[..4] == LE(4, MAGIC) && h[4..6] == LE(2, VERSION) && h[6..8] == LE(2, 0) && h[8..12] == LE(4, length);
  }

  lemma BoxedOpens(payload: seq<byte>)
    requires |payload| <= MAX_BYTES
    ensures Opened(Boxed(payload)).None? && Boxed(payload)[HEADER..] == payload
  {
    hide LE; hide FromLE; hide Seal; hide Word; hide Bytes; hide Preamble;
    var h := Preamble(|payload|);
    PreambleFields(|payload|);
    var sum := Bytes(Seal(h, payload));
    WordOfBytes(Seal(h, payload));
    var b := Boxed(payload);
    assert b[..12] == h && b[12..HEADER] == sum && b[HEADER..] == payload;
    assert b[..4] == h[..4] && b[4..6] == h[4..6] && b[6..8] == h[6..8] && b[8..12] == h[8..12];
  }

  /** Whatever the encoder wrote is read back exactly, or refused for a reason visible in the state. */
  lemma RoundTrip(p: Persisted)
    requires Encode(p).Some?
    ensures Decode(Encode(p).value)
      == if !Accepts(p) then Damaged(MalformedBody) else if !Valid(p) then Damaged(InvalidState) else Loaded(p)
  {
    hide PutState; hide GetState; hide Accepts; hide Valid; hide Boxed; hide Opened;
    var payload := PutState(p, Some([])).value;
    BoxedOpens(payload);
    TripState(p, Some([]));
  }

  // ---- corruption ------------------------------------------------------------------------

  lemma FromLEIsInjective(a: seq<byte>, b: seq<byte>)
    requires |a| == |b| && FromLE(a) == FromLE(b)
    ensures a == b
  {
    LEIsOnto(a);
    LEIsOnto(b);
  }

  lemma SliceDiffers(b: seq<byte>, at: nat, value: byte, lo: nat, hi: nat)
    requires lo <= at < hi <= |b| && b[at] != value
    ensures b[lo..hi] != b[at := value][lo..hi]
  {
    assert b[lo..hi][at - lo] != b[at := value][lo..hi][at - lo];
  }

  lemma PayloadDiffers(b: seq<byte>, at: nat, value: byte)
    requires |b| >= HEADER && HEADER <= at < |b| && b[at] != value
    ensures Seal(b[..12], b[HEADER..]) != Seal(b[at := value][..12], b[at := value][HEADER..])
  {
    hide Checksum; hide Xor;
    assert b[at := value][..12] == b[..12];
    assert b[at := value][HEADER..] == b[HEADER..][at - HEADER := value];
    ReplacedByteChangesChecksum(b[HEADER..], at - HEADER, value);
    if Seal(b[..12], b[HEADER..]) == Seal(b[..12], b[at := value][HEADER..]) {
      XorCancels(Checksum(b[..12]), Checksum(b[HEADER..]), Checksum(b[at := value][HEADER..]));
    }
  }

  /** One byte changed anywhere keeps the container from opening. */
  lemma CorruptionShows(b: seq<byte>, at: nat, value: byte)
    requires Opened(b).None? && at < |b| && b[at] != value
    ensures Opened(b[at := value]).Some?
  {
    hide FromLE; hide Seal; hide Word;
    var c := b[at := value];
    if at < 4 { SliceDiffers(b, at, value, 0, 4); FieldDiffers(b[..4], c[..4]); }
    else if at < 6 { SliceDiffers(b, at, value, 4, 6); FieldDiffers(b[4..6], c[4..6]); }
    else if at < 8 { SliceDiffers(b, at, value, 6, 8); FieldDiffers(b[6..8], c[6..8]); }
    else if at < 12 { SliceDiffers(b, at, value, 8, 12); FieldDiffers(b[8..12], c[8..12]); }
    else if at < HEADER {
      SliceDiffers(b, at, value, 12, HEADER);
      assert c[..12] == b[..12] && c[HEADER..] == b[HEADER..];
      if Word(b[12..HEADER]) == Word(c[12..HEADER]) { WordIsInjective(b[12..HEADER], c[12..HEADER]); }
    } else {
      PayloadDiffers(b, at, value);
      assert c[12..HEADER] == b[12..HEADER];
    }
  }

  lemma FieldDiffers(a: seq<byte>, b: seq<byte>)
    requires |a| == |b| && a != b
    ensures FromLE(a) != FromLE(b)
  {
    if FromLE(a) == FromLE(b) { FromLEIsInjective(a, b); }
  }

  /** Any change within four consecutive payload bytes keeps it from opening as well. */
  lemma BurstCorruptionShows(b: seq<byte>, at: nat, burst: seq<byte>)
    requires Opened(b).None? && HEADER <= at && at + 4 <= |b| && |burst| == 4 && b[at..at + 4] != burst
    ensures Opened(b[..at] + burst + b[at + 4..]).Some?
  {
    hide FromLE; hide Word; hide Fold; hide Xor;
    var c := b[..at] + burst + b[at + 4..];
    var front, rest := b[HEADER..at], b[at + 4..];
    assert b[HEADER..] == front + b[at..at + 4] + rest && c[HEADER..] == front + burst + rest;
    BurstShows(0xFFFFFFFF, front, b[at..at + 4], burst, rest);
    assert c[..12] == b[..12] && c[12..HEADER] == b[12..HEADER] && c[8..12] == b[8..12];
    if Seal(b[..12], b[HEADER..]) == Seal(b[..12], c[HEADER..]) {
      XorCancels(Checksum(b[..12]), Checksum(b[HEADER..]), Checksum(c[HEADER..]));
      XorCancelsRight(Fold(0xFFFFFFFF, b[HEADER..]), Fold(0xFFFFFFFF, c[HEADER..]), 0xFFFFFFFF);
    }
  }

  /** A container cut short or extended does not open. */
  lemma LengthIsExact(b: seq<byte>, c: seq<byte>)
    requires Opened(b).None? && b != c && (c <= b || b <= c)
    ensures Opened(c).Some?
  {
    hide FromLE; hide Seal; hide Word;
    if |c| >= HEADER {
      assert c[8..12] == b[8..12];
    }
  }

  predicate OneByteOff(b: seq<byte>, c: seq<byte>) {
    |b| == |c| && exists at | 0 <= at < |b| :: b[at] != c[at] && c == b[at := c[at]]
  }

  /** No single-byte change, no strict prefix and no extension of what was encoded is ever loaded. */
  lemma DamageIsNeverLoaded(p: Persisted, c: seq<byte>)
    requires Encode(p).Some?
    requires var b := Encode(p).value; OneByteOff(b, c) || (b != c && (c <= b || b <= c))
    ensures Decode(c).Damaged?
  {
    hide PutState; hide GetState; hide Valid; hide Boxed; hide Opened;
    var b := Encode(p).value;
    BoxedOpens(PutState(p, Some([])).value);
    if OneByteOff(b, c) {
      var at :| 0 <= at < |b| && b[at] != c[at] && c == b[at := c[at]];
      CorruptionShows(b, at, c[at]);
    } else {
      LengthIsExact(b, c);
    }
  }
}
