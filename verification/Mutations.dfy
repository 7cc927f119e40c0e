/** Requests, authority checks and the effect of each of the 25 mutation kinds on canonical state. */
module Mutations {
  import opened Foundation
  import opened TextOrder
  import opened Sorting
  import opened EvidenceStamps
  import opened Records

  datatype Config = Config(
    cluster: Id, contract: Contract, maxRacks: nat, maxLinks: nat, maxDomains: nat, maxConstraints: nat, persist: bool)

  datatype Kind =
    | Unknown | DeclareCluster | RegisterPublisher | AddRack | UpdateRackGeneration | MarkUnavailable | WithdrawRack
    | RetireRack | RecoverRack | PublishLink | WithdrawLink | PublishDomain(domain: DomainKind) | PublishConstraint
    | PublishHealth | WithdrawEvidence | SupersedeTopology | PublishSnapshot | Revalidate | RetireCluster

  datatype Authority = Authority(
    clusterEpoch: u64, coordinatorEpoch: u64, boot: Option<Id>, publisher: Option<Id>, rack: Option<Id>,
    rackGeneration: Option<u64>, publication: u64)

  datatype Request = Request(
    kind: Kind, cluster: Id, authority: Authority, evidence: Evidence, reason: Text,
    lifecycle: Lifecycle, contract: Contract, reference: RackReference,
    expectedGeneration: Option<u64>, newGeneration: Option<u64>,
    domain: Option<Domain>, constraint: Option<Constraint>, link: Option<Link>, linkId: Option<Id>,
    targetEpoch: Option<u64>, topologyReason: Text, health: Health, reachability: Reachability,
    selector: Text, racks: seq<Id>)
  {
    /** The rack a rack-scoped request names. */
    function Subject(): Id { authority.rack.GetOr(reference.rack) }
  }

  datatype Reason =
    | StaleClusterEpoch | StaleCoordinatorEpoch | StaleRackBoot | StaleRackGeneration | StaleTopologyEpoch
    | StalePublication | NotAuthorized | Conflict | UnknownRack | UnknownDomain | InvalidDomain
    | InvalidRelationship | Retired | WrongCluster | LimitExceeded | Malformed | NotReady
    | PersistenceFailed | InvariantViolation

  /** What validation alone decides. */
  datatype Gate = Pass | Same | Refuse(reason: Reason)

  datatype Applied = Refused(reason: Reason) | NoChange | Incomplete | Changed(next: State)

  // ---- rack references -------------------------------------------------------------------

  predicate OptionBefore(a: Option<nat>, b: Option<nat>) {
    b.Some? && (a.None? || a.value < b.value)
  }

  predicate AcceleratorBefore(a: Accelerator, b: Accelerator) {
    || a.vendor < b.vendor
    || (a.vendor == b.vendor && Less(a.family, b.family))
    || (a.vendor == b.vendor && a.family == b.family && OptionBefore(a.devices, b.devices))
    || (a.vendor == b.vendor && a.family == b.family && a.devices == b.devices && OptionBefore(a.memory, b.memory))
  }

  predicate EndpointBefore(a: Endpoint, b: Endpoint) { Less(a.id, b.id) }

  predicate HintBefore(a: Hint, b: Hint) { a.klass < b.klass || (a.klass == b.klass && Less(a.id, b.id)) }

  function Canonicalize(r: RackReference): RackReference {
    r.(composition := r.composition.(accelerators := SortUnique(r.composition.accelerators, AcceleratorBefore)),
       endpoints := SortUnique(r.endpoints, EndpointBefore),
       hints := SortUnique(r.hints, HintBefore))
  }

  predicate ValidReference(r: RackReference) {
    && r.rack != [] && r.generation != 0
    && |r.endpoints| <= MAX_RACK_ENDPOINTS && |r.hints| <= MAX_FAILURE_DOMAIN_REFS
    && |r.composition.accelerators| <= MAX_CAPACITY_QUANTITIES
    && (r.composition.title == [] || IsLabel(r.composition.title))
    && (r.origin == [] || IsLabel(r.origin))
    && (forall a | a in r.composition.accelerators :: a.family == [] || IsLabel(a.family))
    && (forall h | h in r.hints :: h.klass != 0)
    && (forall e | e in r.endpoints :: e.id != [])
    && r.publisher.Some? && !r.evidence.provenance.Unknown?
  }

  /** Authoritative content alone: every dynamic field, the publisher and the incarnation are cleared. */
  function Content(r: RackReference): RackReference {
    var c := Canonicalize(r);
    c.(publication := 0, evidence := NO_EVIDENCE, health := 0, currentness := Currentness.Unknown,
       coordinatorEpoch := 0, clusterEpoch := 0, boot := [], publisher := None,
       endpoints := seq(|c.endpoints|, i requires 0 <= i < |c.endpoints| => c.endpoints[i].(evidence := NO_EVIDENCE)),
       hints := seq(|c.hints|, i requires 0 <= i < |c.hints| => c.hints[i].(evidence := NO_EVIDENCE)))
  }

  predicate SameContent(a: RackReference, b: RackReference) { Content(a) == Content(b) }

  predicate Differ(a: Option<Id>, b: Option<Id>) { a.Some? && b.Some? && a.value != b.value }

  // ---- authority -------------------------------------------------------------------------

  function ValidateCommon(s: State, req: Request): Gate {
    if req.kind.Unknown? then Refuse(Malformed)
    else if !IsIdentity(req.cluster) then Refuse(Malformed)
    else if req.kind.DeclareCluster? then
      if s.Declared() && req.authority.clusterEpoch != s.sc.epoch then Refuse(StaleClusterEpoch) else Pass
    else if req.cluster != s.id then Refuse(WrongCluster)
    else if !s.Declared() then Refuse(NotReady)
    else if req.authority.clusterEpoch != s.sc.epoch then Refuse(StaleClusterEpoch)
    else if req.authority.coordinatorEpoch != s.sc.coordinatorEpoch then Refuse(StaleCoordinatorEpoch)
    else if s.sc.lifecycle.Retired? then Refuse(Reason.Retired)
    else Pass
  }

  function ValidateBoot(s: State, req: Request, rack: Id): Gate {
    if req.authority.boot.None? then Pass
    else
      var boot := req.authority.boot.value;
      if s.IsFenced(boot) then Refuse(StaleRackBoot)
      else if rack !in s.racks then Pass
      else
        var r := s.racks[rack];
        if r.authoritative && r.reference.boot != boot then Refuse(NotAuthorized)
        else if Differ(req.authority.publisher, r.reference.publisher) then Refuse(NotAuthorized)
        else if r.reference.boot == boot && req.authority.publication != 0
                && req.authority.publication <= r.reference.publication
                && !(req.authority.publication == r.reference.publication
                     && req.reference.rack == rack && req.reference.boot == boot
                     && SameContent(r.reference, Canonicalize(req.reference)))
        then Refuse(StalePublication)
        else Pass
  }

  // ---- rack mutations --------------------------------------------------------------------

  function RegisterGate(cfg: Config, s: State, req: Request): Gate {
    var rack := req.Subject();
    if rack == [] then Refuse(Malformed)
    else if s.IsRetired(rack) then Refuse(Reason.Retired)
    else if req.authority.publisher.None? then Refuse(NotAuthorized)
    else if rack in s.racks then
      var held := s.racks[rack].reference;
      if Differ(held.publisher, req.authority.publisher) then Refuse(Conflict)
      else if held.generation != 0 && req.authority.rackGeneration.Some?
              && req.authority.rackGeneration.value < held.generation then Refuse(StaleRackGeneration)
      else Same
    else if |s.racks| >= cfg.maxRacks then Refuse(LimitExceeded)
    else if req.authority.rackGeneration.GetOr(req.reference.generation) == 0 then Refuse(Malformed)
    else Pass
  }

  function Registration(s: State, req: Request): RackRecord {
    RackRecord(
      RackReference(
        req.Subject(), req.authority.rackGeneration.GetOr(req.reference.generation), req.reference.rackLifecycle,
        Currentness.Unknown, req.reference.composition, [], [], req.evidence, req.authority.publisher,
        req.authority.publication, req.authority.boot.GetOr(req.reference.boot), s.sc.epoch, s.sc.coordinatorEpoch, 0,
        req.reference.origin),
      Membership.Unknown, s.sc.membershipGeneration, s.sc.generation, req.evidence, false,
      Ascii("registered_but_not_admitted"))
  }

  function ApplyRegister(cfg: Config, s: State, req: Request): Applied {
    match RegisterGate(cfg, s, req)
    case Refuse(reason) => Refused(reason)
    case Same => NoChange
    case Pass => Changed(s.(racks := s.racks[req.Subject() := Registration(s, req)]))
  }

  function RepublishGate(held: RackRecord, incoming: RackReference): Gate {
    var r := held.reference;
    if incoming.generation < r.generation then Refuse(StaleRackGeneration)
    else if incoming.generation > r.generation then
      if Differ(r.publisher, incoming.publisher) then Refuse(NotAuthorized) else Pass
    else if held.membership.Unknown? && !held.authoritative then
      if Differ(r.publisher, incoming.publisher) then Refuse(Conflict) else Pass
    else if !SameContent(r, incoming) then Refuse(Conflict)
    else if r.boot == incoming.boot && r.publisher == incoming.publisher && r.publication == incoming.publication
    then Same
    else if r.boot == incoming.boot && incoming.publication <= r.publication then Refuse(StalePublication)
    else Pass
  }

  function AddGate(cfg: Config, s: State, req: Request): Gate {
    var incoming := Canonicalize(req.reference);
    if !ValidReference(incoming) then Refuse(Malformed)
    else if s.IsRetired(incoming.rack) then Refuse(Reason.Retired)
    else if ValidateBoot(s, req, incoming.rack).Refuse? then ValidateBoot(s, req, incoming.rack)
    else if incoming.rack in s.racks then RepublishGate(s.racks[incoming.rack], incoming)
    else if |s.racks| >= cfg.maxRacks then Refuse(LimitExceeded)
    else Pass
  }

  function Verdict(current: bool): Text { if current then [] else Ascii("evidence_not_current") }

  /** An admission or a change of rack generation moves the membership generation; a refresh does not. */
  predicate AdmissionMoves(s: State, incoming: RackReference) {
    || incoming.rack !in s.racks
    || !s.racks[incoming.rack].membership.Active?
    || incoming.generation > s.racks[incoming.rack].reference.generation
  }

  /** Evidence of unknown freshness is classified on arrival. */
  function AdmittedEvidence(now: Timestamp, incoming: RackReference): Evidence {
    if incoming.evidence.freshness.Unknown? && incoming.evidence.observedAt > 0
    then incoming.evidence.Refreshed(now) else incoming.evidence
  }

  function Admission(s: State, now: Timestamp, incoming: RackReference, membershipGeneration: u64): RackRecord {
    var evidence := AdmittedEvidence(now, incoming);
    RackRecord(
      incoming.(clusterEpoch := s.sc.epoch, coordinatorEpoch := s.sc.coordinatorEpoch,
                currentness := Currentness.Current, evidence := evidence),
      Membership.Active, membershipGeneration, s.sc.generation, evidence, evidence.IsCurrent(),
      Verdict(evidence.IsCurrent()))
  }

  function Without(xs: seq<Id>, x: Id): seq<Id> {
    if xs == [] then [] else (if xs[0] == x then [] else [xs[0]]) + Without(xs[1..], x)
  }

  function ApplyAdd(cfg: Config, now: Timestamp, s: State, req: Request): Applied {
    var incoming := Canonicalize(req.reference);
    match AddGate(cfg, s, req)
    case Refuse(reason) => Refused(reason)
    case Same => NoChange
    case Pass =>
      var moves := AdmissionMoves(s, incoming);
      if moves && Next(s.sc.membershipGeneration).None? then Refused(LimitExceeded)
      else
        var cluster := if moves then s.sc.membershipGeneration + 1 else s.sc.membershipGeneration;
        var own := if moves then cluster else s.racks[incoming.rack].membershipGeneration;
        Changed(s.(sc := s.sc.(membershipGeneration := cluster, withdrawn := Without(s.sc.withdrawn, incoming.rack)),
                   racks := s.racks[incoming.rack := Admission(s, now, incoming, own)]))
  }

  function UpdateGate(s: State, req: Request): Gate {
    var rack := req.Subject();
    if rack == [] then Refuse(Malformed)
    else if rack !in s.racks then Refuse(UnknownRack)
    else if ValidateBoot(s, req, rack).Refuse? then ValidateBoot(s, req, rack)
    else
      var current := s.racks[rack].reference.generation;
      if req.expectedGeneration.Some? && req.expectedGeneration.value != current then Refuse(Conflict)
      else if req.newGeneration.None? then Refuse(Malformed)
      else if req.newGeneration.value < current then Refuse(StaleRackGeneration)
      else if req.newGeneration.value == current then Same
      else Pass
  }

  function Advanced(s: State, req: Request, held: RackRecord, generation: u64, membershipGeneration: u64): RackRecord {
    var r := held.reference;
    held.(reference := r.(
            generation := generation,
            rackLifecycle := req.reference.rackLifecycle,
            composition := if req.reference.composition.Empty() then r.composition else req.reference.composition,
            publisher := if req.authority.publisher.Some? then req.authority.publisher else r.publisher,
            publication := req.authority.publication,
            boot := req.authority.boot.GetOr(r.boot),
            evidence := req.evidence,
            clusterEpoch := s.sc.epoch, coordinatorEpoch := s.sc.coordinatorEpoch,
            currentness := Currentness.Current),
          acceptedAt := s.sc.generation,
          authoritative := req.evidence.IsCurrent(),
          reason := Verdict(req.evidence.IsCurrent()),
          membershipGeneration := membershipGeneration)
  }

  function ApplyUpdate(s: State, req: Request): Applied {
    match UpdateGate(s, req)
    case Refuse(reason) => Refused(reason)
    case Same => NoChange
    case Pass =>
      match Next(s.sc.membershipGeneration)
      case None => Refused(LimitExceeded)
      case Some(g) =>
        var rack := req.Subject();
        Changed(s.(sc := s.sc.(membershipGeneration := g),
                   racks := s.racks[rack := Advanced(s, req, s.racks[rack], req.newGeneration.value, g)]))
  }

  function MembershipGate(s: State, req: Request, target: Membership): Gate {
    var rack := req.Subject();
    if rack == [] then Refuse(Malformed)
    else if rack !in s.racks then Refuse(UnknownRack)
    else if ValidateBoot(s, req, rack).Refuse? then ValidateBoot(s, req, rack)
    else if s.racks[rack].membership == target then Same
    else if s.racks[rack].membership.Retired? then Refuse(Reason.Retired)
    else Pass
  }

  function TargetName(target: Membership): Text {
    match target
    case Unknown => Ascii("UNKNOWN")
    case Active => Ascii("ACTIVE")
    case Unavailable => Ascii("UNAVAILABLE")
    case Withdrawn => Ascii("WITHDRAWN")
    case Retired => Ascii("RETIRED")
  }

  function Excluded(req: Request, held: RackRecord, target: Membership, membershipGeneration: u64): RackRecord {
    held.(membership := target, membershipEvidence := req.evidence, authoritative := false,
          reference := held.reference.(currentness := Currentness.RevalidationRequired),
          reason := Ascii("membership_") + TargetName(target),
          membershipGeneration := membershipGeneration)
  }

  function RemoveFirst(xs: seq<Id>, x: Id): seq<Id> {
    if xs == [] then [] else if xs[0] == x then xs[1..] else [xs[0]] + RemoveFirst(xs[1..], x)
  }

  function WithdrawnAfter(xs: seq<Id>, rack: Id, target: Membership): seq<Id> {
    if target.Withdrawn? then if rack in xs then xs else Sort(xs + [rack], Before)
    else RemoveFirst(xs, rack)
  }

  function RetiredAfter(s: State, now: Timestamp, req: Request, rack: Id, generation: u64): seq<RetiredIdentity> {
    if s.IsRetired(rack) then s.sc.retired
    else Sort(s.sc.retired + [RetiredIdentity(rack, generation, now, req.reason)], RetiredBefore)
  }

  /** MARK_UNAVAILABLE, WITHDRAW and RETIRE; the target is never ACTIVE. */
  function ApplyMembership(now: Timestamp, s: State, req: Request, target: Membership): Applied {
    match MembershipGate(s, req, target)
    case Refuse(reason) => Refused(reason)
    case Same => NoChange
    case Pass =>
      match Next(s.sc.membershipGeneration)
      case None => Refused(LimitExceeded)
      case Some(g) =>
        var rack := req.Subject();
        var record := Excluded(req, s.racks[rack], target, g);
        Changed(s.(sc := s.sc.(
                     membershipGeneration := g,
                     withdrawn := WithdrawnAfter(s.sc.withdrawn, rack, target),
                     retired := if target.Retired?
                                then RetiredAfter(s, now, req, rack, record.reference.generation) else s.sc.retired),
                   racks := s.racks[rack := record]))
  }

  function RecoverySubject(req: Request): Id {
    if req.reference.rack == [] then req.Subject() else req.reference.rack
  }

  function RecoverGate(s: State, req: Request): Gate {
    var rack := RecoverySubject(req);
    if rack == [] then Refuse(Malformed)
    else if s.IsRetired(rack) then Refuse(Reason.Retired)
    else if rack !in s.racks then Refuse(UnknownRack)
    else if req.authority.boot.None? then Refuse(NotAuthorized)
    else if s.IsFenced(req.authority.boot.value) then Refuse(StaleRackBoot)
    else
      var held := s.racks[rack];
      if held.reference.boot == req.authority.boot.value && !held.authoritative then Refuse(StaleRackBoot)
      else if req.newGeneration.Some? && req.newGeneration.value < held.reference.generation
      then Refuse(StaleRackGeneration)
      else Pass
  }

  /** The endpoints and hints of a recovery are stored as the request lists them. */
  function Recovered(s: State, req: Request, held: RackRecord, membershipGeneration: u64): RackRecord
    requires req.authority.boot.Some?
  {
    var r := held.reference;
    held.(reference := r.(
            rack := RecoverySubject(req),
            generation := req.newGeneration.GetOr(r.generation),
            composition := if req.reference.composition.Empty() then r.composition else req.reference.composition,
            endpoints := if req.reference.endpoints == [] then r.endpoints else req.reference.endpoints,
            hints := if req.reference.hints == [] then r.hints else req.reference.hints,
            rackLifecycle := req.reference.rackLifecycle,
            publisher := if req.authority.publisher.Some? then req.authority.publisher else r.publisher,
            boot := req.authority.boot.value,
            publication := req.authority.publication,
            evidence := req.evidence,
            clusterEpoch := s.sc.epoch, coordinatorEpoch := s.sc.coordinatorEpoch,
            currentness := Currentness.Current, health := req.reference.health),
          membership := Membership.Active, membershipEvidence := req.evidence, acceptedAt := s.sc.generation,
          authoritative := req.evidence.IsCurrent(), reason := Verdict(req.evidence.IsCurrent()),
          membershipGeneration := membershipGeneration)
  }

  function ApplyRecover(s: State, req: Request): Applied {
    match RecoverGate(s, req)
    case Refuse(reason) => Refused(reason)
    case Same => NoChange
    case Pass =>
      match Next(s.sc.membershipGeneration)
      case None => Refused(LimitExceeded)
      case Some(g) =>
        var rack := RecoverySubject(req);
        Changed(s.(sc := s.sc.(membershipGeneration := g, withdrawn := Without(s.sc.withdrawn, rack)),
                   racks := s.racks[rack := Recovered(s, req, s.racks[rack], g)]))
  }

  // ---- domains and constraints -----------------------------------------------------------

  predicate QuantityBefore(a: Quantity, b: Quantity) {
    || Less(a.unit, b.unit)
    || (a.unit == b.unit && ProvenanceCode(a.provenance) < ProvenanceCode(b.provenance))
    || (a.unit == b.unit && a.provenance == b.provenance && !a.aggregated && b.aggregated)
  }

  function ProvenanceCode(p: Provenance): (r: byte)
    ensures r <= 6
  {
    match p
    case Unknown => 0
    case Measured => 1
    case Reported => 2
    case Derived => 3
    case Estimated => 4
    case Synthetic => 5
    case Reconstructed => 6
  }

  /** std::isfinite on an IEEE double: the exponent field is not all ones. */
  predicate Finite(bits: u64) { (bits / 0x10_0000_0000_0000) % 2048 != 2047 }

  function QuantityRefusal(quantities: seq<Quantity>, i: nat): Gate
    requires i < |quantities|
  {
    var q := quantities[i];
    if !IsLabel(q.unit) then Refuse(InvalidDomain)
    else if q.value.Some? && !Finite(q.value.value) then Refuse(InvalidDomain)
    else if i > 0 && quantities[i - 1].unit == q.unit then Refuse(Conflict)
    else Pass
  }

  function FirstRefusal(quantities: seq<Quantity>, i: nat): Gate
    requires i <= |quantities|
    decreases |quantities| - i
  {
    if i == |quantities| then Pass
    else if QuantityRefusal(quantities, i).Refuse? then QuantityRefusal(quantities, i)
    else FirstRefusal(quantities, i + 1)
  }

  /** The payload after the in-place sorting that validation performs. */
  function Normalized(kind: DomainKind, d: Domain): Domain {
    d.(racks := SortUnique(d.racks, Before),
       quantities := if kind.Capacity? then Sort(d.quantities, QuantityBefore) else d.quantities)
  }

  function PayloadGate(s: State, kind: DomainKind, d: Domain): Gate {
    if d.id == [] then Refuse(InvalidDomain)
    else if |d.racks| > MAX_DOMAIN_MEMBERS then Refuse(LimitExceeded)
    else if exists r | r in d.racks :: !s.IsMember(r) then Refuse(UnknownRack)
    else if d.header.generation == 0 then Refuse(InvalidDomain)
    else if Classed(kind) && d.klass == 0 then Refuse(InvalidDomain)
    else if kind.Capacity? && |d.quantities| > MAX_CAPACITY_QUANTITIES then Refuse(LimitExceeded)
    else if kind.Capacity? then FirstRefusal(Sort(d.quantities, QuantityBefore), 0)
    else Pass
  }

  /** IEEE equality identifies the two zeros. */
  function SameZero(d: Domain): Domain {
    d.(quantities := seq(|d.quantities|, i requires 0 <= i < |d.quantities| =>
         if d.quantities[i].value == Some(0x8000_0000_0000_0000) then d.quantities[i].(value := Some(0))
         else d.quantities[i]))
  }

  function DomainGate(cfg: Config, s: State, kind: DomainKind, payload: Option<Domain>): Gate {
    if payload.None? then Refuse(Malformed)
    else if PayloadGate(s, kind, payload.value).Refuse? then PayloadGate(s, kind, payload.value)
    else
      var d := Normalized(kind, payload.value);
      if (kind, d.id) in s.domains then
        var held := s.domains[(kind, d.id)];
        if d.header.generation < held.header.generation then Refuse(StalePublication)
        else if d.header.generation > held.header.generation then Pass
        else if SameZero(d) == SameZero(held) then Same
        else Refuse(Conflict)
      else if |s.DomainIds(kind)| >= cfg.maxDomains then Refuse(LimitExceeded)
      else Pass
  }

  /** advance_aggregate, with the wrap-around of the unsigned successor written out. */
  function AdvanceAggregate(aggregate: u64, record: u64): (r: Option<u64>)
    ensures r.Some? ==> r.value >= aggregate && r.value >= record && r.value != 0
    ensures r.None? ==> aggregate == MAX_U64
  {
    var candidate := if aggregate == MAX_U64 then 0 else aggregate + 1;
    var value := if candidate < record then record else candidate;
    if value < aggregate || value == 0 then None else Some(value)
  }

  function Stamped(s: State, h: Header): Header {
    h.(clusterEpoch := s.sc.epoch, coordinatorEpoch := s.sc.coordinatorEpoch)
  }

  function WithTopology(sc: Scalars, generation: u64): Scalars {
    sc.(topologyGeneration := generation, topology := sc.topology.(generation := generation))
  }

  function ApplyDomain(cfg: Config, s: State, kind: DomainKind, payload: Option<Domain>): Applied {
    match DomainGate(cfg, s, kind, payload)
    case Refuse(reason) => Refused(reason)
    case Same => NoChange
    case Pass =>
      var d := Normalized(kind, payload.value);
      match (AdvanceAggregate(s.sc.domainGenerations.Get(kind), d.header.generation), Next(s.sc.topologyGeneration))
      case (Some(aggregate), Some(g)) =>
        Changed(s.(sc := WithTopology(s.sc.(domainGenerations := s.sc.domainGenerations.Set(kind, aggregate)), g),
                   domains := s.domains[(kind, d.id) := d.(header := Stamped(s, d.header))]))
      case _ => Refused(LimitExceeded)
  }

  function ConstraintGate(cfg: Config, s: State, payload: Option<Constraint>): Gate {
    if payload.None? then Refuse(Malformed)
    else
      var c := payload.value.(racks := SortUnique(payload.value.racks, Before));
      if |payload.value.racks| > MAX_DOMAIN_MEMBERS then Refuse(LimitExceeded)
      else if exists r | r in payload.value.racks :: !s.IsMember(r) then Refuse(UnknownRack)
      else if c.kind == 0 then Refuse(InvalidDomain)
      else if c.header.generation == 0 then Refuse(InvalidDomain)
      else if c.id in s.constraints then
        var held := s.constraints[c.id];
        if c.header.generation < held.header.generation then Refuse(StalePublication)
        else if c.header.generation > held.header.generation then Pass
        else if c == held then Same
        else Refuse(Conflict)
      else if |s.constraints| >= cfg.maxConstraints then Refuse(LimitExceeded)
      else Pass
  }

  function ApplyConstraint(cfg: Config, s: State, payload: Option<Constraint>): Applied {
    match ConstraintGate(cfg, s, payload)
    case Refuse(reason) => Refused(reason)
    case Same => NoChange
    case Pass =>
      match Next(s.sc.constraintGeneration)
      case None => Refused(LimitExceeded)
      case Some(g) =>
        var c := payload.value;
        Changed(s.(sc := s.sc.(constraintGeneration := g),
                   constraints := s.constraints[c.id := c.(racks := SortUnique(c.racks, Before),
                                                           header := Stamped(s, c.header))]))
  }

  // ---- topology --------------------------------------------------------------------------

  /** Two publications of one link compare without evidence and publication counter. */
  function LinkContent(l: Link): Link { l.(header := l.header.(evidence := NO_EVIDENCE), publication := 0) }

  function LinkGate(cfg: Config, s: State, payload: Option<Link>): Gate {
    if payload.None? then Refuse(Malformed)
    else
      var l := payload.value.(failureDomains := SortUnique(payload.value.failureDomains, Before));
      if l.source == l.destination then Refuse(InvalidRelationship)
      else if l.direction.Unknown? then Refuse(InvalidRelationship)
      else if !s.IsMember(l.source) then Refuse(UnknownRack)
      else if !s.IsMember(l.destination) then Refuse(UnknownRack)
      else if |payload.value.failureDomains| > MAX_FAILURE_DOMAIN_REFS then Refuse(LimitExceeded)
      else if exists d | d in payload.value.failureDomains :: (Failure, d) !in s.domains then Refuse(UnknownDomain)
      else if l.networkDomain.Some? && (Network, l.networkDomain.value) !in s.domains then Refuse(UnknownDomain)
      else if l.linkDomain.Some? && (LinkGroup, l.linkDomain.value) !in s.domains then Refuse(UnknownDomain)
      else if l.header.generation == 0 then Refuse(InvalidRelationship)
      else if l.id in s.links && l.header.generation < s.links[l.id].header.generation then Refuse(StalePublication)
      else if l.id in s.links && l.header.generation == s.links[l.id].header.generation then
        if LinkContent(l) == LinkContent(s.links[l.id]) then Same else Refuse(Conflict)
      else if l.id !in s.links && |s.links| >= cfg.maxLinks then Refuse(LimitExceeded)
      else if l.topologyEpoch != s.sc.topologyEpoch then Refuse(StaleTopologyEpoch)
      else Pass
  }

  function PublishedLink(s: State, l: Link): Link {
    l.(failureDomains := SortUnique(l.failureDomains, Before), header := Stamped(s, l.header),
       topologyGeneration := s.sc.topologyGeneration)
  }

  /** Both topology counters move together with the topology record. */
  function TopologyMoved(sc: Scalars): Option<Scalars> {
    match (Next(sc.topologyGeneration), Next(sc.connectivityGeneration))
    case (Some(t), Some(c)) => Some(WithTopology(sc, t).(connectivityGeneration := c))
    case _ => None
  }

  function ApplyLink(cfg: Config, s: State, payload: Option<Link>): Applied {
    match LinkGate(cfg, s, payload)
    case Refuse(reason) => Refused(reason)
    case Same => NoChange
    case Pass =>
      match TopologyMoved(s.sc)
      case None => Refused(LimitExceeded)
      case Some(sc) => Changed(s.(sc := sc, links := s.links[payload.value.id := PublishedLink(s, payload.value)]))
  }

  function ApplyWithdrawLink(s: State, id: Option<Id>): Applied {
    if id.None? then Refused(Malformed)
    else if id.value !in s.links then NoChange
    else
      match TopologyMoved(s.sc)
      case None => Refused(LimitExceeded)
      case Some(sc) => Changed(s.(sc := sc, links := s.links - {id.value}))
  }

  function SilencedLinks(links: map<Id, Link>): map<Id, Link> { map k | k in links :: links[k].Silenced() }

  function ApplySupersede(now: Timestamp, s: State, req: Request): Applied {
    if req.targetEpoch.None? then Refused(Malformed)
    else if req.targetEpoch.value <= s.sc.topologyEpoch then Refused(StaleTopologyEpoch)
    else
      match TopologyMoved(s.sc)
      case None => Refused(LimitExceeded)
      case Some(sc) =>
        var reason := if req.topologyReason == [] then Ascii("topology_superseded") else req.topologyReason;
        Changed(s.(sc := sc.(topologyEpoch := req.targetEpoch.value,
                             topology := TopologyRecord(req.targetEpoch.value, sc.topologyGeneration, now,
                                                        Stamp(Provenance.Reported, now, 0), reason)),
                   links := SilencedLinks(s.links)))
  }

  // ---- evidence --------------------------------------------------------------------------

  function HealthGate(s: State, req: Request): Gate {
    var rack := req.Subject();
    if rack == [] then Refuse(Malformed)
    else if rack !in s.racks then Refuse(UnknownRack)
    else if s.IsRetired(rack) then Refuse(Reason.Retired)
    else if ValidateBoot(s, req, rack).Refuse? then ValidateBoot(s, req, rack)
    else if s.racks[rack].reference.health == req.health
            && s.racks[rack].reference.evidence.observedAt == req.evidence.observedAt then Same
    else Pass
  }

  function Reported(s: State, req: Request, held: RackRecord): RackRecord {
    held.(reference := held.reference.(health := req.health, evidence := req.evidence,
                                       publication := req.authority.publication,
                                       coordinatorEpoch := s.sc.coordinatorEpoch),
          authoritative := req.evidence.IsCurrent(), reason := Verdict(req.evidence.IsCurrent()))
  }

  function ReportedLink(req: Request, l: Link): Link {
    l.(reachability := req.reachability, header := l.header.(evidence := req.evidence))
  }

  function ReportedLinks(req: Request, rack: Id, links: map<Id, Link>): map<Id, Link> {
    map k | k in links :: if links[k].Touches(rack) then ReportedLink(req, links[k]) else links[k]
  }

  /** Health always moves; connectivity moves only when links were rewritten. */
  function EvidenceMoved(sc: Scalars, connectivity: bool): Option<Scalars> {
    if connectivity && Next(sc.connectivityGeneration).None? then None
    else if Next(sc.healthGeneration).None? then None
    else Some(sc.(connectivityGeneration := if connectivity then sc.connectivityGeneration + 1
                                            else sc.connectivityGeneration,
                  healthGeneration := sc.healthGeneration + 1))
  }

  function ApplyHealth(s: State, req: Request): Applied {
    match HealthGate(s, req)
    case Refuse(reason) => Refused(reason)
    case Same => NoChange
    case Pass =>
      var rack, spreads := req.Subject(), !req.reachability.Unknown?;
      match EvidenceMoved(s.sc, spreads)
      case None => Refused(LimitExceeded)
      case Some(sc) =>
        Changed(s.(sc := sc, racks := s.racks[rack := Reported(s, req, s.racks[rack])],
                   links := if spreads then ReportedLinks(req, rack, s.links) else s.links))
  }

  function Selector(req: Request): Text {
    if req.selector == [] then Ascii("rack_evidence") else req.selector
  }

  function WithdrawGate(s: State, req: Request): Gate {
    if Selector(req) !in {Ascii("rack_evidence"), Ascii("rack_health"), Ascii("reachability")} then Refuse(Malformed)
    else if req.Subject() !in s.racks then Refuse(UnknownRack)
    else Pass
  }

  function Demoted(held: RackRecord, reason: Text): RackRecord {
    held.(reference := held.reference.(currentness := Currentness.RevalidationRequired),
          authoritative := false, reason := reason)
  }

  /** Demoted, with its observation orphaned as well. */
  function Orphaned(held: RackRecord, reason: Text): RackRecord {
    Demoted(held.(reference := held.reference.(evidence := held.reference.evidence.Orphaned())), reason)
  }

  function OrphanedLink(l: Link): Link {
    l.(reachability := Reachability.RevalidationRequired, header := l.header.(evidence := l.header.evidence.Orphaned()))
  }

  function OrphanedLinks(rack: Id, links: map<Id, Link>): map<Id, Link> {
    map k | k in links :: if links[k].Touches(rack) then OrphanedLink(links[k]) else links[k]
  }

  function ApplyWithdrawEvidence(s: State, req: Request): Applied {
    match WithdrawGate(s, req)
    case Refuse(reason) => Refused(reason)
    case Same => NoChange
    case Pass =>
      var rack, spreads := req.Subject(), Selector(req) in {Ascii("reachability"), Ascii("rack_evidence")};
      match EvidenceMoved(s.sc, spreads)
      case None => Refused(LimitExceeded)
      case Some(sc) =>
        Changed(s.(sc := sc, racks := s.racks[rack := Orphaned(s.racks[rack], Ascii("evidence_withdrawn"))],
                   links := if spreads then OrphanedLinks(rack, s.links) else s.links))
  }

  // ---- cluster ---------------------------------------------------------------------------

  function FirstDeclaration(now: Timestamp, s: State, req: Request): State {
    s.(id := req.cluster,
       sc := s.sc.(
         epoch := if req.authority.clusterEpoch != 0 then req.authority.clusterEpoch else 1,
         coordinatorEpoch := if req.authority.coordinatorEpoch != 0 then req.authority.coordinatorEpoch
                             else s.sc.coordinatorEpoch,
         generation := 1, membershipGeneration := 1, topologyEpoch := 1, topologyGeneration := 1,
         connectivityGeneration := 1, healthGeneration := 1, constraintGeneration := 1,
         domainGenerations := DomainGenerations(1, 1, 1, 1, 1, 1, 1, 1),
         snapshotGeneration := 1, publicationGeneration := 1,
         contract := req.contract, lifecycle := Lifecycle.Declared, declaredAt := now, lastMutationAt := now,
         topology := TopologyRecord(1, 1, now, Stamp(Provenance.Reported, now, 0), Ascii("cluster_declared"))))
  }

  function ApplyDeclare(now: Timestamp, s: State, req: Request): Applied {
    if !s.Declared() then Changed(FirstDeclaration(now, s, req))
    else if req.contract == s.sc.contract && req.lifecycle == s.sc.lifecycle then NoChange
    else Changed(s.(sc := s.sc.(contract := req.contract, lifecycle := req.lifecycle)))
  }

  function DemotedRacks(racks: map<Id, RackRecord>, reason: Text): map<Id, RackRecord> {
    map k | k in racks :: if racks[k].authoritative then Demoted(racks[k], reason) else racks[k]
  }

  function ApplyRetireCluster(s: State): Applied {
    if s.sc.lifecycle.Retired? then NoChange
    else Changed(s.(sc := s.sc.(lifecycle := Lifecycle.Retired),
                    racks := DemotedRacks(s.racks, Ascii("cluster_retired"))))
  }

  function ApplySnapshot(s: State): Applied {
    match (Next(s.sc.snapshotGeneration), Next(s.sc.publicationGeneration))
    case (Some(n), Some(p)) => Changed(s.(sc := s.sc.(snapshotGeneration := n, publicationGeneration := p)))
    case _ => Refused(LimitExceeded)
  }

  predicate FreshlyHeld(r: RackRecord) {
    r.authoritative && r.reference.evidence.IsCurrent() && !r.reference.evidence.provenance.Reconstructed?
  }

  function ApplyRevalidate(s: State, req: Request): Applied {
    var unnamed := req.racks == [];
    if unnamed && s.racks == map[] then NoChange
    else if exists r | r in req.racks :: r !in s.racks then Refused(UnknownRack)
    else if unnamed && (forall k | k in s.racks :: FreshlyHeld(s.racks[k])) then Changed(s)
    else if !unnamed && (forall r | r in req.racks :: FreshlyHeld(s.racks[r])) then Changed(s)
    else Incomplete
  }

  /** apply_request: authority first, then the mutation itself. */
  function Apply(cfg: Config, now: Timestamp, s: State, req: Request): Applied {
    if ValidateCommon(s, req).Refuse? then Refused(ValidateCommon(s, req).reason)
    else
      match req.kind
      case Unknown => Refused(Malformed)
      case DeclareCluster => ApplyDeclare(now, s, req)
      case RegisterPublisher => ApplyRegister(cfg, s, req)
      case AddRack => ApplyAdd(cfg, now, s, req)
      case UpdateRackGeneration => ApplyUpdate(s, req)
      case MarkUnavailable => ApplyMembership(now, s, req, Membership.Unavailable)
      case WithdrawRack => ApplyMembership(now, s, req, Membership.Withdrawn)
      case RetireRack => ApplyMembership(now, s, req, Membership.Retired)
      case RecoverRack => ApplyRecover(s, req)
      case PublishLink => ApplyLink(cfg, s, req.link)
      case WithdrawLink => ApplyWithdrawLink(s, req.linkId)
      case PublishDomain(kind) => ApplyDomain(cfg, s, kind, req.domain)
      case PublishConstraint => ApplyConstraint(cfg, s, req.constraint)
      case PublishHealth => ApplyHealth(s, req)
      case WithdrawEvidence => ApplyWithdrawEvidence(s, req)
      case SupersedeTopology => ApplySupersede(now, s, req)
      case PublishSnapshot => ApplySnapshot(s)
      case Revalidate => ApplyRevalidate(s, req)
      case RetireCluster => ApplyRetireCluster(s)
  }
}
