/** Exactly which requests a state answers with a change, with nothing, or with a refusal, and on what grounds. */
module Permits {
  import opened Foundation
  import opened TextOrder
  import opened Sorting
  import opened EvidenceStamps
  import opened Records
  import opened Mutations

  // ---- the shape of a rack ---------------------------------------------------------------

  predicate SameEndpoints(a: seq<Endpoint>, b: seq<Endpoint>) {
    && |a| == |b|
    && forall i | 0 <= i < |a| ::
         && a[i].id == b[i].id && a[i].networkDomain == b[i].networkDomain && a[i].linkDomain == b[i].linkDomain
         && a[i].connectivity == b[i].connectivity
  }

  predicate SameHints(a: seq<Hint>, b: seq<Hint>) {
    |a| == |b| && forall i | 0 <= i < |a| :: a[i].klass == b[i].klass && a[i].id == b[i].id
  }

  predicate SameComposition(a: Composition, b: Composition) {
    && SortUnique(a.accelerators, AcceleratorBefore) == SortUnique(b.accelerators, AcceleratorBefore)
    && a.sockets == b.sockets && a.cores == b.cores && a.hostMemory == b.hostMemory && a.nics == b.nics
    && a.switches == b.switches && a.title == b.title && a.provenance == b.provenance
  }

  /**
   * The two references describe one rack: every field agrees but publication, evidence, health, currentness, the two
   * epochs, incarnation and publisher. Endpoints and hints compare in canonical order, without their evidence.
   */
  predicate SameShape(a: RackReference, b: RackReference) {
    && a.rack == b.rack && a.generation == b.generation && a.rackLifecycle == b.rackLifecycle && a.origin == b.origin
    && SameComposition(a.composition, b.composition)
    && SameEndpoints(SortUnique(a.endpoints, EndpointBefore), SortUnique(b.endpoints, EndpointBefore))
    && SameHints(SortUnique(a.hints, HintBefore), SortUnique(b.hints, HintBefore))
  }

  lemma SameEndpointContent(a: RackReference, b: RackReference)
    ensures Content(a).endpoints == Content(b).endpoints <==>
      SameEndpoints(SortUnique(a.endpoints, EndpointBefore), SortUnique(b.endpoints, EndpointBefore))
  {
    hide SortUnique;
    var x, y := SortUnique(a.endpoints, EndpointBefore), SortUnique(b.endpoints, EndpointBefore);
    if Content(a).endpoints == Content(b).endpoints {
      assert |x| == |y|;
      forall i | 0 <= i < |x| ensures x[i].(evidence := NO_EVIDENCE) == y[i].(evidence := NO_EVIDENCE) {
        assert Content(a).endpoints[i] == Content(b).endpoints[i];
      }
    }
  }

  lemma SameHintContent(a: RackReference, b: RackReference)
    ensures Content(a).hints == Content(b).hints <==>
      SameHints(SortUnique(a.hints, HintBefore), SortUnique(b.hints, HintBefore))
  {
    hide SortUnique;
    var x, y := SortUnique(a.hints, HintBefore), SortUnique(b.hints, HintBefore);
    if Content(a).hints == Content(b).hints {
      assert |x| == |y|;
      forall i | 0 <= i < |x| ensures x[i].(evidence := NO_EVIDENCE) == y[i].(evidence := NO_EVIDENCE) {
        assert Content(a).hints[i] == Content(b).hints[i];
      }
    }
  }

  /** Cleared copies are equal exactly for references of one shape. */
  lemma ContentIsShape(a: RackReference, b: RackReference)
    ensures SameContent(a, b) <==> SameShape(a, b)
  {
    hide SortUnique; hide SameEndpoints; hide SameHints;
    SameEndpointContent(a, b);
    SameHintContent(a, b);
  }

  /** Ascending, and no element before an earlier one. */
  ghost predicate Increasing<T>(s: seq<T>, lt: (T, T) -> bool) {
    forall i | 1 <= i < |s| :: lt(s[i - 1], s[i]) && !lt(s[i], s[i - 1])
  }

  lemma IncreasingFront<T>(s: seq<T>, lt: (T, T) -> bool)
    requires Increasing(s, lt) && |s| >= 2
    ensures Increasing(s[..|s| - 1], lt)
    ensures lt(s[|s| - 2], s[|s| - 1]) && !lt(s[|s| - 1], s[|s| - 2]) && s[..|s| - 1][|s| - 2] == s[|s| - 2]
  {}

  lemma {:induction false} SortKeeps<T>(s: seq<T>, lt: (T, T) -> bool)
    requires Increasing(s, lt)
    ensures Sort(s, lt) == s
  {
    hide Increasing;
    if |s| >= 2 {
      var front, last := s[..|s| - 1], s[|s| - 1];
      IncreasingFront(s, lt);
      SortKeeps(front, lt);
      hide Sort;
      assert s == front + [last];
      SortLast(s, lt);
    } else if |s| == 1 {
      assert s == [] + [s[0]] && s[..0] == [];
    }
  }

  lemma SortLast<T>(s: seq<T>, lt: (T, T) -> bool)
    requires s != [] && Sort(s[..|s| - 1], lt) == s[..|s| - 1]
    requires |s| >= 2 ==> !lt(s[|s| - 1], s[..|s| - 1][|s| - 2])
    ensures Sort(s, lt) == s[..|s| - 1] + [s[|s| - 1]]
  {}

  lemma {:induction false} DropKeeps<T>(s: seq<T>, lt: (T, T) -> bool)
    requires Increasing(s, lt)
    ensures DropRepeats(s, lt) == s
  {
    hide Increasing;
    if |s| >= 2 {
      IncreasingFront(s, lt);
      DropKeeps(s[..|s| - 1], lt);
      assert s == s[..|s| - 1] + [s[|s| - 1]];
    }
  }

  lemma AscendingIncreases<T(!new)>(s: seq<T>, lt: (T, T) -> bool)
    requires StrictOrder(lt) && Ascending(s, lt)
    ensures Increasing(s, lt)
  {}

  /** Sorting again changes nothing. */
  lemma SortedOnce<T(!new)>(s: seq<T>, lt: (T, T) -> bool)
    requires StrictOrder(lt)
    ensures SortUnique(SortUnique(s, lt), lt) == SortUnique(s, lt)
  {
    hide Increasing; hide Ascending; hide StrictOrder; hide NonDescending;
    SortOrders(s, lt);
    DropRepeatsIsStrict(Sort(s, lt), lt);
    AscendingIncreases(SortUnique(s, lt), lt);
    SortKeeps(SortUnique(s, lt), lt);
    DropKeeps(SortUnique(s, lt), lt);
  }

  lemma EndpointsAreOrdered()
    ensures StrictOrder(EndpointBefore)
  {
    TextIsOrdered();
    assert forall a: Endpoint, b: Endpoint :: EndpointBefore(a, b) == Before(a.id, b.id);
  }

  lemma HintsAreOrdered()
    ensures StrictOrder(HintBefore)
  {
    TextIsOrdered();
    assert forall a: Hint, b: Hint ::
      HintBefore(a, b) == (a.klass < b.klass || (a.klass == b.klass && Before(a.id, b.id)));
  }

  predicate FamilyBefore(a: Accelerator, b: Accelerator) {
    a.vendor < b.vendor || (a.vendor == b.vendor && Before(a.family, b.family))
  }

  lemma FamiliesAreOrdered()
    ensures StrictOrder(FamilyBefore)
    ensures forall a: Accelerator, b: Accelerator ::
      !FamilyBefore(a, b) && !FamilyBefore(b, a) ==> a.vendor == b.vendor && a.family == b.family
  {
    TextIsOrdered();
  }

  lemma AcceleratorsAreOrdered()
    ensures StrictOrder(AcceleratorBefore)
  {
    FamiliesAreOrdered();
    TextIsOrdered();
    assert forall a: Accelerator, b: Accelerator ::
      AcceleratorBefore(a, b) == (|| FamilyBefore(a, b)
                                  || (a.vendor == b.vendor && a.family == b.family
                                      && (OptionBefore(a.devices, b.devices)
                                          || (a.devices == b.devices && OptionBefore(a.memory, b.memory)))));
    hide FamilyBefore; hide Less;
  }

  /** A reference and its canonical form have one shape with the same others. */
  lemma CanonicalShape(a: RackReference, b: RackReference)
    ensures SameShape(a, Canonicalize(b)) <==> SameShape(a, b)
  {
    hide SortUnique; hide SameEndpoints; hide SameHints; hide StrictOrder;
    EndpointsAreOrdered();
    HintsAreOrdered();
    AcceleratorsAreOrdered();
    SortedOnce(b.endpoints, EndpointBefore);
    SortedOnce(b.hints, HintBefore);
    SortedOnce(b.composition.accelerators, AcceleratorBefore);
  }

  lemma ShapeIsEquivalence(a: RackReference, b: RackReference, c: RackReference)
    ensures SameShape(a, a)
    ensures SameShape(a, b) ==> SameShape(b, a)
    ensures SameShape(a, b) && SameShape(b, c) ==> SameShape(a, c)
  {
    hide SortUnique;
  }

  // ---- who is heard ----------------------------------------------------------------------

  /** The request addresses this cluster in its current epochs. */
  predicate Addressed(s: State, req: Request) {
    && !req.kind.Unknown? && IsIdentity(req.cluster)
    && (if req.kind.DeclareCluster? then s.Declared() ==> req.authority.clusterEpoch == s.sc.epoch
        else
          && req.cluster == s.id && s.Declared() && req.authority.clusterEpoch == s.sc.epoch
          && req.authority.coordinatorEpoch == s.sc.coordinatorEpoch && !s.sc.lifecycle.Retired?)
  }

  lemma AddressedExactly(s: State, req: Request)
    ensures var g := ValidateCommon(s, req);
      && (g.Refuse? <==> !Addressed(s, req))
      && (g.Refuse? ==>
            match g.reason
            case Malformed => req.kind.Unknown? || !IsIdentity(req.cluster)
            case WrongCluster => req.cluster != s.id
            case NotReady => !s.Declared()
            case StaleClusterEpoch => s.Declared() && req.authority.clusterEpoch != s.sc.epoch
            case StaleCoordinatorEpoch => req.authority.coordinatorEpoch != s.sc.coordinatorEpoch
            case Retired => s.sc.lifecycle.Retired?
            case _ => false)
  {
    hide IsIdentity;
  }

  /** An addressed request reaches the operation of its kind; the three exclusions differ in their target alone. */
  lemma Answered(cfg: Config, now: Timestamp, s: State, req: Request)
    ensures !Addressed(s, req) ==> Apply(cfg, now, s, req).Refused?
    ensures Addressed(s, req) ==>
      Apply(cfg, now, s, req) ==
      match req.kind
      case Unknown => Refused(Malformed)
      case DeclareCluster => ApplyDeclare(now, s, req)
      case RegisterPublisher => ApplyRegister(cfg, s, req)
      case AddRack => ApplyAdd(cfg, now, s, req)
      case UpdateRackGeneration => ApplyUpdate(s, req)
      case MarkUnavailable => ApplyMembership(now, s, req, Membership.Unavailable)
      case WithdrawRack => ApplyMembership(now, s, req, Membership.Withdrawn)
      case RetireRack => ApplyMembership(now, s, req, Membership.Retired)
      case RecoverRack => ApplyRecover(s, req)
      case PublishLink => ApplyLink(cfg, s, req.link)
      case WithdrawLink => ApplyWithdrawLink(s, req.linkId)
      case PublishDomain(kind) => ApplyDomain(cfg, s, kind, req.domain)
      case PublishConstraint => ApplyConstraint(cfg, s, req.constraint)
      case PublishHealth => ApplyHealth(s, req)
      case WithdrawEvidence => ApplyWithdrawEvidence(s, req)
      case SupersedeTopology => ApplySupersede(now, s, req)
      case PublishSnapshot => ApplySnapshot(s)
      case Revalidate => ApplyRevalidate(s, req)
      case RetireCluster => ApplyRetireCluster(s)
  {
    hide ValidateCommon; hide Addressed; hide ApplyDeclare; hide ApplyRegister; hide ApplyAdd; hide ApplyUpdate;
    hide ApplyMembership; hide ApplyRecover; hide ApplyLink; hide ApplyWithdrawLink; hide ApplyDomain;
    hide ApplyConstraint; hide ApplyHealth; hide ApplyWithdrawEvidence; hide ApplySupersede; hide ApplySnapshot;
    hide ApplyRevalidate; hide ApplyRetireCluster;
    AddressedExactly(s, req);
  }

  predicate Agree(a: Option<Id>, b: Option<Id>) { a.Some? && b.Some? ==> a == b }

  /**
   * The incarnation behind the request may speak for the rack: it is not fenced, does not speak over another
   * incarnation that holds authority or over another publisher, and moves its own publication counter forward unless
   * it repeats what is held.
   */
  predicate Speaks(s: State, req: Request, k: Id) {
    req.authority.boot.Some? ==>
      var boot := req.authority.boot.value;
      && !s.IsFenced(boot)
      && (k in s.racks ==>
            var r := s.racks[k];
            && (r.authoritative ==> r.reference.boot == boot)
            && Agree(req.authority.publisher, r.reference.publisher)
            && (r.reference.boot == boot && req.authority.publication != 0 ==>
                  || req.authority.publication > r.reference.publication
                  || (req.authority.publication == r.reference.publication && req.reference.rack == k
                      && req.reference.boot == boot && SameShape(r.reference, req.reference))))
  }

  /** Why an incarnation was turned away. */
  predicate TurnedAway(s: State, req: Request, k: Id, reason: Reason) {
    && req.authority.boot.Some?
    && var boot := req.authority.boot.value;
       match reason
       case StaleRackBoot => s.IsFenced(boot)
       case NotAuthorized =>
         k in s.racks && ((s.racks[k].authoritative && s.racks[k].reference.boot != boot)
                          || !Agree(req.authority.publisher, s.racks[k].reference.publisher))
       case StalePublication =>
         && k in s.racks && s.racks[k].reference.boot == boot
         && 0 < req.authority.publication <= s.racks[k].reference.publication
       case _ => false
  }

  lemma RepeatIsShape(held: RackReference, asked: RackReference)
    ensures SameContent(held, Canonicalize(asked)) <==> SameShape(held, asked)
  {
    hide SameContent; hide SameShape; hide Canonicalize;
    CanonicalShape(held, asked);
    ContentIsShape(held, Canonicalize(asked));
  }

  lemma SpeaksExactly(s: State, req: Request, k: Id)
    ensures var g := ValidateBoot(s, req, k);
      (g.Refuse? <==> !Speaks(s, req, k)) && !g.Same? && (g.Refuse? ==> TurnedAway(s, req, k, g.reason))
  {
    hide SameContent; hide SameShape; hide Canonicalize; hide State.IsFenced;
    if k in s.racks { RepeatIsShape(s.racks[k].reference, req.reference); }
  }

  // ---- racks -----------------------------------------------------------------------------

  lemma RegistrationExactly(cfg: Config, s: State, req: Request)
    ensures var a, k := ApplyRegister(cfg, s, req), req.authority.rack.GetOr(req.reference.rack);
      var named := k != [] && !s.IsRetired(k) && req.authority.publisher.Some?;
      && (a.Changed? <==>
            && named && k !in s.racks && |s.racks| < cfg.maxRacks
            && req.authority.rackGeneration.GetOr(req.reference.generation) != 0)
      && (a.NoChange? <==>
            && named && k in s.racks && Agree(s.racks[k].reference.publisher, req.authority.publisher)
            && (s.racks[k].reference.generation != 0 && req.authority.rackGeneration.Some? ==>
                  req.authority.rackGeneration.value >= s.racks[k].reference.generation))
      && (a.Refused? ==>
            match a.reason
            case Malformed => k == [] || req.authority.rackGeneration.GetOr(req.reference.generation) == 0
            case Retired => s.IsRetired(k)
            case NotAuthorized => req.authority.publisher.None?
            case Conflict => k in s.racks && !Agree(s.racks[k].reference.publisher, req.authority.publisher)
            case StaleRackGeneration =>
              && k in s.racks && req.authority.rackGeneration.Some?
              && req.authority.rackGeneration.value < s.racks[k].reference.generation
            case LimitExceeded => k !in s.racks && |s.racks| >= cfg.maxRacks
            case _ => false)
      && !a.Incomplete?
  {
    hide State.IsRetired; hide Registration;
  }

  /** Bounds and labels of a reference, with its lists in canonical order. */
  predicate Wellformed(r: RackReference) {
    var accelerators := SortUnique(r.composition.accelerators, AcceleratorBefore);
    var endpoints, hints := SortUnique(r.endpoints, EndpointBefore), SortUnique(r.hints, HintBefore);
    && r.rack != [] && r.generation != 0 && r.publisher.Some? && !r.evidence.provenance.Unknown?
    && |endpoints| <= 256 && |hints| <= 256 && |accelerators| <= 64
    && (r.composition.title != [] ==> IsLabel(r.composition.title)) && (r.origin != [] ==> IsLabel(r.origin))
    && (forall i | 0 <= i < |accelerators| :: accelerators[i].family != [] ==> IsLabel(accelerators[i].family))
    && (forall i | 0 <= i < |endpoints| :: endpoints[i].id != [])
    && (forall i | 0 <= i < |hints| :: hints[i].klass != 0)
  }

  lemma WellformedExactly(r: RackReference)
    ensures ValidReference(Canonicalize(r)) <==> Wellformed(r)
  {
    hide SortUnique; hide IsLabel;
  }

  /** Registered, never admitted. */
  predicate Placeholder(r: RackRecord) { r.membership.Unknown? && !r.authoritative }

  /** The reference may replace the record. At the generation held, only the dynamic fields of a rack may differ. */
  predicate Succeeds(held: RackRecord, r: RackReference) {
    || (r.generation > held.reference.generation && Agree(held.reference.publisher, r.publisher))
    || (r.generation == held.reference.generation && Placeholder(held) && Agree(held.reference.publisher, r.publisher))
    || (&& r.generation == held.reference.generation && !Placeholder(held) && SameShape(held.reference, r)
        && (r.boot == held.reference.boot ==> r.publication > held.reference.publication))
  }

  /** The reference is the one held. */
  predicate Repeats(held: RackRecord, r: RackReference) {
    && r.generation == held.reference.generation && !Placeholder(held) && SameShape(held.reference, r)
    && r.boot == held.reference.boot && r.publisher == held.reference.publisher
    && r.publication == held.reference.publication
  }

  /** Why a reference may not replace the record. */
  predicate Contradicts(held: RackRecord, r: RackReference, reason: Reason) {
    var h := held.reference;
    match reason
    case StaleRackGeneration => r.generation < h.generation
    case NotAuthorized => r.generation > h.generation && !Agree(h.publisher, r.publisher)
    case Conflict =>
      r.generation == h.generation && if Placeholder(held) then !Agree(h.publisher, r.publisher) else !SameShape(h, r)
    case StalePublication => r.generation == h.generation && r.boot == h.boot && r.publication <= h.publication
    case _ => false
  }

  lemma SucceedsExactly(held: RackRecord, r: RackReference)
    ensures var g := RepublishGate(held, Canonicalize(r));
      && (g.Pass? <==> Succeeds(held, r)) && (g.Same? <==> Repeats(held, r))
      && (g.Refuse? ==> Contradicts(held, r, g.reason))
  {
    hide SameContent; hide SameShape; hide SortUnique;
    RepeatIsShape(held.reference, r);
  }

  predicate Moves(s: State, r: RackReference) {
    r.rack !in s.racks || !s.racks[r.rack].membership.Active? || r.generation > s.racks[r.rack].reference.generation
  }

  lemma AdmissionExactly(cfg: Config, now: Timestamp, s: State, req: Request)
    ensures var a, r, k := ApplyAdd(cfg, now, s, req), req.reference, req.reference.rack;
      var named := Wellformed(r) && !s.IsRetired(k) && Speaks(s, req, k);
      && (a.Changed? <==>
            && named && (if k in s.racks then Succeeds(s.racks[k], r) else |s.racks| < cfg.maxRacks)
            && (Moves(s, r) ==> s.sc.membershipGeneration < MAX_U64))
      && (a.NoChange? <==> named && k in s.racks && Repeats(s.racks[k], r))
      && !a.Incomplete?
  {
    hide RepublishGate; hide ValidateBoot; hide ValidReference; hide Wellformed; hide Speaks; hide Succeeds;
    hide Repeats; hide Contradicts; hide TurnedAway; hide State.IsRetired; hide SortUnique; hide Without;
    hide Admission;
    WellformedExactly(req.reference);
    SpeaksExactly(s, req, req.reference.rack);
    if req.reference.rack in s.racks { SucceedsExactly(s.racks[req.reference.rack], req.reference); }
  }

  lemma AdmissionRefusals(cfg: Config, now: Timestamp, s: State, req: Request)
    requires ApplyAdd(cfg, now, s, req).Refused?
    ensures var reason, r, k := ApplyAdd(cfg, now, s, req).reason, req.reference, req.reference.rack;
      || (reason.Malformed? && !Wellformed(r))
      || (reason.Retired? && s.IsRetired(k))
      || TurnedAway(s, req, k, reason)
      || (k in s.racks && Contradicts(s.racks[k], r, reason))
      || (reason.LimitExceeded?
          && ((k !in s.racks && |s.racks| >= cfg.maxRacks) || (Moves(s, r) && s.sc.membershipGeneration == MAX_U64)))
  {
    hide RepublishGate; hide ValidateBoot; hide ValidReference; hide Wellformed; hide Speaks; hide Succeeds;
    hide Repeats; hide Contradicts; hide TurnedAway; hide State.IsRetired; hide SortUnique; hide Without;
    hide Admission;
    WellformedExactly(req.reference);
    SpeaksExactly(s, req, req.reference.rack);
    if req.reference.rack in s.racks { SucceedsExactly(s.racks[req.reference.rack], req.reference); }
  }

  lemma UpdateExactly(s: State, req: Request)
    ensures var a, k := ApplyUpdate(s, req), req.authority.rack.GetOr(req.reference.rack);
      var named := k != [] && k in s.racks && Speaks(s, req, k) && req.newGeneration.Some?
                   && (req.expectedGeneration.Some? ==>
                         req.expectedGeneration.value == s.racks[k].reference.generation);
      && (a.Changed? <==>
            && named && req.newGeneration.value > s.racks[k].reference.generation
            && s.sc.membershipGeneration < MAX_U64)
      && (a.NoChange? <==> named && req.newGeneration.value == s.racks[k].reference.generation)
      && (a.Refused? && !TurnedAway(s, req, k, a.reason) ==>
            match a.reason
            case Malformed => k == [] || req.newGeneration.None?
            case UnknownRack => k !in s.racks
            case Conflict =>
              && k in s.racks && req.expectedGeneration.Some?
              && req.expectedGeneration.value != s.racks[k].reference.generation
            case StaleRackGeneration =>
              && k in s.racks && req.newGeneration.Some?
              && req.newGeneration.value < s.racks[k].reference.generation
            case LimitExceeded => s.sc.membershipGeneration == MAX_U64
            case _ => false)
      && !a.Incomplete?
  {
    hide ValidateBoot; hide Speaks; hide TurnedAway; hide Advanced;
    SpeaksExactly(s, req, req.Subject());
  }

  lemma ExclusionExactly(now: Timestamp, s: State, req: Request, target: Membership)
    ensures var a, k := ApplyMembership(now, s, req, target), req.authority.rack.GetOr(req.reference.rack);
      var named := k != [] && k in s.racks && Speaks(s, req, k);
      && (a.Changed? <==>
            && named && s.racks[k].membership != target && !s.racks[k].membership.Retired?
            && s.sc.membershipGeneration < MAX_U64)
      && (a.NoChange? <==> named && s.racks[k].membership == target)
      && (a.Refused? && !TurnedAway(s, req, k, a.reason) ==>
            match a.reason
            case Malformed => k == []
            case UnknownRack => k !in s.racks
            case Retired => k in s.racks && s.racks[k].membership.Retired?
            case LimitExceeded => s.sc.membershipGeneration == MAX_U64
            case _ => false)
      && !a.Incomplete?
  {
    hide ValidateBoot; hide Speaks; hide TurnedAway; hide Excluded; hide RetiredAfter; hide WithdrawnAfter;
    SpeaksExactly(s, req, req.Subject());
  }

  lemma RecoveryExactly(s: State, req: Request)
    ensures var a := ApplyRecover(s, req);
      var k := if req.reference.rack == [] then req.authority.rack.GetOr([]) else req.reference.rack;
      && (a.Changed? <==>
            && k != [] && !s.IsRetired(k) && k in s.racks && req.authority.boot.Some?
            && !s.IsFenced(req.authority.boot.value)
            && (s.racks[k].reference.boot == req.authority.boot.value ==> s.racks[k].authoritative)
            && (req.newGeneration.Some? ==> req.newGeneration.value >= s.racks[k].reference.generation)
            && s.sc.membershipGeneration < MAX_U64)
      && (a.Refused? ==>
            match a.reason
            case Malformed => k == []
            case Retired => s.IsRetired(k)
            case UnknownRack => k !in s.racks
            case NotAuthorized => req.authority.boot.None?
            case StaleRackBoot =>
              && req.authority.boot.Some?
              && (|| s.IsFenced(req.authority.boot.value)
                  || (&& k in s.racks && s.racks[k].reference.boot == req.authority.boot.value
                      && !s.racks[k].authoritative))
            case StaleRackGeneration =>
              && k in s.racks && req.newGeneration.Some?
              && req.newGeneration.value < s.racks[k].reference.generation
            case LimitExceeded => s.sc.membershipGeneration == MAX_U64
            case _ => false)
      && !a.Incomplete? && !a.NoChange?
  {
    hide State.IsRetired; hide State.IsFenced; hide Recovered; hide Without;
  }

  // ---- evidence --------------------------------------------------------------------------

  lemma HealthExactly(s: State, req: Request)
    ensures var a, k := ApplyHealth(s, req), req.authority.rack.GetOr(req.reference.rack);
      var named := k != [] && k in s.racks && !s.IsRetired(k) && Speaks(s, req, k);
      var known := k in s.racks && s.racks[k].reference.health == req.health
                   && s.racks[k].reference.evidence.observedAt == req.evidence.observedAt;
      && (a.Changed? <==>
            && named && !known && s.sc.healthGeneration < MAX_U64
            && (!req.reachability.Unknown? ==> s.sc.connectivityGeneration < MAX_U64))
      && (a.NoChange? <==> named && known)
      && (a.Refused? && !TurnedAway(s, req, k, a.reason) ==>
            match a.reason
            case Malformed => k == []
            case UnknownRack => k !in s.racks
            case Retired => s.IsRetired(k)
            case LimitExceeded =>
              s.sc.healthGeneration == MAX_U64
              || (!req.reachability.Unknown? && s.sc.connectivityGeneration == MAX_U64)
            case _ => false)
      && !a.Incomplete?
  {
    hide ValidateBoot; hide Speaks; hide TurnedAway; hide State.IsRetired; hide Mutations.Reported; hide ReportedLinks;
    SpeaksExactly(s, req, req.Subject());
  }

  lemma WithdrawalExactly(s: State, req: Request)
    ensures var a, k := ApplyWithdrawEvidence(s, req), req.authority.rack.GetOr(req.reference.rack);
      var health := req.selector == Ascii("rack_health");
      var named := health || req.selector == [] || req.selector == Ascii("rack_evidence")
                   || req.selector == Ascii("reachability");
      && (a.Changed? <==>
            && named && k in s.racks && s.sc.healthGeneration < MAX_U64
            && (!health ==> s.sc.connectivityGeneration < MAX_U64))
      && (a.Refused? ==>
            match a.reason
            case Malformed => !named
            case UnknownRack => k !in s.racks
            case LimitExceeded =>
              s.sc.healthGeneration == MAX_U64 || (!health && s.sc.connectivityGeneration == MAX_U64)
            case _ => false)
      && !a.Incomplete? && !a.NoChange?
  {
    hide Ascii; hide Orphaned; hide OrphanedLinks;
    SelectorsDiffer();
  }

  lemma SelectorsDiffer()
    ensures Ascii("rack_health") != [] && Ascii("rack_health") != Ascii("reachability")
    ensures Ascii("rack_health") != Ascii("rack_evidence")
  {
    assert Ascii("rack_health")[2] != Ascii("reachability")[2];
    assert Ascii("rack_health")[5] != Ascii("rack_evidence")[5];
  }

  // ---- topology --------------------------------------------------------------------------

  /** The link joins two different members by a direction and refers to domains that are there. */
  predicate Joins(s: State, l: Link) {
    && l.source != l.destination && !l.direction.Unknown? && s.IsMember(l.source) && s.IsMember(l.destination)
    && |l.failureDomains| <= 256 && (forall d | d in l.failureDomains :: (Failure, d) in s.domains)
    && (l.networkDomain.Some? ==> (Network, l.networkDomain.value) in s.domains)
    && (l.linkDomain.Some? ==> (LinkGroup, l.linkDomain.value) in s.domains)
    && l.header.generation != 0
  }

  /** Why a link joins nothing. */
  predicate JoinsNot(s: State, l: Link, reason: Reason) {
    match reason
    case InvalidRelationship => l.source == l.destination || l.direction.Unknown? || l.header.generation == 0
    case UnknownRack => !s.IsMember(l.source) || !s.IsMember(l.destination)
    case LimitExceeded => |l.failureDomains| > 256
    case UnknownDomain =>
      || (exists d | d in l.failureDomains :: (Failure, d) !in s.domains)
      || (l.networkDomain.Some? && (Network, l.networkDomain.value) !in s.domains)
      || (l.linkDomain.Some? && (LinkGroup, l.linkDomain.value) !in s.domains)
    case _ => false
  }

  /** Equal in every field but evidence and publication counter, failure domains as sorted by the store. */
  predicate SameLink(held: Link, l: Link) {
    held == l.(failureDomains := SortUnique(l.failureDomains, Before), publication := held.publication,
               header := l.header.(evidence := held.header.evidence))
  }

  predicate NoRoom(sc: Scalars) { sc.topologyGeneration == MAX_U64 || sc.connectivityGeneration == MAX_U64 }

  lemma LinkExactly(cfg: Config, s: State, l: Link)
    ensures var a, held := ApplyLink(cfg, s, Some(l)), l.id in s.links;
      && (a.Changed? <==>
            && Joins(s, l) && l.topologyEpoch == s.sc.topologyEpoch && !NoRoom(s.sc)
            && (if held then l.header.generation > s.links[l.id].header.generation else |s.links| < cfg.maxLinks))
      && (a.NoChange? <==>
            && Joins(s, l) && held && l.header.generation == s.links[l.id].header.generation
            && SameLink(s.links[l.id], l))
      && !a.Incomplete?
    ensures ApplyLink(cfg, s, None) == Refused(Malformed)
  {
    hide SortUnique; hide State.IsMember; hide PublishedLink;
  }

  lemma LinkRefusals(cfg: Config, s: State, l: Link)
    requires ApplyLink(cfg, s, Some(l)).Refused?
    ensures var reason, held := ApplyLink(cfg, s, Some(l)).reason, l.id in s.links;
      || JoinsNot(s, l, reason)
      || (reason.StalePublication? && held && l.header.generation < s.links[l.id].header.generation)
      || (&& reason.Conflict? && held && l.header.generation == s.links[l.id].header.generation
          && !SameLink(s.links[l.id], l))
      || (reason.StaleTopologyEpoch? && l.topologyEpoch != s.sc.topologyEpoch)
      || (reason.LimitExceeded? && (NoRoom(s.sc) || (!held && |s.links| >= cfg.maxLinks)))
  {
    hide SortUnique; hide State.IsMember; hide PublishedLink;
  }

  lemma LinkWithdrawalExactly(s: State, id: Option<Id>)
    ensures var a := ApplyWithdrawLink(s, id);
      && (a.Changed? <==> id.Some? && id.value in s.links && !NoRoom(s.sc))
      && (a.NoChange? <==> id.Some? && id.value !in s.links)
      && (a.Refused? ==> if id.None? then a.reason.Malformed? else a.reason.LimitExceeded? && NoRoom(s.sc))
      && !a.Incomplete?
  {}

  lemma SupersedingExactly(now: Timestamp, s: State, req: Request)
    ensures var a := ApplySupersede(now, s, req);
      && (a.Changed? <==> req.targetEpoch.Some? && req.targetEpoch.value > s.sc.topologyEpoch && !NoRoom(s.sc))
      && (a.Refused? ==>
            match a.reason
            case Malformed => req.targetEpoch.None?
            case StaleTopologyEpoch => req.targetEpoch.Some? && req.targetEpoch.value <= s.sc.topologyEpoch
            case LimitExceeded => NoRoom(s.sc)
            case _ => false)
      && !a.Incomplete? && !a.NoChange?
  {
    hide Ascii; hide SilencedLinks;
  }

  // ---- domains and constraints -----------------------------------------------------------

  /** Quantities carry a unit and a finite value. */
  predicate Measurable(q: Quantity) { IsLabel(q.unit) && (q.value.Some? ==> Finite(q.value.value)) }

  predicate UnitsDiffer(qs: seq<Quantity>) { forall i, j | 0 <= i < j < |qs| :: qs[i].unit != qs[j].unit }

  lemma {:induction false} FirstRefusalExactly(qs: seq<Quantity>, i: nat)
    requires i <= |qs|
    ensures var g := FirstRefusal(qs, i);
      && (g.Refuse? <==> exists j | i <= j < |qs| :: QuantityRefusal(qs, j).Refuse?) && !g.Same?
      && (g.Refuse? ==> exists j | i <= j < |qs| :: QuantityRefusal(qs, j) == g)
    decreases |qs| - i
  {
    hide QuantityRefusal;
    if i < |qs| && !QuantityRefusal(qs, i).Refuse? { FirstRefusalExactly(qs, i + 1); }
  }

  predicate UnitsAscend(qs: seq<Quantity>) { forall i, j | 0 <= i < j < |qs| :: !Before(qs[j].unit, qs[i].unit) }

  /** In unit order it is enough to look at neighbours. */
  lemma NeighboursSuffice(qs: seq<Quantity>)
    requires UnitsAscend(qs) && forall j | 1 <= j < |qs| :: qs[j - 1].unit != qs[j].unit
    ensures UnitsDiffer(qs)
  {
    TextIsOrdered();
    forall i, j | 0 <= i < j < |qs| ensures qs[i].unit != qs[j].unit {
      assert i < j - 1 ==> !Before(qs[j - 1].unit, qs[i].unit);
      assert !Before(qs[j].unit, qs[j - 1].unit);
    }
  }

  lemma QuantitiesAreOrdered()
    ensures StrictOrder(QuantityBefore)
    ensures forall a: Quantity, b: Quantity :: Before(a.unit, b.unit) ==> QuantityBefore(a, b)
  {
    TextIsOrdered();
    assert forall a: Quantity, b: Quantity ::
      QuantityBefore(a, b) == (|| Before(a.unit, b.unit)
                               || (a.unit == b.unit && ProvenanceCode(a.provenance) < ProvenanceCode(b.provenance))
                               || (a.unit == b.unit && a.provenance == b.provenance && !a.aggregated && b.aggregated));
    assert forall a: Provenance, b: Provenance :: ProvenanceCode(a) == ProvenanceCode(b) <==> a == b;
    hide Less; hide ProvenanceCode;
  }

  lemma SortedQuantities(list: seq<Quantity>)
    ensures var qs := Sort(list, QuantityBefore);
      UnitsAscend(qs) && forall q :: q in qs <==> q in list
  {
    hide Sort; hide QuantityBefore;
    QuantitiesAreOrdered();
    SortOrders(list, QuantityBefore);
    SortIsPermutation(list, QuantityBefore);
    var qs := Sort(list, QuantityBefore);
    assert forall q :: q in qs <==> q in multiset(qs);
  }

  lemma PassedQuantities(qs: seq<Quantity>)
    requires UnitsAscend(qs)
    ensures (forall j | 0 <= j < |qs| :: !QuantityRefusal(qs, j).Refuse?) <==>
      (forall j | 0 <= j < |qs| :: Measurable(qs[j])) && UnitsDiffer(qs)
  {
    hide Before; hide IsLabel; hide Finite;
    if forall j | 0 <= j < |qs| :: !QuantityRefusal(qs, j).Refuse? {
      forall j | 0 <= j < |qs| ensures Measurable(qs[j]) && (j > 0 ==> qs[j - 1].unit != qs[j].unit) {
        assert !QuantityRefusal(qs, j).Refuse?;
      }
      NeighboursSuffice(qs);
    }
  }

  /** The quantities of a capacity domain pass exactly if each is measurable and no unit occurs twice. */
  lemma QuantitiesExactly(d: Domain)
    ensures var qs, g := Sort(d.quantities, QuantityBefore), FirstRefusal(Sort(d.quantities, QuantityBefore), 0);
      && (g.Pass? <==> (forall q | q in d.quantities :: Measurable(q)) && UnitsDiffer(qs)) && !g.Same?
      && (g.Refuse? ==>
            match g.reason
            case InvalidDomain => exists q | q in d.quantities :: !Measurable(q)
            case Conflict => !UnitsDiffer(qs)
            case _ => false)
  {
    var qs := Sort(d.quantities, QuantityBefore);
    SortedQuantities(d.quantities);
    FirstRefusalExactly(qs, 0);
    PassedQuantities(qs);
    hide Sort; hide FirstRefusal; hide QuantityBefore; hide UnitsAscend; hide IsLabel; hide Finite;
    if FirstRefusal(qs, 0).Refuse? {
      var j :| 0 <= j < |qs| && QuantityRefusal(qs, j) == FirstRefusal(qs, 0);
      assert qs[j] in d.quantities;
    } else {
      hide Measurable; hide UnitsDiffer; hide QuantityRefusal;
      forall q | q in d.quantities ensures Measurable(q) { assert q in qs; }
    }
  }

  /** The domain names members, a generation and, where it has one, a class. */
  predicate Composed(s: State, kind: DomainKind, d: Domain) {
    && d.id != [] && |d.racks| <= 16384 && (forall r | r in d.racks :: s.IsMember(r)) && d.header.generation != 0
    && (kind.Placement? || kind.Capacity? || kind.Failure? || kind.Network? ==> d.klass != 0)
    && (kind.Capacity? ==>
          && |d.quantities| <= 64 && (forall q | q in d.quantities :: Measurable(q))
          && UnitsDiffer(Sort(d.quantities, QuantityBefore)))
  }

  /** Why a domain is refused by itself. */
  predicate ComposedNot(s: State, kind: DomainKind, d: Domain, reason: Reason) {
    match reason
    case InvalidDomain =>
      || d.id == [] || d.header.generation == 0
      || ((kind.Placement? || kind.Capacity? || kind.Failure? || kind.Network?) && d.klass == 0)
      || (kind.Capacity? && exists q | q in d.quantities :: !Measurable(q))
    case LimitExceeded => |d.racks| > 16384 || (kind.Capacity? && |d.quantities| > 64)
    case UnknownRack => exists r | r in d.racks :: !s.IsMember(r)
    case Conflict => kind.Capacity? && !UnitsDiffer(Sort(d.quantities, QuantityBefore))
    case _ => false
  }

  lemma ComposedExactly(s: State, kind: DomainKind, d: Domain)
    ensures var g := PayloadGate(s, kind, d);
      (g.Refuse? <==> !Composed(s, kind, d)) && !g.Same? && (g.Refuse? ==> ComposedNot(s, kind, d, g.reason))
  {
    hide FirstRefusal; hide Sort; hide Measurable; hide UnitsDiffer; hide State.IsMember;
    QuantitiesExactly(d);
  }

  /** IEEE equality on the stored bit patterns: the two zeros are one value. */
  predicate SameValue(a: Option<u64>, b: Option<u64>) {
    a == b || (a in {Some(0), Some(0x8000_0000_0000_0000)} && b in {Some(0), Some(0x8000_0000_0000_0000)})
  }

  predicate SameQuantities(a: seq<Quantity>, b: seq<Quantity>) {
    && |a| == |b|
    && forall i | 0 <= i < |a| :: SameValue(a[i].value, b[i].value) && b[i] == a[i].(value := b[i].value)
  }

  /** Equal in every field, members and quantities as sorted by the store. */
  predicate SameDomain(kind: DomainKind, held: Domain, d: Domain) {
    && d.id == held.id && d.klass == held.klass && d.parent == held.parent && d.header == held.header
    && SortUnique(d.racks, Before) == held.racks
    && SameQuantities(held.quantities, if kind.Capacity? then Sort(d.quantities, QuantityBefore) else d.quantities)
  }

  lemma ZerosAreOne(a: Domain, b: Domain)
    ensures SameZero(a).quantities == SameZero(b).quantities <==> SameQuantities(a.quantities, b.quantities)
  {
    if SameZero(a).quantities == SameZero(b).quantities {
      assert |a.quantities| == |SameZero(a).quantities| == |b.quantities|;
      forall i | 0 <= i < |a.quantities|
        ensures SameValue(a.quantities[i].value, b.quantities[i].value)
        ensures b.quantities[i] == a.quantities[i].(value := b.quantities[i].value)
      {
        assert SameZero(a).quantities[i] == SameZero(b).quantities[i];
      }
    }
  }

  predicate DomainRoom(s: State, kind: DomainKind, d: Domain) {
    && s.sc.topologyGeneration < MAX_U64
    && (s.sc.domainGenerations.Get(kind) < MAX_U64 || d.header.generation == MAX_U64)
  }

  lemma SameDomainExactly(kind: DomainKind, held: Domain, d: Domain)
    ensures SameZero(Normalized(kind, d)) == SameZero(held) <==> SameDomain(kind, held, d)
  {
    hide SameQuantities; hide SortUnique; hide Sort;
    ZerosAreOne(held, Normalized(kind, d));
  }

  lemma AggregateAdvances(aggregate: u64, record: u64)
    ensures record != 0 ==> (AdvanceAggregate(aggregate, record).Some? <==> aggregate < MAX_U64 || record == MAX_U64)
  {}

  lemma DomainPasses(cfg: Config, s: State, kind: DomainKind, d: Domain)
    ensures var g, key := DomainGate(cfg, s, kind, Some(d)), (kind, d.id);
      && (g.Pass? <==>
            && Composed(s, kind, d)
            && (if key in s.domains then d.header.generation > s.domains[key].header.generation
                else |s.DomainIds(kind)| < cfg.maxDomains))
      && (g.Same? <==> Composed(s, kind, d) && key in s.domains && SameDomain(kind, s.domains[key], d))
  {
    var key := (kind, d.id);
    ComposedExactly(s, kind, d);
    if key in s.domains { SameDomainExactly(kind, s.domains[key], d); }
    hide SameQuantities; hide PayloadGate; hide Composed; hide ComposedNot; hide SameZero; hide SortUnique; hide Sort;
    hide State.DomainIds;
  }

  lemma NormalizedHeader(kind: DomainKind, d: Domain)
    ensures Normalized(kind, d).header == d.header
  {}

  lemma DomainExactly(cfg: Config, s: State, kind: DomainKind, d: Domain)
    ensures var a, key := ApplyDomain(cfg, s, kind, Some(d)), (kind, d.id);
      && (a.Changed? <==>
            && Composed(s, kind, d) && DomainRoom(s, kind, d)
            && (if key in s.domains then d.header.generation > s.domains[key].header.generation
                else |s.DomainIds(kind)| < cfg.maxDomains))
      && (a.NoChange? <==> Composed(s, kind, d) && key in s.domains && SameDomain(kind, s.domains[key], d))
      && !a.Incomplete?
    ensures ApplyDomain(cfg, s, kind, None) == Refused(Malformed)
  {
    DomainPasses(cfg, s, kind, d);
    assert DomainGate(cfg, s, kind, None) == Refuse(Malformed);
    assert Composed(s, kind, d) ==> d.header.generation != 0;
    NormalizedHeader(kind, d);
    AggregateAdvances(s.sc.domainGenerations.Get(kind), d.header.generation);
    hide Composed; hide DomainGate; hide SameDomain; hide Normalized; hide AdvanceAggregate; hide DomainGenerations.Set;
    hide DomainGenerations.Get; hide State.DomainIds;
  }

  lemma DomainRefusals(cfg: Config, s: State, kind: DomainKind, d: Domain)
    requires ApplyDomain(cfg, s, kind, Some(d)).Refused?
    ensures var reason, key := ApplyDomain(cfg, s, kind, Some(d)).reason, (kind, d.id);
      || ComposedNot(s, kind, d, reason)
      || (reason.StalePublication? && key in s.domains && d.header.generation < s.domains[key].header.generation)
      || (&& reason.Conflict? && key in s.domains && d.header.generation == s.domains[key].header.generation
          && !SameDomain(kind, s.domains[key], d))
      || (&& reason.LimitExceeded?
          && (!DomainRoom(s, kind, d) || (key !in s.domains && |s.DomainIds(kind)| >= cfg.maxDomains)))
  {
    var key := (kind, d.id);
    ComposedExactly(s, kind, d);
    if key in s.domains { SameDomainExactly(kind, s.domains[key], d); }
    hide PayloadGate; hide Composed; hide ComposedNot; hide SameZero; hide SameDomain; hide SortUnique; hide Sort;
    hide DomainGenerations.Set; hide DomainGenerations.Get; hide State.DomainIds;
  }

  lemma ConstraintExactly(cfg: Config, s: State, c: Constraint)
    ensures var a, held := ApplyConstraint(cfg, s, Some(c)), c.id in s.constraints;
      var named := |c.racks| <= 16384 && (forall r | r in c.racks :: s.IsMember(r)) && c.kind != 0
                   && c.header.generation != 0;
      var same := held && s.constraints[c.id] == c.(racks := SortUnique(c.racks, Before));
      && (a.Changed? <==>
            && named && s.sc.constraintGeneration < MAX_U64
            && (if held then c.header.generation > s.constraints[c.id].header.generation
                else |s.constraints| < cfg.maxConstraints))
      && (a.NoChange? <==> named && same)
      && (a.Refused? ==>
            match a.reason
            case LimitExceeded =>
              || |c.racks| > 16384 || s.sc.constraintGeneration == MAX_U64
              || (!held && |s.constraints| >= cfg.maxConstraints)
            case UnknownRack => exists r | r in c.racks :: !s.IsMember(r)
            case InvalidDomain => c.kind == 0 || c.header.generation == 0
            case StalePublication => held && c.header.generation < s.constraints[c.id].header.generation
            case Conflict => held && c.header.generation == s.constraints[c.id].header.generation && !same
            case _ => false)
      && !a.Incomplete?
    ensures ApplyConstraint(cfg, s, None) == Refused(Malformed)
  {
    hide SortUnique; hide State.IsMember;
  }

  // ---- the cluster -----------------------------------------------------------------------

  lemma DeclarationExactly(now: Timestamp, s: State, req: Request)
    ensures var a := ApplyDeclare(now, s, req);
      && (a.NoChange? <==> s.Declared() && req.contract == s.sc.contract && req.lifecycle == s.sc.lifecycle)
      && (a.Changed? <==> !a.NoChange?)
  {
    hide FirstDeclaration;
  }

  lemma SnapshotExactly(s: State)
    ensures var a := ApplySnapshot(s);
      && (a.Changed? <==> s.sc.snapshotGeneration < MAX_U64 && s.sc.publicationGeneration < MAX_U64)
      && (!a.Changed? ==> a == Refused(LimitExceeded))
  {}
}
