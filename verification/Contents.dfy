/** What a rack, a domain, a constraint and a link are, over whole runs, and what a health report does to them. */
module Contents {
  import opened Foundation
  import opened Sorting
  import opened EvidenceStamps
  import opened Records
  import opened Readiness
  import opened Invariants
  import opened Mutations
  import opened Preservation
  import opened Engine
  import opened Durable
  import opened Container
  import opened System
  import opened Runs
  import opened Effects
  import opened Permits

  // ---- one admission ---------------------------------------------------------------------

  /** What is stored has the shape of what was published. */
  lemma AdmittedShape(cfg: Config, now: Timestamp, s: State, req: Request)
    requires ApplyAdd(cfg, now, s, req).Changed?
    ensures req.reference.rack in ApplyAdd(cfg, now, s, req).next.racks
    ensures SameShape(req.reference, ApplyAdd(cfg, now, s, req).next.racks[req.reference.rack].reference)
  {
    hide ApplyAdd; hide JudgedOnArrival; hide Lacks; hide SortUnique; hide SameEndpoints; hide SameHints;
    AdmissionWrites(cfg, now, s, req);
    CanonicalShape(req.reference, req.reference);
    ShapeIsEquivalence(req.reference, req.reference, req.reference);
  }

  /**
   * A rack that was admitted once is published again at the generation held: whatever is accepted leaves its shape,
   * and a publication of another shape is refused.
   */
  lemma GenerationFixesShape(cfg: Config, now: Timestamp, s: State, req: Request)
    requires req.kind.AddRack? && req.reference.rack in s.racks
    requires var held := s.racks[req.reference.rack];
      !Placeholder(held) && req.reference.generation == held.reference.generation
    ensures var held, a := s.racks[req.reference.rack].reference, Apply(cfg, now, s, req);
      && (!SameShape(held, req.reference) ==> a.Refused?)
      && (a.Changed? ==>
            req.reference.rack in a.next.racks && SameShape(held, a.next.racks[req.reference.rack].reference))
  {
    hide Apply; hide Addressed; hide ApplyAdd; hide SameShape; hide Wellformed; hide Speaks; hide Moves;
    Answered(cfg, now, s, req);
    AdmissionExactly(cfg, now, s, req);
    if Apply(cfg, now, s, req).Changed? {
      AdmittedShape(cfg, now, s, req);
      var k := req.reference.rack;
      ShapeIsEquivalence(s.racks[k].reference, req.reference, ApplyAdd(cfg, now, s, req).next.racks[k].reference);
    }
  }

  /** The request recovers the rack: the one operation that may rewrite it within its generation. */
  predicate Recovers(req: Request, k: Id) {
    && req.kind.RecoverRack?
    && k == if req.reference.rack == [] then req.authority.rack.GetOr([]) else req.reference.rack
  }

  /** A recovery within the generation keeps the content exactly if all it carries agrees with what is held. */
  lemma RecoveryKeepsShapeExactly(s: State, req: Request, k: Id)
    requires Recovers(req, k) && k in s.racks && s.racks[k].reference.rack == k && ApplyRecover(s, req).Changed?
    requires req.newGeneration.GetOr(s.racks[k].reference.generation) == s.racks[k].reference.generation
    ensures k in ApplyRecover(s, req).next.racks
    ensures var held, asked := s.racks[k].reference, req.reference;
      SameShape(held, ApplyRecover(s, req).next.racks[k].reference) <==>
      && asked.rackLifecycle == held.rackLifecycle
      && (asked.composition.Empty() || SameComposition(held.composition, asked.composition))
      && (asked.endpoints == [] ||
          SameEndpoints(SortUnique(held.endpoints, EndpointBefore), SortUnique(asked.endpoints, EndpointBefore)))
      && (asked.hints == [] || SameHints(SortUnique(held.hints, HintBefore), SortUnique(asked.hints, HintBefore)))
  {
    hide ApplyRecover; hide SortUnique; hide Lacks; hide Composition.Empty;
    RecoveryWrites(s, req);
  }

  // ---- one step --------------------------------------------------------------------------

  /** The rack is of a higher generation, or still of the same shape. */
  predicate Continues(a: RackRecord, b: RackRecord) {
    b.reference.generation > a.reference.generation || SameShape(a.reference, b.reference)
  }

  predicate Carried(s: State, t: State, k: Id) {
    k in s.racks ==> k in t.racks && Continues(s.racks[k], t.racks[k])
  }

  /** The references differ at most in their dynamic fields. */
  predicate Same(a: RackReference, b: RackReference) {
    b == a.(publication := b.publication, evidence := b.evidence, health := b.health, currentness := b.currentness,
            clusterEpoch := b.clusterEpoch, coordinatorEpoch := b.coordinatorEpoch, boot := b.boot,
            publisher := b.publisher)
  }

  lemma SameContinues(a: RackRecord, b: RackRecord)
    requires Same(a.reference, b.reference)
    ensures Continues(a, b)
  {
    hide SortUnique;
  }

  lemma AdmissionContinues(cfg: Config, now: Timestamp, s: State, req: Request, k: Id)
    requires req.kind.AddRack? && Apply(cfg, now, s, req).Changed? && k in s.racks && !Placeholder(s.racks[k])
    ensures Carried(s, Apply(cfg, now, s, req).next, k)
  {
    Answered(cfg, now, s, req);
    AdmissionWrites(cfg, now, s, req);
    AdmissionExactly(cfg, now, s, req);
    if k == req.reference.rack {
      if req.reference.generation == s.racks[k].reference.generation { GenerationFixesShape(cfg, now, s, req); }
    } else {
      SameContinues(s.racks[k], s.racks[k]);
    }
    hide Apply; hide ApplyAdd; hide SameShape; hide Wellformed; hide Speaks; hide Moves; hide JudgedOnArrival;
    hide Lacks; hide SortUnique; hide Addressed;
  }

  /** The references of racks keep their shape; generations rise where they change at all. */
  predicate RacksContinue(s: State, t: State) {
    forall k | k in s.racks ::
      && k in t.racks
      && (|| Same(s.racks[k].reference, t.racks[k].reference)
          || t.racks[k].reference.generation > s.racks[k].reference.generation)
  }

  lemma RackKindsContinue(cfg: Config, now: Timestamp, s: State, req: Request)
    requires Apply(cfg, now, s, req).Changed?
    requires req.kind in {RegisterPublisher, UpdateRackGeneration, MarkUnavailable, WithdrawRack, RetireRack}
    ensures RacksContinue(s, Apply(cfg, now, s, req).next)
  {
    hide Apply; hide Addressed;
    Answered(cfg, now, s, req);
    match req.kind
    case RegisterPublisher => RegistrationWrites(cfg, s, req); hide ApplyRegister;
    case UpdateRackGeneration => UpdateWrites(s, req); UpdateExactly(s, req); hide ApplyUpdate; hide Speaks;
    case MarkUnavailable => ExclusionWrites(now, s, req, Membership.Unavailable); hide ApplyMembership;
    case WithdrawRack => ExclusionWrites(now, s, req, Membership.Withdrawn); hide ApplyMembership;
    case RetireRack => ExclusionWrites(now, s, req, Membership.Retired); hide ApplyMembership;
  }

  lemma ReportKindsContinue(cfg: Config, now: Timestamp, s: State, req: Request)
    requires Apply(cfg, now, s, req).Changed?
    requires req.kind in {PublishHealth, WithdrawEvidence, RetireCluster}
    ensures RacksContinue(s, Apply(cfg, now, s, req).next)
  {
    hide Apply; hide Addressed;
    Answered(cfg, now, s, req);
    match req.kind
    case PublishHealth => HealthWrites(s, req); hide ApplyHealth;
    case WithdrawEvidence => WithdrawalWrites(s, req); hide ApplyWithdrawEvidence; hide Ascii;
    case RetireCluster => RetirementWrites(s); hide ApplyRetireCluster;
  }

  lemma OtherKindsKeepRacks(cfg: Config, now: Timestamp, s: State, req: Request)
    requires Apply(cfg, now, s, req).Changed?
    requires req.kind.PublishLink? || req.kind.WithdrawLink? || req.kind.SupersedeTopology? || req.kind.PublishDomain?
             || req.kind.PublishConstraint? || req.kind.DeclareCluster? || req.kind.PublishSnapshot?
             || req.kind.Revalidate?
    ensures Apply(cfg, now, s, req).next.racks == s.racks
  {
    hide Apply; hide Addressed;
    Answered(cfg, now, s, req);
    match req.kind
    case PublishLink => LinkWrites(cfg, s, req.link); hide ApplyLink; hide TopologyAdvances; hide SortUnique;
    case WithdrawLink => LinkWithdrawalWrites(s, req.linkId); hide ApplyWithdrawLink; hide TopologyAdvances;
    case SupersedeTopology => SupersedingWrites(now, s, req); hide ApplySupersede; hide TopologyAdvances;
    case PublishDomain(kind) => DomainWrites(cfg, s, kind, req.domain); hide ApplyDomain; hide SortUnique; hide Sort;
    case PublishConstraint => ConstraintWrites(cfg, s, req.constraint); hide ApplyConstraint; hide SortUnique;
    case DeclareCluster => DeclarationWrites(now, s, req); hide ApplyDeclare;
    case PublishSnapshot => SnapshotWrites(s); hide ApplySnapshot;
    case Revalidate => RevalidationExactly(s, req); hide ApplyRevalidate;
  }

  lemma KeptContinue(s: State, t: State, k: Id)
    requires RacksContinue(s, t)
    ensures Carried(s, t, k)
  {
    hide SameShape; hide Same;
    if k in s.racks && Same(s.racks[k].reference, t.racks[k].reference) { SameContinues(s.racks[k], t.racks[k]); }
  }

  /** Whatever an applied request does to an admitted rack short of recovering it, the rack continues. */
  lemma AppliedContinues(cfg: Config, now: Timestamp, s: State, req: Request, k: Id)
    requires Apply(cfg, now, s, req).Changed? && k in s.racks && !Placeholder(s.racks[k]) && !Recovers(req, k)
    ensures Carried(s, Apply(cfg, now, s, req).next, k)
  {
    hide Apply; hide Continues; hide RacksContinue;
    var t := Apply(cfg, now, s, req).next;
    if req.kind.AddRack? {
      AdmissionContinues(cfg, now, s, req, k);
    } else if req.kind.RecoverRack? {
      OtherRecovery(cfg, now, s, req, k);
    } else if req.kind in {RegisterPublisher, UpdateRackGeneration, MarkUnavailable, WithdrawRack, RetireRack} {
      RackKindsContinue(cfg, now, s, req);
      KeptContinue(s, t, k);
    } else if req.kind in {PublishHealth, WithdrawEvidence, RetireCluster} {
      ReportKindsContinue(cfg, now, s, req);
      KeptContinue(s, t, k);
    } else {
      assert !req.kind.Unknown? by { Answered(cfg, now, s, req); hide Addressed; }
      OtherKindsKeepRacks(cfg, now, s, req);
      SameContinues(s.racks[k], t.racks[k]);
    }
  }

  lemma OtherRecovery(cfg: Config, now: Timestamp, s: State, req: Request, k: Id)
    requires Apply(cfg, now, s, req).Changed? && req.kind.RecoverRack? && k in s.racks && !Recovers(req, k)
    ensures Carried(s, Apply(cfg, now, s, req).next, k)
  {
    hide Apply; hide ApplyRecover; hide SameShape; hide Addressed; hide Lacks;
    Answered(cfg, now, s, req);
    RecoveryWrites(s, req);
    SameContinues(s.racks[k], s.racks[k]);
  }

  // ---- health reports --------------------------------------------------------------------

  /** An accepted health report writes what it says to its rack and to the links there, and nothing else. */
  lemma HealthReportIsWritten(cfg: Config, now: Timestamp, s: State, req: Request)
    requires req.kind.PublishHealth? && Proposal(cfg, now, s, req).Some?
    ensures HealthWritten(s, Proposal(cfg, now, s, req).value, req)
  {
    hide Proposal; hide Apply; hide Evaluate; hide Addressed;
    CommitAdds(cfg, now, s, req);
    Answered(cfg, now, s, req);
    HealthWrites(s, req);
    hide ApplyHealth;
  }

  // ---- runs ------------------------------------------------------------------------------

  /** The event is no request that recovers the rack. */
  predicate LeavesRecovery(e: Event, k: Id) { !(e.Mutate? && Recovers(e.request, k)) }

  lemma FenceContinues(s: State, boot: Id, reason: Text, stamp: Timestamp, now: Timestamp)
    requires FenceProposal(s, boot, reason, stamp, now).Some?
    ensures RacksContinue(s, FenceProposal(s, boot, reason, stamp, now).value)
  {
    hide FenceProposal;
    FenceWrites(s, boot, reason, stamp, now);
  }

  lemma TakenContinues(cfg: Config, s: State, e: Event, k: Id)
    requires Takes(cfg, s, e) && LeavesRecovery(e, k) && k in s.racks && !Placeholder(s.racks[k])
    ensures Carried(s, Proposed(cfg, s, e).value, k)
  {
    hide Proposal; hide FenceProposal; hide Stored; hide Continues; hide Apply; hide Placeholder; hide Recovers;
    match e
    case Mutate(at, request, _) =>
      AppliedContinues(cfg, at, s, request, k);
      CommitAdds(cfg, at, s, request);
    case FenceBoot(boot, reason, stamp, at, _) =>
      FenceContinues(s, boot, reason, stamp, at);
      KeptContinue(s, FenceProposal(s, boot, reason, stamp, at).value, k);
  }

  lemma RebornContinues(s: State, u: State, k: Id)
    requires Reborn(s, u) && k in s.racks
    ensures Carried(s, u, k) && Carried(u, s, k) && k in u.racks
    ensures u.racks[k].reference.generation == s.racks[k].reference.generation
  {
    hide LinkReborn; hide Evaluate; hide Publishing; hide State.IsFenced; hide Continues; hide Ascii;
    assert RackReborn(s.racks[k], u.racks[k]);
    SameContinues(s.racks[k], u.racks[k]);
    SameContinues(u.racks[k], s.racks[k]);
  }

  lemma ContinuesChains(a: RackRecord, b: RackRecord, c: RackRecord)
    requires Continues(a, b) && Continues(b, c) && b.reference.generation <= c.reference.generation
    requires a.reference.generation <= b.reference.generation
    ensures Continues(a, c)
  {
    hide SameComposition; hide SameEndpoints; hide SameHints; hide SortUnique;
    ShapeIsEquivalence(a.reference, b.reference, c.reference);
  }

  lemma RestartContinues(cfg: Config, y: Sys, at: Timestamp, k: Id)
    requires SysInv(y) && Tracks(cfg, y) && Gentle(cfg, y, Reboot(at)) && y.live.Declared() && k in y.live.racks
    ensures Carried(y.live, Restart(cfg, Load(y.store), at), k)
  {
    hide Inv; hide Reborn; hide Load; hide Project; hide Encode; hide Restart; hide Reloadable; hide Continues;
    var u, saved := Restart(cfg, Load(y.store), at), y.saved.value;
    RestartIsReborn(cfg, y, at);
    if y.live == saved {
      RebornContinues(saved, u, k);
    } else {
      assert k in saved.racks by { RebornRacks(saved, y.live); }
      RebornContinues(saved, y.live, k);
      RebornContinues(saved, u, k);
      ContinuesChains(y.live.racks[k], saved.racks[k], u.racks[k]);
    }
  }

  lemma RebornRacks(s: State, u: State)
    requires Reborn(s, u)
    ensures s.racks.Keys == u.racks.Keys
  {
    hide RackReborn; hide LinkReborn; hide Evaluate; hide Publishing;
  }

  lemma ReactContinues(cfg: Config, y: Sys, e: Event, k: Id)
    requires SysInv(y) && Tracks(cfg, y) && Gentle(cfg, y, e) && LeavesRecovery(e, k)
    requires y.live.Declared() && y.live.IsMember(k)
    ensures Carried(y.live, React(cfg, y, e).live, k)
  {
    hide Reborn; hide Load; hide Project; hide Encode; hide Restart; hide Reloadable; hide Commit;
    hide Proposed; hide Continues; hide LeavesRecovery; hide Inv; hide Tracks; hide Gentle;
    if e.Reboot? {
      RestartContinues(cfg, y, e.at, k);
    } else if Takes(cfg, y.live, e) {
      TakenContinues(cfg, y.live, e, k);
    } else {
      SameContinues(y.live.racks[k], y.live.racks[k]);
      if e.Mutate? { RefusedKeepsState(cfg, e.at, y.live, e.request); }
    }
  }

  /** A decided rack is admitted for good. */
  lemma DecidedStays(s: State, t: State, k: Id)
    requires Later(s, t) && s.Declared() && s.IsMember(k)
    ensures t.Declared() && t.IsMember(k)
    ensures s.racks[k].reference.generation <= t.racks[k].reference.generation
  {
    assert RackFollows(s.racks[k], t.racks[k]);
  }

  /** The rack is still there, at the same generation only with the same content. */
  predicate ContentHeld(s: State, t: State, k: Id) {
    k in s.racks ==>
      && k in t.racks && t.racks[k].reference.generation >= s.racks[k].reference.generation
      && (t.racks[k].reference.generation == s.racks[k].reference.generation ==>
            SameShape(s.racks[k].reference, t.racks[k].reference))
  }

  /**
   * Over any run whose restarts find a readable container and in which the rack is not recovered, the content of a
   * decided rack is replaced only together with a strictly higher rack generation.
   */
  lemma {:induction false} ContentFollowsGeneration(cfg: Config, y: Sys, events: seq<Event>, k: Id)
    requires SysInv(y) && Tracks(cfg, y) && Smooth(cfg, y, events) && (forall e | e in events :: LeavesRecovery(e, k))
    requires y.live.Declared() && y.live.IsMember(k)
    ensures ContentHeld(y.live, Run(cfg, y, events).live, k)
  {
    hide SysInv; hide Tracks; hide React; hide Later; hide Gentle; hide LeavesRecovery; hide SameShape;
    if events == [] {
      SameContinues(y.live.racks[k], y.live.racks[k]);
    } else {
      var front, last := events[..|events| - 1], events[|events| - 1];
      assert last in events;
      ContentFollowsGeneration(cfg, y, front, k);
      StoreFollowsCommits(cfg, y, front);
      RunIsLater(cfg, y, front);
      var z := Run(cfg, y, front);
      DecidedStays(y.live, z.live, k);
      ReactContinues(cfg, z, last, k);
      ReactIsLater(cfg, z, last);
      DecidedStays(z.live, React(cfg, z, last).live, k);
      ContinuesChains(y.live.racks[k], z.live.racks[k], React(cfg, z, last).live.racks[k]);
    }
  }
}
