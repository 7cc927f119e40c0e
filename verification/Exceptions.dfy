/** Promises that hold only under a condition: exactly when they hold, and reachable states where they do not. */
module Exceptions {
  import opened Foundation
  import opened Sorting
  import opened EvidenceStamps
  import opened Records
  import opened Readiness
  import opened Invariants
  import opened Mutations
  import opened Engine
  import opened Acceptance
  import opened Durable
  import opened Container
  import opened System
  import opened Runs
  import opened Scenarios
  import opened Republication
  import Snapshots

  // ---- what a request does to one rack ---------------------------------------------------

  predicate Authoritative(s: State, k: Id) { k in s.racks && s.racks[k].authoritative }

  /** The request writes the publication counter of the rack. */
  predicate Writes(req: Request, k: Id) {
    match req.kind
    case AddRack => req.reference.rack == k
    case UpdateRackGeneration => req.Subject() == k
    case RecoverRack => RecoverySubject(req) == k
    case PublishHealth => req.Subject() == k
    case _ => false
  }

  function Written(req: Request): u64 {
    if req.kind.AddRack? then req.reference.publication else req.authority.publication
  }

  predicate RackOutcome(now: Timestamp, s: State, req: Request, t: State, k: Id) {
    && (!Authoritative(s, k) ==> (Authoritative(t, k) <==> Vouches(now, req, k)))
    && (k in s.racks ==>
          && k in t.racks
          && t.racks[k].reference.publication
             == if Writes(req, k) then Written(req) else s.racks[k].reference.publication)
  }

  predicate LeavesRacks(kind: Kind) {
    || kind.DeclareCluster? || kind.PublishLink? || kind.WithdrawLink? || kind.PublishDomain? || kind.PublishConstraint?
    || kind.SupersedeTopology? || kind.PublishSnapshot? || kind.Revalidate?
  }

  lemma RacksUntouchedBy(cfg: Config, now: Timestamp, s: State, req: Request)
    requires Apply(cfg, now, s, req).Changed? && LeavesRacks(req.kind)
    ensures Apply(cfg, now, s, req).next.racks == s.racks
  {
    hide IsIdentity; hide SortUnique; hide DomainGate; hide ConstraintGate; hide LinkGate; hide TopologyMoved;
    hide Ascii;
    hide FreshlyHeld; hide SilencedLinks; hide Normalized; hide PublishedLink; hide AdvanceAggregate; hide WithTopology;
    hide ValidateCommon; hide Stamped;
  }

  lemma ExclusionOutcome(now: Timestamp, s: State, req: Request, target: Membership, k: Id)
    requires ApplyMembership(now, s, req, target).Changed?
    requires req.kind.MarkUnavailable? || req.kind.WithdrawRack? || req.kind.RetireRack?
    ensures RackOutcome(now, s, req, ApplyMembership(now, s, req, target).next, k)
  {
    hide ValidateBoot; hide State.IsRetired; hide WithdrawnAfter; hide RetiredAfter; hide Ascii; hide TargetName;
  }

  lemma OrphaningOutcome(now: Timestamp, s: State, req: Request, k: Id)
    requires req.kind.WithdrawEvidence? && ApplyWithdrawEvidence(s, req).Changed?
    ensures RackOutcome(now, s, req, ApplyWithdrawEvidence(s, req).next, k)
  {
    hide EvidenceMoved; hide Ascii; hide OrphanedLinks;
    assert req.Subject() in s.racks;
  }

  /** Registration, exclusion, withdrawn evidence and cluster retirement only ever take authority away. */
  lemma DisarmingOutcome(cfg: Config, now: Timestamp, s: State, req: Request, k: Id)
    requires Apply(cfg, now, s, req).Changed? && !LeavesRacks(req.kind)
    requires !req.kind.AddRack? && !req.kind.UpdateRackGeneration? && !req.kind.RecoverRack? && !req.kind.PublishHealth?
    ensures RackOutcome(now, s, req, Apply(cfg, now, s, req).next, k)
  {
    hide ValidateCommon; hide ApplyMembership; hide ApplyWithdrawEvidence; hide State.IsRetired; hide Ascii;
    match req.kind
    case MarkUnavailable => ExclusionOutcome(now, s, req, Membership.Unavailable, k);
    case WithdrawRack => ExclusionOutcome(now, s, req, Membership.Withdrawn, k);
    case RetireRack => ExclusionOutcome(now, s, req, Membership.Retired, k);
    case WithdrawEvidence => OrphaningOutcome(now, s, req, k);
    case _ =>
  }

  lemma ArmingOutcome(cfg: Config, now: Timestamp, s: State, req: Request, k: Id)
    requires Apply(cfg, now, s, req).Changed?
    requires req.kind.AddRack? || req.kind.UpdateRackGeneration? || req.kind.RecoverRack? || req.kind.PublishHealth?
    ensures RackOutcome(now, s, req, Apply(cfg, now, s, req).next, k)
  {
    hide ValidateBoot; hide RepublishGate; hide ValidReference; hide IsIdentity; hide SortUnique; hide State.IsFenced;
    hide State.IsRetired; hide Without; hide EvidenceMoved; hide Ascii; hide ReportedLinks; hide ValidateCommon;
    var c := Canonicalize(req.reference);
    assert c.rack == req.reference.rack && c.publication == req.reference.publication
      && c.evidence == req.reference.evidence;
    hide Canonicalize;
  }

  lemma AppliedOutcome(cfg: Config, now: Timestamp, s: State, req: Request, k: Id)
    requires Apply(cfg, now, s, req).Changed?
    ensures RackOutcome(now, s, req, Apply(cfg, now, s, req).next, k)
  {
    if LeavesRacks(req.kind) {
      RacksUntouchedBy(cfg, now, s, req);
      hide Apply;
    } else if req.kind.AddRack? || req.kind.UpdateRackGeneration? || req.kind.RecoverRack? || req.kind.PublishHealth? {
      hide Apply; hide RackOutcome;
      ArmingOutcome(cfg, now, s, req, k);
    } else {
      hide Apply; hide RackOutcome;
      DisarmingOutcome(cfg, now, s, req, k);
    }
  }

  lemma FenceOutcome(s: State, boot: Id, reason: Text, stamp: Timestamp, at: Timestamp, k: Id)
    requires FenceProposal(s, boot, reason, stamp, at).Some?
    ensures var t := FenceProposal(s, boot, reason, stamp, at).value;
      && (Authoritative(t, k) ==> Authoritative(s, k))
      && (k in s.racks ==> k in t.racks && t.racks[k].reference.publication == s.racks[k].reference.publication)
  {
    hide Evaluate; hide FencedList; hide FencedLinks;
  }

  // ---- who makes a rack authoritative ----------------------------------------------------

  /**
   * In a step that takes effect, a rack gains authority exactly if the request vouches for it with current evidence.
   */
  lemma AuthorityIsGainedExactly(cfg: Config, s: State, e: Event, k: Id)
    requires Takes(cfg, s, e) && !Authoritative(s, k)
    ensures Authoritative(Proposed(cfg, s, e).value, k) <==> e.Mutate? && Vouches(e.at, e.request, k)
  {
    hide Apply; hide Settle; hide Sound; hide FenceProposal; hide Vouches; hide Stored;
    match e
    case Mutate(at, request, _) =>
      AppliedOutcome(cfg, at, s, request, k);
      SettlingKeepsRacks(Apply(cfg, at, s, request).next);
    case FenceBoot(boot, reason, stamp, at, _) => FenceOutcome(s, boot, reason, stamp, at, k);
  }

  lemma SettlingKeepsRacks(t: State)
    ensures Settle(t).racks == t.racks
  {
    hide Evaluate;
  }

  lemma VouchedMembership(cfg: Config, now: Timestamp, s: State, req: Request, k: Id)
    requires Apply(cfg, now, s, req).Changed? && Vouches(now, req, k)
    ensures var t := Apply(cfg, now, s, req).next;
      k in t.racks &&
      if req.kind.AddRack? || req.kind.RecoverRack? then t.racks[k].membership.Active?
      else k in s.racks && t.racks[k].membership == s.racks[k].membership
  {
    hide ValidateBoot; hide RepublishGate; hide ValidReference; hide IsIdentity; hide SortUnique; hide State.IsFenced;
    hide State.IsRetired; hide Without; hide EvidenceMoved; hide Ascii; hide ReportedLinks; hide ValidateCommon;
    hide AdmittedEvidence;
    assert Canonicalize(req.reference).rack == req.reference.rack;
    hide Canonicalize;
  }

  /** An unavailable or withdrawn rack gains authority while it stays excluded only by these two kinds of request. */
  lemma ExcludedGainsExactly(cfg: Config, s: State, e: Event, k: Id)
    requires Takes(cfg, s, e) && k in s.racks && !s.racks[k].authoritative
    requires s.racks[k].membership.Unavailable? || s.racks[k].membership.Withdrawn?
    ensures var t := Proposed(cfg, s, e).value;
      Authoritative(t, k) && t.racks[k].membership == s.racks[k].membership
      <==> && e.Mutate? && (e.request.kind.PublishHealth? || e.request.kind.UpdateRackGeneration?)
           && e.request.Subject() == k && e.request.evidence.IsCurrent()
  {
    AuthorityIsGainedExactly(cfg, s, e, k);
    hide Apply; hide Settle; hide Sound; hide FenceProposal; hide Stored;
    if e.Mutate? && Vouches(e.at, e.request, k) {
      VouchedMembership(cfg, e.at, s, e.request, k);
      SettlingKeepsRacks(Apply(cfg, e.at, s, e.request).next);
    }
  }

  /** Both happen: a withdrawn rack is made authoritative by a health report and by a generation update. */
  lemma WithdrawnRackBecomesAuthoritative(cfg: Config) returns (s: State, report: Request, update: Request)
    requires !cfg.persist && cfg.maxRacks >= 1
    ensures Reached(cfg, s) && RACK in s.racks && s.racks[RACK].membership.Withdrawn? && !s.racks[RACK].authoritative
    ensures report.kind.PublishHealth? && update.kind.UpdateRackGeneration?
    ensures forall req | req in {report, update} ::
      var p := Proposal(cfg, 0, s, req);
      p.Some? && Authoritative(p.value, RACK) && p.value.racks[RACK].membership.Withdrawn?
  {
    hide Reached; hide Settle; hide Apply; hide Acceptable;
    s := WithdrawnRack(cfg);
    report := Ask(s, PublishHealth, RACK, None, 0);
    update := Ask(s, UpdateRackGeneration, RACK, None, 0).(newGeneration := Some(2));
    ReportApplies(cfg, s, report);
    UpdateApplies(cfg, s, update);
    var r := RequestIsReached(cfg, 0, s, report);
    var u := RequestIsReached(cfg, 0, s, update);
    SettlingKeepsRacks(Apply(cfg, 0, s, report).next);
    SettlingKeepsRacks(Apply(cfg, 0, s, update).next);
  }

  lemma ReportApplies(cfg: Config, s: State, req: Request)
    requires Young(s) && s.sc.fenced == [] && RACK in s.racks && s.racks[RACK].membership.Withdrawn?
    requires s.racks[RACK].reference.health == 0 && req == Ask(s, PublishHealth, RACK, None, 0)
    ensures Acceptable(0, s, req) && Apply(cfg, 0, s, req).Changed?
    ensures var t := Apply(cfg, 0, s, req).next; Authoritative(t, RACK) && t.racks[RACK].membership.Withdrawn?
  {
    hide IsIdentity; hide ReportedLinks;
  }

  lemma UpdateApplies(cfg: Config, s: State, req: Request)
    requires Young(s) && s.sc.fenced == [] && RACK in s.racks && s.racks[RACK].membership.Withdrawn?
    requires s.racks[RACK].reference.generation == 1
    requires req == Ask(s, UpdateRackGeneration, RACK, None, 0).(newGeneration := Some(2))
    ensures Acceptable(0, s, req) && Apply(cfg, 0, s, req).Changed?
    ensures var t := Apply(cfg, 0, s, req).next; Authoritative(t, RACK) && t.racks[RACK].membership.Withdrawn?
  {
    hide IsIdentity;
  }

  // ---- publication counters --------------------------------------------------------------

  /** The request compares its counter with the one held before it writes. A recovery never does. */
  predicate Guarded(held: RackRecord, req: Request) {
    match req.kind
    case AddRack =>
      && req.reference.generation == held.reference.generation && req.reference.boot == held.reference.boot
      && (!held.membership.Unknown? || held.authoritative)
    case UpdateRackGeneration => req.authority.boot == Some(held.reference.boot) && req.authority.publication != 0
    case PublishHealth => req.authority.boot == Some(held.reference.boot) && req.authority.publication != 0
    case _ => false
  }

  lemma GuardHolds(cfg: Config, now: Timestamp, s: State, req: Request, k: Id)
    requires Apply(cfg, now, s, req).Changed? && k in s.racks && Writes(req, k) && Guarded(s.racks[k], req)
    ensures Written(req) >= s.racks[k].reference.publication
  {
    hide SameContent; hide ValidReference; hide IsIdentity; hide SortUnique; hide State.IsFenced; hide ValidateCommon;
    hide State.IsRetired; hide Without; hide EvidenceMoved; hide Ascii; hide ReportedLinks; hide Admission;
    hide Advanced;
    hide Mutations.Reported;
    var c := Canonicalize(req.reference);
    assert c.rack == req.reference.rack && c.publication == req.reference.publication
        && c.boot == req.reference.boot && c.generation == req.reference.generation;
    hide Canonicalize;
  }

  /** In a step that takes effect, a publication counter falls exactly if an unguarded request writes a lower one. */
  lemma PublicationFallsExactly(cfg: Config, s: State, e: Event, k: Id)
    requires Takes(cfg, s, e) && k in s.racks
    ensures var t := Proposed(cfg, s, e).value; var held := s.racks[k];
      && k in t.racks
      && (t.racks[k].reference.publication < held.reference.publication
          <==> && e.Mutate? && Writes(e.request, k) && !Guarded(held, e.request)
               && Written(e.request) < held.reference.publication)
  {
    hide Apply; hide Settle; hide Sound; hide FenceProposal; hide Stored; hide Guarded; hide Vouches;
    match e
    case Mutate(at, request, _) =>
      AppliedOutcome(cfg, at, s, request, k);
      SettlingKeepsRacks(Apply(cfg, at, s, request).next);
      if Writes(request, k) && Guarded(s.racks[k], request) { GuardHolds(cfg, at, s, request, k); }
    case FenceBoot(boot, reason, stamp, at, _) => FenceOutcome(s, boot, reason, stamp, at, k);
  }

  function WithPublication(req: Request, p: u64): Request {
    if req.kind.AddRack? then req.(reference := req.reference.(publication := p))
    else req.(authority := req.authority.(publication := p))
  }

  lemma ContentWithoutPublication(r: RackReference, p: u64)
    ensures Canonicalize(r.(publication := p)) == Canonicalize(r).(publication := p)
    ensures Content(r.(publication := p)) == Content(r)
  {
    hide SortUnique;
  }

  lemma LoweredGate(s: State, req: Request, k: Id, p: u64)
    requires k in s.racks && p < s.racks[k].reference.publication && !req.kind.AddRack?
    requires !ValidateBoot(s, req, k).Refuse?
    ensures ValidateBoot(s, WithPublication(req, p), k).Refuse? <==>
      req.authority.boot == Some(s.racks[k].reference.boot) && p != 0
  {
    hide SameContent; hide State.IsFenced; hide Canonicalize;
  }

  lemma LoweredAdmissionGate(cfg: Config, s: State, req: Request, p: u64)
    requires req.kind.AddRack? && req.reference.rack in s.racks && AddGate(cfg, s, req).Pass?
    requires p < s.racks[req.reference.rack].reference.publication
    ensures AddGate(cfg, s, WithPublication(req, p)).Pass? <==>
      !Guarded(s.racks[req.reference.rack], WithPublication(req, p))
  {
    ContentWithoutPublication(req.reference, p);
    ContentWithoutPublication(Canonicalize(req.reference), p);
    hide Content; hide SortUnique; hide State.IsFenced; hide State.IsRetired; hide IsLabel;
    var c := Canonicalize(req.reference);
    assert c.rack == req.reference.rack && c.boot == req.reference.boot && c.generation == req.reference.generation;
    assert Canonicalize(WithPublication(req, p).reference) == c.(publication := p);
    hide Canonicalize;
    assert ValidReference(c.(publication := p)) == ValidReference(c);
    hide ValidReference;
    assert ValidateBoot(s, WithPublication(req, p), c.rack) == ValidateBoot(s, req, c.rack);
  }

  lemma LoweredIsAppliedExactly(cfg: Config, now: Timestamp, s: State, req: Request, k: Id, p: u64)
    requires k in s.racks && Writes(req, k) && Apply(cfg, now, s, req).Changed? && p < s.racks[k].reference.publication
    ensures Apply(cfg, now, s, WithPublication(req, p)).Changed? <==> !Guarded(s.racks[k], WithPublication(req, p))
  {
    hide ValidateBoot; hide ValidReference; hide IsIdentity; hide SortUnique; hide State.IsFenced; hide Canonicalize;
    hide State.IsRetired; hide Without; hide EvidenceMoved; hide Ascii; hide ReportedLinks; hide AddGate;
    var q := WithPublication(req, p);
    assert ValidateCommon(s, q) == ValidateCommon(s, req);
    hide ValidateCommon;
    match req.kind
    case AddRack => LoweredAdmissionGate(cfg, s, req, p); AdmissionGatesAlike(cfg, now, s, req, p);
    case UpdateRackGeneration => LoweredGate(s, req, k, p);
    case RecoverRack =>
    case PublishHealth => LoweredGate(s, req, k, p);
  }

  lemma AdmissionGatesAlike(cfg: Config, now: Timestamp, s: State, req: Request, p: u64)
    requires req.kind.AddRack? && ApplyAdd(cfg, now, s, req).Changed?
    ensures AddGate(cfg, s, req).Pass?
    ensures ApplyAdd(cfg, now, s, WithPublication(req, p)).Changed? <==> AddGate(cfg, s, WithPublication(req, p)).Pass?
  {
    ContentWithoutPublication(req.reference, p);
    hide AddGate; hide Canonicalize; hide Content; hide Without;
  }

  lemma AcceptableWithoutPublication(now: Timestamp, s: State, req: Request, k: Id, p: u64)
    requires Writes(req, k)
    ensures Acceptable(now, s, WithPublication(req, p)) == Acceptable(now, s, req)
  {
    hide State.IsFenced; hide State.IsRetired;
    if req.kind.PublishHealth? { assert ReportStaysQuiet(s, WithPublication(req, p)) == ReportStaysQuiet(s, req); }
  }

  /** Take a request the coordinator accepts: with a lower counter it is still accepted exactly if it is unguarded. */
  lemma LoweredIsAcceptedExactly(cfg: Config, now: Timestamp, s: State, req: Request, k: Id, p: u64)
    requires Inv(s) && k in s.racks && Writes(req, k) && Proposal(cfg, now, s, req).Some?
    requires p < s.racks[k].reference.publication
    ensures Proposal(cfg, now, s, WithPublication(req, p)).Some? <==> !Guarded(s.racks[k], WithPublication(req, p))
  {
    hide Apply; hide Inv; hide Acceptable; hide Proposal; hide Guarded;
    ProposedExactly(cfg, now, s, req);
    ProposedExactly(cfg, now, s, WithPublication(req, p));
    AcceptableWithoutPublication(now, s, req, k, p);
    LoweredIsAppliedExactly(cfg, now, s, req, k, p);
  }

  /** The request is accepted and leaves the rack with a lower publication counter. */
  ghost predicate Lowers(cfg: Config, s: State, req: Request) {
    var p := Proposal(cfg, 0, s, req);
    && RACK in s.racks && p.Some? && RACK in p.value.racks
    && p.value.racks[RACK].reference.publication < s.racks[RACK].reference.publication
  }

  lemma AppliedLowers(cfg: Config, s: State, req: Request)
    requires Inv(s) && s.Declared() && s.sc.generation < MAX_U64 && RACK in s.racks
    requires Apply(cfg, 0, s, req).Changed? && Acceptable(0, s, req)
    requires Writes(req, RACK) && Written(req) < s.racks[RACK].reference.publication
    ensures Lowers(cfg, s, req)
  {
    hide Apply; hide Inv; hide Acceptable; hide Settle; hide Sound; hide Vouches;
    ProposedExactly(cfg, 0, s, req);
    AppliedOutcome(cfg, 0, s, req, RACK);
    SettlingKeepsRacks(Apply(cfg, 0, s, req).next);
  }

  /** No incarnation, no counter, or another incarnation of a rack without authority. */
  predicate Loose(evidence: Evidence, boot: Option<Id>, p: u64) {
    p < 5 && (boot.None? || (boot == Some(BOOT) && p == 0) || (boot != Some(BOOT) && !evidence.IsCurrent()))
  }

  lemma LooseUpdateLowers(cfg: Config, s: State, evidence: Evidence, boot: Option<Id>, p: u64)
    requires Inv(s) && Holds(s, evidence) && Loose(evidence, boot, p)
    ensures Lowers(cfg, s, Ask(s, UpdateRackGeneration, RACK, boot, p).(newGeneration := Some(2)))
  {
    hide IsIdentity; hide Evaluate; hide SameContent; hide Canonicalize; hide Inv; hide Lowers;
    AppliedLowers(cfg, s, Ask(s, UpdateRackGeneration, RACK, boot, p).(newGeneration := Some(2)));
  }

  lemma LooseReportLowers(cfg: Config, s: State, evidence: Evidence, boot: Option<Id>, p: u64)
    requires Inv(s) && Holds(s, evidence) && Loose(evidence, boot, p)
    ensures Lowers(cfg, s, Ask(s, PublishHealth, RACK, boot, p))
  {
    hide IsIdentity; hide Evaluate; hide SameContent; hide Canonicalize; hide Inv; hide Lowers; hide ReportedLinks;
    AppliedLowers(cfg, s, Ask(s, PublishHealth, RACK, boot, p));
  }

  /** Any incarnation may recover the rack, even the one that holds it, with any counter. */
  lemma RecoveryLowers(cfg: Config, s: State, evidence: Evidence, boot: Id, p: u64)
    requires Inv(s) && Holds(s, evidence) && p < 5 && (boot == BOOT ==> evidence.IsCurrent())
    ensures Lowers(cfg, s, Ask(s, RecoverRack, RACK, Some(boot), p))
  {
    hide IsIdentity; hide Evaluate; hide Inv; hide Lowers; hide Without;
    AppliedLowers(cfg, s, Ask(s, RecoverRack, RACK, Some(boot), p));
  }

  lemma PlainReference(generation: u64, boot: Id, p: u64, evidence: Evidence)
    requires generation != 0 && !evidence.provenance.Unknown?
    ensures var r := Describe(RACK, generation, boot, p, evidence);
      Canonicalize(r) == r && ValidReference(r) && Content(r) == NO_REFERENCE.(rack := RACK, generation := generation)
  {
    assert SortUnique<Endpoint>([], EndpointBefore) == [] && SortUnique<Hint>([], HintBefore) == [];
    assert SortUnique<Accelerator>([], AcceleratorBefore) == [];
    hide SortUnique;
  }

  /** A newer rack generation, or another incarnation, may be admitted with any counter. */
  lemma AdmissionLowers(cfg: Config, s: State, evidence: Evidence, generation: u64, boot: Id, p: u64)
    requires Inv(s) && Holds(s, evidence) && p < 5 && generation >= 1 && (generation > 1 || boot != BOOT)
    ensures Lowers(cfg, s, Admit(s, Describe(RACK, generation, boot, p, SEEN)))
  {
    hide IsIdentity; hide Evaluate; hide Inv; hide Lowers; hide Without; hide Canonicalize; hide ValidReference;
    hide Content;
    PlainReference(generation, boot, p, SEEN);
    SameReference(s, evidence, generation, boot, p);
    AppliedLowers(cfg, s, Admit(s, Describe(RACK, generation, boot, p, SEEN)));
  }

  lemma SameReference(s: State, evidence: Evidence, generation: u64, boot: Id, p: u64)
    requires Holds(s, evidence)
    ensures generation == 1 ==> SameContent(s.racks[RACK].reference, Describe(RACK, generation, boot, p, SEEN))
  {
    hide Evaluate; hide Young;
    assert SortUnique<Endpoint>([], EndpointBefore) == [] && SortUnique<Hint>([], HintBefore) == [];
    assert SortUnique<Accelerator>([], AcceleratorBefore) == [];
    hide SortUnique;
  }

  /** So may a rack that was registered and never admitted, under its own incarnation. */
  lemma FirstAdmissionLowers(cfg: Config, p: u64) returns (s: State)
    requires !cfg.persist && cfg.maxRacks >= 1 && p < 5
    ensures Reached(cfg, s) && RACK in s.racks && s.racks[RACK].reference.boot == BOOT
    ensures Lowers(cfg, s, Admit(s, Describe(RACK, 1, BOOT, p, SEEN)))
  {
    hide IsIdentity; hide Inv; hide Lowers; hide Without; hide Canonicalize; hide ValidReference; hide Reached;
    s := RegisteredRack(cfg);
    ReachedIsInv(cfg, s);
    PlainReference(1, BOOT, p, SEEN);
    AppliedLowers(cfg, s, Admit(s, Describe(RACK, 1, BOOT, p, SEEN)));
  }

  /** Each of the four kinds lowers the counter of some reachable rack under that rack's own unfenced incarnation. */
  lemma EveryWriterCanLower(cfg: Config, kind: Kind) returns (s: State, req: Request)
    requires !cfg.persist && cfg.maxRacks >= 1
    requires kind.AddRack? || kind.UpdateRackGeneration? || kind.RecoverRack? || kind.PublishHealth?
    ensures Reached(cfg, s) && req.kind == kind && Lowers(cfg, s, req)
    ensures RACK in s.racks && s.racks[RACK].authoritative && !s.IsFenced(s.racks[RACK].reference.boot)
    ensures (if kind.AddRack? then req.reference.boot else req.authority.boot.GetOr([])) == s.racks[RACK].reference.boot
  {
    hide Inv; hide Lowers; hide Reached; hide Evaluate;
    s := HeldRack(cfg, NO_DEMANDS, SEEN);
    ReachedIsInv(cfg, s);
    match kind
    case AddRack =>
      req := Admit(s, Describe(RACK, 2, BOOT, 3, SEEN));
      AdmissionLowers(cfg, s, SEEN, 2, BOOT, 3);
    case UpdateRackGeneration =>
      req := Ask(s, UpdateRackGeneration, RACK, Some(BOOT), 0).(newGeneration := Some(2));
      LooseUpdateLowers(cfg, s, SEEN, Some(BOOT), 0);
    case RecoverRack =>
      req := Ask(s, RecoverRack, RACK, Some(BOOT), 3);
      RecoveryLowers(cfg, s, SEEN, BOOT, 3);
    case PublishHealth =>
      req := Ask(s, PublishHealth, RACK, Some(BOOT), 0);
      LooseReportLowers(cfg, s, SEEN, Some(BOOT), 0);
  }

  // ---- cluster retirement ----------------------------------------------------------------

  lemma OnlyDeclarationsAreHeard(cfg: Config, now: Timestamp, s: State, req: Request)
    requires s.Declared() && s.sc.lifecycle.Retired? && Apply(cfg, now, s, req).Changed?
    ensures req.kind.DeclareCluster?
    ensures Apply(cfg, now, s, req).next.sc.lifecycle == req.lifecycle
  {
    hide IsIdentity;
    assert !req.kind.DeclareCluster? ==> ValidateCommon(s, req).Refuse?;
    hide ValidateCommon;
  }

  /** In a retired cluster a declaration with another lifecycle goes through exactly if it names the epoch. */
  lemma ReopeningExactly(cfg: Config, now: Timestamp, s: State, req: Request)
    requires Inv(s) && s.Declared() && s.sc.lifecycle.Retired? && req.kind.DeclareCluster? && !req.lifecycle.Retired?
    ensures Proposal(cfg, now, s, req).Some? <==>
      IsIdentity(req.cluster) && req.authority.clusterEpoch == s.sc.epoch && s.sc.generation < MAX_U64
  {
    hide Inv; hide IsIdentity; hide Proposal;
    ProposedExactly(cfg, now, s, req);
  }

  lemma RestartIsNotRetired(cfg: Config, loaded: Option<Persisted>, at: Timestamp)
    ensures !Restart(cfg, loaded, at).sc.lifecycle.Retired?
  {
    hide RevivedRacks; hide RecoveredDomains; hide Assigned; hide Sort; hide FenceAll; hide Evaluate;
    if loaded.Some? { RetiredOnlyIfAlready(Unsettled(loaded.value, NextEpoch(loaded.value.sc.coordinatorEpoch), at)); }
  }

  lemma ProposalKeepsRetired(cfg: Config, s: State, e: Event)
    requires s.Declared() && s.sc.lifecycle.Retired? && Proposed(cfg, s, e).Some?
    ensures Proposed(cfg, s, e).value.sc.lifecycle.Retired? <==> (e.Mutate? ==> e.request.lifecycle.Retired?)
    ensures e.Mutate? ==> e.request.kind.DeclareCluster?
  {
    hide Apply; hide Evaluate; hide Sound; hide FencedList; hide FencedRacks; hide FencedLinks; hide Owns;
    match e
    case Mutate(at, request, _) =>
      OnlyDeclarationsAreHeard(cfg, at, s, request);
      RetiredOnlyIfAlready(Apply(cfg, at, s, request).next);
    case FenceBoot(boot, reason, stamp, at, _) => RetiredOnlyIfAlready(Fenced(s, boot, reason, stamp));
  }

  /**
   * A RETIRED cluster leaves RETIRED exactly by a restart or by a declaration of another lifecycle that takes effect.
   */
  lemma RetiredClusterStaysExactly(cfg: Config, y: Sys, e: Event)
    requires SysInv(y) && y.live.Declared() && y.live.sc.lifecycle.Retired?
    ensures React(cfg, y, e).live.sc.lifecycle.Retired? <==>
      && !e.Reboot?
      && !(Takes(cfg, y.live, e) && e.Mutate? && e.request.kind.DeclareCluster? && !e.request.lifecycle.Retired?)
  {
    hide Inv; hide Encode; hide Project; hide Restart; hide Proposed; hide Load; hide Commit;
    if e.Reboot? {
      RestartIsNotRetired(cfg, Load(y.store), e.at);
    } else if Takes(cfg, y.live, e) {
      ProposalKeepsRetired(cfg, y.live, e);
    } else if e.Mutate? {
      RefusedKeepsState(cfg, e.at, y.live, e.request);
    }
  }

  /** It happens: a reachable retired cluster is declared again. */
  lemma RetiredClusterReopens(cfg: Config) returns (s: State, req: Request)
    requires !cfg.persist
    ensures Reached(cfg, s) && s.sc.lifecycle.Retired? && req.kind.DeclareCluster?
    ensures var p := Proposal(cfg, 0, s, req); p.Some? && !p.value.sc.lifecycle.Retired?
  {
    hide Reached; hide Evaluate; hide Inv; hide Apply; hide Acceptable; hide Proposal;
    var young := StartedCluster(cfg, NO_DEMANDS);
    var retire := Ask(young, RetireCluster, [], None, 0);
    RetirementApplies(cfg, young, retire);
    s := RequestIsReached(cfg, 0, young, retire);
    RetiredOnlyIfAlready(Apply(cfg, 0, young, retire).next);
    req := Ask(s, DeclareCluster, [], None, 0).(lifecycle := Lifecycle.Forming);
    ReachedIsInv(cfg, s);
    ReopeningExactly(cfg, 0, s, req);
    ReopenedIsNotRetired(cfg, s, req);
  }

  lemma RetirementApplies(cfg: Config, s: State, req: Request)
    requires Young(s) && req == Ask(s, RetireCluster, [], None, 0)
    ensures Apply(cfg, 0, s, req).Changed? && Acceptable(0, s, req)
    ensures var t := Apply(cfg, 0, s, req).next; t.sc == s.sc.(lifecycle := Lifecycle.Retired) && t.id == s.id
  {
    hide IsIdentity; hide DemotedRacks;
  }

  lemma ReopenedIsNotRetired(cfg: Config, s: State, req: Request)
    requires s.Declared() && s.sc.lifecycle.Retired? && Proposal(cfg, 0, s, req).Some? && !req.lifecycle.Retired?
    ensures !Proposal(cfg, 0, s, req).value.sc.lifecycle.Retired?
  {
    hide Apply; hide Evaluate; hide Sound;
    OnlyDeclarationsAreHeard(cfg, 0, s, req);
    RetiredOnlyIfAlready(Apply(cfg, 0, s, req).next);
  }

  // ---- the identity ----------------------------------------------------------------------

  /** A first declaration whose save fails renames the cluster and does nothing else. */
  lemma FailedDeclarationRenames(cfg: Config, at: Timestamp, cluster: Id)
    requires cfg.persist && IsIdentity(cluster)
    ensures var blank := FreshState(cfg.cluster, cfg.contract, NextEpoch(1));
      var declare := Ask(blank, DeclareCluster, [], None, 0).(cluster := cluster);
      Run(cfg, Boot(cfg, at), [Mutate(at, declare, false)]).live == blank.(id := cluster)
  {
    hide IsIdentity; hide Proposed; hide Encode; hide Project; hide Commit;
    var blank := FreshState(cfg.cluster, cfg.contract, NextEpoch(1));
    var declare := Ask(blank, DeclareCluster, [], None, 0).(cluster := cluster);
    var e := Mutate(at, declare, false);
    assert [e][..|[e]| - 1] == [] && !Takes(cfg, blank, e);
    assert Run(cfg, Boot(cfg, at), []) == Boot(cfg, at);
    RefusedState(cfg, at, blank, declare);
  }

  lemma RefusedState(cfg: Config, at: Timestamp, s: State, req: Request)
    ensures Commit(cfg, at, s, req, false).state == s.(id := IdentityAfter(s, req))
  {
    hide Apply; hide Sound; hide Settle; hide IdentityAfter;
    RollbackRestores(cfg, at, s, req, false);
  }

  // ---- a forgotten cluster, declared again ------------------------------------------------

  function Declaration(cfg: Config, contract: Contract): Request {
    Ask(FreshState(cfg.cluster, cfg.contract, NextEpoch(1)), DeclareCluster, [], None, 0).(
      cluster := CLUSTER, contract := contract)
  }

  function Redeclared(cfg: Config, contract: Contract, at: Timestamp): State {
    var blank := FreshState(cfg.cluster, cfg.contract, NextEpoch(1));
    Sealed(at, Settle(FirstDeclaration(at, blank, Declaration(cfg, contract))))
  }

  lemma DeclarationReacts(cfg: Config, y: Sys, contract: Contract, at: Timestamp)
    requires !cfg.persist && y.live == FreshState(cfg.cluster, cfg.contract, NextEpoch(1))
    ensures React(cfg, y, Mutate(at, Declaration(cfg, contract), true)) == y.(live := Redeclared(cfg, contract, at))
  {
    hide Inv; hide Settle; hide Sound; hide FirstDeclaration; hide Acceptable; hide Encode; hide Project; hide Commit;
    var req := Declaration(cfg, contract);
    assert Apply(cfg, at, y.live, req) == Changed(FirstDeclaration(at, y.live, req)) by { assert IsIdentity(CLUSTER); }
    assert Acceptable(at, y.live, req)
      by { FreshIsInv(cfg, NextEpoch(1)); FirstDeclarationIsSound(cfg, at, y.live, req); }
    hide Apply;
    FreshIsInv(cfg, NextEpoch(1));
    ProposedExactly(cfg, at, y.live, req);
  }

  lemma RedeclaredMatches(cfg: Config, was: Contract, next: Contract, at: Timestamp, later: Timestamp)
    ensures Snapshots.Matches(Redeclared(cfg, was, at), Redeclared(cfg, next, later))
    ensures Redeclared(cfg, next, later).sc.contract == next
  {
    hide Evaluate; hide Ascii;
  }

  /**
   * Across a restart that finds nothing to load, a declaration brings all compared counters back: a snapshot of the
   * forgotten cluster validates as current although the contract is another one.
   */
  lemma ForgottenClusterPasses(cfg: Config, was: Contract, after: Contract, at: Timestamp, later: Timestamp)
    requires !cfg.persist && was != after
    ensures var y := Run(cfg, Boot(cfg, at), [Mutate(at, Declaration(cfg, was), true)]);
      var z := React(cfg, React(cfg, y, Reboot(later)), Mutate(later, Declaration(cfg, after), true));
      Snapshots.Matches(y.live, z.live) && y.live != z.live
  {
    hide Redeclared; hide Declaration; hide Snapshots.Matches;
    var e := Mutate(at, Declaration(cfg, was), true);
    assert [e][..|[e]| - 1] == [] && Run(cfg, Boot(cfg, at), []) == Boot(cfg, at);
    DeclarationReacts(cfg, Boot(cfg, at), was, at);
    var y := React(cfg, Boot(cfg, at), e);
    assert React(cfg, y, Reboot(later)).live == FreshState(cfg.cluster, cfg.contract, NextEpoch(1));
    DeclarationReacts(cfg, React(cfg, y, Reboot(later)), after, later);
    hide React;
    RedeclaredMatches(cfg, was, after, at, later);
    RedeclaredMatches(cfg, after, was, later, at);
  }

  // ---- a repeated admission that is stale --------------------------------------------------

  /** An admission whose authority names the rack's incarnation and a counter behind the reference. */
  function Behind(s: State): Request {
    var plain := Admit(s, Describe(RACK, 1, BOOT, 5, SEEN));
    plain.(authority := plain.authority.(boot := Some(BOOT), publication := 3))
  }

  lemma BehindApplies(cfg: Config, s: State)
    requires Young(s) && s.racks == map[] && s.sc.fenced == [] && cfg.maxRacks >= 1
    ensures Apply(cfg, 0, s, Behind(s)).Changed? && Acceptable(0, s, Behind(s))
    ensures Apply(cfg, 0, s, Behind(s)) == ApplyAdd(cfg, 0, s, Behind(s))
    ensures var t := Apply(cfg, 0, s, Behind(s)).next;
      t.id == s.id && t.sc.epoch == s.sc.epoch && t.sc.coordinatorEpoch == s.sc.coordinatorEpoch
      && t.sc.lifecycle == s.sc.lifecycle
  {
    hide IsIdentity; hide Canonicalize; hide ValidReference; hide Without; hide SameContent; hide Content;
    PlainReference(1, BOOT, 5, SEEN);
  }

  lemma RefusedAgain(cfg: Config, s: State, t: State)
    requires Young(s) && ApplyAdd(cfg, 0, s, Behind(s)).Changed? && SameStanding(ApplyAdd(cfg, 0, s, Behind(s)).next, t)
    requires t.id == s.id && t.sc.epoch == s.sc.epoch && t.sc.coordinatorEpoch == s.sc.coordinatorEpoch
    requires !t.sc.lifecycle.Retired?
    ensures Apply(cfg, 0, t, Behind(s)) == Refused(StalePublication)
  {
    hide IsIdentity; hide ApplyAdd; hide SameStanding;
    RackRepublication(cfg, 0, 0, s, Behind(s), t);
  }

  /** It is accepted once, and refused as stale when it is repeated verbatim. */
  lemma RepeatedAdmissionIsStale(cfg: Config) returns (s: State, t: State)
    requires !cfg.persist && cfg.maxRacks >= 1
    ensures Reached(cfg, s) && Proposal(cfg, 0, s, Behind(s)) == Some(t)
    ensures Reached(cfg, t) && Apply(cfg, 0, t, Behind(s)) == Refused(StalePublication)
  {
    hide Reached; hide Apply; hide Acceptable; hide Evaluate; hide Proposal; hide ApplyAdd;
    s := StartedCluster(cfg, NO_DEMANDS);
    BehindApplies(cfg, s);
    t := RequestIsReached(cfg, 0, s, Behind(s));
    RetiredOnlyIfAlready(Apply(cfg, 0, s, Behind(s)).next);
    RefusedAgain(cfg, s, t);
  }
}
