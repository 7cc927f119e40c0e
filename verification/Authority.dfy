/** Whose requests are heard: epochs, incarnations and retired identities, over whole runs. */
module AuthorityChecks {
  import opened Foundation
  import opened Sorting
  import opened EvidenceStamps
  import opened Records
  import opened Readiness
  import opened Invariants
  import opened Mutations
  import opened Engine
  import opened Durable
  import opened Container
  import opened System
  import opened Runs
  import opened Acceptance
  import opened Scenarios

  /** The kinds that compare the incarnation they name with the fenced ones. */
  predicate ChecksIncarnation(kind: Kind) {
    || kind.AddRack? || kind.UpdateRackGeneration? || kind.MarkUnavailable?
    || kind.WithdrawRack? || kind.RetireRack? || kind.RecoverRack? || kind.PublishHealth?
  }

  lemma FencedIncarnationIsRefused(cfg: Config, now: Timestamp, s: State, req: Request, boot: Id)
    requires s.IsFenced(boot) && ChecksIncarnation(req.kind) && req.authority.boot == Some(boot)
    ensures Apply(cfg, now, s, req).Refused?
  {
    hide SameContent; hide Canonicalize; hide ValidReference; hide State.IsRetired; hide IsIdentity;
    assert forall rack :: ValidateBoot(s, req, rack) == Refuse(StaleRackBoot);
    hide ValidateBoot; hide State.IsFenced;
  }

  /** The same request, naming no incarnation. */
  function Anonymous(req: Request): Request { req.(authority := req.authority.(boot := None)) }

  lemma UncheckedIgnoresIncarnation(cfg: Config, now: Timestamp, s: State, req: Request)
    requires !ChecksIncarnation(req.kind)
    ensures Apply(cfg, now, s, req).Changed? <==> Apply(cfg, now, s, Anonymous(req)).Changed?
    ensures Acceptable(now, s, req) <==> Acceptable(now, s, Anonymous(req))
  {
    hide IsIdentity; hide DomainGate; hide ConstraintGate; hide LinkGate; hide State.IsRetired; hide EvidenceMoved;
    hide TopologyMoved; hide AdvanceAggregate; hide Ascii; hide OrphanedLinks; hide SilencedLinks; hide DemotedRacks;
    hide FreshlyHeld; hide Normalized; hide PublishedLink; hide Registration; hide SortUnique; hide FirstDeclaration;
    var other := Anonymous(req);
    assert ValidateCommon(s, req) == ValidateCommon(s, other) && req.Subject() == other.Subject();
    hide ValidateCommon;
    assert req.kind.DeclareCluster? ==> ApplyDeclare(now, s, req).Changed? == ApplyDeclare(now, s, other).Changed?;
    assert req.kind.Revalidate? ==> ApplyRevalidate(s, req) == ApplyRevalidate(s, other);
    hide ApplyRevalidate; hide ApplyDeclare;
  }

  /**
   * Under a fenced incarnation a request goes through exactly if its kind does not look at the incarnation and it would
   * go through without naming one.
   */
  lemma FencedCallerExactly(cfg: Config, now: Timestamp, s: State, req: Request, boot: Id)
    requires Inv(s) && s.IsFenced(boot) && req.authority.boot == Some(boot)
    ensures Proposal(cfg, now, s, req).Some? <==>
      !ChecksIncarnation(req.kind) && Proposal(cfg, now, s, Anonymous(req)).Some?
  {
    hide Apply; hide Inv; hide Acceptable; hide Proposal; hide State.IsFenced;
    ProposedExactly(cfg, now, s, req);
    ProposedExactly(cfg, now, s, Anonymous(req));
    if ChecksIncarnation(req.kind) {
      FencedIncarnationIsRefused(cfg, now, s, req, boot);
    } else {
      UncheckedIgnoresIncarnation(cfg, now, s, req);
    }
  }

  /** Once an incarnation is fenced, no request of a checking kind is ever applied under it again. */
  lemma FencedIncarnationStaysRefused(
      cfg: Config, y: Sys, events: seq<Event>, boot: Id, now: Timestamp, req: Request)
    requires SysInv(y) && Tracks(cfg, y) && Smooth(cfg, y, events) && y.live.IsFenced(boot)
    requires ChecksIncarnation(req.kind) && req.authority.boot == Some(boot)
    ensures Apply(cfg, now, Run(cfg, y, events).live, req).Refused?
  {
    hide Run; hide Tracks; hide Smooth; hide SysInv; hide Apply;
    FencesArePermanent(cfg, y, events, boot);
    FencedIncarnationIsRefused(cfg, now, Run(cfg, y, events).live, req, boot);
  }

  // ---- every other kind is heard ---------------------------------------------------------

  /** A request is accepted in a reachable state although its incarnation is fenced there. */
  ghost predicate Heard(cfg: Config, s: State, req: Request) {
    && Reached(cfg, s) && req.authority.boot.Some? && s.IsFenced(req.authority.boot.value)
    && Proposal(cfg, 0, s, req).Some?
  }

  const NEW: Id := [84]

  function NewHeader(s: State): Header { Header(SEEN, 1, None, s.sc.epoch, s.sc.coordinatorEpoch, []) }

  function NewLink(s: State): Link {
    Link(NEW, RACK, OTHER, Direction.Bidirectional, 0, None, None, None, None, 0, None, 0, None, None,
         Reachability.Unknown, 0, [], NewHeader(s), s.sc.topologyEpoch, 0, 0, None)
  }

  /** One request of each kind that does not look at the incarnation, sent under a fenced one. */
  function Whisper(s: State, kind: Kind): Request {
    var plain := Ask(s, kind, RACK, Some(FENCED), 0);
    match kind
    case DeclareCluster => plain.(contract := plain.contract.(allowPartial := !plain.contract.allowPartial))
    case RegisterPublisher => Registering(s, NEW, FENCED)
    case PublishLink => plain.(link := Some(NewLink(s)))
    case WithdrawLink => plain.(linkId := Some(NEW))
    case PublishDomain(_) => plain.(domain := Some(Domain(NEW, 1, [], [], None, NewHeader(s))))
    case PublishConstraint => plain.(constraint := Some(Constraint(NEW, 1, [], [], [], NewHeader(s))))
    case SupersedeTopology => plain.(targetEpoch := Next(s.sc.topologyEpoch))
    case Revalidate => plain.(racks := [RACK])
    case _ => plain
  }

  predicate Roomy(cfg: Config) {
    !cfg.persist && cfg.maxRacks >= 3 && cfg.maxLinks >= 1 && cfg.maxDomains >= 1 && cfg.maxConstraints >= 1
  }

  lemma WhisperedLinkApplies(cfg: Config, s: State)
    requires Roomy(cfg) && OneFenced(s)
    ensures Apply(cfg, 0, s, Whisper(s, PublishLink)).Changed? && Acceptable(0, s, Whisper(s, PublishLink))
  {
    hide SortUnique; hide IsIdentity; hide State.IsFenced;
  }

  lemma WhisperedDomainApplies(cfg: Config, s: State, kind: DomainKind)
    requires Roomy(cfg) && OneFenced(s)
    ensures var req := Whisper(s, PublishDomain(kind)); Apply(cfg, 0, s, req).Changed? && Acceptable(0, s, req)
  {
    assert SortUnique<Id>([], Before) == [] && Sort<Quantity>([], QuantityBefore) == [];
    assert FirstRefusal([], 0) == Pass;
    hide SortUnique; hide Sort; hide IsIdentity; hide FirstRefusal; hide State.IsFenced;
    assert s.DomainIds(kind) == {};
    hide State.DomainIds;
  }

  lemma WhisperedConstraintApplies(cfg: Config, s: State)
    requires Roomy(cfg) && OneFenced(s)
    ensures Apply(cfg, 0, s, Whisper(s, PublishConstraint)).Changed? && Acceptable(0, s, Whisper(s, PublishConstraint))
  {
    hide SortUnique; hide IsIdentity; hide State.IsFenced;
  }

  lemma WhisperedWithdrawalApplies(cfg: Config, s: State)
    requires OneFenced(s)
    ensures Apply(cfg, 0, s, Whisper(s, WithdrawEvidence)).Changed? && Acceptable(0, s, Whisper(s, WithdrawEvidence))
  {
    hide IsIdentity; hide State.IsFenced; hide OrphanedLinks; hide Orphaned;
  }

  lemma WhisperedTopologyApplies(cfg: Config, s: State, kind: Kind)
    requires OneFenced(s) && (kind.SupersedeTopology? || kind.PublishSnapshot? || kind.Revalidate?)
    ensures Apply(cfg, 0, s, Whisper(s, kind)).Changed? && Acceptable(0, s, Whisper(s, kind))
  {
    hide IsIdentity; hide State.IsFenced; hide SilencedLinks; hide Ascii;
  }

  lemma WhisperedClusterApplies(cfg: Config, s: State, kind: Kind)
    requires OneFenced(s) && (kind.DeclareCluster? || kind.RetireCluster?)
    ensures Apply(cfg, 0, s, Whisper(s, kind)).Changed? && Acceptable(0, s, Whisper(s, kind))
  {
    hide IsIdentity; hide State.IsFenced; hide DemotedRacks; hide FirstDeclaration; hide Ascii;
  }

  lemma WhisperApplies(cfg: Config, s: State, kind: Kind)
    requires Roomy(cfg) && OneFenced(s) && !ChecksIncarnation(kind) && !kind.Unknown? && !kind.WithdrawLink?
    ensures Apply(cfg, 0, s, Whisper(s, kind)).Changed? && Acceptable(0, s, Whisper(s, kind))
  {
    hide Apply; hide Acceptable; hide Young; hide State.IsFenced;
    if kind.RegisterPublisher? {
      assert |s.racks| == |s.racks.Keys| == 2;
      RegistrationApplies(cfg, s, NEW, FENCED);
    } else if kind.WithdrawEvidence? {
      WhisperedWithdrawalApplies(cfg, s);
    } else if kind.PublishLink? {
      WhisperedLinkApplies(cfg, s);
    } else if kind.PublishDomain? {
      WhisperedDomainApplies(cfg, s, kind.domain);
    } else if kind.PublishConstraint? {
      WhisperedConstraintApplies(cfg, s);
    } else if kind.DeclareCluster? || kind.RetireCluster? {
      WhisperedClusterApplies(cfg, s, kind);
    } else {
      WhisperedTopologyApplies(cfg, s, kind);
    }
  }

  lemma PublishedLinkFacts(cfg: Config, s: State)
    requires OneFenced(s) && Apply(cfg, 0, s, Whisper(s, PublishLink)).Changed?
    ensures var t := Apply(cfg, 0, s, Whisper(s, PublishLink)).next;
      && NEW in t.links && t.id == s.id && t.sc.epoch == s.sc.epoch && t.sc.generation == s.sc.generation
      && t.sc.topologyGeneration <= 100 && t.sc.connectivityGeneration <= 100 && t.sc.fenced == s.sc.fenced
      && t.sc.lifecycle == s.sc.lifecycle
  {
    hide SortUnique; hide IsIdentity; hide LinkGate; hide PublishedLink; hide State.IsFenced;
  }

  /** A state that holds the link, still under the fence. */
  lemma LinkedCluster(cfg: Config, s: State) returns (t: State)
    requires Roomy(cfg) && Reached(cfg, s) && OneFenced(s)
    ensures Reached(cfg, t) && NEW in t.links && t.IsFenced(FENCED) && t.Declared() && IsIdentity(t.id)
    ensures t.sc.generation <= 100 && t.sc.topologyGeneration <= 100 && t.sc.connectivityGeneration <= 100
    ensures !t.sc.lifecycle.Retired?
  {
    hide Reached; hide Apply; hide Acceptable; hide Evaluate; hide IsIdentity;
    var req := Whisper(s, PublishLink);
    WhisperedLinkApplies(cfg, s);
    PublishedLinkFacts(cfg, s);
    t := RequestIsReached(cfg, 0, s, req);
    RetiredOnlyIfAlready(Apply(cfg, 0, s, req).next);
  }

  lemma WithdrawalApplies(cfg: Config, s: State)
    requires NEW in s.links && s.Declared() && IsIdentity(s.id) && !s.sc.lifecycle.Retired?
    requires s.sc.topologyGeneration <= 100 && s.sc.connectivityGeneration <= 100
    ensures Apply(cfg, 0, s, Whisper(s, WithdrawLink)).Changed? && Acceptable(0, s, Whisper(s, WithdrawLink))
  {
    hide IsIdentity;
  }

  lemma WhisperIsHeard(cfg: Config, kind: Kind) returns (s: State, req: Request)
    requires Roomy(cfg) && !ChecksIncarnation(kind) && !kind.Unknown?
    ensures Heard(cfg, s, req) && req.kind == kind
  {
    hide Reached; hide Apply; hide Acceptable; hide Proposal; hide Settle;
    s := FencedRack(cfg);
    if kind.WithdrawLink? {
      s := LinkedCluster(cfg, s);
      WithdrawalApplies(cfg, s);
    } else {
      WhisperApplies(cfg, s, kind);
    }
    req := Whisper(s, kind);
    var t := RequestIsReached(cfg, 0, s, req);
  }

  /** Which kinds are ever accepted under a fenced incarnation: exactly those that do not look at it. */
  lemma HeardKindsExactly(cfg: Config, kind: Kind)
    requires Roomy(cfg)
    ensures (exists s, req :: Heard(cfg, s, req) && req.kind == kind) <==> !ChecksIncarnation(kind) && !kind.Unknown?
  {
    hide Apply; hide Reached; hide Roomy;
    if !ChecksIncarnation(kind) && !kind.Unknown? {
      var s, req := WhisperIsHeard(cfg, kind);
    } else {
      forall s, req | Heard(cfg, s, req) ensures req.kind != kind { HeardIsUnchecked(cfg, s, req); }
    }
  }

  lemma HeardIsUnchecked(cfg: Config, s: State, req: Request)
    requires Heard(cfg, s, req)
    ensures !ChecksIncarnation(req.kind) && !req.kind.Unknown?
  {
    hide Reached; hide Sound; hide Settle;
    if ChecksIncarnation(req.kind) { FencedIncarnationIsRefused(cfg, 0, s, req, req.authority.boot.value); }
    hide Apply;
    if req.kind.Unknown? { UnknownIsRefused(cfg, 0, s, req); }
  }

  lemma UnknownIsRefused(cfg: Config, now: Timestamp, s: State, req: Request)
    requires req.kind.Unknown?
    ensures Apply(cfg, now, s, req).Refused?
  {}

  /** A registration is stored under the fenced incarnation it names. */
  lemma FencedRegistrationIsKept(cfg: Config, s: State)
    requires Roomy(cfg) && Reached(cfg, s) && OneFenced(s)
    ensures var p := Proposal(cfg, 0, s, Registering(s, NEW, FENCED));
      p.Some? && NEW in p.value.racks && p.value.racks[NEW].reference.boot == FENCED
  {
    hide Reached; hide Apply; hide Acceptable; hide Evaluate; hide State.IsFenced;
    assert |s.racks| == |s.racks.Keys| == 2;
    RegistrationApplies(cfg, s, NEW, FENCED);
    var t := RequestIsReached(cfg, 0, s, Registering(s, NEW, FENCED));
  }

  // ---- epochs and retired identities -----------------------------------------------------

  /** Everything but a declaration has to name both epochs exactly. */
  lemma StaleEpochIsRefused(cfg: Config, now: Timestamp, s: State, req: Request)
    requires !req.kind.DeclareCluster?
    requires req.authority.clusterEpoch != s.sc.epoch || req.authority.coordinatorEpoch != s.sc.coordinatorEpoch
    ensures Apply(cfg, now, s, req).Refused?
  {
    hide IsIdentity;
    assert ValidateCommon(s, req).Refuse?;
    hide ValidateCommon;
  }

  /** A request stamped before a restart is refused after it, however it reads otherwise. */
  lemma OldRequestsAreRefusedAfterRestart(cfg: Config, y: Sys, at: Timestamp, now: Timestamp, req: Request)
    requires SysInv(y) && y.saved.Some? && Reloadable(y.saved.value)
    requires y.saved.value.sc.coordinatorEpoch < MAX_U64 && !req.kind.DeclareCluster?
    requires req.authority.coordinatorEpoch <= y.saved.value.sc.coordinatorEpoch
    ensures Apply(cfg, now, React(cfg, y, Reboot(at)).live, req).Refused?
  {
    hide Inv; hide Reborn; hide Load; hide Project; hide Encode; hide Restart; hide Reloadable; hide Apply;
    var u := Restart(cfg, Load(y.store), at);
    RestartIsReborn(cfg, y, at);
    RebornEpochAdvances(y.saved.value, u);
    StaleEpochIsRefused(cfg, now, u, req);
  }

  lemma RebornEpochAdvances(s: State, u: State)
    requires Reborn(s, u) && s.sc.coordinatorEpoch < MAX_U64
    ensures u.sc.coordinatorEpoch > s.sc.coordinatorEpoch
  {
    hide RackReborn; hide LinkReborn;
  }

  /** A retired identity cannot be registered, admitted, recovered or reported on. */
  lemma RetiredIdentityIsRefused(cfg: Config, now: Timestamp, s: State, req: Request)
    requires req.kind.RegisterPublisher? || req.kind.PublishHealth? ==> s.IsRetired(req.Subject())
    requires req.kind.AddRack? ==> s.IsRetired(req.reference.rack)
    requires req.kind.RecoverRack? ==> s.IsRetired(RecoverySubject(req))
    requires req.kind.RegisterPublisher? || req.kind.PublishHealth? || req.kind.AddRack? || req.kind.RecoverRack?
    ensures Apply(cfg, now, s, req).Refused?
  {
    hide ValidateBoot; hide ValidReference; hide State.IsRetired; hide IsIdentity; hide State.IsFenced;
  }
}
