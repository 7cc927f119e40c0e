/** Exactly which applied mutations the checker turns away. */
module Acceptance {
  import opened Foundation
  import opened TextOrder
  import opened Sorting
  import opened EvidenceStamps
  import opened Records
  import opened Readiness
  import opened Invariants
  import opened Mutations
  import opened Preservation
  import opened Engine

  // ---- the condition, on the request and the state before it ------------------------------

  /** The request carries current evidence for the rack and would make it authoritative. */
  predicate Vouches(now: Timestamp, req: Request, k: Id) {
    match req.kind
    case AddRack => req.reference.rack == k && AdmittedEvidence(now, req.reference).IsCurrent()
    case UpdateRackGeneration => req.Subject() == k && req.evidence.IsCurrent()
    case RecoverRack => RecoverySubject(req) == k && req.evidence.IsCurrent()
    case PublishHealth => req.Subject() == k && req.evidence.IsCurrent()
    case _ => false
  }

  /** The incarnation a rack is held under after a generation update. */
  function UpdatedBoot(s: State, req: Request): Id
    requires req.Subject() in s.racks
  {
    req.authority.boot.GetOr(s.racks[req.Subject()].reference.boot)
  }

  /** A reachability report rewrites every link of the rack; links of superseded epochs may not claim anything by it. */
  predicate ReportStaysQuiet(s: State, req: Request) {
    forall k | k in s.links && s.links[k].Touches(req.Subject()) && s.links[k].topologyEpoch != s.sc.topologyEpoch ::
      req.evidence.RequiresRevalidation() && req.reachability.RevalidationRequired?
  }

  predicate HealthAcceptable(s: State, req: Request) {
    var k := req.Subject();
    && (req.evidence.IsCurrent() ==> s.IsMember(k) && !s.IsFenced(s.racks[k].reference.boot))
    && (!req.reachability.Unknown? ==> ReportStaysQuiet(s, req))
  }

  predicate UpdateAcceptable(s: State, req: Request) {
    var k := req.Subject();
    && s.IsMember(k)
    && (req.evidence.IsCurrent() ==> !s.IsFenced(UpdatedBoot(s, req)) && !s.IsRetired(k))
  }

  predicate AddAcceptable(now: Timestamp, s: State, req: Request) {
    && (req.reference.rack !in s.racks ==> |s.racks| < MAX_RACKS)
    && (AdmittedEvidence(now, req.reference).IsCurrent() ==> !s.IsFenced(req.reference.boot))
  }

  predicate RoomFor(s: State, kind: DomainKind, payload: Option<Domain>) {
    payload.Some? && (kind, payload.value.id) !in s.domains ==> |s.DomainIds(kind)| < MAX_DOMAINS_PER_CLASS
  }

  /** What the checker demands of a request beyond what its own validation did. */
  predicate Acceptable(now: Timestamp, s: State, req: Request) {
    match req.kind
    case DeclareCluster =>
      s.Declared() && req.lifecycle.Retired? ==> forall k | k in s.racks :: !s.racks[k].authoritative
    case RegisterPublisher => |s.racks| < MAX_RACKS
    case AddRack => AddAcceptable(now, s, req)
    case UpdateRackGeneration => UpdateAcceptable(s, req)
    case RecoverRack =>
      |req.reference.endpoints| <= MAX_RACK_ENDPOINTS && |req.reference.hints| <= MAX_FAILURE_DOMAIN_REFS
    case PublishHealth => HealthAcceptable(s, req)
    case PublishLink => req.link.Some? && req.link.value.id !in s.links ==> |s.links| < MAX_LINKS
    case PublishDomain(kind) => RoomFor(s, kind, req.domain)
    case PublishConstraint =>
      req.constraint.Some? && req.constraint.value.id !in s.constraints ==> |s.constraints| < MAX_CONSTRAINTS
    case _ => true
  }

  // ---- what is left to check of a candidate -----------------------------------------------

  lemma InvBody(s: State)
    requires Inv(s)
    ensures BodySound(s)
  {
    hide Wired; hide Settled; hide Paced; hide RackSound; hide LinkSound; hide DomainSound; hide ConstraintSound;
    hide CountersSound; hide LifecycleSound;
  }

  lemma InvParts(s: State)
    requires Inv(s)
    ensures BodySound(s) && Wired(s) && Paced(s)
  {
    hide Wired; hide Settled; hide Paced; hide BodySound; hide Sound;
    InvBody(s);
  }

  lemma CandidateCounters(s: State, t: State)
    requires Wired(s) && Wired(t) && Paced(s) && s.Declared() && t.Declared() && t.id == s.id
    requires CountersAdvance(s.sc, t.sc)
    ensures CountersSound(t) && CountersSound(Settle(t))
  {
    hide ReferencesResolve; hide RetirementExact; hide AuthorityJustified; hide RecordsPlaced; hide Evaluate;
  }

  lemma StepScalars(s: State, t: State)
    requires Step(s, t)
    ensures t.id == s.id && CountersAdvance(s.sc, t.sc)
  {}

  lemma SettledBody(t: State)
    ensures BodySound(Settle(t)) <==> BodySound(t)
  {
    hide BodySound; hide Evaluate;
    if BodySound(t) { FramedBodyStaysSound(t, Settle(t)); }
    if BodySound(Settle(t)) { FramedBodyStaysSound(Settle(t), t); }
  }

  lemma SettledLifecycle(t: State)
    ensures LifecycleSound(Settle(t))
      <==> (t.sc.lifecycle.Retired? ==> forall k | k in t.racks :: !t.racks[k].authoritative)
  {
    RetiredOnlyIfAlready(t);
    EvaluationIsIdempotent(t, Settle(t));
    var f := Settle(t);
    assert f.racks == t.racks && f.sc.lifecycle == Evaluate(t);
    if f.sc.lifecycle.Retired? ==> forall k | k in f.racks :: !f.racks[k].authoritative {
      SettledIsConsistent(f);
    }
    hide Evaluate; hide Satisfied;
  }

  lemma BlankBody(t: State)
    requires t.Blank()
    ensures BodySound(t)
  {}

  ghost predicate Clean(t: State) {
    BodySound(t) && (t.sc.lifecycle.Retired? ==> forall k | k in t.racks :: !t.racks[k].authoritative)
  }

  lemma SettledIsSoundExactly(s: State, t: State)
    requires Wired(s) && Paced(s) && s.Declared() && Wired(t) && t.Declared() && t.id == s.id
    requires CountersAdvance(s.sc, t.sc)
    ensures Sound(Settle(t)) <==> Clean(t)
  {
    hide BodySound; hide Evaluate; hide LifecycleSound; hide CountersSound; hide CountersAdvance;
    CandidateCounters(s, t);
    hide Wired; hide Paced;
    SettledBody(t);
    SettledLifecycle(t);
    if t.Blank() { BlankBody(t); }
  }

  /** For a declared cluster, only the record clauses and the retirement clause can fail. */
  lemma CandidateIsSoundExactly(cfg: Config, now: Timestamp, s: State, req: Request)
    requires Inv(s) && s.Declared() && Apply(cfg, now, s, req).Changed?
    ensures Sound(Settle(Apply(cfg, now, s, req).next)) <==> Clean(Apply(cfg, now, s, req).next)
  {
    hide Apply; hide Wired; hide Sound; hide Settle; hide Clean; hide Inv; hide Step; hide Paced; hide CountersAdvance;
    InvParts(s);
    CandidateIsWired(cfg, now, s, req);
    ApplySteps(cfg, now, s, req);
    StepScalars(s, Apply(cfg, now, s, req).next);
    SettledIsSoundExactly(s, Apply(cfg, now, s, req).next);
  }

  // ---- one rack record written ------------------------------------------------------------

  /** Everything but one rack record, the links, and the lists that go with the record stands still. */
  ghost predicate RackWritten(s: State, t: State, k: Id) {
    && k in t.racks && t.racks == s.racks[k := t.racks[k]]
    && t.domains == s.domains && t.constraints == s.constraints && t.sc.fenced == s.sc.fenced
    && s.sc.membershipGeneration <= t.sc.membershipGeneration && t.sc.topologyEpoch == s.sc.topologyEpoch
    && t.sc.topologyGeneration == s.sc.topologyGeneration && t.sc.domainGenerations == s.sc.domainGenerations
    && (forall x | x != k :: t.IsRetired(x) == s.IsRetired(x))
    && (s.IsMember(k) ==> t.IsMember(k))
  }

  lemma OtherRacks(s: State, t: State, k: Id, x: Id)
    requires RackWritten(s, t, k) && x in s.racks && x != k && RackSound(s, x)
    ensures RackSound(t, x)
  {
    hide State.IsMember;
    var boot := s.racks[x].reference.boot;
    assert t.IsFenced(boot) == s.IsFenced(boot) && t.IsRetired(x) == s.IsRetired(x);
    hide State.IsFenced; hide State.IsRetired;
  }

  lemma RackWrittenReferrers(s: State, t: State, k: Id)
    requires RackWritten(s, t, k)
    ensures forall x | x in t.domains :: DomainSound(s, x) ==> DomainSound(t, x)
    ensures forall x | x in t.constraints :: ConstraintSound(s, x) ==> ConstraintSound(t, x)
  {
    hide Ascending;
    assert forall x :: s.IsMember(x) ==> t.IsMember(x);
  }

  lemma LinkKept(s: State, t: State, k: Id, l: Id)
    requires RackWritten(s, t, k) && l in s.links && l in t.links && LinkSound(s, l) && SameEnds(s.links[l], t.links[l])
    requires t.links[l].topologyEpoch != t.sc.topologyEpoch ==> LinkQuiet(t.links[l])
    ensures LinkSound(t, l)
  {
    hide LinkQuiet;
  }

  lemma RackWrittenFences(s: State, t: State, k: Id)
    requires RackWritten(s, t, k) && FencedSound(s) && RackSound(t, k)
    ensures FencedSound(t)
  {
    hide Ascending;
    forall f | f in t.sc.fenced && f.rack in t.racks && t.racks[f.rack].authoritative
      ensures t.racks[f.rack].reference.boot != f.boot
    {
      if f.rack == k { assert t.IsFenced(f.boot); }
    }
  }

  lemma RackWrittenBody(s: State, t: State, k: Id)
    requires BodySound(s) && RackWritten(s, t, k)
    requires |t.racks| <= MAX_RACKS && RackSound(t, k) && |t.links| <= MAX_LINKS
    requires WithdrawnSound(t) && Ascending(t.sc.retired, RetiredBefore)
    requires forall l | l in t.links :: LinkSound(t, l)
    ensures BodySound(t)
  {
    hide RackSound; hide LinkSound; hide DomainSound; hide ConstraintSound; hide WithdrawnSound; hide FencedSound;
    hide Ascending;
    RackWrittenReferrers(s, t, k);
    RackWrittenFences(s, t, k);
    forall x | x in t.racks ensures RackSound(t, x) { if x != k { OtherRacks(s, t, k, x); } }
    assert forall kind :: t.DomainIds(kind) == s.DomainIds(kind);
    hide RackWritten;
  }

  lemma SameWithdrawn(s: State, t: State, k: Id)
    requires WithdrawnSound(s) && RackWritten(s, t, k) && t.sc.withdrawn == s.sc.withdrawn
    requires if k in s.racks then t.racks[k].membership == s.racks[k].membership else !t.racks[k].membership.Withdrawn?
    ensures WithdrawnSound(t)
  {
    hide Ascending;
  }

  // ---- the lists that go with memberships -------------------------------------------------

  lemma {:induction false} WithoutAscends(xs: seq<Id>, x: Id)
    requires Ascending(xs, Before)
    ensures Ascending(Without(xs, x), Before) && forall y :: y in Without(xs, x) <==> y in xs && y != x
  {
    if xs != [] {
      WithoutAscends(xs[1..], x);
      assert xs == [xs[0]] + xs[1..];
      assert forall y | y in Without(xs[1..], x) :: Before(xs[0], y);
    }
  }

  lemma {:induction false} RemoveFirstAscends(xs: seq<Id>, x: Id)
    requires Ascending(xs, Before)
    ensures Ascending(RemoveFirst(xs, x), Before) && forall y :: y in RemoveFirst(xs, x) <==> y in xs && y != x
  {
    if xs != [] {
      assert xs == [xs[0]] + xs[1..];
      Irreflexive(xs[0]);
      RemoveFirstAscends(xs[1..], x);
      assert forall y | y in RemoveFirst(xs[1..], x) :: Before(xs[0], y);
    }
  }

  lemma WithdrawnAfterAscends(xs: seq<Id>, rack: Id, target: Membership)
    requires Ascending(xs, Before)
    ensures var ys := WithdrawnAfter(xs, rack, target);
      Ascending(ys, Before) && forall y :: y in ys <==> if y == rack then target.Withdrawn? else y in xs
  {
    if !target.Withdrawn? {
      RemoveFirstAscends(xs, rack);
    } else if rack !in xs {
      TextIsOrdered();
      SortAdds(xs, rack, Before);
      forall i | 0 <= i < |xs| ensures Comparable(xs[i], rack, Before) { Trichotomy(xs[i], rack); }
      SortIsStrict(xs + [rack], Before);
    }
  }

  lemma RetiredAfterAscends(s: State, now: Timestamp, req: Request, rack: Id, generation: u64)
    requires Ascending(s.sc.retired, RetiredBefore)
    ensures Ascending(RetiredAfter(s, now, req, rack, generation), RetiredBefore)
    ensures forall x | x != rack ::
      (exists r | r in RetiredAfter(s, now, req, rack, generation) :: r.rack == x) == s.IsRetired(x)
  {
    if !s.IsRetired(rack) {
      var entry := RetiredIdentity(rack, generation, now, req.reason);
      RetiredIsOrdered();
      SortAdds(s.sc.retired, entry, RetiredBefore);
      forall i | 0 <= i < |s.sc.retired| ensures Comparable(s.sc.retired[i], entry, RetiredBefore) {
        Trichotomy(s.sc.retired[i].rack, rack);
      }
      SortIsStrict(s.sc.retired + [entry], RetiredBefore);
    }
  }

  lemma AdmissionWithdraws(s: State, t: State, k: Id)
    requires WithdrawnSound(s) && k in t.racks && t.racks == s.racks[k := t.racks[k]] && t.racks[k].membership.Active?
    requires t.sc.withdrawn == Without(s.sc.withdrawn, k)
    ensures WithdrawnSound(t)
  {
    WithoutAscends(s.sc.withdrawn, k);
    hide Ascending; hide Without;
  }

  lemma ExclusionWithdraws(s: State, t: State, k: Id)
    requires WithdrawnSound(s) && k in t.racks && t.racks == s.racks[k := t.racks[k]]
    requires t.sc.withdrawn == WithdrawnAfter(s.sc.withdrawn, k, t.racks[k].membership)
    ensures WithdrawnSound(t)
  {
    WithdrawnAfterAscends(s.sc.withdrawn, k, t.racks[k].membership);
    hide Ascending; hide WithdrawnAfter;
  }

  // ---- rack mutations ---------------------------------------------------------------------

  /** Links keep their ends; only what they claim may change. */
  predicate EndsKept(s: State, t: State) {
    t.links.Keys == s.links.Keys && forall l | l in s.links :: SameEnds(s.links[l], t.links[l])
  }

  predicate QuietKept(t: State) {
    forall l | l in t.links && t.links[l].topologyEpoch != t.sc.topologyEpoch :: LinkQuiet(t.links[l])
  }

  lemma LinksSoundExactly(s: State, t: State, k: Id)
    requires BodySound(s) && RackWritten(s, t, k) && EndsKept(s, t)
    ensures (forall l | l in t.links :: LinkSound(t, l)) <==> QuietKept(t)
  {
    hide RackSound; hide DomainSound; hide ConstraintSound; hide WithdrawnSound; hide FencedSound; hide Ascending;
    hide LinkQuiet; hide SameEnds; hide RackWritten;
    if QuietKept(t) {
      forall l | l in t.links ensures LinkSound(t, l) {
        assert LinkSound(s, l);
        hide LinkSound;
        LinkKept(s, t, k, l);
      }
    } else {
      var l :| l in t.links && t.links[l].topologyEpoch != t.sc.topologyEpoch && !LinkQuiet(t.links[l]);
      assert !LinkSound(t, l);
    }
  }

  /** The written record, the number of racks and the quiet links are all that is left to look at. */
  lemma WriteExact(s: State, t: State, k: Id)
    requires BodySound(s) && RackWritten(s, t, k) && EndsKept(s, t) && !t.sc.lifecycle.Retired?
    requires WithdrawnSound(t) && Ascending(t.sc.retired, RetiredBefore)
    ensures Clean(t) <==> RackSound(t, k) && QuietKept(t) && (k !in s.racks ==> |s.racks| < MAX_RACKS)
  {
    CountAfter(s.racks, k, t.racks[k]);
    LinksSoundExactly(s, t, k);
    assert |t.links| == |t.links.Keys| == |s.links|;
    hide LinkSound; hide DomainSound; hide ConstraintSound; hide WithdrawnSound; hide FencedSound; hide Ascending;
    hide QuietKept; hide EndsKept; hide RackSound;
    if RackSound(t, k) && QuietKept(t) && |t.racks| <= MAX_RACKS { RackWrittenBody(s, t, k); }
  }

  lemma SameLinksQuiet(s: State, t: State)
    requires BodySound(s) && t.links == s.links && t.sc.topologyEpoch == s.sc.topologyEpoch
    ensures EndsKept(s, t) && QuietKept(t)
  {
    hide RackSound; hide DomainSound; hide ConstraintSound; hide WithdrawnSound; hide FencedSound; hide Ascending;
    forall l | l in t.links && t.links[l].topologyEpoch != t.sc.topologyEpoch ensures LinkQuiet(t.links[l]) {
      assert LinkSound(s, l);
    }
  }

  lemma RackWriteExact(s: State, t: State, k: Id)
    requires BodySound(s) && RackWritten(s, t, k) && t.links == s.links && !t.sc.lifecycle.Retired?
    requires WithdrawnSound(t) && Ascending(t.sc.retired, RetiredBefore)
    ensures Clean(t) <==> RackSound(t, k) && (k !in s.racks ==> |s.racks| < MAX_RACKS)
  {
    hide BodySound; hide WithdrawnSound; hide Ascending; hide QuietKept; hide EndsKept; hide RackSound; hide Clean;
    SameLinksQuiet(s, t);
    WriteExact(s, t, k);
  }

  lemma CountAfter<V>(m: map<Id, V>, k: Id, v: V)
    ensures |m[k := v]| == |m| + if k in m then 0 else 1
  {
    assert m[k := v].Keys == m.Keys + {k};
  }

  lemma RegisterExact(cfg: Config, s: State, req: Request)
    requires Wired(s) && BodySound(s) && s.Declared() && !s.sc.lifecycle.Retired? && ApplyRegister(cfg, s, req).Changed?
    ensures Clean(ApplyRegister(cfg, s, req).next) <==> |s.racks| < MAX_RACKS
  {
    hide LinkSound; hide DomainSound; hide ConstraintSound; hide FencedSound; hide Clean; hide Ascending;
    hide WithdrawnSound; hide Without; hide CountsSound;
    hide ReferencesResolve; hide AuthorityJustified; hide RetirementExact;
    var t, k := ApplyRegister(cfg, s, req).next, req.Subject();
    assert RackWritten(s, t, k);
    SameWithdrawn(s, t, k);
    RackWriteExact(s, t, k);
  }

  lemma AddExact(cfg: Config, now: Timestamp, s: State, req: Request)
    requires Wired(s) && BodySound(s) && s.Declared() && !s.sc.lifecycle.Retired? && ApplyAdd(cfg, now, s, req).Changed?
    ensures Clean(ApplyAdd(cfg, now, s, req).next) <==> AddAcceptable(now, s, req)
  {
    hide LinkSound; hide DomainSound; hide ConstraintSound; hide FencedSound; hide Clean; hide Ascending;
    hide WithdrawnSound; hide Without; hide CountsSound;
    hide ReferencesResolve; hide AuthorityJustified; hide RetirementExact; hide ValidateBoot; hide RepublishGate;
    hide SortUnique;
    var t, k := ApplyAdd(cfg, now, s, req).next, req.reference.rack;
    assert RackWritten(s, t, k);
    AdmissionWithdraws(s, t, k);
    RackWriteExact(s, t, k);
  }

  lemma UpdateExact(s: State, req: Request)
    requires Wired(s) && BodySound(s) && s.Declared() && !s.sc.lifecycle.Retired? && ApplyUpdate(s, req).Changed?
    ensures Clean(ApplyUpdate(s, req).next) <==> UpdateAcceptable(s, req)
  {
    hide LinkSound; hide DomainSound; hide ConstraintSound; hide FencedSound; hide Clean; hide Ascending;
    hide WithdrawnSound; hide Without; hide CountsSound;
    hide ReferencesResolve; hide AuthorityJustified; hide RetirementExact; hide ValidateBoot;
    var t, k := ApplyUpdate(s, req).next, req.Subject();
    assert RackSound(s, k);
    assert RackWritten(s, t, k);
    SameWithdrawn(s, t, k);
    RackWriteExact(s, t, k);
  }

  lemma RecoverExact(s: State, req: Request)
    requires Wired(s) && BodySound(s) && s.Declared() && !s.sc.lifecycle.Retired? && ApplyRecover(s, req).Changed?
    ensures Clean(ApplyRecover(s, req).next) <==>
      |req.reference.endpoints| <= MAX_RACK_ENDPOINTS && |req.reference.hints| <= MAX_FAILURE_DOMAIN_REFS
  {
    hide LinkSound; hide DomainSound; hide ConstraintSound; hide FencedSound; hide Clean; hide Ascending;
    hide WithdrawnSound; hide Without; hide CountsSound;
    hide ReferencesResolve; hide AuthorityJustified; hide RetirementExact;
    var t, k := ApplyRecover(s, req).next, RecoverySubject(req);
    assert RackSound(s, k);
    assert RackWritten(s, t, k);
    AdmissionWithdraws(s, t, k);
    RackWriteExact(s, t, k);
  }

  lemma MembershipClean(now: Timestamp, s: State, req: Request, target: Membership)
    requires Wired(s) && BodySound(s) && s.Declared() && !s.sc.lifecycle.Retired?
    requires ApplyMembership(now, s, req, target).Changed?
      && (target.Unavailable? || target.Withdrawn? || target.Retired?)
    ensures Clean(ApplyMembership(now, s, req, target).next)
  {
    hide LinkSound; hide DomainSound; hide ConstraintSound; hide FencedSound; hide Clean; hide Ascending;
    hide WithdrawnSound; hide Without; hide CountsSound;
    hide ReferencesResolve; hide AuthorityJustified; hide RetirementExact; hide ValidateBoot;
    hide WithdrawnAfter; hide RetiredAfter;
    var t, k := ApplyMembership(now, s, req, target).next, req.Subject();
    assert RackSound(s, k);
    RetiredAfterAscends(s, now, req, k, s.racks[k].reference.generation);
    assert RackWritten(s, t, k);
    ExclusionWithdraws(s, t, k);
    RackWriteExact(s, t, k);
  }

  // ---- evidence ---------------------------------------------------------------------------

  lemma ReportQuietExactly(s: State, req: Request, t: State)
    requires BodySound(s) && !req.reachability.Unknown? && t.sc.topologyEpoch == s.sc.topologyEpoch
    requires t.links == ReportedLinks(req, req.Subject(), s.links)
    ensures EndsKept(s, t) && (QuietKept(t) <==> ReportStaysQuiet(s, req))
  {
    hide RackSound; hide DomainSound; hide ConstraintSound; hide WithdrawnSound; hide FencedSound; hide Ascending;
    hide CountsSound;
    forall l | l in s.links && s.links[l].topologyEpoch != s.sc.topologyEpoch
      ensures LinkQuiet(t.links[l]) <==>
        (s.links[l].Touches(req.Subject()) ==>
           req.evidence.RequiresRevalidation() && req.reachability.RevalidationRequired?)
    {
      assert LinkSound(s, l);
    }
  }

  lemma HealthExact(s: State, req: Request)
    requires Wired(s) && BodySound(s) && s.Declared() && !s.sc.lifecycle.Retired? && ApplyHealth(s, req).Changed?
    ensures Clean(ApplyHealth(s, req).next) <==> HealthAcceptable(s, req)
  {
    hide LinkSound; hide DomainSound; hide ConstraintSound; hide FencedSound; hide Clean; hide Ascending;
    hide WithdrawnSound; hide CountsSound; hide ReferencesResolve; hide AuthorityJustified; hide RetirementExact;
    hide ValidateBoot; hide ReportedLinks; hide QuietKept; hide EndsKept; hide ReportStaysQuiet; hide RecordsPlaced;
    var t, k := ApplyHealth(s, req).next, req.Subject();
    assert RackSound(s, k);
    assert RackWritten(s, t, k);
    SameWithdrawn(s, t, k);
    if req.reachability.Unknown? { SameLinksQuiet(s, t); } else { ReportQuietExactly(s, req, t); }
    WriteExact(s, t, k);
    HealthRackExact(s, t, req);
  }

  lemma HealthRackExact(s: State, t: State, req: Request)
    requires req.Subject() in s.racks && RackSound(s, req.Subject()) && RackWritten(s, t, req.Subject())
    requires t.racks[req.Subject()] == Mutations.Reported(s, req, s.racks[req.Subject()])
    requires !s.IsRetired(req.Subject()) && t.sc.retired == s.sc.retired
    ensures RackSound(t, req.Subject()) <==>
      (req.evidence.IsCurrent() ==> s.IsMember(req.Subject()) && !s.IsFenced(s.racks[req.Subject()].reference.boot))
  {
    var k := req.Subject();
    assert t.IsRetired(k) == s.IsRetired(k);
    assert t.IsFenced(s.racks[k].reference.boot) == s.IsFenced(s.racks[k].reference.boot);
    hide State.IsRetired; hide State.IsFenced;
  }

  lemma OrphanedLinksQuiet(s: State, t: State, k: Id)
    requires BodySound(s) && t.links == OrphanedLinks(k, s.links) && t.sc.topologyEpoch == s.sc.topologyEpoch
    ensures EndsKept(s, t) && QuietKept(t)
  {
    hide RackSound; hide DomainSound; hide ConstraintSound; hide WithdrawnSound; hide FencedSound; hide Ascending;
    forall l | l in t.links && t.links[l].topologyEpoch != t.sc.topologyEpoch ensures LinkQuiet(t.links[l]) {
      assert LinkSound(s, l);
    }
  }

  lemma WithdrawEvidenceClean(s: State, req: Request)
    requires Wired(s) && BodySound(s) && s.Declared() && !s.sc.lifecycle.Retired?
    requires ApplyWithdrawEvidence(s, req).Changed?
    ensures Clean(ApplyWithdrawEvidence(s, req).next)
  {
    hide LinkSound; hide DomainSound; hide ConstraintSound; hide FencedSound; hide Clean; hide Ascending;
    hide WithdrawnSound; hide CountsSound; hide ReferencesResolve; hide AuthorityJustified; hide RetirementExact;
    hide OrphanedLinks; hide QuietKept; hide EndsKept; hide RecordsPlaced; hide Ascii;
    var t, k := ApplyWithdrawEvidence(s, req).next, req.Subject();
    assert k in s.racks && RackSound(s, k);
    assert RackWritten(s, t, k);
    SameWithdrawn(s, t, k);
    if t.links == s.links { SameLinksQuiet(s, t); } else { OrphanedLinksQuiet(s, t, k); }
    WriteExact(s, t, k);
  }

  // ---- everything that leaves the racks alone ---------------------------------------------

  predicate RacksKept(s: State, t: State) {
    && t.racks == s.racks && t.sc.fenced == s.sc.fenced && t.sc.retired == s.sc.retired
    && t.sc.withdrawn == s.sc.withdrawn && t.sc.membershipGeneration == s.sc.membershipGeneration
  }

  lemma RacksKeptSound(s: State, t: State)
    requires BodySound(s) && RacksKept(s, t)
    ensures (forall k | k in t.racks :: RackSound(t, k))
    ensures WithdrawnSound(t) && FencedSound(t) && Ascending(t.sc.retired, RetiredBefore)
  {
    hide LinkSound; hide DomainSound; hide ConstraintSound; hide Ascending;
    forall k | k in t.racks ensures RackSound(t, k) {
      assert RackSound(s, k);
      var boot := s.racks[k].reference.boot;
      assert t.IsFenced(boot) == s.IsFenced(boot) && t.IsRetired(k) == s.IsRetired(k);
      hide State.IsFenced; hide State.IsRetired;
    }
  }

  /** The record clauses that remain once the racks are known to be untouched. */
  ghost predicate OthersSound(t: State) {
    && CountsSound(t)
    && (forall k | k in t.links :: LinkSound(t, k))
    && (forall k | k in t.domains :: DomainSound(t, k))
    && (forall k | k in t.constraints :: ConstraintSound(t, k))
  }

  lemma OthersExact(s: State, t: State)
    requires BodySound(s) && RacksKept(s, t) && !t.sc.lifecycle.Retired?
    ensures Clean(t) <==> OthersSound(t)
  {
    RacksKeptSound(s, t);
    hide RackSound; hide LinkSound; hide DomainSound; hide ConstraintSound; hide CountsSound; hide WithdrawnSound;
    hide FencedSound; hide Ascending;
  }

  lemma LinkStays(s: State, t: State, k: Id)
    requires t.racks == s.racks && k in s.links && k in t.links && t.links[k] == s.links[k] && LinkSound(s, k)
    requires t.sc.topologyEpoch == s.sc.topologyEpoch && s.sc.topologyGeneration <= t.sc.topologyGeneration
    requires forall d | d in s.domains :: d in t.domains
    ensures LinkSound(t, k)
  {
    hide LinkQuiet;
  }

  lemma DomainStays(s: State, t: State, k: DomainKey)
    requires t.racks == s.racks && k in s.domains && k in t.domains && t.domains[k] == s.domains[k] && DomainSound(s, k)
    requires s.sc.domainGenerations.Get(k.0) <= t.sc.domainGenerations.Get(k.0)
    ensures DomainSound(t, k)
  {
    hide Ascending;
  }

  lemma ConstraintStays(s: State, t: State, k: Id)
    requires t.racks == s.racks && k in s.constraints && k in t.constraints && t.constraints[k] == s.constraints[k]
    requires ConstraintSound(s, k)
    ensures ConstraintSound(t, k)
  {}

  lemma BodyOthers(s: State)
    requires BodySound(s)
    ensures OthersSound(s)
  {
    hide RackSound; hide LinkSound; hide DomainSound; hide ConstraintSound; hide CountsSound; hide WithdrawnSound;
    hide FencedSound; hide Ascending;
  }

  lemma DomainCount(s: State, t: State, key: DomainKey, d: Domain, kind: DomainKind)
    requires t.domains == s.domains[key := d]
    ensures |t.DomainIds(kind)| == |s.DomainIds(kind)| + if kind == key.0 && key !in s.domains then 1 else 0
  {
    var before := s.DomainIds(kind);
    if kind == key.0 && key !in s.domains {
      assert key.1 !in before && t.DomainIds(kind) == before + {key.1};
    } else {
      assert t.DomainIds(kind) == before;
    }
  }

  lemma CountsExact(s: State, t: State, key: DomainKey, d: Domain)
    requires t.domains == s.domains[key := d] && CountsSound(s)
    requires t.racks == s.racks && t.links == s.links && t.constraints == s.constraints
    ensures CountsSound(t) <==> (key !in s.domains ==> |s.DomainIds(key.0)| < MAX_DOMAINS_PER_CLASS)
  {
    hide State.DomainIds;
    forall kind: DomainKind
      ensures |t.DomainIds(kind)| == |s.DomainIds(kind)| + if kind == key.0 && key !in s.domains then 1 else 0
    {
      DomainCount(s, t, key, d, kind);
    }
  }

  lemma DomainExact(cfg: Config, s: State, kind: DomainKind, payload: Option<Domain>)
    requires BodySound(s) && !s.sc.lifecycle.Retired? && ApplyDomain(cfg, s, kind, payload).Changed?
    ensures Clean(ApplyDomain(cfg, s, kind, payload).next) <==> RoomFor(s, kind, payload)
  {
    hide LinkSound; hide ConstraintSound; hide Clean; hide BodySound; hide CountsSound; hide DomainSound;
    hide FirstRefusal; hide Sort; hide SortUnique; hide SameZero; hide Ascending; hide State.IsMember;
    var t, d := ApplyDomain(cfg, s, kind, payload).next, Normalized(kind, payload.value);
    var key := (kind, d.id);
    BodyOthers(s);
    OthersExact(s, t);
    CountsExact(s, t, key, t.domains[key]);
    forall k | k in t.links ensures LinkSound(t, k) { LinkStays(s, t, k); }
    forall k | k in t.constraints ensures ConstraintSound(t, k) { ConstraintStays(s, t, k); }
    forall k | k in t.domains ensures DomainSound(t, k) {
      if k == key { PublishedDomainIsSound(s, t, kind, payload.value); } else { DomainStays(s, t, k); }
    }
  }

  lemma PublishedDomainIsSound(s: State, t: State, kind: DomainKind, d: Domain)
    requires !PayloadGate(s, kind, d).Refuse? && t.racks == s.racks && (kind, d.id) in t.domains
    requires t.domains[(kind, d.id)] == Normalized(kind, d).(header := Stamped(s, d.header))
    requires d.header.generation <= t.sc.domainGenerations.Get(kind)
    ensures DomainSound(t, (kind, d.id))
  {
    hide FirstRefusal; hide Sort; hide SortUnique; hide Ascending; hide DomainGenerations.Get;
    SortUniqueIds(d.racks);
    assert forall r | r in d.racks :: s.IsMember(r);
  }

  lemma ConstraintPasses(cfg: Config, s: State, payload: Option<Constraint>)
    requires ApplyConstraint(cfg, s, payload).Changed?
    ensures payload.Some? && forall r | r in payload.value.racks :: s.IsMember(r)
    ensures var t, c := ApplyConstraint(cfg, s, payload).next, payload.value;
      && RacksKept(s, t) && t.sc == s.sc.(constraintGeneration := t.sc.constraintGeneration)
      && c.id in t.constraints && t.constraints[c.id].racks == SortUnique(c.racks, Before)
      && t == s.(sc := t.sc, constraints := s.constraints[c.id := t.constraints[c.id]])
  {
    hide SortUnique; hide State.IsMember;
  }

  lemma ConstraintExact(cfg: Config, s: State, payload: Option<Constraint>)
    requires BodySound(s) && !s.sc.lifecycle.Retired? && ApplyConstraint(cfg, s, payload).Changed?
    ensures Clean(ApplyConstraint(cfg, s, payload).next) <==>
      (payload.Some? && payload.value.id !in s.constraints ==> |s.constraints| < MAX_CONSTRAINTS)
  {
    hide LinkSound; hide Clean; hide BodySound; hide DomainSound; hide SortUnique; hide Ascending; hide ApplyConstraint;
    ConstraintPasses(cfg, s, payload);
    var t, id := ApplyConstraint(cfg, s, payload).next, payload.value.id;
    BodyOthers(s);
    OthersExact(s, t);
    CountAfter(s.constraints, id, t.constraints[id]);
    assert forall kind :: t.DomainIds(kind) == s.DomainIds(kind);
    SortUniqueIds(payload.value.racks);
    forall k | k in t.links ensures LinkSound(t, k) { LinkStays(s, t, k); }
    forall k | k in t.domains ensures DomainSound(t, k) { DomainStays(s, t, k); }
    forall k | k in t.constraints ensures ConstraintSound(t, k) { if k != id { ConstraintStays(s, t, k); } }
  }

  lemma OtherLinksStay(s: State, t: State, k: Id)
    requires OthersSound(s) && t.racks == s.racks && t.domains == s.domains && t.constraints == s.constraints
    requires t.sc.topologyEpoch == s.sc.topologyEpoch && s.sc.topologyGeneration <= t.sc.topologyGeneration
    requires t.sc.domainGenerations == s.sc.domainGenerations
    requires forall l | l in t.links && l != k :: l in s.links && t.links[l] == s.links[l]
    ensures OthersSound(t) <==> |t.links| <= MAX_LINKS && (k in t.links ==> LinkSound(t, k))
  {
    hide LinkSound; hide DomainSound; hide ConstraintSound;
    assert forall kind :: t.DomainIds(kind) == s.DomainIds(kind);
    forall l | l in t.links && l != k ensures LinkSound(t, l) { LinkStays(s, t, l); }
    forall d | d in t.domains ensures DomainSound(t, d) { DomainStays(s, t, d); }
    forall c | c in t.constraints ensures ConstraintSound(t, c) { ConstraintStays(s, t, c); }
  }

  lemma LinkPasses(cfg: Config, s: State, payload: Option<Link>)
    requires ApplyLink(cfg, s, payload).Changed?
    ensures payload.Some? && LinkGate(cfg, s, payload).Pass?
    ensures var t := ApplyLink(cfg, s, payload).next;
      && RacksKept(s, t) && t.sc.topologyEpoch == s.sc.topologyEpoch && t.sc.domainGenerations == s.sc.domainGenerations
      && s.sc.topologyGeneration <= t.sc.topologyGeneration && t.sc.lifecycle == s.sc.lifecycle
      && t == s.(sc := t.sc, links := s.links[payload.value.id := PublishedLink(s, payload.value)])
  {
    hide SortUnique; hide PublishedLink; hide State.IsMember;
  }

  lemma LinkExact(cfg: Config, s: State, payload: Option<Link>)
    requires BodySound(s) && !s.sc.lifecycle.Retired? && ApplyLink(cfg, s, payload).Changed?
    ensures Clean(ApplyLink(cfg, s, payload).next)
      <==> (payload.Some? && payload.value.id !in s.links ==> |s.links| < MAX_LINKS)
  {
    hide Clean; hide BodySound; hide OthersSound; hide LinkSound; hide LinkGate; hide PublishedLink; hide ApplyLink;
    LinkPasses(cfg, s, payload);
    var t, id := ApplyLink(cfg, s, payload).next, payload.value.id;
    BodyOthers(s);
    OthersExact(s, t);
    OtherLinksStay(s, t, id);
    CountAfter(s.links, id, PublishedLink(s, payload.value));
    OldLinksFit(s);
    PublishedLinkIsSound(cfg, s, t, payload.value);
  }

  lemma PublishedLinkIsSound(cfg: Config, s: State, t: State, l: Link)
    requires LinkGate(cfg, s, Some(l)).Pass? && t.racks == s.racks && t.domains == s.domains && l.id in t.links
    requires t.links[l.id] == PublishedLink(s, l) && t.sc.topologyEpoch == s.sc.topologyEpoch
    requires s.sc.topologyGeneration <= t.sc.topologyGeneration
    ensures LinkSound(t, l.id)
  {
    hide SortUnique; hide Ascending; hide LinkQuiet;
    SortUniqueIds(l.failureDomains);
  }

  lemma OldLinksFit(s: State)
    requires OthersSound(s)
    ensures |s.links| <= MAX_LINKS
  {}

  lemma WithdrawLinkClean(s: State, id: Option<Id>)
    requires BodySound(s) && !s.sc.lifecycle.Retired? && ApplyWithdrawLink(s, id).Changed?
    ensures Clean(ApplyWithdrawLink(s, id).next)
  {
    hide Clean; hide BodySound; hide OthersSound; hide LinkSound;
    var t := ApplyWithdrawLink(s, id).next;
    BodyOthers(s);
    OthersExact(s, t);
    OtherLinksStay(s, t, id.value);
    OldLinksFit(s);
    assert t.links.Keys == s.links.Keys - {id.value};
    assert |t.links| <= |s.links|;
  }

  lemma SilencedLink(s: State, t: State, k: Id)
    requires t.racks == s.racks && t.domains == s.domains && k in s.links && LinkSound(s, k) && k in t.links
    requires t.links[k] == s.links[k].Silenced() && s.sc.topologyGeneration <= t.sc.topologyGeneration
    ensures LinkSound(t, k)
  {}

  lemma SupersedeClean(now: Timestamp, s: State, req: Request)
    requires BodySound(s) && !s.sc.lifecycle.Retired? && ApplySupersede(now, s, req).Changed?
    ensures Clean(ApplySupersede(now, s, req).next)
  {
    hide Clean; hide BodySound; hide LinkSound; hide DomainSound; hide ConstraintSound; hide Ascii;
    var t := ApplySupersede(now, s, req).next;
    BodyOthers(s);
    OthersExact(s, t);
    assert t.links.Keys == s.links.Keys;
    assert |t.links| == |t.links.Keys| == |s.links|;
    assert forall kind :: t.DomainIds(kind) == s.DomainIds(kind);
    forall k | k in t.links ensures LinkSound(t, k) { SilencedLink(s, t, k); }
    forall d | d in t.domains ensures DomainSound(t, d) { DomainStays(s, t, d); }
    forall c | c in t.constraints ensures ConstraintSound(t, c) { ConstraintStays(s, t, c); }
  }

  // ---- the cluster itself -----------------------------------------------------------------

  /** Scalars outside the record clauses decide nothing but the retirement clause. */
  lemma ScalarExact(s: State, t: State)
    requires BodySound(s) && RecordsFramed(s, t)
    ensures Clean(t) <==> (t.sc.lifecycle.Retired? ==> forall k | k in s.racks :: !s.racks[k].authoritative)
  {
    hide BodySound;
    FramedBodyStaysSound(s, t);
  }

  lemma DemotedRack(s: State, t: State, k: Id)
    requires k in s.racks && k in t.racks && RackSound(s, k) && t.sc == s.sc.(lifecycle := t.sc.lifecycle)
    requires t.racks[k] == s.racks[k] || (exists reason :: t.racks[k] == Demoted(s.racks[k], reason))
    ensures RackSound(t, k)
  {
    var boot := s.racks[k].reference.boot;
    assert t.IsFenced(boot) == s.IsFenced(boot) && t.IsRetired(k) == s.IsRetired(k);
    hide State.IsFenced; hide State.IsRetired;
  }

  lemma DemotedLists(s: State, t: State, reason: Text)
    requires BodySound(s) && t.sc == s.sc.(lifecycle := t.sc.lifecycle) && t.links == s.links
    requires t.racks == DemotedRacks(s.racks, reason) && t.domains == s.domains && t.constraints == s.constraints
    ensures CountsSound(t) && WithdrawnSound(t) && FencedSound(t)
  {
    hide RackSound; hide LinkSound; hide DomainSound; hide ConstraintSound; hide Ascending;
    assert t.racks.Keys == s.racks.Keys;
    assert |t.racks| == |t.racks.Keys| == |s.racks|;
    assert forall kind :: t.DomainIds(kind) == s.DomainIds(kind);
  }

  lemma DemotedReferrers(s: State, t: State, reason: Text)
    requires BodySound(s) && t.sc == s.sc.(lifecycle := t.sc.lifecycle) && t.links == s.links
    requires t.racks == DemotedRacks(s.racks, reason) && t.domains == s.domains && t.constraints == s.constraints
    ensures forall k | k in t.links :: LinkSound(t, k)
    ensures forall k | k in t.domains :: DomainSound(t, k)
    ensures forall k | k in t.constraints :: ConstraintSound(t, k)
  {
    hide RackSound; hide Ascending; hide CountsSound; hide WithdrawnSound; hide FencedSound;
    assert forall x :: t.IsMember(x) == s.IsMember(x);
    forall k | k in t.links ensures LinkSound(t, k) { assert LinkSound(s, k); }
    forall k | k in t.domains ensures DomainSound(t, k) { assert DomainSound(s, k); }
    forall k | k in t.constraints ensures ConstraintSound(t, k) { assert ConstraintSound(s, k); }
  }

  lemma RetireClusterClean(s: State)
    requires BodySound(s) && ApplyRetireCluster(s).Changed?
    ensures Clean(ApplyRetireCluster(s).next)
  {
    hide LinkSound; hide DomainSound; hide ConstraintSound; hide Ascending; hide CountsSound; hide WithdrawnSound;
    hide FencedSound; hide Ascii; hide RackSound;
    var t, reason := ApplyRetireCluster(s).next, Ascii("cluster_retired");
    DemotedLists(s, t, reason);
    DemotedReferrers(s, t, reason);
    forall k | k in t.racks ensures RackSound(t, k) && !t.racks[k].authoritative { DemotedRack(s, t, k); }
  }

  // ---- the exact condition ----------------------------------------------------------------

  lemma CleanExactly(cfg: Config, now: Timestamp, s: State, req: Request)
    requires Wired(s) && BodySound(s) && s.Declared() && Apply(cfg, now, s, req).Changed?
    ensures Clean(Apply(cfg, now, s, req).next) <==> Acceptable(now, s, req)
  {
    hide BodySound; hide Wired; hide Clean; hide AddAcceptable; hide UpdateAcceptable; hide HealthAcceptable;
    hide RoomFor;
    hide ApplyRegister; hide ApplyAdd; hide ApplyUpdate; hide ApplyMembership; hide ApplyRecover; hide ApplyLink;
    hide ApplyWithdrawLink; hide ApplyDomain; hide ApplyConstraint; hide ApplyHealth; hide ApplyWithdrawEvidence;
    hide ApplySupersede; hide ApplyRetireCluster;
    match req.kind
    case Unknown =>
    case DeclareCluster => ScalarExact(s, ApplyDeclare(now, s, req).next);
    case RegisterPublisher => RegisterExact(cfg, s, req);
    case AddRack => AddExact(cfg, now, s, req);
    case UpdateRackGeneration => UpdateExact(s, req);
    case MarkUnavailable => MembershipClean(now, s, req, Membership.Unavailable);
    case WithdrawRack => MembershipClean(now, s, req, Membership.Withdrawn);
    case RetireRack => MembershipClean(now, s, req, Membership.Retired);
    case RecoverRack => RecoverExact(s, req);
    case PublishLink => LinkExact(cfg, s, req.link);
    case WithdrawLink => WithdrawLinkClean(s, req.linkId);
    case PublishDomain(kind) => DomainExact(cfg, s, kind, req.domain);
    case PublishConstraint => ConstraintExact(cfg, s, req.constraint);
    case PublishHealth => HealthExact(s, req);
    case WithdrawEvidence => WithdrawEvidenceClean(s, req);
    case SupersedeTopology => SupersedeClean(now, s, req);
    case PublishSnapshot => ScalarExact(s, ApplySnapshot(s).next);
    case Revalidate => ScalarExact(s, s);
    case RetireCluster => RetireClusterClean(s);
  }

  /** A mutation of a sound state is turned away by the checker if and only if it is not acceptable. */
  lemma CheckerRejectsExactly(cfg: Config, now: Timestamp, s: State, req: Request)
    requires Inv(s) && Apply(cfg, now, s, req).Changed?
    ensures Sound(Settle(Apply(cfg, now, s, req).next)) <==> Acceptable(now, s, req)
  {
    hide Apply; hide Inv; hide Sound; hide Settle; hide Acceptable; hide BodySound; hide Wired; hide Paced; hide Clean;
    if s.Declared() {
      InvParts(s);
      CandidateIsSoundExactly(cfg, now, s, req);
      CleanExactly(cfg, now, s, req);
    } else {
      FirstDeclarationIsSound(cfg, now, s, req);
    }
  }

  lemma FirstDeclarationIsSound(cfg: Config, now: Timestamp, s: State, req: Request)
    requires Inv(s) && !s.Declared() && Apply(cfg, now, s, req).Changed?
    ensures Sound(Settle(Apply(cfg, now, s, req).next)) && Acceptable(now, s, req)
    ensures Apply(cfg, now, s, req).next == FirstDeclaration(now, s, req) && req.kind.DeclareCluster?
  {
    hide EveryClauseHolds; hide Evaluate; hide ReferencesResolve; hide RetirementExact; hide AuthorityJustified;
    hide RecordsPlaced; hide IsIdentity; hide Ascii;
    var t := FirstDeclaration(now, s, req);
    assert Apply(cfg, now, s, req) == Changed(t);
    assert Settle(t).Blank();
  }

  /** The whole commit path: what is saved, if the store takes it. */
  lemma ProposedExactly(cfg: Config, now: Timestamp, s: State, req: Request)
    requires Inv(s)
    ensures Proposal(cfg, now, s, req).Some? <==>
      Apply(cfg, now, s, req).Changed? && Acceptable(now, s, req) && (s.Declared() ==> s.sc.generation < MAX_U64)
  {
    if Apply(cfg, now, s, req).Changed? {
      CheckerRejectsExactly(cfg, now, s, req);
      if s.Declared() {
        CandidateGeneration(cfg, now, s, req);
      } else {
        FirstDeclarationIsSound(cfg, now, s, req);
      }
    }
    hide Apply; hide Sound; hide Settle; hide Acceptable; hide Inv;
  }

  lemma CandidateGeneration(cfg: Config, now: Timestamp, s: State, req: Request)
    requires Inv(s) && s.Declared() && Apply(cfg, now, s, req).Changed?
    ensures Apply(cfg, now, s, req).next.sc.generation == s.sc.generation
  {
    hide Apply; hide Inv; hide Step; hide Wired; hide BodySound; hide Paced;
    InvParts(s);
    ApplySteps(cfg, now, s, req);
    StepScalars(s, Apply(cfg, now, s, req).next);
  }
}
