/** The transactional commit path: commit, fence, and what both keep. */
module Engine {
  import opened Foundation
  import opened TextOrder
  import opened Sorting
  import opened EvidenceStamps
  import opened Records
  import opened Readiness
  import opened Invariants
  import opened Mutations
  import opened Preservation

  datatype Outcome = Accepted | Unchanged | RevalidationNeeded | Rejected(reason: Reason)

  datatype Committed = Committed(outcome: Outcome, state: State)

  /** The generation bump and the timestamp that follow the invariant check. */
  function Sealed(now: Timestamp, t: State): State
    requires t.sc.generation < MAX_U64
  {
    t.(sc := t.sc.(generation := t.sc.generation + 1, lastMutationAt := now))
  }

  /** Undo restores everything but the cluster identity, which the scalar snapshot does not hold. */
  function RolledBack(s: State, t: State): State { s.(id := t.id) }

  /** The candidate that would be saved, if the mutation gets that far. */
  ghost function Proposal(cfg: Config, now: Timestamp, s: State, req: Request): (r: Option<State>)
    ensures r.Some? ==> Apply(cfg, now, s, req).Changed?
  {
    match Apply(cfg, now, s, req)
    case Changed(t) =>
      if Sound(Settle(t)) && t.sc.generation < MAX_U64 then Some(Sealed(now, Settle(t))) else None
    case _ => None
  }

  /** apply_and_commit. `saved` tells whether the store took the proposal. */
  ghost function Commit(cfg: Config, now: Timestamp, s: State, req: Request, saved: bool): Committed {
    match Apply(cfg, now, s, req)
    case Refused(reason) => Committed(Rejected(reason), s)
    case NoChange => Committed(Unchanged, s)
    case Incomplete => Committed(RevalidationNeeded, s)
    case Changed(t) =>
      if !Sound(Settle(t)) then Committed(Rejected(InvariantViolation), RolledBack(s, t))
      else if t.sc.generation == MAX_U64 then Committed(Rejected(LimitExceeded), RolledBack(s, t))
      else if !saved then Committed(Rejected(PersistenceFailed), RolledBack(s, t))
      else Committed(Accepted, Sealed(now, Settle(t)))
  }

  // ---- the identity that undo does not restore -------------------------------------------

  /** The identity after a request that did not end accepted. */
  function IdentityAfter(s: State, req: Request): Id {
    if !s.Declared() && req.kind.DeclareCluster? && IsIdentity(req.cluster) then req.cluster else s.id
  }

  lemma AppliedIdentity(cfg: Config, now: Timestamp, s: State, req: Request)
    ensures Apply(cfg, now, s, req).Changed? ==> Apply(cfg, now, s, req).next.id == IdentityAfter(s, req)
    ensures !Apply(cfg, now, s, req).Changed? ==> IdentityAfter(s, req) == s.id
  {
    hide IsIdentity; hide RegisterGate; hide AddGate; hide UpdateGate; hide MembershipGate; hide RecoverGate;
    hide LinkGate;
    hide DomainGate; hide ConstraintGate; hide HealthGate; hide WithdrawGate; hide Selector; hide Registration;
    hide Ascii;
    hide Admission; hide Advanced; hide Excluded; hide Recovered; hide Mutations.Reported; hide Orphaned;
    hide DemotedRacks;
    hide ReportedLinks; hide OrphanedLinks; hide SilencedLinks; hide PublishedLink; hide Normalized; hide TopologyMoved;
    hide EvidenceMoved; hide AdvanceAggregate; hide FreshlyHeld; hide SortUnique; hide Canonicalize;
  }

  /** Whatever does not end accepted leaves the state as it was, with this identity. */
  lemma RollbackRestores(cfg: Config, now: Timestamp, s: State, req: Request, saved: bool)
    ensures var c := Commit(cfg, now, s, req, saved);
      !c.outcome.Accepted? ==> c.state == s.(id := IdentityAfter(s, req))
  {
    hide Apply; hide Sound; hide Settle; hide IdentityAfter;
    AppliedIdentity(cfg, now, s, req);
  }

  /** Exact rollback fails for the first declaration of a cluster under another name, and for nothing else. */
  lemma IdentityIsLostExactly(cfg: Config, now: Timestamp, s: State, req: Request)
    ensures Commit(cfg, now, s, req, false).state != s <==>
      !s.Declared() && req.kind.DeclareCluster? && IsIdentity(req.cluster) && req.cluster != s.id
  {
    hide Apply; hide Sound; hide Settle; hide IsIdentity;
    RollbackRestores(cfg, now, s, req, false);
    assert !Commit(cfg, now, s, req, false).outcome.Accepted?;
    hide Commit;
  }

  // ---- fencing ---------------------------------------------------------------------------

  predicate Owns(s: State, boot: Id) {
    || (exists k | k in s.racks :: s.racks[k].reference.boot == boot)
    || (exists k | k in s.links :: s.links[k].boot == Some(boot))
  }

  function FencedRacks(racks: map<Id, RackRecord>, boot: Id, reason: Text): map<Id, RackRecord> {
    map k | k in racks :: if racks[k].reference.boot == boot then Orphaned(racks[k], reason) else racks[k]
  }

  function FencedLinks(links: map<Id, Link>, boot: Id): map<Id, Link> {
    map k | k in links :: if links[k].boot == Some(boot) then links[k].Silenced() else links[k]
  }

  function RacksOf(racks: map<Id, RackRecord>, boot: Id): set<Id> {
    set k | k in racks && racks[k].reference.boot == boot
  }

  /** The first rack published by the incarnation, in identity order. */
  ghost function FenceSubject(racks: map<Id, RackRecord>, boot: Id): Id {
    if RacksOf(racks, boot) == {} then Ascii("unknown-rack") else Least(RacksOf(racks, boot))
  }

  ghost function FencedList(s: State, boot: Id, reason: Text, at: Timestamp): seq<FencedAuthority> {
    if s.IsFenced(boot) then s.sc.fenced
    else Sort(s.sc.fenced + [FencedAuthority(boot, FenceSubject(s.racks, boot), reason, at)], FencedBefore)
  }

  ghost function Fenced(s: State, boot: Id, reason: Text, at: Timestamp): State {
    s.(sc := s.sc.(fenced := FencedList(s, boot, reason, at)),
       racks := FencedRacks(s.racks, boot, reason), links := FencedLinks(s.links, boot))
  }

  /** The fenced state that would be saved. */
  ghost function FenceProposal(s: State, boot: Id, reason: Text, at: Timestamp, now: Timestamp): Option<State> {
    if !Owns(s, boot) || s.sc.generation == MAX_U64 || s.sc.healthGeneration == MAX_U64 then None
    else
      var t := Settle(Fenced(s, boot, reason, at));
      Some(Sealed(now, t.(sc := t.sc.(healthGeneration := t.sc.healthGeneration + 1))))
  }

  /** apply_fence. */
  ghost function Fence(s: State, boot: Id, reason: Text, at: Timestamp, now: Timestamp, saved: bool): State {
    var p := FenceProposal(s, boot, reason, at, now);
    if p.Some? && saved then p.value else s
  }

  // ---- commits keep the invariant --------------------------------------------------------

  /** The two states hold the same records, lists and record-level counters. */
  predicate RecordsFramed(s: State, t: State) {
    && t.racks == s.racks && t.links == s.links && t.domains == s.domains && t.constraints == s.constraints
    && t.sc.fenced == s.sc.fenced && t.sc.retired == s.sc.retired && t.sc.withdrawn == s.sc.withdrawn
    && t.sc.membershipGeneration == s.sc.membershipGeneration && t.sc.topologyEpoch == s.sc.topologyEpoch
    && t.sc.topologyGeneration == s.sc.topologyGeneration && t.sc.domainGenerations == s.sc.domainGenerations
  }

  lemma FramedRack(s: State, t: State, k: Id)
    requires RecordsFramed(s, t) && k in s.racks && RackSound(s, k)
    ensures RackSound(t, k)
  {
    var boot := s.racks[k].reference.boot;
    assert t.IsFenced(boot) == s.IsFenced(boot) && t.IsRetired(k) == s.IsRetired(k);
    hide State.IsFenced; hide State.IsRetired;
  }

  lemma FramedLink(s: State, t: State, k: Id)
    requires RecordsFramed(s, t) && k in s.links && LinkSound(s, k)
    ensures LinkSound(t, k)
  {}

  lemma FramedReferrers(s: State, t: State)
    requires RecordsFramed(s, t)
    ensures forall k | k in t.domains :: DomainSound(s, k) ==> DomainSound(t, k)
    ensures forall k | k in t.constraints :: ConstraintSound(s, k) ==> ConstraintSound(t, k)
  {
    hide Ascending;
    assert forall r :: t.IsMember(r) == s.IsMember(r);
  }

  lemma FramedLists(s: State, t: State)
    requires RecordsFramed(s, t) && CountsSound(s) && WithdrawnSound(s) && FencedSound(s)
    ensures CountsSound(t) && WithdrawnSound(t) && FencedSound(t)
  {
    hide Ascending;
    assert forall kind :: t.DomainIds(kind) == s.DomainIds(kind);
  }

  lemma FramedBodyStaysSound(s: State, t: State)
    requires RecordsFramed(s, t) && BodySound(s)
    ensures BodySound(t)
  {
    hide RackSound; hide LinkSound; hide DomainSound; hide ConstraintSound;
    hide CountsSound; hide WithdrawnSound; hide FencedSound; hide Ascending;
    forall k | k in t.racks ensures RackSound(t, k) { FramedRack(s, t, k); }
    forall k | k in t.links ensures LinkSound(t, k) { FramedLink(s, t, k); }
    FramedReferrers(s, t);
    FramedLists(s, t);
  }

  /** The bump after the check disturbs no clause of the checker. */
  lemma SealingKeepsSound(now: Timestamp, t: State)
    requires Sound(t) && t.sc.generation < MAX_U64
    ensures Sound(Sealed(now, t))
  {
    hide Satisfied; hide BodySound;
    var f := Sealed(now, t);
    if !t.Blank() {
      SameViewSamePredicates(t, f);
      FramedBodyStaysSound(t, f);
    }
  }

  /** Two states that differ only in lifecycle, cluster and health generation, and timestamps. */
  predicate SameWiring(s: State, t: State) {
    && t == s.(sc := s.sc.(lifecycle := t.sc.lifecycle, generation := t.sc.generation,
                           healthGeneration := t.sc.healthGeneration, lastMutationAt := t.sc.lastMutationAt))
    && (t.sc.generation == 0 <==> s.sc.generation == 0)
    && s.sc.healthGeneration <= t.sc.healthGeneration
  }

  lemma SameWiringKeepsWired(s: State, t: State)
    requires Wired(s) && SameWiring(s, t)
    ensures Wired(t)
  {
    assert forall r :: t.IsRetired(r) == s.IsRetired(r);
    assert forall r :: t.IsMember(r) == s.IsMember(r);
  }

  lemma FirstDeclarationIsWired(now: Timestamp, s: State, req: Request)
    requires Wired(s) && !s.Declared() && IsIdentity(req.cluster)
    ensures Wired(FirstDeclaration(now, s, req)) && FirstDeclaration(now, s, req).Declared()
  {}

  /** What the candidate of any request satisfies before the checker sees it. */
  lemma CandidateIsWired(cfg: Config, now: Timestamp, s: State, req: Request)
    requires Wired(s) && Apply(cfg, now, s, req).Changed?
    ensures Wired(Apply(cfg, now, s, req).next) && Apply(cfg, now, s, req).next.Declared()
  {
    hide Wired;
    if s.Declared() {
      ApplySteps(cfg, now, s, req);
      StepKeepsWired(s, Apply(cfg, now, s, req).next);
    } else {
      FirstDeclarationIsWired(now, s, req);
    }
  }

  lemma UndeclaredRename(s: State, id: Id)
    requires Inv(s) && (s.Declared() ==> id == s.id)
    ensures Inv(s.(id := id))
  {
    var t := s.(id := id);
    if s.Declared() { assert t == s; } else {
      EvaluationIsIdempotent(s, t);
      assert ReferencesResolve(t) && RetirementExact(t) && AuthorityJustified(t) && RecordsPlaced(t);
    }
  }

  lemma SealingKeepsInv(now: Timestamp, t: State)
    requires Wired(t) && t.Declared() && Sound(Settle(t)) && t.sc.generation < MAX_U64
    requires t.sc.membershipGeneration <= t.sc.generation && t.sc.topologyGeneration <= t.sc.generation
    ensures Inv(Sealed(now, Settle(t)))
  {
    hide Sound; hide ReferencesResolve; hide RetirementExact; hide RecordsPlaced; hide AuthorityJustified;
    var f := Sealed(now, Settle(t));
    SealingKeepsSound(now, Settle(t));
    assert SameWiring(t, f);
    SameWiringKeepsWired(t, f);
    assert SameView(t, f);
    EvaluationIsIdempotent(t, f);
  }

  lemma CommitKeepsInv(cfg: Config, now: Timestamp, s: State, req: Request, saved: bool)
    requires Inv(s)
    ensures Inv(Commit(cfg, now, s, req, saved).state)
  {
    hide Sound; hide Wired; hide Settled;
    if Apply(cfg, now, s, req).Changed? {
      var t := Apply(cfg, now, s, req).next;
      CandidateIsWired(cfg, now, s, req);
      if s.Declared() { ApplySteps(cfg, now, s, req); }
      if Commit(cfg, now, s, req, saved).outcome.Accepted? {
        SealingKeepsInv(now, t);
      } else {
        UndeclaredRename(s, t.id);
      }
    }
  }

  // ---- losing authority ------------------------------------------------------------------

  /** Nothing structural changes; whatever differs has only lost authority. */
  predicate QuietedRack(a: RackRecord, b: RackRecord) {
    && b.reference.rack == a.reference.rack && b.reference.generation == a.reference.generation
    && b.reference.endpoints == a.reference.endpoints && b.reference.hints == a.reference.hints
    && b.reference.boot == a.reference.boot
    && b.membership == a.membership && b.membershipGeneration == a.membershipGeneration
    && (b == a || (!b.authoritative && b.reference.currentness.RevalidationRequired?))
  }

  predicate QuietedDomain(a: Domain, b: Domain) {
    b.id == a.id && b.klass == a.klass && b.racks == a.racks && b.header.generation == a.header.generation
  }

  predicate QuietedConstraint(a: Constraint, b: Constraint) {
    b.id == a.id && b.racks == a.racks && b.header.generation == a.header.generation
  }

  ghost predicate Quieted(s: State, u: State) {
    && u.id == s.id
    && (u.racks.Keys == s.racks.Keys && forall k | k in s.racks :: QuietedRack(s.racks[k], u.racks[k]))
    && (u.links.Keys == s.links.Keys
        && forall k | k in s.links ::
             SameEnds(s.links[k], u.links[k]) && (u.links[k] == s.links[k] || LinkQuiet(u.links[k])))
    && (u.domains.Keys == s.domains.Keys && forall k | k in s.domains :: QuietedDomain(s.domains[k], u.domains[k]))
    && (u.constraints.Keys == s.constraints.Keys
        && forall k | k in s.constraints :: QuietedConstraint(s.constraints[k], u.constraints[k]))
    && u.sc == s.sc.(fenced := u.sc.fenced, lifecycle := u.sc.lifecycle)
    && Ascending(u.sc.fenced, FencedBefore) && (forall f | f in s.sc.fenced :: f in u.sc.fenced)
    && (forall k | k in u.racks && u.racks[k].authoritative :: !u.IsFenced(u.racks[k].reference.boot))
  }

  lemma QuietedKeepsRecords(s: State, u: State)
    requires Quieted(s, u)
    ensures forall k | k in u.racks :: RackSound(s, k) ==> RackSound(u, k)
    ensures forall k | k in u.links :: LinkSound(s, k) ==> LinkSound(u, k)
    ensures forall k | k in u.domains :: DomainSound(s, k) ==> DomainSound(u, k)
    ensures forall k | k in u.constraints :: ConstraintSound(s, k) ==> ConstraintSound(u, k)
  {
    assert forall x :: u.IsRetired(x) == s.IsRetired(x);
    assert forall x :: u.IsMember(x) == s.IsMember(x);
  }

  lemma QuietedKeepsLists(s: State, u: State)
    requires Quieted(s, u) && CountsSound(s) && WithdrawnSound(s)
    ensures CountsSound(u) && WithdrawnSound(u) && FencedSound(u)
  {
    assert |u.racks| == |u.racks.Keys| == |s.racks|;
    assert |u.links| == |u.links.Keys| == |s.links|;
    assert |u.constraints| == |u.constraints.Keys| == |s.constraints|;
    assert forall kind :: u.DomainIds(kind) == s.DomainIds(kind);
    forall f | f in u.sc.fenced && f.rack in u.racks && u.racks[f.rack].reference.boot == f.boot
      ensures !u.racks[f.rack].authoritative
    {
      assert u.IsFenced(f.boot);
    }
  }

  lemma QuietedKeepsBody(s: State, u: State)
    requires Quieted(s, u) && BodySound(s)
    ensures BodySound(u)
  {
    hide RackSound; hide LinkSound; hide DomainSound; hide ConstraintSound;
    QuietedKeepsRecords(s, u);
    QuietedKeepsLists(s, u);
  }

  lemma QuietedKeepsWired(s: State, u: State)
    requires Quieted(s, u) && Wired(s) && s.Declared()
    ensures Wired(u)
  {
    assert Step(s, u) by {
      hide ReferencesResolve;
      assert RetirementExact(u) by { assert forall x :: u.IsRetired(x) == s.IsRetired(x); }
      assert RacksStep(s, u) by { hide RetirementExact; }
      assert LinksStep(s, u) by { hide RetirementExact; hide RecordsPlaced; }
      QuietedReferrersStep(s, u);
    }
    hide ReferencesResolve; hide Quieted; hide RecordsPlaced; hide RetirementExact;
    StepKeepsWired(s, u);
  }

  lemma QuietedReferrersStep(s: State, u: State)
    requires Quieted(s, u) && ReferencesResolve(s) && RecordsPlaced(s)
    ensures DomainsStep(s, u) && ConstraintsStep(s, u)
  {
    forall k | k in u.domains ensures DomainPlaced(s, u, k) {}
  }

  // ---- fences keep the invariant, although no checker runs --------------------------------

  lemma FencedListGrows(s: State, boot: Id, reason: Text, at: Timestamp)
    requires Ascending(s.sc.fenced, FencedBefore)
    ensures Ascending(FencedList(s, boot, reason, at), FencedBefore)
    ensures forall f | f in s.sc.fenced :: f in FencedList(s, boot, reason, at)
    ensures forall b :: Fenced(s, boot, reason, at).IsFenced(b) <==> s.IsFenced(b) || b == boot
  {
    if !s.IsFenced(boot) {
      var entry := FencedAuthority(boot, FenceSubject(s.racks, boot), reason, at);
      FencedIsOrdered();
      SortAdds(s.sc.fenced, entry, FencedBefore);
      forall i | 0 <= i < |s.sc.fenced| ensures Comparable(s.sc.fenced[i], entry, FencedBefore) {
        Trichotomy(s.sc.fenced[i].boot, boot);
      }
      SortIsStrict(s.sc.fenced + [entry], FencedBefore);
      assert entry in FencedList(s, boot, reason, at);
    }
  }

  lemma FencedIsOrdered()
    ensures StrictOrder(FencedBefore)
  {
    TextIsOrdered();
    assert forall a: FencedAuthority, b: FencedAuthority :: FencedBefore(a, b) == Before(a.boot, b.boot);
  }

  lemma RetiredIsOrdered()
    ensures StrictOrder(RetiredBefore)
  {
    TextIsOrdered();
    assert forall a: RetiredIdentity, b: RetiredIdentity :: RetiredBefore(a, b) == Before(a.rack, b.rack);
  }

  lemma FenceQuietsRecords(s: State, boot: Id, reason: Text, at: Timestamp)
    ensures var u := Fenced(s, boot, reason, at);
      && (u.racks.Keys == s.racks.Keys && forall k | k in s.racks :: QuietedRack(s.racks[k], u.racks[k]))
      && (u.links.Keys == s.links.Keys
          && forall k | k in s.links ::
               SameEnds(s.links[k], u.links[k]) && (u.links[k] == s.links[k] || LinkQuiet(u.links[k])))
  {
    hide FencedList;
  }

  lemma FenceDisarms(s: State, boot: Id, reason: Text, at: Timestamp, k: Id)
    requires FencedSound(s) && k in s.racks && RackSound(s, k) && Fenced(s, boot, reason, at).racks[k].authoritative
    ensures !Fenced(s, boot, reason, at).IsFenced(s.racks[k].reference.boot)
    ensures Fenced(s, boot, reason, at).racks[k].reference.boot == s.racks[k].reference.boot
  {
    hide FencedList;
    FencedListGrows(s, boot, reason, at);
  }

  lemma FenceQuiets(s: State, boot: Id, reason: Text, at: Timestamp)
    requires BodySound(s)
    ensures Quieted(s, Fenced(s, boot, reason, at))
  {
    hide FencedList; hide CountsSound; hide WithdrawnSound; hide LinkSound; hide DomainSound; hide ConstraintSound;
    hide RackSound; hide QuietedRack; hide SameEnds; hide LinkQuiet;
    var u := Fenced(s, boot, reason, at);
    FencedListGrows(s, boot, reason, at);
    FenceQuietsRecords(s, boot, reason, at);
    forall k | k in u.racks && u.racks[k].authoritative ensures !u.IsFenced(u.racks[k].reference.boot) {
      FenceDisarms(s, boot, reason, at, k);
    }
  }

  /** An evaluated lifecycle is consistent as soon as a RETIRED cluster holds no authority. */
  lemma SettledIsConsistent(t: State)
    requires Settled(t) && (t.sc.lifecycle.Retired? ==> forall k | k in t.racks :: !t.racks[k].authoritative)
    ensures LifecycleSound(t)
  {}

  lemma RetiredOnlyIfAlready(t: State)
    ensures Evaluate(t).Retired? <==> t.sc.lifecycle.Retired?
    ensures Evaluate(t).Retiring? <==> t.sc.lifecycle.Retiring?
  {}

  lemma FenceKeepsSound(s: State, boot: Id, reason: Text, at: Timestamp, now: Timestamp)
    requires Inv(s) && FenceProposal(s, boot, reason, at, now).Some?
    ensures Sound(FenceProposal(s, boot, reason, at, now).value)
    ensures Settled(FenceProposal(s, boot, reason, at, now).value)
  {
    hide FencedList; hide Satisfied; hide Wired; hide Evaluate; hide BodySound; hide Quieted;
    var u, f := Fenced(s, boot, reason, at), FenceProposal(s, boot, reason, at, now).value;
    FenceQuiets(s, boot, reason, at);
    QuietedKeepsBody(s, u);
    FramedBodyStaysSound(u, f);
    EvaluationIsIdempotent(u, f);
    RetiredOnlyIfAlready(u);
    SettledIsConsistent(f);
  }

  lemma FenceKeepsInv(s: State, boot: Id, reason: Text, at: Timestamp, now: Timestamp, saved: bool)
    requires Inv(s)
    ensures Inv(Fence(s, boot, reason, at, now, saved))
  {
    hide FencedList; hide Evaluate; hide ReferencesResolve; hide RetirementExact; hide RecordsPlaced;
    hide AuthorityJustified; hide Step; hide CountersSound; hide LifecycleSound;
    var p := FenceProposal(s, boot, reason, at, now);
    if p.Some? && saved {
      var u := Fenced(s, boot, reason, at);
      FenceQuiets(s, boot, reason, at);
      QuietedKeepsWired(s, u);
      SameWiringKeepsWired(u, p.value);
      FenceKeepsSound(s, boot, reason, at, now);
    }
  }
}
