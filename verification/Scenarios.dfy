/** Reachable states, built request by request, for the promises that fail somewhere. */
module Scenarios {
  import opened Foundation
  import opened Sorting
  import opened EvidenceStamps
  import opened Records
  import opened Readiness
  import opened Invariants
  import opened Mutations
  import opened Engine
  import opened Acceptance
  import opened Durable
  import opened Container
  import opened System
  import opened Runs

  /** Some run of a coordinator over an empty store ends in s. */
  ghost predicate Reached(cfg: Config, s: State) { exists at, events :: Run(cfg, Boot(cfg, at), events).live == s }

  /** Some run ends in s with s as the state that was saved last. */
  ghost predicate Saved(cfg: Config, s: State) {
    exists at, events :: Run(cfg, Boot(cfg, at), events).live == s && Run(cfg, Boot(cfg, at), events).saved == Some(s)
  }

  lemma ReachedIsInv(cfg: Config, s: State)
    requires Reached(cfg, s)
    ensures Inv(s)
  {
    hide Inv; hide Run;
    var at, events :| Run(cfg, Boot(cfg, at), events).live == s;
    ReachableIsInv(cfg, at, events);
  }

  lemma FreshIsReached(cfg: Config)
    ensures Reached(cfg, FreshState(cfg.cluster, cfg.contract, NextEpoch(1)))
  {
    assert Run(cfg, Boot(cfg, 0), []).live == FreshState(cfg.cluster, cfg.contract, NextEpoch(1));
  }

  lemma TakenIsReached(cfg: Config, s: State, e: Event)
    requires Reached(cfg, s) && Takes(cfg, s, e)
    ensures Reached(cfg, Proposed(cfg, s, e).value)
    ensures cfg.persist ==> Saved(cfg, Proposed(cfg, s, e).value)
  {
    hide Proposed; hide Encode; hide Project;
    var at, events :| Run(cfg, Boot(cfg, at), events).live == s;
    var longer := events + [e];
    assert longer[..|longer| - 1] == events;
    var y := Run(cfg, Boot(cfg, at), longer);
    assert y.live == Proposed(cfg, s, e).value && (cfg.persist ==> y.saved == Some(y.live));
  }

  /** A request that is applied and acceptable is taken if its result can be stored; without a store it always can. */
  lemma RequestIsTaken(cfg: Config, at: Timestamp, s: State, req: Request) returns (t: State)
    requires Reached(cfg, s) && Apply(cfg, at, s, req).Changed? && Acceptable(at, s, req)
    requires s.Declared() ==> s.sc.generation < MAX_U64
    ensures Proposal(cfg, at, s, req) == Some(t)
    ensures Stored(cfg, t, true) ==> Reached(cfg, t) && (cfg.persist ==> Saved(cfg, t))
    ensures Apply(cfg, at, s, req).next.sc.generation < MAX_U64
    ensures t == Sealed(at, Settle(Apply(cfg, at, s, req).next))
  {
    hide Reached; hide Saved; hide Apply; hide Acceptable; hide Inv; hide Settle; hide Sound; hide Stored;
    ReachedIsInv(cfg, s);
    ProposedExactly(cfg, at, s, req);
    t := Proposal(cfg, at, s, req).value;
    if Stored(cfg, t, true) { TakenIsReached(cfg, s, Mutate(at, req, true)); }
  }

  lemma WithoutStore(cfg: Config, t: State)
    requires !cfg.persist
    ensures Stored(cfg, t, true)
  {
    hide Encode; hide Project;
  }

  /** Without a store, a request that is applied and acceptable is taken. */
  lemma RequestIsReached(cfg: Config, at: Timestamp, s: State, req: Request) returns (t: State)
    requires !cfg.persist && Reached(cfg, s) && Apply(cfg, at, s, req).Changed? && Acceptable(at, s, req)
    requires s.Declared() ==> s.sc.generation < MAX_U64
    ensures Reached(cfg, t) && Proposal(cfg, at, s, req) == Some(t)
    ensures Apply(cfg, at, s, req).next.sc.generation < MAX_U64
    ensures t == Sealed(at, Settle(Apply(cfg, at, s, req).next))
  {
    hide Reached; hide Saved; hide Stored; hide Apply; hide Acceptable; hide Settle; hide Proposal;
    t := RequestIsTaken(cfg, at, s, req);
    WithoutStore(cfg, t);
  }

  // ---- requests --------------------------------------------------------------------------

  const NO_COMPOSITION := Composition([], None, None, None, None, None, [], Provenance.Unknown)

  const NO_REFERENCE :=
    RackReference([], 0, 0, Currentness.Unknown, NO_COMPOSITION, [], [], NO_EVIDENCE, None, 0, [], 0, 0, 0, [])

  /** A contract that asks for nothing. */
  const NO_DEMANDS := Contract(0, [], false, false, 0, [], [], true, true, false)

  /** Evidence that counts as current, and known evidence that does not. */
  const SEEN := Evidence(Provenance.Measured, 1, Freshness.Fresh, 0)
  const DERIVED := Evidence(Provenance.Derived, 1, Freshness.Fresh, 0)

  function Ask(s: State, kind: Kind, rack: Id, boot: Option<Id>, publication: u64): Request {
    Request(kind, s.id, Authority(s.sc.epoch, s.sc.coordinatorEpoch, boot, None, Some(rack), None, publication),
            SEEN, [], s.sc.lifecycle, s.sc.contract, NO_REFERENCE, None, None, None, None, None, None, None, [], 1,
            Reachability.Unknown, [], [])
  }

  function Describe(rack: Id, generation: u64, boot: Id, publication: u64, evidence: Evidence): RackReference {
    NO_REFERENCE.(rack := rack, generation := generation, boot := boot, publication := publication,
                  evidence := evidence, publisher := Some(rack))
  }

  function Admit(s: State, reference: RackReference): Request {
    Ask(s, AddRack, reference.rack, None, 0).(reference := reference)
  }

  // ---- states ----------------------------------------------------------------------------

  /** A declared cluster that listens, with counters far from their ends. */
  predicate Young(s: State) {
    && s.Declared() && IsIdentity(s.id) && !s.sc.lifecycle.Retired?
    && s.sc.generation < 100 && s.sc.membershipGeneration < 100 && s.sc.healthGeneration < 100
    && s.sc.topologyEpoch < 100 && s.sc.topologyGeneration < 100 && s.sc.connectivityGeneration < 100
    && s.sc.constraintGeneration < 100 && s.sc.snapshotGeneration < 100 && s.sc.publicationGeneration < 100
    && (forall kind: DomainKind :: s.sc.domainGenerations.Get(kind) < 100)
    && s.sc.retired == [] && s.links == map[] && s.domains == map[] && s.constraints == map[]
  }

  const CLUSTER: Id := [65]

  lemma DeclarationIsTaken(cfg: Config, contract: Contract) returns (s: State)
    ensures Stored(cfg, s, true) ==> Reached(cfg, s) && (cfg.persist ==> Saved(cfg, s))
    ensures Young(s) && s.sc.contract == contract && s.racks == map[] && s.id == CLUSTER && |s.sc.topology.reason| < 100
    ensures s.sc.fenced == [] && s.sc.withdrawn == [] && s.sc.lifecycle.Declared?
    ensures s.sc.generation == 2 && s.sc.membershipGeneration == 1 && s.sc.healthGeneration == 1
  {
    hide Reached; hide Saved; hide Stored; hide Run;
    var blank := FreshState(cfg.cluster, cfg.contract, NextEpoch(1));
    FreshIsReached(cfg);
    var req := Ask(blank, DeclareCluster, [], None, 0).(cluster := CLUSTER, contract := contract);
    s := RequestIsTaken(cfg, 0, blank, req);
    var first := FirstDeclaration(0, blank, req);
    assert ActiveRacks(first) == {} && CurrentRacks(first) == {} && !AnyRevalidation(first);
    assert Evaluate(first) == Lifecycle.Declared;
  }

  lemma StartedCluster(cfg: Config, contract: Contract) returns (s: State)
    requires !cfg.persist
    ensures Reached(cfg, s) && Young(s) && s.sc.contract == contract && s.racks == map[]
    ensures s.sc.fenced == [] && s.sc.withdrawn == [] && s.sc.lifecycle.Declared?
    ensures s.sc.generation == 2 && s.sc.membershipGeneration == 1 && s.sc.healthGeneration == 1
  {
    hide Reached; hide Saved; hide Stored; hide Young;
    s := DeclarationIsTaken(cfg, contract);
    WithoutStore(cfg, s);
  }

  /** Nothing is recorded of the rack and there is room for it. */
  predicate Admissible(cfg: Config, s: State, reference: RackReference) {
    && reference.rack != [] && reference.rack !in s.racks && |s.racks| < cfg.maxRacks && |s.racks| < MAX_RACKS
    && !s.IsFenced(reference.boot)
    && reference
       == Describe(reference.rack, reference.generation, reference.boot, reference.publication, reference.evidence)
    && reference.generation != 0 && !reference.evidence.provenance.Unknown? && !reference.evidence.freshness.Unknown?
  }

  lemma AdmissionApplies(cfg: Config, s: State, reference: RackReference)
    requires Young(s) && Admissible(cfg, s, reference)
    ensures var req := Admit(s, reference);
      && Acceptable(0, s, req)
      && Apply(cfg, 0, s, req) == Changed(
           s.(sc := s.sc.(membershipGeneration := s.sc.membershipGeneration + 1,
                          withdrawn := Without(s.sc.withdrawn, reference.rack)),
              racks := s.racks[reference.rack := Admission(s, 0, reference, s.sc.membershipGeneration + 1)]))
  {
    hide State.IsFenced; hide IsIdentity; hide Without;
    assert SortUnique<Endpoint>([], EndpointBefore) == [] && SortUnique<Hint>([], HintBefore) == [];
    assert SortUnique<Accelerator>([], AcceleratorBefore) == [];
    hide SortUnique;
    assert Canonicalize(reference) == reference;
    hide Canonicalize;
    assert !s.IsRetired(reference.rack);
  }

  /** Admitting one more rack to a young cluster. */
  lemma AdmissionIsTaken(cfg: Config, s: State, reference: RackReference) returns (t: State)
    requires Reached(cfg, s) && Young(s) && Admissible(cfg, s, reference)
    ensures Stored(cfg, t, true) ==> Reached(cfg, t) && (cfg.persist ==> Saved(cfg, t))
    ensures t.id == s.id && t.links == map[] && t.domains == map[] && t.constraints == map[]
    ensures t.racks == s.racks[reference.rack := Admission(s, 0, reference, s.sc.membershipGeneration + 1)]
    ensures t.sc == s.sc.(generation := s.sc.generation + 1, membershipGeneration := s.sc.membershipGeneration + 1,
                          withdrawn := Without(s.sc.withdrawn, reference.rack), lifecycle := t.sc.lifecycle,
                          lastMutationAt := 0)
    ensures t.sc.lifecycle == Evaluate(t) && !t.sc.lifecycle.Retired?
    ensures t.sc.lifecycle.Retiring? <==> s.sc.lifecycle.Retiring?
  {
    hide Reached; hide Saved; hide Stored; hide Evaluate; hide Apply; hide Acceptable; hide Admission; hide Without;
    hide Admissible;
    var req := Admit(s, reference);
    AdmissionApplies(cfg, s, reference);
    t := RequestIsTaken(cfg, 0, s, req);
    var next := Apply(cfg, 0, s, req).next;
    EvaluationIsIdempotent(next, t);
    RetiredOnlyIfAlready(next);
  }

  lemma AdmittedRack(cfg: Config, s: State, reference: RackReference) returns (t: State)
    requires !cfg.persist && Reached(cfg, s) && Young(s) && Admissible(cfg, s, reference)
    ensures Reached(cfg, t) && t.id == s.id && t.links == map[] && t.domains == map[] && t.constraints == map[]
    ensures t.racks == s.racks[reference.rack := Admission(s, 0, reference, s.sc.membershipGeneration + 1)]
    ensures t.sc == s.sc.(generation := s.sc.generation + 1, membershipGeneration := s.sc.membershipGeneration + 1,
                          withdrawn := Without(s.sc.withdrawn, reference.rack), lifecycle := t.sc.lifecycle,
                          lastMutationAt := 0)
    ensures t.sc.lifecycle == Evaluate(t) && !t.sc.lifecycle.Retired?
    ensures t.sc.lifecycle.Retiring? <==> s.sc.lifecycle.Retiring?
  {
    hide Reached; hide Saved; hide Stored; hide Evaluate; hide Young; hide Admissible; hide Admission; hide Without;
    t := AdmissionIsTaken(cfg, s, reference);
    WithoutStore(cfg, t);
  }

  const RACK: Id := [82]
  const BOOT: Id := [66]

  /** One rack, admitted under an incarnation with publication counter 5. */
  predicate Holds(s: State, evidence: Evidence) {
    && Young(s) && s.sc.fenced == [] && s.racks.Keys == {RACK} && s.racks[RACK].membership.Active?
    && s.racks[RACK].reference
       == Describe(RACK, 1, BOOT, 5, evidence).(clusterEpoch := s.sc.epoch, coordinatorEpoch := s.sc.coordinatorEpoch,
                                                currentness := Currentness.Current)
    && s.racks[RACK].authoritative == evidence.IsCurrent()
    && s.sc.generation == 3 && s.sc.membershipGeneration == 2 && s.sc.healthGeneration == 1 && s.sc.withdrawn == []
    && s.sc.lifecycle == Evaluate(s) && !s.sc.lifecycle.Retiring?
  }

  lemma HeldRack(cfg: Config, contract: Contract, evidence: Evidence) returns (s: State)
    requires !cfg.persist && cfg.maxRacks >= 1
    requires !evidence.provenance.Unknown? && !evidence.freshness.Unknown?
    ensures Reached(cfg, s) && Holds(s, evidence) && s.sc.contract == contract
  {
    hide Reached; hide Evaluate;
    var empty := StartedCluster(cfg, contract);
    s := AdmittedRack(cfg, empty, Describe(RACK, 1, BOOT, 5, evidence));
  }

  /** The same rack after it was withdrawn. */
  lemma WithdrawnRack(cfg: Config) returns (s: State)
    requires !cfg.persist && cfg.maxRacks >= 1
    ensures Reached(cfg, s) && Young(s) && s.sc.fenced == [] && RACK in s.racks
    ensures s.racks[RACK].membership.Withdrawn? && !s.racks[RACK].authoritative
    ensures s.racks[RACK].reference.generation == 1 && s.racks[RACK].reference.health == 0
  {
    hide Reached; hide Evaluate; hide Apply; hide Acceptable;
    var held := HeldRack(cfg, NO_DEMANDS, SEEN);
    var req := Ask(held, WithdrawRack, RACK, None, 0);
    WithdrawalApplies(cfg, held);
    s := RequestIsReached(cfg, 0, held, req);
    RetiredOnlyIfAlready(Apply(cfg, 0, held, req).next);
  }

  lemma WithdrawalApplies(cfg: Config, s: State)
    requires Holds(s, SEEN)
    ensures var req := Ask(s, WithdrawRack, RACK, None, 0);
      && Acceptable(0, s, req) && Apply(cfg, 0, s, req).Changed?
      && var t := Apply(cfg, 0, s, req).next;
         && t.racks
            == s.racks[RACK := Excluded(req, s.racks[RACK], Membership.Withdrawn, s.sc.membershipGeneration + 1)]
         && t == s.(racks := t.racks, sc := s.sc.(membershipGeneration := s.sc.membershipGeneration + 1,
                                                  withdrawn := t.sc.withdrawn))
  {
    hide IsIdentity; hide Evaluate; hide WithdrawnAfter;
  }

  /** A rack that is registered and not admitted, with publication counter 5. */
  lemma RegisteredRack(cfg: Config) returns (s: State)
    requires !cfg.persist && cfg.maxRacks >= 1
    ensures Reached(cfg, s) && Young(s) && s.sc.fenced == [] && RACK in s.racks
    ensures s.racks[RACK].membership.Unknown? && !s.racks[RACK].authoritative
    ensures s.racks[RACK].reference == Describe(RACK, 1, BOOT, 5, SEEN).(
              clusterEpoch := s.sc.epoch, coordinatorEpoch := s.sc.coordinatorEpoch)
  {
    hide Reached; hide Evaluate; hide Apply; hide Acceptable;
    var empty := StartedCluster(cfg, NO_DEMANDS);
    var req := Registering(empty, RACK, BOOT);
    RegistrationApplies(cfg, empty, RACK, BOOT);
    s := RequestIsReached(cfg, 0, empty, req);
    RetiredOnlyIfAlready(Apply(cfg, 0, empty, req).next);
  }

  function Registering(s: State, rack: Id, boot: Id): Request {
    var plain := Ask(s, RegisterPublisher, rack, Some(boot), 5);
    plain.(authority := plain.authority.(publisher := Some(rack), rackGeneration := Some(1)))
  }

  lemma RegistrationApplies(cfg: Config, s: State, rack: Id, boot: Id)
    requires Young(s) && rack != [] && rack !in s.racks && |s.racks| < cfg.maxRacks && |s.racks| < MAX_RACKS
    ensures var req := Registering(s, rack, boot);
      && Acceptable(0, s, req)
      && Apply(cfg, 0, s, req) == Changed(s.(racks := s.racks[rack := Registration(s, req)]))
  {
    hide IsIdentity; hide Registration;
  }

  const OTHER: Id := [83]
  const FENCED: Id := [67]

  /** Two admitted racks, one current, the other of an incarnation that has been fenced. */
  predicate OneFenced(s: State) {
    && Young(s) && s.IsFenced(FENCED) && s.racks.Keys == {RACK, OTHER}
    && s.racks[RACK].membership.Active? && s.racks[OTHER].membership.Active?
    && s.racks[RACK].authoritative && s.racks[RACK].reference.evidence == SEEN
  }

  lemma FencedRack(cfg: Config) returns (s: State)
    requires !cfg.persist && cfg.maxRacks >= 2
    ensures Reached(cfg, s) && OneFenced(s)
  {
    hide Reached; hide Saved; hide Evaluate; hide Admission; hide Without; hide Proposed; hide FenceProposal;
    hide Takes;
    var one := HeldRack(cfg, NO_DEMANDS, SEEN);
    assert one.racks.Keys == {RACK} && |one.racks.Keys| == 1;
    var reference := Describe(OTHER, 1, FENCED, 5, SEEN);
    var both := AdmittedRack(cfg, one, reference);
    AdmittedFacts(one, reference, both);
    var e := FenceBoot(FENCED, [], 0, 0, true);
    FenceApplies(both);
    FenceIsTaken(cfg, both);
    TakenIsReached(cfg, both, e);
    s := Proposed(cfg, both, e).value;
  }

  lemma AdmittedFacts(s: State, reference: RackReference, t: State)
    requires Holds(s, SEEN) && reference == Describe(OTHER, 1, FENCED, 5, SEEN)
    requires t.racks == s.racks[OTHER := Admission(s, 0, reference, s.sc.membershipGeneration + 1)]
    ensures t.racks.Keys == {RACK, OTHER} && t.racks[RACK] == s.racks[RACK]
    ensures t.racks[OTHER].membership.Active? && t.racks[OTHER].reference.boot == FENCED
  {
    hide Evaluate; hide Young;
  }

  lemma FenceApplies(s: State)
    requires Young(s) && s.sc.fenced == [] && s.racks.Keys == {RACK, OTHER}
    requires s.sc.generation < 99 && s.sc.healthGeneration < 99
    requires s.racks[RACK].membership.Active? && s.racks[RACK].authoritative && s.racks[RACK].reference.boot == BOOT
    requires s.racks[RACK].reference.evidence == SEEN
    requires s.racks[OTHER].membership.Active? && s.racks[OTHER].reference.boot == FENCED
    ensures var p := FenceProposal(s, FENCED, [], 0, 0); p.Some? && OneFenced(p.value)
  {
    hide Evaluate; hide FencedList; hide IsIdentity; hide FencedRacks; hide FencedLinks; hide Orphaned;
    assert Owns(s, FENCED) by { assert s.racks[OTHER].reference.boot == FENCED; }
    hide Owns;
    FencedListGrows(s, FENCED, [], 0);
    var u, t := Fenced(s, FENCED, [], 0), FenceProposal(s, FENCED, [], 0, 0).value;
    RetiredOnlyIfAlready(u);
    FencedRecords(s);
    assert t.IsFenced(FENCED) by { assert u.IsFenced(FENCED) && t.sc.fenced == u.sc.fenced; }
  }

  lemma FenceIsTaken(cfg: Config, s: State)
    requires !cfg.persist && FenceProposal(s, FENCED, [], 0, 0).Some?
    ensures Takes(cfg, s, FenceBoot(FENCED, [], 0, 0, true))
    ensures Proposed(cfg, s, FenceBoot(FENCED, [], 0, 0, true)) == FenceProposal(s, FENCED, [], 0, 0)
  {
    hide FenceProposal;
  }

  lemma FencedRecords(s: State)
    requires s.links == map[] && s.racks.Keys == {RACK, OTHER}
    requires s.racks[RACK].reference.boot == BOOT && s.racks[OTHER].membership.Active?
    ensures FencedLinks(s.links, FENCED) == map[]
    ensures var racks := FencedRacks(s.racks, FENCED, []);
      racks.Keys == {RACK, OTHER} && racks[RACK] == s.racks[RACK] && racks[OTHER].membership.Active?
  {}
}
