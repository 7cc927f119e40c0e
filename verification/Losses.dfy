/** Committed clusters that a restart cannot bring back, from the first request to the loss. */
module Losses {
  import opened Foundation
  import opened Sorting
  import opened EvidenceStamps
  import opened Records
  import opened Readiness
  import opened Invariants
  import opened Mutations
  import opened Engine
  import opened Acceptance
  import opened Durable
  import opened Wire
  import opened Container
  import opened Sizes
  import opened System
  import opened Reloading
  import opened Runs
  import opened Scenarios

  /** Exactly when a commit reaches the store. */
  lemma StoredExactly(cfg: Config, t: State, io: bool)
    ensures Stored(cfg, t, io) <==>
      (cfg.persist ==> io && FitsState(Project(t)) && SizeState(Project(t)) <= MAX_BYTES - HEADER)
  {
    hide Encode; hide Project; hide FitsState; hide SizeState;
    EncodesExactly(Project(t));
  }

  // ---- small states fit -------------------------------------------------------------------

  lemma ListedEmpty<V>(m: map<Id, V>)
    requires m == map[]
    ensures Listed(m) == []
  {
    SortedKeysAscend(m.Keys);
  }

  lemma ListedOne<V>(m: map<Id, V>, k: Id)
    requires m.Keys == {k}
    ensures Listed(m) == [m[k]]
  {
    SortedKeysAscend(m.Keys);
    assert |m.Keys| == 1;
    var keys := SortedKeys(m.Keys);
    assert keys[0] in keys && keys == [k];
  }

  /** One rack at most is recorded besides the scalars. */
  predicate Bare(s: State) {
    && s.links == map[] && s.domains == map[] && s.constraints == map[] && s.sc.retired == [] && s.sc.withdrawn == []
    && s.racks.Keys <= {RACK}
  }

  lemma BareProjection(s: State)
    requires Bare(s)
    ensures Project(s) == Persisted(s.id, s.sc, Listed(DurableRacks(s.racks)),
                                    DomainLists([], [], [], [], [], [], [], []), [], [])
  {
    hide Listed;
    ListedEmpty(s.links);
    ListedEmpty(s.constraints);
    forall kind: DomainKind ensures Listed(Column(s, kind)) == [] {
      assert Column(s, kind) == map[];
      ListedEmpty(Column(s, kind));
    }
  }

  /** Short texts and a contract that asks for nothing. */
  predicate Modest(s: State) {
    && |s.id| <= 128 && s.sc.contract == NO_DEMANDS && |s.sc.topology.reason| <= 100
    && |s.sc.fenced| <= 1 && (forall f | f in s.sc.fenced :: |f.boot| <= 128 && |f.rack| <= 128 && |f.reason| <= 128)
    && (RACK in s.racks ==> ModestRack(DurableOf(s.racks[RACK]).(rack := RACK)))
  }

  predicate ModestRack(d: DurableRack) {
    && |d.rack| <= 128 && |d.publisher| <= 128 && |d.boot| <= 128 && |d.origin| <= 128
    && d.composition == NO_COMPOSITION && d.hints == [] && |d.endpoints| <= 2
    && (forall e | e in d.endpoints :: |e.id| <= 128 && e.networkDomain.None? && e.linkDomain.None?)
  }

  lemma {:induction false} TotalIsBounded<T>(items: seq<T>, size: T -> nat, bound: nat)
    requires forall x | x in items :: size(x) <= bound
    ensures Total(items, size) <= |items| * bound
  {
    if items != [] { TotalIsBounded(items[1..], size, bound); }
  }

  lemma ModestRackFits(d: DurableRack)
    requires ModestRack(d)
    ensures FitsRack(d) && SizeRack(d) <= 2000
  {
    TotalIsBounded(d.endpoints, SizeEndpoint, 200);
    assert SizeEndpoints(d.endpoints) <= 404;
    hide SizeEndpoints;
  }

  lemma ModestFencesFit(fenced: seq<FencedAuthority>)
    requires |fenced| <= 1 && forall f | f in fenced :: |f.boot| <= 128 && |f.rack| <= 128 && |f.reason| <= 128
    ensures FitsFencedList(fenced) && SizeFencedList(fenced) <= 1000
  {
    TotalIsBounded(fenced, SizeFenced, 500);
  }

  lemma NoDemandsFit()
    ensures FitsContract(NO_DEMANDS) && SizeContract(NO_DEMANDS) <= 100
  {}

  lemma NoDomainsFit()
    ensures var none := DomainLists([], [], [], [], [], [], [], []);
      FitsDomainLists(none) && SizeDomainLists(none) == 32
  {}

  lemma NoRecordsFit()
    ensures FitsLinks([]) && FitsConstraints([]) && FitsRetiredList([]) && FitsIds([])
    ensures SizeLinks([]) == SizeConstraints([]) == SizeRetiredList([]) == SizeIds([]) == 4
  {}

  /** The racks of a bare state, listed. */
  lemma ModestRacksFit(s: State)
    requires Bare(s) && Modest(s)
    ensures var racks := Listed(DurableRacks(s.racks)); FitsRacks(racks) && SizeRacks(racks) <= 3000
  {
    hide FitsRack; hide SizeRack; hide Listed; hide ModestRack;
    var durable := DurableRacks(s.racks);
    if RACK in s.racks {
      ListedOne(durable, RACK);
      ModestRackFits(durable[RACK]);
      TotalIsBounded([durable[RACK]], SizeRack, 2000);
    } else {
      assert durable == map[];
      ListedEmpty(durable);
    }
  }

  lemma ModestFits(s: State)
    requires Bare(s) && Modest(s)
    ensures Encode(Project(s)).Some?
  {
    hide Encode; hide Project; hide Listed; hide FitsRacks; hide SizeRacks; hide FitsFencedList; hide SizeFencedList;
    hide FitsContract; hide SizeContract; hide FitsDomainLists; hide SizeDomainLists; hide FitsLinks; hide SizeLinks;
    hide FitsConstraints; hide SizeConstraints; hide FitsRetiredList; hide SizeRetiredList; hide FitsIds; hide SizeIds;
    hide DurableRacks;
    BareProjection(s);
    ModestRacksFit(s);
    ModestFencesFit(s.sc.fenced);
    NoDemandsFit();
    NoDomainsFit();
    NoRecordsFit();
    EncodesExactly(Project(s));
  }

  // ---- clusters that are saved and lost ---------------------------------------------------

  /** After some run the state is live and saved, and the next restart comes up with an undeclared cluster. */
  ghost predicate LostAtRestart(cfg: Config, s: State, at: Timestamp) {
    exists boot, events :: var y := Run(cfg, Boot(cfg, boot), events);
      && y.live == s && y.saved == Some(s)
      && React(cfg, y, Reboot(at)).live == FreshState(cfg.cluster, cfg.contract, NextEpoch(1))
  }

  /** A saved cluster is lost exactly if it is not reloadable. */
  lemma LostExactly(cfg: Config, s: State, at: Timestamp)
    requires Saved(cfg, s)
    ensures LostAtRestart(cfg, s, at) <==> !Reloadable(s)
  {
    hide Run; hide React; hide Reloadable; hide SysInv; hide Tracks; hide Reborn;
    forall boot, events | Run(cfg, Boot(cfg, boot), events).saved == Some(s)
      ensures React(cfg, Run(cfg, Boot(cfg, boot), events), Reboot(at)).live.Declared() <==> Reloadable(s)
      ensures !Reloadable(s) ==>
        React(cfg, Run(cfg, Boot(cfg, boot), events), Reboot(at)).live
        == FreshState(cfg.cluster, cfg.contract, NextEpoch(1))
    {
      BootIsSound(cfg, boot);
      StoreFollowsCommits(cfg, Boot(cfg, boot), events);
      RestartForgetsUnlessReloadable(cfg, Run(cfg, Boot(cfg, boot), events), at);
    }
    var boot, events :|
      Run(cfg, Boot(cfg, boot), events).live == s && Run(cfg, Boot(cfg, boot), events).saved == Some(s);
    if !Reloadable(s) {
      var y := Run(cfg, Boot(cfg, boot), events);
      assert React(cfg, y, Reboot(at)).live == FreshState(cfg.cluster, cfg.contract, NextEpoch(1));
    }
  }

  lemma ModestIsStored(cfg: Config, s: State)
    requires Bare(s) && Modest(s)
    ensures Stored(cfg, s, true)
  {
    hide Encode; hide Project; hide Bare; hide Modest;
    ModestFits(s);
  }

  /** One rack under any incarnation, committed and, with persistence, saved. */
  lemma SavedRack(cfg: Config, boot: Id) returns (s: State)
    requires cfg.maxRacks >= 1 && |boot| <= 128
    ensures Reached(cfg, s) && (cfg.persist ==> Saved(cfg, s))
    ensures Bare(s) && Modest(s) && Young(s) && s.sc.fenced == [] && RACK in s.racks
    ensures s.sc.generation == 3 && s.sc.membershipGeneration == 2 && s.sc.healthGeneration == 1
    ensures s.racks[RACK].membership.Active? && s.racks[RACK].authoritative
    ensures s.racks[RACK].reference == Describe(RACK, 1, boot, 5, SEEN).(
              clusterEpoch := s.sc.epoch, coordinatorEpoch := s.sc.coordinatorEpoch, currentness := Currentness.Current)
  {
    hide Reached; hide Saved; hide Stored; hide Evaluate;
    var empty := DeclarationIsTaken(cfg, NO_DEMANDS);
    ModestIsStored(cfg, empty);
    s := AdmissionIsTaken(cfg, empty, Describe(RACK, 1, boot, 5, SEEN));
    ModestIsStored(cfg, s);
  }

  /** A rack admitted under the empty incarnation. */
  lemma EmptyIncarnationIsLost(cfg: Config, at: Timestamp) returns (s: State)
    requires cfg.persist && cfg.maxRacks >= 1
    ensures Saved(cfg, s) && s.Declared() && RACK in s.racks && s.racks[RACK].reference.boot == []
    ensures !Reloadable(s) && LostAtRestart(cfg, s, at)
  {
    hide Reached; hide Saved; hide Inv; hide Reloadable; hide LostAtRestart;
    s := SavedRack(cfg, []);
    ReachedIsInv(cfg, s);
    NotReloadable(s, RACK, FencedAuthority([], [], [], 0));
    LostExactly(cfg, s, at);
  }

  // An endpoint list out of order.
  const LATER: Endpoint := Endpoint([98], None, None, 0, NO_EVIDENCE)
  const EARLIER: Endpoint := Endpoint([97], None, None, 0, NO_EVIDENCE)

  function Unsorted(s: State): Request {
    Ask(s, RecoverRack, RACK, Some(BOOT), 6).(reference := NO_REFERENCE.(endpoints := [LATER, EARLIER]))
  }

  lemma UnsortedApplies(cfg: Config, s: State)
    requires Young(s) && s.sc.fenced == [] && RACK in s.racks && s.racks[RACK].authoritative
    requires s.racks[RACK].reference.boot == BOOT
    ensures var req := Unsorted(s);
      && Acceptable(0, s, req)
      && Apply(cfg, 0, s, req) == Changed(
           s.(sc := s.sc.(membershipGeneration := s.sc.membershipGeneration + 1,
                          withdrawn := Without(s.sc.withdrawn, RACK)),
              racks := s.racks[RACK := Recovered(s, req, s.racks[RACK], s.sc.membershipGeneration + 1)]))
  {
    hide IsIdentity; hide Without; hide Recovered;
    assert !s.IsRetired(RACK) && !s.IsFenced(BOOT);
  }

  /** An accepted recovery whose endpoints stand out of order. */
  lemma UnsortedRecoveryIsLost(cfg: Config, at: Timestamp) returns (before: State, s: State)
    requires cfg.persist && cfg.maxRacks >= 1
    ensures Reached(cfg, before) && Proposal(cfg, 0, before, Unsorted(before)) == Some(s)
    ensures Saved(cfg, s) && s.Declared() && RACK in s.racks
    ensures s.racks[RACK].reference.endpoints == [LATER, EARLIER]
    ensures !Reloadable(s) && LostAtRestart(cfg, s, at)
  {
    hide Reached; hide Saved; hide Inv; hide Reloadable; hide LostAtRestart; hide Apply; hide Acceptable; hide Stored;
    hide Evaluate; hide Proposal;
    before := SavedRack(cfg, BOOT);
    UnsortedApplies(cfg, before);
    s := RequestIsTaken(cfg, 0, before, Unsorted(before));
    ModestIsStored(cfg, s);
    ReachedIsInv(cfg, s);
    assert !Linked(s.racks[RACK].reference.endpoints, EndpointBefore) by { OutOfOrder(); }
    NotReloadable(s, RACK, FencedAuthority([], [], [], 0));
    LostExactly(cfg, s, at);
  }

  lemma OutOfOrder()
    ensures !Linked([LATER, EARLIER], EndpointBefore)
  {
    assert !EndpointBefore([LATER, EARLIER][0], [LATER, EARLIER][1]);
  }

  lemma UnreasonedFence(s: State)
    requires Bare(s) && Modest(s) && Young(s) && s.sc.fenced == [] && RACK in s.racks
    requires s.sc.generation == 3 && s.sc.healthGeneration == 1 && s.racks[RACK].reference.boot == BOOT
    ensures var p := FenceProposal(s, BOOT, [], 0, 0);
      && p.Some? && p.value.sc.fenced == [FencedAuthority(BOOT, RACK, [], 0)] && p.value.Declared()
      && Bare(p.value) && Modest(p.value)
  {
    hide Evaluate; hide IsIdentity; hide NO_COMPOSITION;
    assert Owns(s, BOOT);
    assert RacksOf(s.racks, BOOT) == {RACK};
    var entry := FencedAuthority(BOOT, RACK, [], 0);
    assert FencedList(s, BOOT, [], 0) == Sort([entry], FencedBefore) == [entry];
    hide FencedList;
    assert FencedLinks(s.links, BOOT) == map[];
  }

  /** A fence without a reason. */
  lemma UnreasonedFenceIsLost(cfg: Config, at: Timestamp) returns (s: State)
    requires cfg.persist && cfg.maxRacks >= 1
    ensures Saved(cfg, s) && s.Declared() && s.sc.fenced == [FencedAuthority(BOOT, RACK, [], 0)]
    ensures !Reloadable(s) && LostAtRestart(cfg, s, at)
  {
    hide Reached; hide Saved; hide Inv; hide Reloadable; hide LostAtRestart; hide Stored; hide FenceProposal;
    var before := SavedRack(cfg, BOOT);
    UnreasonedFence(before);
    var e := FenceBoot(BOOT, [], 0, 0, true);
    s := FenceProposal(before, BOOT, [], 0, 0).value;
    ModestIsStored(cfg, s);
    TakenIsReached(cfg, before, e);
    ReachedIsInv(cfg, s);
    NotReloadable(s, RACK, FencedAuthority(BOOT, RACK, [], 0));
    LostExactly(cfg, s, at);
  }

  // ---- commits that the store cannot take --------------------------------------------------

  /** A superseding reason too long for the writer is accepted by every check and never saved. */
  lemma OverlongReasonIsNeverSaved(cfg: Config, at: Timestamp, s: State, req: Request, io: bool)
    requires cfg.persist && req.kind.SupersedeTopology? && |req.topologyReason| > MAX_TEXT
    ensures !Takes(cfg, s, Mutate(at, req, io))
  {
    hide Sound; hide Evaluate; hide Encode; hide Project;
    if Proposal(cfg, at, s, req).Some? {
      var t := Proposal(cfg, at, s, req).value;
      assert t.sc.topology.reason == req.topologyReason by { SupersedingReason(cfg, at, s, req); }
      hide Proposal;
      ProjectionScalars(t);
      assert !FitsState(Project(t)) by { assert !FitsTopology(Project(t).sc.topology); }
      EncodesExactly(Project(t));
    }
  }

  lemma SupersedingReason(cfg: Config, at: Timestamp, s: State, req: Request)
    requires req.kind.SupersedeTopology? && Proposal(cfg, at, s, req).Some? && req.topologyReason != []
    ensures Proposal(cfg, at, s, req).value.sc.topology.reason == req.topologyReason
  {
    hide Sound; hide Evaluate; hide ValidateCommon; hide TopologyMoved; hide SilencedLinks; hide Ascii;
  }

  /** Nothing before the store objects to it. */
  lemma OverlongReasonIsProposed(cfg: Config, s: State, reason: Text)
    requires Inv(s) && Young(s)
    ensures Proposal(cfg, 0, s, Superseding(s, reason)).Some?
  {
    hide IsIdentity; hide Inv; hide SilencedLinks; hide Proposal; hide Ascii;
    ProposedExactly(cfg, 0, s, Superseding(s, reason));
  }

  function Superseding(s: State, reason: Text): Request {
    Ask(s, SupersedeTopology, [], None, 0).(targetEpoch := Next(s.sc.topologyEpoch), topologyReason := reason)
  }
}
