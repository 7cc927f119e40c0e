/** What lasts over whole runs: identities, generations, retirements, fences, and what the store holds. */
module Runs {
  import opened Foundation
  import opened Sorting
  import opened EvidenceStamps
  import opened Records
  import opened Readiness
  import opened Invariants
  import opened Mutations
  import opened Preservation
  import opened Engine
  import opened Durable
  import opened Recovery
  import opened Container
  import opened System

  // ---- what never goes back --------------------------------------------------------------

  predicate RacksLast(s: State, t: State) {
    forall k | k in s.racks :: k in t.racks && RackFollows(s.racks[k], t.racks[k])
  }

  predicate CountersLast(a: Scalars, b: Scalars) {
    && b.epoch == a.epoch && a.coordinatorEpoch <= b.coordinatorEpoch && a.generation <= b.generation
    && a.membershipGeneration <= b.membershipGeneration && a.topologyEpoch <= b.topologyEpoch
    && a.topologyGeneration <= b.topologyGeneration && a.connectivityGeneration <= b.connectivityGeneration
    && a.healthGeneration <= b.healthGeneration && a.constraintGeneration <= b.constraintGeneration
    && a.snapshotGeneration <= b.snapshotGeneration && a.publicationGeneration <= b.publicationGeneration
    && (forall kind: DomainKind :: a.domainGenerations.Get(kind) <= b.domainGenerations.Get(kind))
  }

  ghost predicate FencesLast(s: State, t: State) { forall b :: s.IsFenced(b) ==> t.IsFenced(b) }

  /** Once a cluster is declared, t comes after s in its history. */
  ghost predicate Later(s: State, t: State) {
    s.Declared() ==>
      && t.Declared() && t.id == s.id && CountersLast(s.sc, t.sc) && RacksLast(s, t)
      && DomainsLast(s, t) && ConstraintsLast(s, t)
      && (forall r | r in s.sc.retired :: r in t.sc.retired)
      && FencesLast(s, t)
  }

  lemma LaterIsReflexive(s: State)
    ensures Later(s, s)
  {}

  lemma LaterIsTransitive(s: State, t: State, u: State)
    requires Later(s, t) && Later(t, u)
    ensures Later(s, u)
  {
    forall k | s.Declared() && k in s.racks ensures k in u.racks && RackFollows(s.racks[k], u.racks[k]) {
      assert k in t.racks && RackFollows(s.racks[k], t.racks[k]);
    }
  }

  lemma SealedIsLater(now: Timestamp, s: State, t: State)
    requires s.Declared() && Step(s, t) && t.sc.generation < MAX_U64
    ensures Later(s, Sealed(now, Settle(t)))
  {
    hide Evaluate; hide LinksStep; hide RetirementExact;
    var f := Sealed(now, Settle(t));
    forall b | s.IsFenced(b) ensures f.IsFenced(b) {
      var e :| e in s.sc.fenced && e.boot == b;
      assert e in f.sc.fenced;
    }
  }

  lemma ProposalIsLater(cfg: Config, now: Timestamp, s: State, req: Request)
    requires Inv(s) && Proposal(cfg, now, s, req).Some?
    ensures Later(s, Proposal(cfg, now, s, req).value)
    ensures s.Declared() ==> Proposal(cfg, now, s, req).value.sc.generation == s.sc.generation + 1
  {
    hide Later; hide Sound; hide Wired; hide Settled; hide Apply; hide Step; hide Evaluate;
    var t := Apply(cfg, now, s, req).next;
    if s.Declared() {
      ApplySteps(cfg, now, s, req);
      SealedIsLater(now, s, t);
      StepKeepsGeneration(s, t);
    } else {
      UndeclaredIsEarlier(s, Proposal(cfg, now, s, req).value);
    }
  }

  lemma StepKeepsGeneration(s: State, t: State)
    requires Step(s, t)
    ensures t.sc.generation == s.sc.generation
  {}

  lemma UndeclaredIsEarlier(s: State, t: State)
    requires !s.Declared()
    ensures Later(s, t)
  {}

  lemma QuietedIsLater(s: State, u: State)
    requires Quieted(s, u)
    ensures Later(s, u)
  {
    hide LinkQuiet; hide SameEnds;
    forall b | s.IsFenced(b) ensures u.IsFenced(b) {
      var e :| e in s.sc.fenced && e.boot == b;
      assert e in u.sc.fenced;
    }
  }

  lemma BumpedIsLater(u: State, f: State)
    requires SameWiring(u, f) && u.sc.generation <= f.sc.generation
    ensures Later(u, f)
  {
    assert forall b :: f.IsFenced(b) == u.IsFenced(b);
  }

  lemma FenceIsLater(s: State, boot: Id, reason: Text, stamp: Timestamp, at: Timestamp)
    requires Inv(s) && FenceProposal(s, boot, reason, stamp, at).Some?
    ensures Later(s, FenceProposal(s, boot, reason, stamp, at).value)
    ensures FenceProposal(s, boot, reason, stamp, at).value.sc.generation == s.sc.generation + 1
    ensures FenceProposal(s, boot, reason, stamp, at).value.IsFenced(boot)
  {
    var u, f := Fenced(s, boot, reason, stamp), FenceProposal(s, boot, reason, stamp, at).value;
    FencedIsDeclared(s, boot, reason, stamp, at);
    assert BodySound(s) && s.sc.generation != 0 by { hide BodySound; hide Settled; hide ReferencesResolve; }
    hide FencedList; hide FencedRacks; hide FencedLinks; hide Evaluate; hide Inv; hide Later; hide Quieted;
    assert SameWiring(u, f);
    assert f.IsFenced(boot) by { FencedListGrows(s, boot, reason, stamp); assert f.sc.fenced == u.sc.fenced; }
    FenceQuiets(s, boot, reason, stamp);
    QuietedIsLater(s, u);
    BumpedIsLater(u, f);
    LaterIsTransitive(s, u, f);
  }

  // ---- restarts --------------------------------------------------------------------------

  predicate Publishing(racks: map<Id, RackRecord>, boot: Id) {
    exists k | k in racks :: racks[k].reference.boot == boot
  }

  predicate RackReborn(a: RackRecord, b: RackRecord) {
    && b.reference.rack == a.reference.rack && b.reference.generation == a.reference.generation
    && b.membership == a.membership && b.membershipGeneration == a.membershipGeneration
    && b.reference.boot == a.reference.boot && b.reference.publication == a.reference.publication
    && b.reference.composition == a.reference.composition && b.reference.endpoints == a.reference.endpoints
    && b.reference.hints == a.reference.hints && b.reference.origin == a.reference.origin
    && b.reference.rackLifecycle == a.reference.rackLifecycle
    && b.reference.publisher == Some(a.reference.publisher.GetOr(Ascii("cluster-fabric-unknown")))
    && !b.authoritative && b.reference.currentness.RevalidationRequired? && b.reference.health == 0
    && b.reference.evidence
       == Evidence(Provenance.Reconstructed, a.membershipEvidence.observedAt, Freshness.RevalidationRequired, 0)
    && b.membershipEvidence.RequiresRevalidation()
  }

  predicate LinkReborn(a: Link, b: Link) {
    && b == a.(reachability := Reachability.Unknown, health := 0, header := a.header.(evidence := b.header.evidence))
    && b.header.evidence.RequiresRevalidation()
  }

  predicate RacksReborn(s: State, u: State) {
    && u.racks.Keys == s.racks.Keys
    && forall k | k in s.racks ::
         && RackReborn(s.racks[k], u.racks[k]) && u.racks[k].acceptedAt == s.sc.generation
         && u.racks[k].reference.clusterEpoch == s.sc.epoch
         && u.racks[k].reference.coordinatorEpoch == NextEpoch(s.sc.coordinatorEpoch)
  }

  predicate LinksReborn(s: State, u: State) {
    u.links.Keys == s.links.Keys && forall k | k in s.links :: LinkReborn(s.links[k], u.links[k])
  }

  predicate DomainsReborn(s: State, u: State) {
    && u.domains.Keys == s.domains.Keys
    && forall k | k in s.domains ::
         u.domains[k] == s.domains[k].(header := s.domains[k].header.(evidence := u.domains[k].header.evidence))
  }

  predicate ConstraintsReborn(s: State, u: State) {
    && u.constraints.Keys == s.constraints.Keys
    && forall k | k in s.constraints ::
         u.constraints[k]
         == s.constraints[k].(header := s.constraints[k].header.(evidence := u.constraints[k].header.evidence))
  }

  ghost predicate FencesReborn(s: State, u: State) {
    && (forall f | f in s.sc.fenced :: f in u.sc.fenced)
    && (forall b :: u.IsFenced(b) <==> s.IsFenced(b) || Publishing(s.racks, b))
  }

  /**
   * Everything durable is back, nothing is authoritative, every recovered incarnation is fenced, links claim nothing.
   */
  ghost predicate Reborn(s: State, u: State) {
    && u.id == s.id
    && u.sc == s.sc.(coordinatorEpoch := NextEpoch(s.sc.coordinatorEpoch), lifecycle := Evaluate(u),
      fenced := u.sc.fenced)
    && RacksReborn(s, u) && LinksReborn(s, u) && DomainsReborn(s, u) && ConstraintsReborn(s, u)
    && FencesReborn(s, u)
  }

  lemma RebootedRack(s: State, e: u64, now: Timestamp, fences: seq<FencedAuthority>, k: Id)
    requires RecordsPlaced(s) && k in s.racks
    ensures var r := Rebooted(s, e, now, fences).racks[k];
      && RackReborn(s.racks[k], r) && r.acceptedAt == s.sc.generation && r.reference.clusterEpoch == s.sc.epoch
      && r.reference.coordinatorEpoch == e
  {}

  lemma RebootedRecords(s: State, e: u64, now: Timestamp, fences: seq<FencedAuthority>)
    requires RecordsPlaced(s) && e == NextEpoch(s.sc.coordinatorEpoch)
    ensures var u := Rebooted(s, e, now, fences);
      RacksReborn(s, u) && LinksReborn(s, u) && DomainsReborn(s, u) && ConstraintsReborn(s, u)
  {
    hide RecordsPlaced; hide RackReborn; hide Revived;
    forall k | k in s.racks { RebootedRack(s, e, now, fences, k); }
  }

  lemma RebootedFences(s: State, now: Timestamp)
    requires Ascending(s.sc.fenced, FencedBefore)
    ensures var fences := RebootFences(s, Project(s).racks, now);
      && (forall f | f in s.sc.fenced :: f in fences)
      && (forall b :: Listing(fences, b) <==> s.IsFenced(b) || Publishing(s.racks, b))
  {
    var racks := Project(s).racks;
    RebootFencesCover(s, racks, now);
    forall b ensures Publishes(racks, b) <==> Publishing(s.racks, b) {
      ProjectionPublishes(s, b);
      if Publishing(s.racks, b) {
        var k :| k in s.racks && s.racks[k].reference.boot == b;
        assert k in RacksOf(s.racks, b);
      }
    }
    hide Project; hide RebootFences; hide Publishes; hide Publishing; hide Listing;
  }

  /** Restarting from a saved state. */
  lemma RecoveryIsReborn(s: State, now: Timestamp)
    requires Inv(s) && s.Declared()
    ensures Reborn(s, Recover(Project(s), NextEpoch(s.sc.coordinatorEpoch), now))
  {
    hide Reborn; hide Project; hide Settle; hide Unsettled; hide Rebooted; hide RebootFences;
    assert RecordsPlaced(s) && Ascending(s.sc.fenced, FencedBefore) by { PlacedAndFenced(s); }
    hide Inv; hide RecordsPlaced; hide Ascending;
    var e, fences := NextEpoch(s.sc.coordinatorEpoch), RebootFences(s, Project(s).racks, now);
    UnsettledIsRebooted(s, e, now);
    RebootedFences(s, now);
    SettledReborn(s, e, now, fences);
  }

  /** Evidence as a recovery at the given time leaves it: judged by age, unless it waits for revalidation. */
  predicate AgedTo(now: Timestamp, was: Evidence, e: Evidence) {
    e == if was.freshness.RevalidationRequired? then was
         else was.(freshness := if was.observedAt <= 0 then Freshness.Unknown
                                else if was.ttl <= 0 || now < was.observedAt || now - was.observedAt <= was.ttl
                                then Freshness.Fresh else Freshness.Stale)
  }

  /** A fence of the recovered state is an old one, or names a recovered rack and the restart. */
  predicate FenceOfRestart(s: State, now: Timestamp, f: FencedAuthority) {
    || f in s.sc.fenced
    || (&& f.rack in s.racks && f.boot == s.racks[f.rack].reference.boot && f.at == now
        && f.reason == Ascii("coordinator_restart"))
  }

  lemma {:induction false} FenceAllNames(fenced: seq<FencedAuthority>, racks: seq<DurableRack>, now: Timestamp)
    ensures forall f | f in FenceAll(fenced, racks, now) && f !in fenced ::
      && f.at == now && f.reason == Ascii("coordinator_restart")
      && exists i | 0 <= i < |racks| :: racks[i].rack == f.rack && racks[i].boot == f.boot
  {
    hide Ascii;
    if racks != [] {
      var front, last := racks[..|racks| - 1], racks[|racks| - 1];
      FenceAllNames(fenced, front, now);
      forall f | f in FenceAll(fenced, racks, now) && f !in fenced
        ensures exists i | 0 <= i < |racks| :: racks[i].rack == f.rack && racks[i].boot == f.boot
      {
        if f in FenceAll(fenced, front, now) {
          var i :| 0 <= i < |front| && front[i].rack == f.rack && front[i].boot == f.boot;
          assert racks[i] == front[i];
        } else {
          assert racks[|racks| - 1].rack == f.rack;
        }
      }
    }
  }

  lemma ProjectedRacks(s: State)
    ensures forall i | 0 <= i < |Project(s).racks| ::
      var r := Project(s).racks[i]; r.rack in s.racks && r.boot == s.racks[r.rack].reference.boot
  {
    var m := DurableRacks(s.racks);
    var keys := SortedKeys(m.Keys);
    SortedKeysAscend(m.Keys);
    hide SortedKeys; hide Column;
    assert Project(s).racks == Pick(m, keys);
    forall i | 0 <= i < |keys|
      ensures keys[i] in s.racks && Pick(m, keys)[i] == DurableOf(s.racks[keys[i]]).(rack := keys[i])
    {
      assert keys[i] in keys;
    }
  }

  lemma RestartFences(s: State, now: Timestamp)
    ensures forall f | f in RebootFences(s, Project(s).racks, now) :: FenceOfRestart(s, now, f)
  {
    var racks := Project(s).racks;
    var all := FenceAll(s.sc.fenced, racks, now);
    ProjectedRacks(s);
    FenceAllNames(s.sc.fenced, racks, now);
    SortIsPermutation(all, FencedBefore);
    hide Project; hide FenceAll; hide Sort; hide Ascii;
    forall f | f in RebootFences(s, racks, now) ensures FenceOfRestart(s, now, f) {
      assert f in multiset(Sort(all, FencedBefore)) && f in all;
      if f !in s.sc.fenced {
        var i :| 0 <= i < |racks| && racks[i].rack == f.rack && racks[i].boot == f.boot;
      }
    }
  }

  ghost predicate RecordsAged(s: State, u: State, now: Timestamp) {
    && (forall k | k in s.domains ::
          k in u.domains && AgedTo(now, s.domains[k].header.evidence, u.domains[k].header.evidence))
    && (forall k | k in s.constraints ::
          k in u.constraints && AgedTo(now, s.constraints[k].header.evidence, u.constraints[k].header.evidence))
    && (forall f | f in u.sc.fenced :: FenceOfRestart(s, now, f))
  }

  lemma RebootedAges(s: State, e: u64, now: Timestamp, fences: seq<FencedAuthority>)
    requires forall f | f in fences :: FenceOfRestart(s, now, f)
    ensures RecordsAged(s, Settle(Rebooted(s, e, now, fences)), now)
  {
    hide Revived; hide Evaluate; hide FenceOfRestart;
  }

  /** What a restart does to the evidence of domains and constraints, and which fences it adds. */
  lemma RecoveryAgesRecords(s: State, now: Timestamp)
    requires Inv(s) && s.Declared()
    ensures RecordsAged(s, Recover(Project(s), NextEpoch(s.sc.coordinatorEpoch), now), now)
  {
    assert RecordsPlaced(s) by { PlacedAndFenced(s); }
    hide Inv; hide RecordsPlaced; hide Settle; hide Project; hide Unsettled; hide RebootFences; hide Rebooted;
    hide RecordsAged; hide FenceOfRestart;
    var e, fences := NextEpoch(s.sc.coordinatorEpoch), RebootFences(s, Project(s).racks, now);
    UnsettledIsRebooted(s, e, now);
    RestartFences(s, now);
    RebootedAges(s, e, now, fences);
  }

  lemma PlacedAndFenced(s: State)
    requires Inv(s)
    ensures RecordsPlaced(s) && Ascending(s.sc.fenced, FencedBefore)
  {
    hide RecordsPlaced; hide ReferencesResolve; hide Settled; hide Paced; hide CountersSound; hide LifecycleSound;
    hide CountsSound; hide RackSound; hide LinkSound; hide DomainSound; hide ConstraintSound; hide WithdrawnSound;
  }

  lemma UnsettledIsRebooted(s: State, e: u64, now: Timestamp)
    requires RecordsPlaced(s)
    ensures Unsettled(Project(s), e, now) == Rebooted(s, e, now, RebootFences(s, Project(s).racks, now))
  {
    hide Unsettled; hide Rebooted; hide Project; hide Lists; hide FenceAll; hide Sort;
    ProjectionLists(s);
    RecoveryOfList(Project(s), s, e, now);
  }

  lemma SettlingKeepsReborn(s: State, r: State)
    requires RacksReborn(s, r) && LinksReborn(s, r) && DomainsReborn(s, r) && ConstraintsReborn(s, r)
    requires FencesReborn(s, r)
    ensures var u := Settle(r);
      && RacksReborn(s, u) && LinksReborn(s, u) && DomainsReborn(s, u) && ConstraintsReborn(s, u)
      && FencesReborn(s, u) && Evaluate(u) == u.sc.lifecycle
  {
    hide RackReborn; hide LinkReborn; hide Evaluate; hide Publishing;
    var u := Settle(r);
    assert forall b :: u.IsFenced(b) == r.IsFenced(b);
    EvaluationIsIdempotent(r, u);
  }

  lemma SettledReborn(s: State, e: u64, now: Timestamp, fences: seq<FencedAuthority>)
    requires RecordsPlaced(s) && e == NextEpoch(s.sc.coordinatorEpoch)
    requires forall f | f in s.sc.fenced :: f in fences
    requires forall b :: Listing(fences, b) <==> s.IsFenced(b) || Publishing(s.racks, b)
    ensures Reborn(s, Settle(Rebooted(s, e, now, fences)))
  {
    var r := Rebooted(s, e, now, fences);
    RebootedRecords(s, e, now, fences);
    hide RecordsPlaced; hide RacksReborn; hide LinksReborn; hide DomainsReborn; hide ConstraintsReborn;
    hide Evaluate; hide Publishing; hide Revived;
    assert FencesReborn(s, r) by { assert forall b :: r.IsFenced(b) == Listing(fences, b); }
    SettlingKeepsReborn(s, r);
  }

  lemma RebornIsLater(s: State, u: State)
    requires Reborn(s, u) && s.Declared()
    ensures Later(s, u)
  {
    hide LinkReborn; hide Evaluate; hide Publishing;
  }

  /** Restarting twice from the same container takes nothing further. */
  lemma RebornTwiceIsLater(s: State, u: State, v: State)
    requires Reborn(s, u) && Reborn(s, v) && s.Declared()
    ensures Later(u, v)
  {
    forall k | k in u.racks ensures k in v.racks && RackFollows(u.racks[k], v.racks[k]) {
      RebornRacksAgree(s, u, v, k);
    }
    RebornCountersAgree(s, u, v);
    RebornFencesAgree(s, u, v);
    RebornRecordsAgree(s, u, v);
    hide Reborn; hide RackFollows; hide State.IsFenced; hide CountersLast; hide FencesLast;
    hide DomainsLast; hide ConstraintsLast;
  }

  lemma RebornCountersAgree(s: State, u: State, v: State)
    requires Reborn(s, u) && Reborn(s, v) && s.Declared()
    ensures u.id == v.id && u.Declared() && v.Declared() && CountersLast(u.sc, v.sc) && u.sc.retired == v.sc.retired
  {
    hide RackReborn; hide LinkReborn; hide Evaluate; hide Publishing; hide State.IsFenced;
  }

  lemma RebornFencesAgree(s: State, u: State, v: State)
    requires Reborn(s, u) && Reborn(s, v)
    ensures FencesLast(u, v)
  {
    hide RackReborn; hide LinkReborn; hide Evaluate; hide Publishing; hide State.IsFenced;
  }

  lemma RebornRecordsAgree(s: State, u: State, v: State)
    requires Reborn(s, u) && Reborn(s, v)
    ensures DomainsLast(u, v) && ConstraintsLast(u, v)
  {
    hide RackReborn; hide LinkReborn; hide Evaluate; hide Publishing; hide State.IsFenced;
    assert u.domains.Keys == v.domains.Keys;
  }

  lemma RebornRacksAgree(s: State, u: State, v: State, k: Id)
    requires Reborn(s, u) && Reborn(s, v) && k in u.racks
    ensures k in v.racks && RackFollows(u.racks[k], v.racks[k])
  {
    hide LinkReborn; hide Evaluate; hide Publishing;
    assert RackReborn(s.racks[k], u.racks[k]) && RackReborn(s.racks[k], v.racks[k]);
  }

  // ---- the live state and the store ------------------------------------------------------

  /** With persistence on, the live state is the saved one, its rebirth, or a cluster not declared yet. */
  ghost predicate Tracks(cfg: Config, y: Sys) {
    cfg.persist && y.live.Declared() ==> y.saved.Some? && (y.live == y.saved.value || Reborn(y.saved.value, y.live))
  }

  /** The event is no restart, or it is one from a container that can be read back. */
  ghost predicate Gentle(cfg: Config, y: Sys, e: Event) {
    hide Reloadable;
    e.Reboot? ==> cfg.persist && (y.saved.Some? ==> Reloadable(y.saved.value))
  }

  ghost predicate Smooth(cfg: Config, y: Sys, events: seq<Event>) {
    hide Gentle; hide Run;
    events == []
    || (Smooth(cfg, y, events[..|events| - 1])
      && Gentle(cfg, Run(cfg, y, events[..|events| - 1]), events[|events| - 1]))
  }

  /** Nothing but an accepted commit, an effective fence or a restart changes a declared state. */
  lemma RefusedKeepsState(cfg: Config, at: Timestamp, s: State, req: Request)
    requires Inv(s)
    ensures s.Declared() ==> Commit(cfg, at, s, req, false).state == s
    ensures !s.Declared() ==> !Commit(cfg, at, s, req, false).state.Declared()
  {
    hide Sound; hide Wired; hide Settled; hide Apply; hide Settle;
    if s.Declared() && Apply(cfg, at, s, req).Changed? {
      ApplySteps(cfg, at, s, req);
      StepKeepsIdentity(s, Apply(cfg, at, s, req).next);
    }
  }

  lemma StepKeepsIdentity(s: State, t: State)
    requires Step(s, t)
    ensures t.id == s.id
  {}

  lemma TakenIsLater(cfg: Config, s: State, e: Event)
    requires Inv(s) && Takes(cfg, s, e)
    ensures Later(s, Proposed(cfg, s, e).value)
    ensures s.Declared() ==> Proposed(cfg, s, e).value.sc.generation == s.sc.generation + 1
  {
    hide Inv; hide Later; hide Proposal; hide FenceProposal; hide Stored;
    match e
    case Mutate(at, request, _) => ProposalIsLater(cfg, at, s, request);
    case FenceBoot(boot, reason, stamp, at, _) => FenceIsLater(s, boot, reason, stamp, at);
  }

  lemma RestartIsReborn(cfg: Config, y: Sys, at: Timestamp)
    requires SysInv(y) && y.saved.Some? && Reloadable(y.saved.value)
    ensures Reborn(y.saved.value, Restart(cfg, Load(y.store), at))
  {
    hide Inv; hide Reborn; hide Load; hide Project; hide Recover; hide Encode; hide Reloadable;
    LoadFindsSaved(y);
    ProjectionScalars(y.saved.value);
    RecoveryIsReborn(y.saved.value, at);
  }

  lemma RestartIsLater(cfg: Config, y: Sys, at: Timestamp)
    requires SysInv(y) && Tracks(cfg, y) && Gentle(cfg, y, Reboot(at))
    ensures Later(y.live, Restart(cfg, Load(y.store), at))
    ensures y.live.Declared() ==> Restart(cfg, Load(y.store), at).sc.generation == y.live.sc.generation
  {
    hide Inv; hide Reborn; hide Load; hide Project; hide Encode; hide Restart; hide Later; hide Reloadable;
    var u := Restart(cfg, Load(y.store), at);
    if y.live.Declared() {
      RestartIsReborn(cfg, y, at);
      if y.live == y.saved.value { RebornIsLater(y.saved.value, u); }
      else { RebornTwiceIsLater(y.saved.value, y.live, u); RebornKeepsGeneration(y.saved.value, y.live); }
      RebornKeepsGeneration(y.saved.value, u);
    } else {
      UndeclaredIsEarlier(y.live, u);
    }
  }

  /** A restart comes back declared exactly when the container can be read back. */
  lemma RestartForgetsUnlessReloadable(cfg: Config, y: Sys, at: Timestamp)
    requires SysInv(y)
    ensures var u := React(cfg, y, Reboot(at)).live;
      && (u.Declared() <==> y.saved.Some? && Reloadable(y.saved.value))
      && (u.Declared() ==> Reborn(y.saved.value, u))
      && (!u.Declared() ==> u == FreshState(cfg.cluster, cfg.contract, NextEpoch(1)))
  {
    hide Inv; hide Reborn; hide Load; hide Project; hide Encode; hide Reloadable; hide Recover;
    LoadFindsSaved(y);
    if y.saved.Some? && Reloadable(y.saved.value) {
      RestartIsReborn(cfg, y, at);
      RebornIsDeclared(y.saved.value, Restart(cfg, Load(y.store), at));
    }
  }

  lemma RebornIsDeclared(s: State, u: State)
    requires Reborn(s, u)
    ensures u.Declared() <==> s.Declared()
  {
    hide Evaluate; hide RackReborn; hide LinkReborn;
  }

  /** Loading saves nothing: restarting again without a commit in between takes the same coordinator epoch. */
  lemma RestartsShareTheirEpoch(cfg: Config, y: Sys, first: Timestamp, second: Timestamp)
    requires SysInv(y)
    ensures var once := React(cfg, y, Reboot(first));
      React(cfg, once, Reboot(second)).live.sc.coordinatorEpoch == once.live.sc.coordinatorEpoch
  {
    hide Inv; hide Load; hide Project; hide Encode; hide Decode;
    var once := React(cfg, y, Reboot(first));
    assert once.store == y.store;
    SameEpoch(cfg, Load(y.store), first, second);
  }

  lemma SameEpoch(cfg: Config, loaded: Option<Persisted>, first: Timestamp, second: Timestamp)
    ensures Restart(cfg, loaded, first).sc.coordinatorEpoch == Restart(cfg, loaded, second).sc.coordinatorEpoch
  {
    hide RevivedRacks; hide RecoveredDomains; hide Assigned; hide Evaluate; hide Sort; hide FenceAll;
  }

  lemma RebornKeepsGeneration(s: State, u: State)
    requires Reborn(s, u)
    ensures u.sc.generation == s.sc.generation
  {
    hide Evaluate; hide RackReborn; hide LinkReborn;
  }

  lemma ReactKeepsTracks(cfg: Config, y: Sys, e: Event)
    requires SysInv(y) && Tracks(cfg, y)
    ensures Tracks(cfg, React(cfg, y, e))
  {
    hide Inv; hide Reborn; hide Load; hide Project; hide Encode; hide Restart; hide Reloadable; hide Commit;
    hide Proposed;
    if e.Reboot? {
      RestartForgetsUnlessReloadable(cfg, y, e.at);
    } else if !Takes(cfg, y.live, e) && e.Mutate? {
      RefusedKeepsState(cfg, e.at, y.live, e.request);
    }
  }

  lemma ReactIsLater(cfg: Config, y: Sys, e: Event)
    requires SysInv(y) && Tracks(cfg, y) && Gentle(cfg, y, e)
    ensures Later(y.live, React(cfg, y, e).live)
    ensures y.live.Declared() ==>
      React(cfg, y, e).live.sc.generation == y.live.sc.generation + if Takes(cfg, y.live, e) then 1 else 0
  {
    hide Inv; hide Reborn; hide Load; hide Project; hide Encode; hide Restart; hide Later; hide Reloadable; hide Commit;
    hide Proposed;
    if e.Reboot? {
      RestartIsLater(cfg, y, e.at);
    } else if Takes(cfg, y.live, e) {
      TakenIsLater(cfg, y.live, e);
    } else {
      LaterIsReflexive(y.live);
      if e.Mutate? {
        RefusedKeepsState(cfg, e.at, y.live, e.request);
        if !y.live.Declared() { UndeclaredIsEarlier(y.live, Commit(cfg, e.at, y.live, e.request, false).state); }
      }
    }
  }

  /** Accepted commits and effective fences in a run. */
  ghost function Taken(cfg: Config, y: Sys, events: seq<Event>): nat {
    hide Run; hide Takes;
    if events == [] then 0
    else
      var front := events[..|events| - 1];
      Taken(cfg, y, front) + if Takes(cfg, Run(cfg, y, front).live, events[|events| - 1]) then 1 else 0
  }

  /** Whatever happens, with persistence on the store holds the encoding of the last committed state. */
  lemma {:induction false} StoreFollowsCommits(cfg: Config, y: Sys, events: seq<Event>)
    requires SysInv(y) && Tracks(cfg, y)
    ensures SysInv(Run(cfg, y, events)) && Tracks(cfg, Run(cfg, y, events))
  {
    hide SysInv; hide Tracks; hide React;
    if events != [] {
      var front, last := events[..|events| - 1], events[|events| - 1];
      StoreFollowsCommits(cfg, y, front);
      ReactKeepsInv(cfg, Run(cfg, y, front), last);
      ReactKeepsTracks(cfg, Run(cfg, y, front), last);
    }
  }

  /**
   * Over any run whose restarts find a readable container: identities, retirements and fences stay, memberships stay
   * decided, no generation falls, and the cluster generation counts exactly the commits and fences that took effect.
   */
  lemma {:induction false} RunIsLater(cfg: Config, y: Sys, events: seq<Event>)
    requires SysInv(y) && Tracks(cfg, y) && Smooth(cfg, y, events)
    ensures Later(y.live, Run(cfg, y, events).live)
    ensures y.live.Declared() ==>
      Run(cfg, y, events).live.sc.generation == y.live.sc.generation + Taken(cfg, y, events)
  {
    hide SysInv; hide Tracks; hide React; hide Later; hide Gentle; hide Takes;
    if events == [] {
      LaterIsReflexive(y.live);
    } else {
      var front, last := events[..|events| - 1], events[|events| - 1];
      RunIsLater(cfg, y, front);
      StoreFollowsCommits(cfg, y, front);
      var z := Run(cfg, y, front);
      ReactIsLater(cfg, z, last);
      LaterIsTransitive(y.live, z.live, React(cfg, z, last).live);
      if y.live.Declared() { LaterIsDeclared(y.live, z.live); }
    }
  }

  lemma LaterIsDeclared(s: State, t: State)
    requires Later(s, t) && s.Declared()
    ensures t.Declared()
  {}

  // ---- consequences ----------------------------------------------------------------------

  lemma BootIsSound(cfg: Config, at: Timestamp)
    ensures SysInv(Boot(cfg, at)) && Tracks(cfg, Boot(cfg, at))
  {
    FreshIsInv(cfg, NextEpoch(1));
    hide Inv;
  }

  /** A fenced incarnation stays fenced, and none of its racks is ever authoritative again. */
  lemma FencesArePermanent(cfg: Config, y: Sys, events: seq<Event>, boot: Id)
    requires SysInv(y) && Tracks(cfg, y) && Smooth(cfg, y, events) && y.live.IsFenced(boot)
    ensures var t := Run(cfg, y, events).live;
      && t.IsFenced(boot) && Ascending(t.sc.fenced, FencedBefore)
      && forall k | k in t.racks && t.racks[k].authoritative :: t.racks[k].reference.boot != boot
  {
    hide Run; hide Tracks; hide Smooth; hide Later; hide Inv;
    RunIsLater(cfg, y, events);
    StoreFollowsCommits(cfg, y, events);
    FencedMeansDeclared(y.live, boot);
    LaterKeepsFences(y.live, Run(cfg, y, events).live, boot);
    FencedIsDisarmed(Run(cfg, y, events).live, boot);
  }

  lemma FencedMeansDeclared(s: State, boot: Id)
    requires Inv(s) && s.IsFenced(boot)
    ensures s.Declared()
  {}

  lemma LaterKeepsFences(s: State, t: State, boot: Id)
    requires Later(s, t) && s.Declared() && s.IsFenced(boot)
    ensures t.IsFenced(boot)
  {}

  lemma FencedIsDisarmed(t: State, boot: Id)
    requires Inv(t) && t.IsFenced(boot)
    ensures Ascending(t.sc.fenced, FencedBefore)
    ensures forall k | k in t.racks && t.racks[k].authoritative :: t.racks[k].reference.boot != boot
  {
    hide Wired; hide Settled; hide CountersSound; hide LinkSound; hide DomainSound; hide ConstraintSound;
    forall k | k in t.racks && t.racks[k].authoritative ensures t.racks[k].reference.boot != boot {
      assert RackSound(t, k);
    }
  }

  /** A retired rack stays listed, stays RETIRED and never holds authority again. */
  lemma RetirementIsPermanent(cfg: Config, y: Sys, events: seq<Event>, rack: Id)
    requires SysInv(y) && Tracks(cfg, y) && Smooth(cfg, y, events) && y.live.IsRetired(rack)
    ensures var t := Run(cfg, y, events).live;
      t.IsRetired(rack) && rack in t.racks && t.racks[rack].membership.Retired? && !t.racks[rack].authoritative
  {
    hide Run; hide Tracks; hide Smooth; hide Later; hide Inv;
    RunIsLater(cfg, y, events);
    StoreFollowsCommits(cfg, y, events);
    RetiredIsListed(y.live, rack);
    LaterKeepsRetirement(y.live, Run(cfg, y, events).live, rack);
    RetiredIsListed(Run(cfg, y, events).live, rack);
  }

  lemma LaterKeepsRetirement(s: State, t: State, rack: Id)
    requires Later(s, t) && s.Declared() && s.IsRetired(rack)
    ensures t.IsRetired(rack)
  {
    var r :| r in s.sc.retired && r.rack == rack;
    assert r in t.sc.retired;
  }

  /** RETIRED membership and the retired list agree, and neither goes with authority. */
  lemma RetiredIsListed(t: State, rack: Id)
    requires Inv(t)
    ensures t.IsRetired(rack) <==> rack in t.racks && t.racks[rack].membership.Retired?
    ensures t.IsRetired(rack) ==> t.Declared() && !t.racks[rack].authoritative
  {
    hide Settled; hide CountersSound; hide LinkSound; hide DomainSound; hide ConstraintSound; hide ReferencesResolve;
    hide RecordsPlaced; hide CountersKnown; hide WithdrawnSound; hide FencedSound; hide CountsSound;
    if t.IsRetired(rack) {
      var r :| r in t.sc.retired && r.rack == rack;
      assert rack in t.racks;
      assert RackSound(t, rack);
    }
  }

  /**
   * Authority is never made out of UNKNOWN: it rests on measured or reported, timestamped, fresh evidence of an
   * unfenced incarnation of a rack that is not retired and whose membership is decided.
   */
  lemma AuthorityIsEarned(cfg: Config, at: Timestamp, events: seq<Event>, rack: Id)
    requires var t := Run(cfg, Boot(cfg, at), events).live; rack in t.racks && t.racks[rack].authoritative
    ensures var t := Run(cfg, Boot(cfg, at), events).live; var r := t.racks[rack];
      && r.reference.evidence.IsCurrent() && !t.IsFenced(r.reference.boot) && !t.IsRetired(rack)
      && !r.membership.Unknown? && !r.membership.Retired?
  {
    hide Run; hide Inv; hide Tracks;
    BootIsSound(cfg, at);
    StoreFollowsCommits(cfg, Boot(cfg, at), events);
    EarnedIn(Run(cfg, Boot(cfg, at), events).live, rack);
  }

  lemma EarnedIn(t: State, rack: Id)
    requires Inv(t) && rack in t.racks && t.racks[rack].authoritative
    ensures var r := t.racks[rack];
      && r.reference.evidence.IsCurrent() && !t.IsFenced(r.reference.boot) && !t.IsRetired(rack)
      && !r.membership.Unknown? && !r.membership.Retired?
  {
    hide Settled; hide CountersSound; hide LinkSound; hide DomainSound; hide ConstraintSound; hide ReferencesResolve;
    hide RecordsPlaced; hide CountersKnown; hide WithdrawnSound; hide FencedSound; hide CountsSound;
    assert RackSound(t, rack);
  }

  lemma ReachableIsInv(cfg: Config, at: Timestamp, events: seq<Event>)
    ensures Inv(Run(cfg, Boot(cfg, at), events).live)
  {
    hide Run; hide Inv; hide Tracks;
    BootIsSound(cfg, at);
    StoreFollowsCommits(cfg, Boot(cfg, at), events);
  }

  /** A consumable cluster that asks for a current rack in any way has one: ACTIVE and authoritative. */
  lemma ConsumableClusterHasCurrentRack(cfg: Config, at: Timestamp, events: seq<Event>)
    requires var s := Run(cfg, Boot(cfg, at), events).live;
      Consumable(s.sc.lifecycle) && AsksForCurrentRack(s.sc.contract)
    ensures var s := Run(cfg, Boot(cfg, at), events).live;
      exists k | k in s.racks :: IsCurrentActive(s.racks[k]) && s.racks[k].reference.evidence.IsCurrent()
  {
    hide Run; hide Inv; hide Evaluate;
    ReachableIsInv(cfg, at, events);
    HasEarnedRack(Run(cfg, Boot(cfg, at), events).live);
  }

  lemma HasEarnedRack(s: State)
    requires Inv(s) && Consumable(s.sc.lifecycle) && AsksForCurrentRack(s.sc.contract)
    ensures exists k | k in s.racks :: IsCurrentActive(s.racks[k]) && s.racks[k].reference.evidence.IsCurrent()
  {
    hide Sound; hide Wired; hide Paced;
    ConsumableHasCurrentRack(s);
    var k :| k in s.racks && IsCurrentActive(s.racks[k]);
    EarnedIn(s, k);
  }

  /** Generations keep their distance in every reachable state. */
  lemma GenerationsAreDisciplined(cfg: Config, at: Timestamp, events: seq<Event>)
    ensures var s := Run(cfg, Boot(cfg, at), events).live;
      && (s.Declared() ==>
            s.sc.membershipGeneration < s.sc.generation && s.sc.topologyGeneration < s.sc.generation)
      && (forall k | k in s.links ::
            s.links[k].topologyEpoch <= s.sc.topologyEpoch && s.links[k].topologyGeneration < s.sc.topologyGeneration)
      && (forall k | k in s.domains :: 0 < s.domains[k].header.generation <= s.sc.domainGenerations.Get(k.0))
      && (forall k | k in s.racks :: s.racks[k].membershipGeneration <= s.sc.membershipGeneration)
  {
    hide Run;
    ReachableIsInv(cfg, at, events);
    hide Sound; hide Settled; hide ReferencesResolve; hide RetirementExact; hide AuthorityJustified; hide CountersKnown;
  }

  /** Whatever a request proposes, the checker's reference clauses hold of the candidate; they never reject. */
  lemma ReferenceClausesNeverReject(cfg: Config, at: Timestamp, events: seq<Event>, now: Timestamp, req: Request)
    requires Apply(cfg, now, Run(cfg, Boot(cfg, at), events).live, req).Changed?
    ensures ReferencesResolve(Settle(Apply(cfg, now, Run(cfg, Boot(cfg, at), events).live, req).next))
  {
    hide Run; hide Apply; hide Inv;
    ReachableIsInv(cfg, at, events);
    CandidateResolves(cfg, now, Run(cfg, Boot(cfg, at), events).live, req);
  }

  lemma CandidateResolves(cfg: Config, now: Timestamp, s: State, req: Request)
    requires Inv(s) && Apply(cfg, now, s, req).Changed?
    ensures ReferencesResolve(Settle(Apply(cfg, now, s, req).next))
  {
    hide Apply; hide Sound; hide Settled; hide Evaluate;
    CandidateIsWired(cfg, now, s, req);
    var t := Apply(cfg, now, s, req).next;
    hide RetirementExact; hide RecordsPlaced; hide AuthorityJustified;
    assert forall r :: Settle(t).IsMember(r) == t.IsMember(r);
  }

  /**
   * With persistence on, what a restart does to a fence or a retirement is decided by the container alone: both survive
   * exactly when the saved state can be read back.
   */
  lemma RestartDecidesPermanence(cfg: Config, y: Sys, at: Timestamp, boot: Id, rack: Id)
    requires SysInv(y) && Tracks(cfg, y) && cfg.persist && y.live.Declared()
    ensures y.live.IsFenced(boot) ==>
      (React(cfg, y, Reboot(at)).live.IsFenced(boot) <==> Reloadable(y.saved.value))
    ensures y.live.IsRetired(rack) ==>
      (React(cfg, y, Reboot(at)).live.IsRetired(rack) <==> Reloadable(y.saved.value))
  {
    hide Inv; hide Load; hide Project; hide Encode; hide Reloadable; hide Restart; hide Reborn; hide Later;
    var u := Restart(cfg, Load(y.store), at);
    RestartForgetsUnlessReloadable(cfg, y, at);
    if Reloadable(y.saved.value) {
      RestartIsLater(cfg, y, at);
      if y.live.IsFenced(boot) { LaterKeepsFences(y.live, u, boot); }
      if y.live.IsRetired(rack) { LaterKeepsRetirement(y.live, u, rack); }
    }
  }
}
