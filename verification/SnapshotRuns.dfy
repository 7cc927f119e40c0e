/** A snapshot that validates as current is the live state, however many commits and restarts lie between. */
module SnapshotRuns {
  import opened Foundation
  import opened Sorting
  import opened EvidenceStamps
  import opened Records
  import opened Readiness
  import opened Invariants
  import opened Mutations
  import opened Engine
  import opened Durable
  import opened Recovery
  import opened Container
  import opened System
  import opened Runs
  import opened Snapshots

  /** z either took another coordinator epoch, or moved on, or still is what was captured, up to its identity. */
  predicate Distinguishable(s: State, z: State) {
    || (z.Declared() && z.sc.coordinatorEpoch > s.sc.coordinatorEpoch)
    || z.sc.generation > s.sc.generation
    || z == s.(id := z.id)
  }

  /** A restart from a readable container that was saved no earlier than the capturing incarnation. */
  ghost predicate RestartsAnew(s: State, y: Sys) {
    hide Reloadable;
    s.sc.coordinatorEpoch < MAX_U64 && y.saved.Some? && Reloadable(y.saved.value)
    && y.saved.value.sc.coordinatorEpoch >= s.sc.coordinatorEpoch
  }

  ghost predicate Anchored(cfg: Config, y: Sys, events: seq<Event>) {
    hide Run; hide RestartsAnew;
    forall i | 0 <= i < |events| && events[i].Reboot? :: RestartsAnew(y.live, Run(cfg, y, events[..i]))
  }

  lemma TakenMovesOn(cfg: Config, z: State, e: Event)
    requires Inv(z) && Takes(cfg, z, e)
    ensures Proposed(cfg, z, e).value.sc.generation > z.sc.generation
    ensures z.Declared() ==> Proposed(cfg, z, e).value.sc.coordinatorEpoch >= z.sc.coordinatorEpoch
    ensures Proposed(cfg, z, e).value.Declared()
  {
    hide Inv; hide Stored; hide Proposed;
    ProposalIsInv(cfg, z, e);
    TakenIsLater(cfg, z, e);
    if !z.Declared() { GenerationIsKnown(z); GenerationIsKnown(Proposed(cfg, z, e).value); }
  }

  lemma GenerationIsKnown(s: State)
    requires Inv(s)
    ensures s.sc.generation == 0 <==> !s.Declared()
  {
    hide Sound; hide Settled; hide ReferencesResolve; hide RetirementExact; hide RecordsPlaced; hide AuthorityJustified;
  }

  lemma RestartTakesNewEpoch(cfg: Config, s: State, y: Sys, at: Timestamp)
    requires SysInv(y) && RestartsAnew(s, y)
    ensures Distinguishable(s, React(cfg, y, Reboot(at)).live)
  {
    hide Inv; hide Project; hide Encode; hide Load; hide Restart; hide Reloadable;
    RestartIsReborn(cfg, y, at);
    RebornIsDeclared(y.saved.value, Restart(cfg, Load(y.store), at));
    RebornEpoch(y.saved.value, Restart(cfg, Load(y.store), at));
  }

  lemma RebornEpoch(s: State, u: State)
    requires Reborn(s, u)
    ensures u.sc.coordinatorEpoch == NextEpoch(s.sc.coordinatorEpoch)
  {
    hide Evaluate; hide RackReborn; hide LinkReborn;
  }

  lemma RefusedKeepsRecords(cfg: Config, at: Timestamp, s: State, req: Request)
    requires Inv(s)
    ensures var t := Commit(cfg, at, s, req, false).state; t == s.(id := t.id) && (s.Declared() ==> t == s)
  {
    RefusedKeepsState(cfg, at, s, req);
    hide Sound; hide Wired; hide Settled; hide Apply; hide Settle;
  }

  lemma ReactStaysDistinguishable(cfg: Config, s: State, y: Sys, e: Event)
    requires SysInv(y) && Inv(s) && Distinguishable(s, y.live) && (e.Reboot? ==> RestartsAnew(s, y))
    ensures Distinguishable(s, React(cfg, y, e).live)
  {
    hide Inv; hide Project; hide Encode; hide Load; hide Restart; hide Proposed; hide Commit; hide RestartsAnew;
    if e.Reboot? {
      RestartTakesNewEpoch(cfg, s, y, e.at);
    } else if Takes(cfg, y.live, e) {
      TakenMovesOn(cfg, y.live, e);
    } else if e.Mutate? {
      RefusedKeepsRecords(cfg, e.at, y.live, e.request);
    }
  }

  lemma LiveIsInv(y: Sys)
    requires SysInv(y)
    ensures Inv(y.live)
  {
    hide Inv;
  }

  lemma {:induction false} RunStaysDistinguishable(cfg: Config, y: Sys, events: seq<Event>)
    requires SysInv(y) && Anchored(cfg, y, events)
    ensures Distinguishable(y.live, Run(cfg, y, events).live) && SysInv(Run(cfg, y, events))
  {
    hide SysInv; hide React; hide RestartsAnew; hide Inv;
    var s := y.live;
    LiveIsInv(y);
    if events == [] {
      assert s == s.(id := s.id);
    } else {
      var front, last := events[..|events| - 1], events[|events| - 1];
      assert Anchored(cfg, y, front) by {
        forall i | 0 <= i < |front| && front[i].Reboot? ensures RestartsAnew(y.live, Run(cfg, y, front[..i])) {
          assert front[..i] == events[..i] && events[i] == front[i];
        }
      }
      assert last.Reboot? ==> RestartsAnew(y.live, Run(cfg, y, front));
      hide Distinguishable; hide Anchored;
      RunStaysDistinguishable(cfg, y, front);
      ReactStaysDistinguishable(cfg, s, Run(cfg, y, front), last);
      ReactKeepsInv(cfg, Run(cfg, y, front), last);
    }
  }

  /**
   * Snapshot soundness: over any run without a restart, and over any run whose restarts load a container saved by the
   * capturing incarnation or a later one, `current` means that the live state equals the captured one in every field.
   */
  lemma CurrentMeansEqual(cfg: Config, y: Sys, events: seq<Event>)
    requires SysInv(y) && Anchored(cfg, y, events)
    ensures Matches(y.live, Run(cfg, y, events).live) ==> Run(cfg, y, events).live == y.live
  {
    hide SysInv; hide Run; hide Anchored;
    RunStaysDistinguishable(cfg, y, events);
    hide RackHolds;
  }

  // ---- the same, with a condition at capture time alone ----------------------------------

  /** The store holds a state of the incarnation s was captured in, or of a later one. */
  ghost predicate SavedSince(s: State, y: Sys) {
    y.saved.Some? && y.saved.value.sc.coordinatorEpoch >= s.sc.coordinatorEpoch
  }

  lemma {:induction false} SmoothPrefix(cfg: Config, y: Sys, events: seq<Event>, i: nat)
    requires Smooth(cfg, y, events) && i <= |events|
    ensures Smooth(cfg, y, events[..i])
    ensures i < |events| ==> Gentle(cfg, Run(cfg, y, events[..i]), events[i])
    decreases |events|
  {
    hide Run; hide Gentle;
    if i == |events| {
      assert events[..i] == events;
    } else {
      var front := events[..|events| - 1];
      if i < |front| { SmoothPrefix(cfg, y, front, i); assert front[..i] == events[..i] && front[i] == events[i]; }
    }
  }

  lemma ReactKeepsSaved(cfg: Config, s: State, y: Sys, e: Event)
    requires SysInv(y) && y.live.Declared() && y.live.sc.coordinatorEpoch >= s.sc.coordinatorEpoch && SavedSince(s, y)
    ensures SavedSince(s, React(cfg, y, e))
  {
    hide Inv; hide Project; hide Encode; hide Load; hide Restart; hide Proposed; hide Commit;
    if Takes(cfg, y.live, e) { TakenMovesOn(cfg, y.live, e); }
  }

  lemma LaterEpoch(s: State, t: State)
    requires Later(s, t) && s.Declared()
    ensures t.Declared() && t.sc.coordinatorEpoch >= s.sc.coordinatorEpoch
  {}

  lemma {:induction false} RunKeepsSaved(cfg: Config, y: Sys, events: seq<Event>)
    requires SysInv(y) && Tracks(cfg, y) && Smooth(cfg, y, events) && y.live.Declared() && SavedSince(y.live, y)
    ensures SavedSince(y.live, Run(cfg, y, events))
  {
    hide SysInv; hide Tracks; hide React; hide SavedSince; hide Gentle; hide Later;
    if events != [] {
      var front, last := events[..|events| - 1], events[|events| - 1];
      RunKeepsSaved(cfg, y, front);
      StoreFollowsCommits(cfg, y, front);
      RunIsLater(cfg, y, front);
      LaterEpoch(y.live, Run(cfg, y, front).live);
      ReactKeepsSaved(cfg, y.live, Run(cfg, y, front), last);
    }
  }

  lemma SavedRunIsAnchored(cfg: Config, y: Sys, events: seq<Event>)
    requires SysInv(y) && Tracks(cfg, y) && Smooth(cfg, y, events) && y.live.Declared() && SavedSince(y.live, y)
    requires y.live.sc.coordinatorEpoch < MAX_U64
    ensures Anchored(cfg, y, events)
  {
    hide SysInv; hide Tracks; hide Run; hide Smooth; hide Reloadable;
    forall i | 0 <= i < |events| && events[i].Reboot? ensures RestartsAnew(y.live, Run(cfg, y, events[..i])) {
      SmoothPrefix(cfg, y, events, i);
      RunKeepsSaved(cfg, y, events[..i]);
    }
  }

  /** A snapshot taken after its incarnation saved something stays sound over every run with readable restarts. */
  lemma CurrentMeansEqualOnceSaved(cfg: Config, y: Sys, events: seq<Event>)
    requires SysInv(y) && Tracks(cfg, y) && Smooth(cfg, y, events)
    requires y.live.Declared() && y.live.sc.coordinatorEpoch < MAX_U64 && SavedSince(y.live, y)
    ensures Matches(y.live, Run(cfg, y, events).live) ==> Run(cfg, y, events).live == y.live
  {
    hide SysInv; hide Tracks; hide Run; hide Smooth; hide Anchored; hide Matches; hide SavedSince;
    SavedRunIsAnchored(cfg, y, events);
    CurrentMeansEqual(cfg, y, events);
  }

  // ---- without a save the epoch does not separate incarnations ----------------------------

  /** Refreshing at either time says the same about every domain and constraint. */
  predicate AgesAlike(s: State, first: Timestamp, second: Timestamp) {
    && (forall k | k in s.domains ::
          s.domains[k].header.evidence.Refreshed(first) == s.domains[k].header.evidence.Refreshed(second))
    && (forall k | k in s.constraints ::
          s.constraints[k].header.evidence.Refreshed(first) == s.constraints[k].header.evidence.Refreshed(second))
  }

  lemma NoRacksNoFences(s: State, at: Timestamp)
    requires s.racks == map[]
    ensures Project(s).racks == [] && FenceAll(s.sc.fenced, Project(s).racks, at) == s.sc.fenced
  {
    assert DurableRacks(s.racks) == map[];
    SortedKeysAscend(DurableRacks(s.racks).Keys);
  }

  /** The recovered state in one equation, for a cluster without racks. */
  lemma RecoveryWithoutRacks(s: State, at: Timestamp)
    requires Inv(s) && s.racks == map[]
    ensures Recover(Project(s), NextEpoch(s.sc.coordinatorEpoch), at)
         == Settle(Rebooted(s, NextEpoch(s.sc.coordinatorEpoch), at, Sort(s.sc.fenced, FencedBefore)))
  {
    assert RecordsPlaced(s) by { hide RecordsPlaced; hide Sound; hide Settled; }
    hide Inv; hide RecordsPlaced; hide Project; hide Lists; hide Settle; hide Rebooted;
    ProjectionLists(s);
    RecoveryOfList(Project(s), s, NextEpoch(s.sc.coordinatorEpoch), at);
    NoRacksNoFences(s, at);
  }

  lemma RebornWithRacksIsStale(s: State, u: State, v: State)
    requires Reborn(s, v) && u.racks.Keys == s.racks.Keys && s.racks != map[]
    ensures !Matches(u, v)
  {
    hide LinkReborn; hide Evaluate; hide SameCounters;
    var k :| k in s.racks;
    assert RackReborn(s.racks[k], v.racks[k]);
  }

  lemma RebornWithoutRacksMatches(s: State, u: State, v: State)
    requires Reborn(s, u) && Reborn(s, v) && s.racks == map[]
    ensures Matches(u, v)
  {
    hide LinkReborn; hide Evaluate; hide RackReborn; hide State.IsFenced; hide RackHolds;
  }

  lemma WithoutRacksAgeDecides(s: State, first: Timestamp, second: Timestamp, e: u64, fences: seq<FencedAuthority>)
    requires s.racks == map[] && s.links == map[]
    ensures Settle(Rebooted(s, e, first, fences)) == Settle(Rebooted(s, e, second, fences))
      <==> AgesAlike(s, first, second)
  {
    var u, v := Rebooted(s, e, first, fences), Rebooted(s, e, second, fences);
    hide Evaluate; hide Evidence.Refreshed; hide Revived;
    if AgesAlike(s, first, second) {
      assert u.domains == v.domains && u.constraints == v.constraints;
      assert u == v;
    }
    if Settle(u) == Settle(v) {
      forall k | k in s.domains
        ensures s.domains[k].header.evidence.Refreshed(first) == s.domains[k].header.evidence.Refreshed(second)
      {
        assert u.domains[k] == v.domains[k];
      }
      forall k | k in s.constraints
        ensures s.constraints[k].header.evidence.Refreshed(first) == s.constraints[k].header.evidence.Refreshed(second)
      {
        assert u.constraints[k] == v.constraints[k];
      }
    }
  }

  /**
   * Two restarts from the same container with no commit in between share all compared counters. The snapshot of the
   * first validates as current against the second exactly when the cluster has no racks; it is then right exactly when
   * no domain or constraint evidence changed its freshness between the two restarts.
   */
  lemma RestartsWithoutCommit(s: State, first: Timestamp, second: Timestamp)
    requires Inv(s) && s.Declared()
    ensures var e := NextEpoch(s.sc.coordinatorEpoch);
      var u, v := Recover(Project(s), e, first), Recover(Project(s), e, second);
      && (Matches(u, v) <==> s.racks == map[])
      && (s.racks == map[] ==> (u == v <==> AgesAlike(s, first, second)))
  {
    var e := NextEpoch(s.sc.coordinatorEpoch);
    var u, v := Recover(Project(s), e, first), Recover(Project(s), e, second);
    NoRacksNoLinks(s);
    hide Inv; hide Project; hide Recover; hide Matches;
    RecoveryIsReborn(s, first);
    RecoveryIsReborn(s, second);
    if s.racks == map[] {
      RebornWithoutRacksMatches(s, u, v);
      RecoveryWithoutRacks(s, first);
      RecoveryWithoutRacks(s, second);
      WithoutRacksAgeDecides(s, first, second, e, Sort(s.sc.fenced, FencedBefore));
    } else {
      RebornKeys(s, u);
      RebornWithRacksIsStale(s, u, v);
    }
  }

  lemma RebornKeys(s: State, u: State)
    requires Reborn(s, u)
    ensures u.racks.Keys == s.racks.Keys
  {
    hide Evaluate; hide RackReborn; hide LinkReborn;
  }

  lemma NoRacksNoLinks(s: State)
    requires Inv(s)
    ensures s.racks == map[] ==> s.links == map[]
  {
    hide Sound; hide Settled; hide RetirementExact; hide RecordsPlaced; hide AuthorityJustified; hide CountersKnown;
    assert forall k | k in s.links :: s.links[k].source in s.racks;
  }

  // ---- every run with readable restarts, exactly -------------------------------------------

  /** What a restart makes of a saved state. */
  ghost function Restarted(s: State, at: Timestamp): State { Recover(Project(s), NextEpoch(s.sc.coordinatorEpoch), at) }

  /** With persistence on, a declared live state is the saved one or what a restart made of it at some time. */
  ghost predicate Stems(cfg: Config, y: Sys) {
    hide Restarted;
    cfg.persist && y.live.Declared() ==>
      y.saved.Some? && (y.live == y.saved.value || exists at :: y.live == Restarted(y.saved.value, at))
  }

  lemma RestartStems(cfg: Config, y: Sys, at: Timestamp)
    requires SysInv(y) && y.saved.Some? && Reloadable(y.saved.value)
    ensures React(cfg, y, Reboot(at)).live == Restarted(y.saved.value, at)
    ensures Reborn(y.saved.value, Restarted(y.saved.value, at))
  {
    hide Inv; hide Reborn; hide Load; hide Project; hide Recover; hide Encode; hide Reloadable;
    LoadFindsSaved(y);
    ProjectionScalars(y.saved.value);
    RecoveryIsReborn(y.saved.value, at);
  }

  lemma ReactStems(cfg: Config, y: Sys, e: Event)
    requires SysInv(y) && Stems(cfg, y)
    ensures Stems(cfg, React(cfg, y, e))
  {
    hide Inv; hide Reborn; hide Load; hide Project; hide Encode; hide Restart; hide Reloadable; hide Commit;
    hide Proposed; hide Restarted;
    if e.Reboot? {
      RestartForgetsUnlessReloadable(cfg, y, e.at);
      if y.saved.Some? && Reloadable(y.saved.value) { RestartStems(cfg, y, e.at); }
    } else if !Takes(cfg, y.live, e) && e.Mutate? {
      RefusedKeepsState(cfg, e.at, y.live, e.request);
    }
  }

  lemma {:induction false} RunStems(cfg: Config, y: Sys, events: seq<Event>)
    requires SysInv(y) && Stems(cfg, y)
    ensures SysInv(Run(cfg, y, events)) && Stems(cfg, Run(cfg, y, events))
  {
    hide SysInv; hide Stems; hide React;
    if events != [] {
      var front, last := events[..|events| - 1], events[|events| - 1];
      RunStems(cfg, y, front);
      ReactKeepsInv(cfg, Run(cfg, y, front), last);
      ReactStems(cfg, Run(cfg, y, front), last);
    }
  }

  lemma BootStems(cfg: Config, at: Timestamp)
    ensures SysInv(Boot(cfg, at)) && Stems(cfg, Boot(cfg, at))
  {
    BootIsSound(cfg, at);
    hide SysInv; hide Restarted;
  }

  /** Another epoch or a higher generation, with a save since. */
  ghost predicate Departed(y: Sys, z: Sys) {
    && z.live.Declared() && SavedSince(y.live, z) && z.live.sc.coordinatorEpoch >= y.live.sc.coordinatorEpoch
    && (z.live.sc.coordinatorEpoch > y.live.sc.coordinatorEpoch || z.live.sc.generation > y.live.sc.generation)
  }

  /** Nothing was saved since, and the live state is a restart of the same saved state. */
  ghost predicate Twinned(y: Sys, z: Sys) {
    hide Restarted;
    && y.saved.Some? && z.saved == y.saved
    && (exists at :: y.live == Restarted(y.saved.value, at)) && (exists at :: z.live == Restarted(y.saved.value, at))
  }

  ghost predicate Unmoved(y: Sys, z: Sys) { z.live == y.live && z.saved == y.saved }

  ghost predicate Follows(y: Sys, z: Sys) { Unmoved(y, z) || Twinned(y, z) || Departed(y, z) }

  lemma RestartedScalars(s: State, at: Timestamp)
    requires Inv(s) && s.Declared()
    ensures var u := Restarted(s, at);
      && u.Declared() && u.sc.generation == s.sc.generation
      && u.sc.coordinatorEpoch == NextEpoch(s.sc.coordinatorEpoch)
  {
    hide Inv; hide Project; hide Recover; hide Reborn;
    RecoveryIsReborn(s, at);
    RebornIsDeclared(s, Restarted(s, at));
    RebornKeepsGeneration(s, Restarted(s, at));
    RebornEpoch(s, Restarted(s, at));
  }

  lemma TwinnedScalars(y: Sys, z: Sys)
    requires SysInv(y) && Twinned(y, z)
    ensures z.live.Declared() && z.live.sc.generation == y.live.sc.generation
    ensures z.live.sc.coordinatorEpoch == y.live.sc.coordinatorEpoch
  {
    hide Inv; hide Restarted; hide Encode; hide Project;
    var a :| y.live == Restarted(y.saved.value, a);
    var b :| z.live == Restarted(y.saved.value, b);
    RestartedScalars(y.saved.value, a);
    RestartedScalars(y.saved.value, b);
  }

  lemma TakenDeparts(cfg: Config, y: Sys, z: Sys, e: Event)
    requires cfg.persist && SysInv(y) && SysInv(z) && y.live.Declared() && Follows(y, z) && Takes(cfg, z.live, e)
    ensures Departed(y, React(cfg, z, e))
  {
    hide Inv; hide Project; hide Encode; hide Load; hide Restart; hide Proposed; hide Commit; hide Twinned;
    if Twinned(y, z) { TwinnedScalars(y, z); }
    TakenMovesOn(cfg, z.live, e);
  }

  lemma RestartFollows(cfg: Config, y: Sys, z: Sys, at: Timestamp)
    requires cfg.persist && SysInv(y) && SysInv(z) && Stems(cfg, y) && Follows(y, z) && y.live.Declared()
    requires y.live.sc.coordinatorEpoch < MAX_U64 && Gentle(cfg, z, Reboot(at))
    ensures Follows(y, React(cfg, z, Reboot(at)))
  {
    hide Inv; hide Project; hide Encode; hide Load; hide Restart; hide Restarted; hide Reloadable; hide Reborn;
    var s := z.saved.value;
    RestartStems(cfg, z, at);
    RestartedScalars(s, at);
    assert React(cfg, z, Reboot(at)).saved == z.saved;
  }

  lemma ReactFollows(cfg: Config, y: Sys, z: Sys, e: Event)
    requires cfg.persist && SysInv(y) && SysInv(z) && Stems(cfg, y) && Follows(y, z) && y.live.Declared()
    requires y.live.sc.coordinatorEpoch < MAX_U64 && Gentle(cfg, z, e)
    ensures Follows(y, React(cfg, z, e))
  {
    hide Inv; hide Project; hide Encode; hide Load; hide Restart; hide Proposed; hide Commit; hide Stems; hide Gentle;
    hide Unmoved; hide Twinned; hide Departed;
    if e.Reboot? {
      RestartFollows(cfg, y, z, e.at);
    } else if Takes(cfg, z.live, e) {
      TakenDeparts(cfg, y, z, e);
    } else if e.Mutate? {
      assert z.live.Declared() by { FollowingIsDeclared(y, z); }
      RefusedKeepsState(cfg, e.at, z.live, e.request);
      assert React(cfg, z, e) == z;
    }
  }

  lemma FollowingIsDeclared(y: Sys, z: Sys)
    requires SysInv(y) && y.live.Declared() && Follows(y, z)
    ensures z.live.Declared()
  {
    hide SysInv; hide Twinned;
    if Twinned(y, z) { TwinnedScalars(y, z); }
  }

  lemma {:induction false} RunFollows(cfg: Config, y: Sys, events: seq<Event>)
    requires cfg.persist && SysInv(y) && Stems(cfg, y) && y.live.Declared() && y.live.sc.coordinatorEpoch < MAX_U64
    requires Smooth(cfg, y, events)
    ensures Follows(y, Run(cfg, y, events)) && SysInv(Run(cfg, y, events))
  {
    hide SysInv; hide Stems; hide React; hide Gentle; hide Twinned; hide Departed;
    if events != [] {
      var front, last := events[..|events| - 1], events[|events| - 1];
      RunFollows(cfg, y, front);
      hide Follows;
      ReactFollows(cfg, y, Run(cfg, y, front), last);
      ReactKeepsInv(cfg, Run(cfg, y, front), last);
    }
  }

  /** Two restarts of one saved state without racks, between which some evidence aged. */
  ghost predicate AgedTwins(s: State, u: State, v: State) {
    hide Restarted; hide AgesAlike;
    s.racks == map[] && exists a, b :: u == Restarted(s, a) && v == Restarted(s, b) && !AgesAlike(s, a, b)
  }

  lemma TwinsMatchExactly(s: State, u: State, v: State)
    requires Inv(s) && s.Declared()
    requires (exists a :: u == Restarted(s, a)) && (exists b :: v == Restarted(s, b))
    ensures Matches(u, v) && u != v <==> AgedTwins(s, u, v)
  {
    hide Inv; hide Matches; hide AgesAlike; hide Project; hide Recover;
    forall a, b | u == Restarted(s, a) && v == Restarted(s, b)
      ensures (Matches(u, v) <==> s.racks == map[]) && (s.racks == map[] ==> (u == v <==> AgesAlike(s, a, b)))
    {
      RestartsWithoutCommit(s, a, b);
    }
    var a, b :| u == Restarted(s, a) && v == Restarted(s, b);
    hide Restarted;
  }

  lemma DepartedDiffers(y: Sys, z: Sys)
    requires Departed(y, z)
    ensures !Matches(y.live, z.live) && y.live != z.live
  {
    hide SavedSince; hide RackHolds;
  }

  /**
   * Exactly when a snapshot misleads: over every run whose restarts are readable, a snapshot of y validates as current
   * against a different state if and only if both states are restarts of the state saved before either, that state has
   * no racks, and the freshness of some evidence changed between the two restarts.
   */
  lemma MisleadsExactly(cfg: Config, y: Sys, events: seq<Event>)
    requires cfg.persist && SysInv(y) && Stems(cfg, y) && y.live.Declared() && y.live.sc.coordinatorEpoch < MAX_U64
    requires Smooth(cfg, y, events)
    ensures var z := Run(cfg, y, events);
      Matches(y.live, z.live) && z.live != y.live <==>
      y.saved.Some? && AgedTwins(y.saved.value, y.live, z.live)
  {
    hide Run; hide Smooth; hide Stems; hide Matches; hide Restarted; hide Inv; hide Encode; hide Project;
    hide AgesAlike;
    var z := Run(cfg, y, events);
    RunFollows(cfg, y, events);
    if Departed(y, z) { DepartedDiffers(y, z); }
    if Twinned(y, z) || (y.saved.Some? && AgedTwins(y.saved.value, y.live, z.live)) {
      TwinsMatchExactly(y.saved.value, y.live, z.live);
    }
  }

  /** The same for every reachable system. */
  lemma SnapshotsMisleadExactly(cfg: Config, at: Timestamp, before: seq<Event>, after: seq<Event>)
    requires var y := Run(cfg, Boot(cfg, at), before);
      cfg.persist && y.live.Declared() && y.live.sc.coordinatorEpoch < MAX_U64 && Smooth(cfg, y, after)
    ensures var y := Run(cfg, Boot(cfg, at), before);
      var z := Run(cfg, y, after);
      Matches(y.live, z.live) && z.live != y.live <==>
      y.saved.Some? && AgedTwins(y.saved.value, y.live, z.live)
  {
    hide Run; hide Smooth; hide Stems; hide Matches; hide SysInv; hide AgedTwins;
    BootStems(cfg, at);
    RunStems(cfg, Boot(cfg, at), before);
    MisleadsExactly(cfg, Run(cfg, Boot(cfg, at), before), after);
  }
}
