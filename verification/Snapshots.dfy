/** Snapshots, their two validators, and what a verdict of `current` is worth. */
module Snapshots {
  import opened Foundation
  import opened Sorting
  import opened Iteration
  import opened EvidenceStamps
  import opened Records

  datatype Binding = Binding(
    rack: Id, generation: u64, membership: Membership, currentness: Currentness, authoritative: bool, boot: Id)

  /** A default-constructed snapshot holds no state. */
  datatype Snapshot = Empty | Captured(state: State, bindings: seq<Binding>)

  function Bound(k: Id, r: RackRecord): Binding {
    Binding(k, r.reference.generation, r.membership, r.reference.currentness, r.authoritative, r.reference.boot)
  }

  /** One binding a rack, in identity order. */
  ghost predicate Binds(bindings: seq<Binding>, racks: map<Id, RackRecord>) {
    && |bindings| == |racks| && Ascending(bindings, BindingBefore)
    && (forall b | b in bindings :: b.rack in racks && b == Bound(b.rack, racks[b.rack]))
    && (forall k | k in racks :: Bound(k, racks[k]) in bindings)
  }

  predicate BindingBefore(a: Binding, b: Binding) { Before(a.rack, b.rack) }

  ghost predicate WellMade(s: Snapshot) { s.Captured? ==> Binds(s.bindings, s.state.racks) }

  method Capture(s: State) returns (r: Snapshot)
    ensures r.Captured? && r.state == s && WellMade(r)
    ensures forall b | b in r.bindings ::
      && b.rack in s.racks && b.generation == s.racks[b.rack].reference.generation
      && b.membership == s.racks[b.rack].membership && b.currentness == s.racks[b.rack].reference.currentness
      && b.authoritative == s.racks[b.rack].authoritative && b.boot == s.racks[b.rack].reference.boot
  {
    hide SortedKeys; hide Binds;
    var keys := KeysInOrder(s.racks);
    SortedKeysAscend(s.racks.Keys);
    var bindings: seq<Binding> := [];
    for i := 0 to |keys|
      invariant |bindings| == i && forall j | 0 <= j < i :: bindings[j] == Bound(keys[j], s.racks[keys[j]])
    {
      bindings := bindings + [Bound(keys[i], s.racks[keys[i]])];
    }
    BindingsBind(s.racks, keys, bindings);
    r := Captured(s, bindings);
  }

  lemma BindingsBind(racks: map<Id, RackRecord>, keys: seq<Id>, bindings: seq<Binding>)
    requires Ascending(keys, Before) && |keys| == |racks| && |bindings| == |keys|
      && (forall k :: k in keys <==> k in racks)
    requires forall j | 0 <= j < |keys| :: bindings[j] == Bound(keys[j], racks[keys[j]])
    ensures Binds(bindings, racks)
  {
    forall k | k in racks ensures Bound(k, racks[k]) in bindings {
      var j :| 0 <= j < |keys| && keys[j] == k;
      assert bindings[j] == Bound(k, racks[k]);
    }
  }

  // ---- what the verdict means ------------------------------------------------------------

  datatype Reason =
    | ClusterEpochAdvanced | CoordinatorEpochAdvanced | ClusterGenerationAdvanced | MembershipChanged
    | RackGenerationSuperseded | RackRetired | RackWithdrawn | RackBootFenced | RackRevalidationRequired
    | TopologyEpochSuperseded | TopologyGenerationAdvanced | DomainSuperseded(kind: DomainKind)
    | ConnectivitySuperseded | HealthSuperseded | LifecycleNotConsumable | WrongCluster

  datatype Verdict = Verdict(current: bool, consumable: bool, reasons: seq<Reason>)

  /** The counters of a snapshot as they travel over the wire, with its bindings. */
  datatype View = View(
    cluster: Id, clusterEpoch: u64, coordinatorEpoch: u64, generation: u64, membershipGeneration: u64,
    topologyEpoch: u64, topologyGeneration: u64, domainGenerations: DomainGenerations, connectivityGeneration: u64,
    healthGeneration: u64, bindings: seq<Binding>)

  function ViewOf(s: State, bindings: seq<Binding>): View {
    View(s.id, s.sc.epoch, s.sc.coordinatorEpoch, s.sc.generation, s.sc.membershipGeneration, s.sc.topologyEpoch,
         s.sc.topologyGeneration, s.sc.domainGenerations, s.sc.connectivityGeneration, s.sc.healthGeneration, bindings)
  }

  predicate SameCounters(v: View, s: State) { v == ViewOf(s, v.bindings) }

  predicate RackHolds(cur: State, rack: Id, generation: u64, membership: Membership, boot: Id) {
    && rack in cur.racks && !cur.IsRetired(rack) && cur.racks[rack].reference.generation == generation
    && cur.racks[rack].membership == membership && !cur.IsFenced(boot)
    && !cur.racks[rack].reference.currentness.RevalidationRequired?
    && !cur.racks[rack].reference.evidence.RequiresRevalidation()
  }

  predicate Names(bindings: seq<Binding>, k: Id) { exists b | b in bindings :: b.rack == k }

  predicate ViewMatches(v: View, cur: State) {
    && SameCounters(v, cur)
    && (forall b | b in v.bindings :: RackHolds(cur, b.rack, b.generation, b.membership, b.boot))
    && (forall k | k in cur.racks :: Names(v.bindings, k))
  }

  /** Stated on the captured state alone: the same counters, the same racks, each still standing. */
  predicate Matches(s: State, cur: State) {
    && SameCounters(ViewOf(s, []), cur) && cur.racks.Keys == s.racks.Keys
    && forall k | k in s.racks ::
         RackHolds(cur, k, s.racks[k].reference.generation, s.racks[k].membership, s.racks[k].reference.boot)
  }

  /** The wire view decides exactly what the snapshot itself decides; sizes never add a reason of their own. */
  lemma ViewsAgree(s: State, bindings: seq<Binding>, cur: State)
    requires Binds(bindings, s.racks)
    ensures ViewMatches(ViewOf(s, bindings), cur) <==> Matches(s, cur)
    ensures Matches(s, cur) ==> |s.racks| == |cur.racks|
  {
    assert SameCounters(ViewOf(s, bindings), cur) <==> SameCounters(ViewOf(s, []), cur);
    assert |s.racks| == |s.racks.Keys| && |cur.racks| == |cur.racks.Keys|;
    hide RackHolds;
    if ViewMatches(ViewOf(s, bindings), cur) {
      forall k | k in s.racks
        ensures RackHolds(cur, k, s.racks[k].reference.generation, s.racks[k].membership, s.racks[k].reference.boot)
      {
        assert Bound(k, s.racks[k]) in bindings;
      }
      NamedExactly(s, bindings, cur);
    }
    if Matches(s, cur) {
      forall k | k in cur.racks ensures Names(bindings, k) {
        assert Bound(k, s.racks[k]) in bindings;
      }
    }
  }

  lemma NamedExactly(s: State, bindings: seq<Binding>, cur: State)
    requires Binds(bindings, s.racks) && ViewMatches(ViewOf(s, bindings), cur)
    ensures cur.racks.Keys == s.racks.Keys
  {
    forall k ensures k in cur.racks <==> k in s.racks {
      if k in s.racks { assert Bound(k, s.racks[k]) in bindings; }
      if k in cur.racks {
        assert Names(bindings, k);
        var b :| b in bindings && b.rack == k;
      }
    }
  }

  // ---- why a snapshot is stale -----------------------------------------------------------

  /** What the counters show. The in-process validator also compares the number of racks. */
  predicate CountersStale(v: View, sizeDiffers: bool, cur: State, reason: Reason) {
    match reason
    case WrongCluster => v.cluster != cur.id
    case ClusterEpochAdvanced => v.clusterEpoch != cur.sc.epoch
    case CoordinatorEpochAdvanced => v.coordinatorEpoch != cur.sc.coordinatorEpoch
    case ClusterGenerationAdvanced => v.generation != cur.sc.generation
    case MembershipChanged => v.membershipGeneration != cur.sc.membershipGeneration || sizeDiffers
    case TopologyEpochSuperseded => v.topologyEpoch != cur.sc.topologyEpoch
    case TopologyGenerationAdvanced =>
      v.topologyEpoch == cur.sc.topologyEpoch && v.topologyGeneration != cur.sc.topologyGeneration
    case DomainSuperseded(kind) => v.domainGenerations.Get(kind) != cur.sc.domainGenerations.Get(kind)
    case ConnectivitySuperseded => v.connectivityGeneration != cur.sc.connectivityGeneration
    case HealthSuperseded => v.healthGeneration != cur.sc.healthGeneration
    case _ => false
  }

  /** What one binding shows. A rack that is gone or retired shows nothing else. */
  predicate BindingStale(b: Binding, cur: State, reason: Reason) {
    if b.rack !in cur.racks then reason.RackWithdrawn?
    else if cur.IsRetired(b.rack) then reason.RackRetired?
    else
      var r := cur.racks[b.rack];
      match reason
      case RackGenerationSuperseded => r.reference.generation != b.generation
      case RackWithdrawn => r.membership != b.membership
      case RackBootFenced => cur.IsFenced(b.boot)
      case RackRevalidationRequired =>
        || r.reference.currentness.RevalidationRequired? || r.reference.evidence.freshness.RevalidationRequired?
        || r.reference.evidence.provenance.Reconstructed?
      case _ => false
  }

  predicate BindingsStale(bindings: seq<Binding>, cur: State, reason: Reason) {
    exists j | 0 <= j < |bindings| :: BindingStale(bindings[j], cur, reason)
  }

  /** A rack joined that the snapshot does not bind. */
  predicate RacksStale(bindings: seq<Binding>, cur: State, reason: Reason) {
    reason.MembershipChanged? && exists k | k in cur.racks :: !Names(bindings, k)
  }

  predicate Unusable(l: Lifecycle) { l.Declared? || l.Forming? || l.RevalidationRequired? || l.Retiring? || l.Retired? }

  /** The reason applies to the view. */
  predicate Stale(v: View, sizeDiffers: bool, cur: State, reason: Reason) {
    || CountersStale(v, sizeDiffers, cur, reason) || BindingsStale(v.bindings, cur, reason)
    || RacksStale(v.bindings, cur, reason) || (reason.LifecycleNotConsumable? && Unusable(cur.sc.lifecycle))
  }

  lemma HoldsUnlessStale(b: Binding, cur: State)
    ensures RackHolds(cur, b.rack, b.generation, b.membership, b.boot) <==> forall r :: !BindingStale(b, cur, r)
  {
    hide State.IsRetired; hide State.IsFenced;
    if !RackHolds(cur, b.rack, b.generation, b.membership, b.boot) {
      assert || BindingStale(b, cur, RackWithdrawn) || BindingStale(b, cur, RackRetired)
             || BindingStale(b, cur, RackGenerationSuperseded) || BindingStale(b, cur, RackBootFenced)
             || BindingStale(b, cur, RackRevalidationRequired);
    }
  }

  /** A view matches exactly if no reason but the lifecycle applies to it. */
  lemma MatchesUnlessStale(v: View, cur: State)
    ensures ViewMatches(v, cur) <==> forall r: Reason | !r.LifecycleNotConsumable? :: !Stale(v, false, cur, r)
  {
    CountersMatchUnlessStale(v, cur);
    forall j | 0 <= j < |v.bindings| { HoldsUnlessStale(v.bindings[j], cur); }
    hide RackHolds; hide BindingStale; hide CountersStale; hide SameCounters; hide Names;
    if forall r: Reason | !r.LifecycleNotConsumable? :: !Stale(v, false, cur, r) {
      forall r ensures !CountersStale(v, false, cur, r) && !BindingsStale(v.bindings, cur, r) {
        if r.LifecycleNotConsumable? { NeverTheLifecycle(v, cur); } else { assert !Stale(v, false, cur, r); }
      }
      assert !Stale(v, false, cur, MembershipChanged);
      forall b | b in v.bindings ensures RackHolds(cur, b.rack, b.generation, b.membership, b.boot) {
        var j :| 0 <= j < |v.bindings| && v.bindings[j] == b;
        forall r ensures !BindingStale(b, cur, r) { assert !BindingsStale(v.bindings, cur, r); }
      }
    }
  }

  lemma NeverTheLifecycle(v: View, cur: State)
    ensures !CountersStale(v, false, cur, LifecycleNotConsumable)
    ensures !BindingsStale(v.bindings, cur, LifecycleNotConsumable)
  {}

  lemma CountersMatchUnlessStale(v: View, cur: State)
    ensures SameCounters(v, cur) <==> forall r :: !CountersStale(v, false, cur, r)
  {
    if forall r :: !CountersStale(v, false, cur, r) {
      forall kind: DomainKind ensures v.domainGenerations.Get(kind) == cur.sc.domainGenerations.Get(kind) {
        assert !CountersStale(v, false, cur, DomainSuperseded(kind));
      }
      SameGenerations(v.domainGenerations, cur.sc.domainGenerations);
      assert !CountersStale(v, false, cur, WrongCluster) && !CountersStale(v, false, cur, ClusterEpochAdvanced);
      assert !CountersStale(v, false, cur, CoordinatorEpochAdvanced);
      assert !CountersStale(v, false, cur, ClusterGenerationAdvanced);
      assert !CountersStale(v, false, cur, MembershipChanged);
      assert !CountersStale(v, false, cur, TopologyEpochSuperseded);
      assert !CountersStale(v, false, cur, TopologyGenerationAdvanced);
      assert !CountersStale(v, false, cur, ConnectivitySuperseded) && !CountersStale(v, false, cur, HealthSuperseded);
    }
  }

  lemma SameGenerations(g: DomainGenerations, h: DomainGenerations)
    requires forall kind: DomainKind :: g.Get(kind) == h.Get(kind)
    ensures g == h
  {
    assert g.Get(Placement) == h.Get(Placement) && g.Get(Capacity) == h.Get(Capacity);
    assert g.Get(Failure) == h.Get(Failure) && g.Get(Network) == h.Get(Network);
    assert g.Get(Storage) == h.Get(Storage) && g.Get(Power) == h.Get(Power);
    assert g.Get(Cooling) == h.Get(Cooling) && g.Get(LinkGroup) == h.Get(LinkGroup);
  }

  /** Taken and asked about at once, a snapshot is current exactly if every rack stands on its own. */
  lemma OwnStateMatchesExactly(s: State)
    ensures Matches(s, s) <==>
      forall k | k in s.racks ::
        && !s.IsRetired(k) && !s.IsFenced(s.racks[k].reference.boot)
        && !s.racks[k].reference.currentness.RevalidationRequired?
        && !s.racks[k].reference.evidence.freshness.RevalidationRequired?
        && !s.racks[k].reference.evidence.provenance.Reconstructed?
  {
    hide State.IsRetired; hide State.IsFenced;
  }

  // ---- the validators --------------------------------------------------------------------

  function Noted(reasons: seq<Reason>, stale: bool, reason: Reason): (r: seq<Reason>)
    ensures forall x :: x in r <==> x in reasons || (stale && x == reason)
  {
    if stale then reasons + [reason] else reasons
  }

  /** The domain counters, one reason a class. */
  method CompareDomains(before: seq<Reason>, g: DomainGenerations, h: DomainGenerations)
    returns (reasons: seq<Reason>)
    ensures forall r ::
      r in reasons <==> r in before || (r.DomainSuperseded? && g.Get(r.kind) != h.Get(r.kind))
  {
    hide Noted;
    reasons := Noted(before, g.placement != h.placement, DomainSuperseded(Placement));
    reasons := Noted(reasons, g.capacity != h.capacity, DomainSuperseded(Capacity));
    reasons := Noted(reasons, g.failure != h.failure, DomainSuperseded(Failure));
    reasons := Noted(reasons, g.network != h.network, DomainSuperseded(Network));
    reasons := Noted(reasons, g.storage != h.storage, DomainSuperseded(Storage));
    reasons := Noted(reasons, g.power != h.power, DomainSuperseded(Power));
    reasons := Noted(reasons, g.cooling != h.cooling, DomainSuperseded(Cooling));
    reasons := Noted(reasons, g.link != h.link, DomainSuperseded(LinkGroup));
  }

  predicate OfCluster(r: Reason) {
    || r.WrongCluster? || r.ClusterEpochAdvanced? || r.CoordinatorEpochAdvanced? || r.ClusterGenerationAdvanced?
    || r.MembershipChanged?
  }

  method CompareCluster(v: View, sizeDiffers: bool, cur: State) returns (reasons: seq<Reason>)
    ensures forall r :: r in reasons <==> OfCluster(r) && CountersStale(v, sizeDiffers, cur, r)
  {
    hide Noted;
    reasons := Noted([], v.cluster != cur.id, WrongCluster);
    reasons := Noted(reasons, v.clusterEpoch != cur.sc.epoch, ClusterEpochAdvanced);
    reasons := Noted(reasons, v.coordinatorEpoch != cur.sc.coordinatorEpoch, CoordinatorEpochAdvanced);
    reasons := Noted(reasons, v.generation != cur.sc.generation, ClusterGenerationAdvanced);
    reasons := Noted(reasons, v.membershipGeneration != cur.sc.membershipGeneration || sizeDiffers, MembershipChanged);
  }

  /** The counter comparisons both validators start with; only the in-process one compares sizes. */
  method CompareCounters(v: View, sizeDiffers: bool, cur: State) returns (reasons: seq<Reason>)
    ensures forall r :: r in reasons <==> CountersStale(v, sizeDiffers, cur, r)
  {
    hide Noted;
    reasons := CompareCluster(v, sizeDiffers, cur);
    if v.topologyEpoch != cur.sc.topologyEpoch {
      reasons := Noted(reasons, true, TopologyEpochSuperseded);
    } else {
      reasons := Noted(reasons, v.topologyGeneration != cur.sc.topologyGeneration, TopologyGenerationAdvanced);
    }
    reasons := CompareDomains(reasons, v.domainGenerations, cur.sc.domainGenerations);
    reasons := Noted(reasons, v.connectivityGeneration != cur.sc.connectivityGeneration, ConnectivitySuperseded);
    reasons := Noted(reasons, v.healthGeneration != cur.sc.healthGeneration, HealthSuperseded);
    hide DomainGenerations.Get;
  }

  /** One turn of the binding loop. */
  method CompareBinding(b: Binding, cur: State) returns (reasons: seq<Reason>)
    ensures forall r :: r in reasons <==> BindingStale(b, cur, r)
  {
    hide State.IsFenced; hide State.IsRetired;
    hide Noted;
    if b.rack !in cur.racks { return [RackWithdrawn]; }
    if cur.IsRetired(b.rack) { return [RackRetired]; }
    var r := cur.racks[b.rack];
    reasons := Noted([], r.reference.generation != b.generation, RackGenerationSuperseded);
    reasons := Noted(reasons, r.membership != b.membership, RackWithdrawn);
    reasons := Noted(reasons, cur.IsFenced(b.boot), RackBootFenced);
    var pending := r.reference.currentness.RevalidationRequired? || r.reference.evidence.RequiresRevalidation();
    reasons := Noted(reasons, pending, RackRevalidationRequired);
  }

  /** A missing or retired rack yields one reason and ends the comparison of that binding. */
  method CompareBindings(bindings: seq<Binding>, cur: State) returns (reasons: seq<Reason>)
    ensures forall r :: r in reasons <==> BindingsStale(bindings, cur, r)
  {
    hide BindingStale;
    reasons := [];
    for i := 0 to |bindings|
      invariant forall r :: r in reasons <==> exists j | 0 <= j < i :: BindingStale(bindings[j], cur, r)
    {
      var more := CompareBinding(bindings[i], cur);
      reasons := reasons + more;
    }
  }

  /** The inner loop: is the rack bound at all? */
  method IsBound(bindings: seq<Binding>, k: Id) returns (present: bool)
    ensures present <==> Names(bindings, k)
  {
    present := false;
    for j := 0 to |bindings|
      invariant present <==> exists i | 0 <= i < j :: bindings[i].rack == k
    {
      if bindings[j].rack == k { present := true; }
    }
  }

  method CompareRacks(bindings: seq<Binding>, cur: State) returns (reasons: seq<Reason>)
    ensures forall r :: r in reasons <==> RacksStale(bindings, cur, r)
  {
    hide Names; hide SortedKeys;
    var keys := KeysInOrder(cur.racks);
    SortedKeysAscend(cur.racks.Keys);
    reasons := [];
    for i := 0 to |keys|
      invariant forall r | r in reasons :: r.MembershipChanged?
      invariant reasons == [] <==> forall j | 0 <= j < i :: Names(bindings, keys[j])
    {
      var present := IsBound(bindings, keys[i]);
      if !present { reasons := reasons + [MembershipChanged]; }
    }
    assert forall k :: k in cur.racks <==> k in keys;
    if reasons != [] { assert reasons[0] in reasons; }
  }

  lemma NoReasons(v: View, sizeDiffers: bool, cur: State, reasons: seq<Reason>)
    requires forall r ::
      r in reasons <==>
      (|| CountersStale(v, sizeDiffers, cur, r) || BindingsStale(v.bindings, cur, r) || RacksStale(v.bindings, cur, r))
    ensures reasons == [] <==> ViewMatches(v, cur) && !sizeDiffers
  {
    MatchesUnlessStale(v, cur);
    hide BindingStale; hide ViewMatches; hide Names;
    assert sizeDiffers ==> CountersStale(v, sizeDiffers, cur, MembershipChanged);
    assert forall r | CountersStale(v, false, cur, r) :: CountersStale(v, sizeDiffers, cur, r);
    assert !sizeDiffers ==> forall r :: r in reasons || r.LifecycleNotConsumable? || !Stale(v, false, cur, r);
    NeverTheLifecycle(v, cur);
    if reasons != [] {
      assert reasons[0] in reasons;
      assert !sizeDiffers ==> Stale(v, false, cur, reasons[0]) && !reasons[0].LifecycleNotConsumable?;
    }
  }

  /** The reasons are exactly those that apply; `current` leaves the lifecycle out of account. */
  method Validate(s: Snapshot, cur: State) returns (v: Verdict)
    requires WellMade(s)
    ensures v.current <==> s.Captured? && Matches(s.state, cur)
    ensures v.consumable <==> v.current && !Unusable(cur.sc.lifecycle)
    ensures s.Captured? ==>
      && (v.reasons == [] <==> v.consumable)
      && forall r :: r in v.reasons <==>
           Stale(ViewOf(s.state, s.bindings), |s.state.racks| != |cur.racks|, cur, r)
  {
    if s.Empty? { return Verdict(false, false, []); }
    var view := ViewOf(s.state, s.bindings);
    var a := CompareCounters(view, |s.state.racks| != |cur.racks|, cur);
    var b := CompareBindings(s.bindings, cur);
    var c := CompareRacks(s.bindings, cur);
    var reasons := a + b + c;
    NoReasons(view, |s.state.racks| != |cur.racks|, cur, reasons);
    ViewsAgree(s.state, s.bindings, cur);
    hide RackHolds; hide SameCounters; hide Matches; hide Binds; hide Names; hide CountersStale; hide BindingsStale;
    hide RacksStale; hide ViewMatches;
    var current := reasons == [];
    if !Consumable(cur.sc.lifecycle) { reasons := reasons + [LifecycleNotConsumable]; }
    v := Verdict(current, current && Consumable(cur.sc.lifecycle), reasons);
  }

  /** validate_view counts the lifecycle among its reasons before it decides `current`. */
  method ValidateView(view: View, cur: State) returns (v: Verdict)
    ensures v.current <==> ViewMatches(view, cur) && !Unusable(cur.sc.lifecycle)
    ensures v.consumable == v.current && (v.reasons == [] <==> v.current)
    ensures forall r :: r in v.reasons <==> Stale(view, false, cur, r)
  {
    var a := CompareCounters(view, false, cur);
    var b := CompareBindings(view.bindings, cur);
    var c := CompareRacks(view.bindings, cur);
    var reasons := a + b + c;
    NoReasons(view, false, cur, reasons);
    hide CountersStale; hide BindingsStale; hide RacksStale; hide ViewMatches;
    if !Consumable(cur.sc.lifecycle) { reasons := reasons + [LifecycleNotConsumable]; }
    v := Verdict(reasons == [], reasons == [] && Consumable(cur.sc.lifecycle), reasons);
  }

  /** For a captured snapshot the two validators give the same consumable verdict. */
  method ValidateBoth(s: Snapshot, cur: State) returns (local: Verdict, remote: Verdict)
    requires WellMade(s) && s.Captured?
    ensures remote.consumable == local.consumable
    ensures remote.current == (local.current && !Unusable(cur.sc.lifecycle))
    ensures local.current <==> Matches(s.state, cur)
  {
    local := Validate(s, cur);
    remote := ValidateView(ViewOf(s.state, s.bindings), cur);
    hide ViewMatches; hide Matches; hide Binds;
    ViewsAgree(s.state, s.bindings, cur);
  }
}
