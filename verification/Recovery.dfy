/** Restarting from a saved container: what survives, what is lost, and that the result is sound. */
module Recovery {
  import opened Foundation
  import opened TextOrder
  import opened Sorting
  import opened Records
  import opened Readiness
  import opened Invariants
  import opened Preservation
  import opened Engine
  import opened Durable

  /** The recovered state before evaluation, read off the canonical state it was saved from. */
  function Rebooted(s: State, coordinatorEpoch: u64, now: Timestamp, fenced: seq<FencedAuthority>): State {
    State(s.id, s.sc.(coordinatorEpoch := coordinatorEpoch, lifecycle := Lifecycle.Declared, fenced := fenced),
          map k | k in s.racks :: Revived(DurableOf(s.racks[k]).(rack := k), s.sc, coordinatorEpoch, now),
          map k | k in s.links :: s.links[k].Silenced(),
          map k | k in s.domains :: RefreshedDomain(s.domains[k], now),
          map k | k in s.constraints :: s.constraints[k].(header := RefreshedHeader(s.constraints[k].header, now)))
  }

  /** The container lists exactly the records of the state. */
  predicate Lists(p: Persisted, s: State) {
    && p.id == s.id && p.sc == s.sc
    && Assigned(p.racks, RackKey) == DurableRacks(s.racks)
    && Assigned(p.links, LinkKey) == s.links && Assigned(p.constraints, ConstraintKey) == s.constraints
    && ColumnsMatch(p.domains, s)
  }

  lemma ProjectionColumn(s: State, kind: DomainKind)
    ensures Project(s).domains.Get(kind) == Listed(Column(s, kind))
  {
    hide Listed; hide Column;
  }

  lemma ProjectionLists(s: State)
    requires RecordsPlaced(s)
    ensures Lists(Project(s), s)
  {
    var p := Project(s);
    forall kind: DomainKind ensures Assigned(p.domains.Get(kind), DomainKeyOf) == Column(s, kind) {
      ProjectionColumn(s, kind);
      AssignedInvertsListed(Column(s, kind), DomainKeyOf);
    }
    AssignedInvertsListed(DurableRacks(s.racks), RackKey);
    AssignedInvertsListed(s.links, LinkKey);
    AssignedInvertsListed(s.constraints, ConstraintKey);
    hide RecordsPlaced; hide Assigned; hide Listed; hide Column;
  }

  predicate ColumnsMatch(lists: DomainLists, s: State) {
    forall kind: DomainKind :: Assigned(lists.Get(kind), DomainKeyOf) == Column(s, kind)
  }

  lemma DomainKeysMatch(lists: DomainLists, s: State)
    requires ColumnsMatch(lists, s)
    ensures DomainKeys(lists) == s.domains.Keys
    ensures forall k | k in s.domains :: DomainAt(lists, k) == s.domains[k]
  {
    hide Assigned; hide DomainLists.Get; hide DomainKeys;
    forall k: DomainKey ensures k in DomainKeys(lists) <==> k in s.domains {
      InDomainKeys(lists, k);
      assert k in s.domains <==> k.1 in s.DomainIds(k.0);
      assert Assigned(lists.Get(k.0), DomainKeyOf) == Column(s, k.0);
    }
  }

  lemma DomainsComeBack(lists: DomainLists, s: State, now: Timestamp)
    requires ColumnsMatch(lists, s)
    ensures RecoveredDomains(lists, now) == map k | k in s.domains :: RefreshedDomain(s.domains[k], now)
  {
    hide ColumnsMatch; hide DomainKeys; hide DomainAt; hide RefreshedDomain; hide Assigned;
    DomainKeysMatch(lists, s);
  }

  /** Projection and recovery together, in one equation. */
  lemma RecoveryOfList(p: Persisted, s: State, coordinatorEpoch: u64, now: Timestamp)
    requires Lists(p, s)
    ensures Unsettled(p, coordinatorEpoch, now)
         == Rebooted(s, coordinatorEpoch, now, Sort(FenceAll(s.sc.fenced, p.racks, now), FencedBefore))
  {
    hide Assigned; hide RecoveredDomains; hide RefreshedHeader; hide FenceAll; hide Sort;
    DomainsComeBack(p.domains, s, now);
    assert RevivedRacks(p, coordinatorEpoch, now)
        == map k | k in s.racks :: Revived(DurableOf(s.racks[k]).(rack := k), s.sc, coordinatorEpoch, now);
  }

  // ---- fences of recovered incarnations ---------------------------------------------------

  predicate Publishes(racks: seq<DurableRack>, boot: Id) { exists r | r in racks :: r.boot == boot }

  lemma {:induction false} FenceAllCovers(fenced: seq<FencedAuthority>, racks: seq<DurableRack>, now: Timestamp)
    requires PairwiseDistinct(fenced, FencedBefore)
    ensures PairwiseDistinct(FenceAll(fenced, racks, now), FencedBefore)
    ensures forall f | f in fenced :: f in FenceAll(fenced, racks, now)
    ensures forall b :: Listing(FenceAll(fenced, racks, now), b) <==> Listing(fenced, b) || Publishes(racks, b)
  {
    if racks != [] {
      var front, last := racks[..|racks| - 1], racks[|racks| - 1];
      FenceAllCovers(fenced, front, now);
      var before := FenceAll(fenced, front, now);
      var entry := FencedAuthority(last.boot, last.rack, Ascii("coordinator_restart"), now);
      assert racks == front + [last];
      forall b ensures Publishes(racks, b) <==> Publishes(front, b) || b == last.boot {
        assert last in racks;
      }
      if !Listing(before, last.boot) {
        forall i | 0 <= i < |before| ensures Comparable(before[i], entry, FencedBefore) {
          Trichotomy(before[i].boot, last.boot);
        }
        forall b ensures Listing(before + [entry], b) <==> Listing(before, b) || b == last.boot {
          assert entry in before + [entry];
        }
      }
    }
  }

  lemma ListedHoldsAll<V>(m: map<Id, V>)
    ensures forall k | k in m :: m[k] in Listed(m)
    ensures forall v | v in Listed(m) :: exists k | k in m :: m[k] == v
  {
    SortedKeysAscend(m.Keys);
    var keys := SortedKeys(m.Keys);
    forall k | k in m ensures m[k] in Listed(m) {
      assert k in keys;
      var i :| 0 <= i < |keys| && keys[i] == k;
      assert Listed(m)[i] == m[k];
    }
    forall v | v in Listed(m) ensures exists k | k in m :: m[k] == v {
      var i :| 0 <= i < |Listed(m)| && Listed(m)[i] == v;
      assert m[keys[i]] == v && keys[i] in keys;
    }
  }

  /** The fence list of the recovered state. */
  function RebootFences(s: State, racks: seq<DurableRack>, now: Timestamp): seq<FencedAuthority> {
    Sort(FenceAll(s.sc.fenced, racks, now), FencedBefore)
  }

  lemma ProjectionPublishes(s: State, b: Id)
    ensures Publishes(Project(s).racks, b) <==> RacksOf(s.racks, b) != {}
  {
    var racks := Listed(DurableRacks(s.racks));
    ListedHoldsAll(DurableRacks(s.racks));
    hide Listed;
    if RacksOf(s.racks, b) != {} {
      var k :| k in RacksOf(s.racks, b);
      assert DurableRacks(s.racks)[k] in racks;
    }
    if Publishes(racks, b) {
      var r :| r in racks && r.boot == b;
      var k :| k in s.racks && DurableRacks(s.racks)[k] == r;
      assert k in RacksOf(s.racks, b);
    }
  }

  lemma RebootFencesCover(s: State, racks: seq<DurableRack>, now: Timestamp)
    requires Ascending(s.sc.fenced, FencedBefore)
    ensures var fences := RebootFences(s, racks, now);
      && Ascending(fences, FencedBefore)
      && (forall f | f in s.sc.fenced :: f in fences)
      && (forall b :: Listing(fences, b) <==> s.IsFenced(b) || Publishes(racks, b))
  {
    var all := FenceAll(s.sc.fenced, racks, now);
    FenceAllCovers(s.sc.fenced, racks, now);
    FencedIsOrdered();
    SortIsStrict(all, FencedBefore);
    SortIsPermutation(all, FencedBefore);
    hide FenceAll; hide Sort;
    var fences := Sort(all, FencedBefore);
    forall f ensures f in fences <==> f in all { assert f in multiset(fences) <==> f in multiset(all); }
  }

  // ---- recovery keeps the invariant -------------------------------------------------------

  /** The same state under the coordinator epoch of the next incarnation. */
  function Reopened(s: State, coordinatorEpoch: u64): State {
    s.(sc := s.sc.(coordinatorEpoch := coordinatorEpoch, lifecycle := Lifecycle.Declared))
  }

  lemma RebootQuietsRack(s: State, coordinatorEpoch: u64, now: Timestamp, fences: seq<FencedAuthority>, k: Id)
    requires RecordsPlaced(s) && k in s.racks
    ensures var u := Rebooted(s, coordinatorEpoch, now, fences);
      k in u.racks && QuietedRack(s.racks[k], u.racks[k]) && !u.racks[k].authoritative
  {}

  lemma RebootQuietsRecords(s: State, coordinatorEpoch: u64, now: Timestamp, fences: seq<FencedAuthority>)
    requires RecordsPlaced(s)
    ensures var u := Rebooted(s, coordinatorEpoch, now, fences);
      && (u.racks.Keys == s.racks.Keys
          && forall k | k in s.racks :: QuietedRack(s.racks[k], u.racks[k]) && !u.racks[k].authoritative)
      && (u.links.Keys == s.links.Keys
          && forall k | k in s.links :: SameEnds(s.links[k], u.links[k]) && LinkQuiet(u.links[k]))
  {
    hide RecordsPlaced; hide QuietedRack; hide Revived;
    forall k | k in s.racks { RebootQuietsRack(s, coordinatorEpoch, now, fences, k); }
  }

  lemma RebootQuiets(s: State, coordinatorEpoch: u64, now: Timestamp, racks: seq<DurableRack>)
    requires RecordsPlaced(s) && Ascending(s.sc.fenced, FencedBefore)
    ensures Quieted(Reopened(s, coordinatorEpoch), Rebooted(s, coordinatorEpoch, now, RebootFences(s, racks, now)))
  {
    RebootFencesCover(s, racks, now);
    RebootQuietsRecords(s, coordinatorEpoch, now, RebootFences(s, racks, now));
    hide RebootFences; hide RecordsPlaced; hide QuietedRack; hide SameEnds; hide LinkQuiet; hide Revived;
  }

  lemma ReopenedStaysWired(s: State, coordinatorEpoch: u64)
    requires Wired(s) && s.Declared() && coordinatorEpoch != 0
    ensures Wired(Reopened(s, coordinatorEpoch))
  {
    var t := Reopened(s, coordinatorEpoch);
    assert forall r :: t.IsRetired(r) == s.IsRetired(r) && t.IsMember(r) == s.IsMember(r);
  }

  lemma QuietedScalars(s: State, u: State)
    requires Quieted(s, u)
    ensures u.id == s.id && u.sc == s.sc.(fenced := u.sc.fenced, lifecycle := u.sc.lifecycle)
  {
    hide QuietedRack; hide SameEnds; hide LinkQuiet; hide Ascending;
  }

  /** Losing every authority and re-evaluating keeps the invariant. */
  lemma QuietedStateIsSound(s: State, coordinatorEpoch: u64, u: State)
    requires Inv(s) && s.Declared() && coordinatorEpoch != 0
    requires Quieted(Reopened(s, coordinatorEpoch), u) && u.sc.lifecycle.Declared? && (s.Blank() ==> u.Blank())
    ensures Inv(Settle(u))
  {
    hide Quieted; hide Satisfied; hide Evaluate; hide ReferencesResolve;
    hide RetirementExact; hide RecordsPlaced; hide AuthorityJustified; hide BodySound;
    var t, f := Reopened(s, coordinatorEpoch), Settle(u);
    QuietedScalars(t, u);
    ReopenedStaysWired(s, coordinatorEpoch);
    QuietedKeepsWired(t, u);
    SameWiringKeepsWired(u, f);
    EvaluationIsIdempotent(u, f);
    RetiredOnlyIfAlready(u);
    SettledIsConsistent(f);
    if !s.Blank() {
      FramedBodyStaysSound(s, t);
      QuietedKeepsBody(t, u);
      FramedBodyStaysSound(u, f);
    }
  }

  /** A recovered state is the saved state with every authority taken away. */
  lemma RecoveryQuiets(s: State, coordinatorEpoch: u64, now: Timestamp)
    requires RecordsPlaced(s) && Ascending(s.sc.fenced, FencedBefore)
    ensures Quieted(Reopened(s, coordinatorEpoch), Unsettled(Project(s), coordinatorEpoch, now))
    ensures Unsettled(Project(s), coordinatorEpoch, now).sc.lifecycle.Declared?
  {
    var p := Project(s);
    ProjectionLists(s);
    hide Project; hide Lists; hide RecordsPlaced; hide Quieted;
    RecoveryOfList(p, s, coordinatorEpoch, now);
    RebootQuiets(s, coordinatorEpoch, now, p.racks);
  }

  lemma BlankStaysBlank(s: State, coordinatorEpoch: u64, now: Timestamp)
    requires s.Blank() && RecordsPlaced(s)
    ensures Unsettled(Project(s), coordinatorEpoch, now).Blank()
  {
    ProjectionLists(s);
    RecoveryOfList(Project(s), s, coordinatorEpoch, now);
    assert DurableRacks(s.racks) == map[];
  }

  lemma RecoveryKeepsInv(s: State, coordinatorEpoch: u64, now: Timestamp)
    requires Inv(s) && s.Declared() && coordinatorEpoch != 0
    ensures Inv(Recover(Project(s), coordinatorEpoch, now))
  {
    hide Project; hide Quieted; hide Settle; hide Unsettled; hide RecordsPlaced; hide RetirementExact;
    hide ReferencesResolve; hide AuthorityJustified; hide LifecycleSound; hide CountersSound;
    RecoveryQuiets(s, coordinatorEpoch, now);
    if s.Blank() { BlankStaysBlank(s, coordinatorEpoch, now); }
    QuietedStateIsSound(s, coordinatorEpoch, Unsettled(Project(s), coordinatorEpoch, now));
  }
}
