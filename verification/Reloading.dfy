/** Exactly which sound states can be read back from the container they are saved in. */
module Reloading {
  import opened Foundation
  import opened TextOrder
  import opened Sorting
  import opened Records
  import opened Readiness
  import opened Invariants
  import opened Mutations
  import opened Engine
  import opened Durable
  import opened Recovery
  import opened Wire
  import opened RecordCodecs
  import opened Container
  import opened System

  // ---- what each record has to satisfy on its own ----------------------------------------

  predicate RackKeeps(d: DurableRack) {
    && AcceptsRack(d) && Linked(d.endpoints, EndpointBefore) && Linked(d.hints, HintBefore)
    && forall h | h in d.hints :: h.klass != 0
  }

  predicate LinkKeeps(l: Link) { AcceptsLink(l) && l.topologyEpoch != 0 }

  predicate DomainKeeps(kind: DomainKind, d: Domain) {
    AcceptsDomain(kind, d) && (kind.Capacity? ==> ValidQuantities(d.quantities))
  }

  predicate ConstraintKeeps(c: Constraint) { AcceptsConstraint(c) && c.kind != 0 && Linked(c.racks, Before) }

  predicate FenceKeeps(f: FencedAuthority) { AcceptsFenced(f) && f.reason != [] && |f.reason| <= MAX_TEXT }

  /** No condition here relates two records; only the number of fences is counted. */
  predicate KeepsLocally(s: State) {
    && IsIdentity(s.id) && AcceptsContract(s.sc.contract) && |s.sc.fenced| <= MAX_RACKS
    && (forall k | k in s.racks :: RackKeeps(DurableOf(s.racks[k]).(rack := k)))
    && (forall k | k in s.links :: LinkKeeps(s.links[k]))
    && (forall k | k in s.domains :: DomainKeeps(k.0, s.domains[k]))
    && (forall k | k in s.constraints :: ConstraintKeeps(s.constraints[k]))
    && (forall r | r in s.sc.retired :: r.lastGeneration != 0)
    && (forall f | f in s.sc.fenced :: FenceKeeps(f))
  }

  // ---- listing a map ---------------------------------------------------------------------

  lemma ListedBy<V>(m: map<Id, V>) returns (keys: seq<Id>)
    ensures Ascending(keys, Before) && |keys| == |m| == |Listed(m)| && (forall k :: k in keys <==> k in m)
    ensures forall i | 0 <= i < |keys| :: keys[i] in m && Listed(m)[i] == m[keys[i]]
  {
    keys := SortedKeys(m.Keys);
    SortedKeysAscend(m.Keys);
    assert |m.Keys| == |m|;
  }

  lemma ListedAll<V>(m: map<Id, V>, p: V -> bool)
    ensures (forall v | v in Listed(m) :: p(v)) <==> (forall k | k in m :: p(m[k]))
  {
    ListedHoldsAll(m);
    hide Listed;
    if forall k | k in m :: p(m[k]) {
      forall v | v in Listed(m) ensures p(v) {
        var k :| k in m && m[k] == v;
      }
    }
  }

  lemma AcceptsListed<V>(m: map<Id, V>, bound: nat, p: V -> bool)
    ensures AcceptsList(Listed(m), bound, p) <==> |m| <= bound && forall k | k in m :: p(m[k])
  {
    var keys := ListedBy(m);
    ListedAll(m, p);
    hide Listed;
    assert All(Listed(m), p) <==> forall v | v in Listed(m) :: p(v);
  }

  ghost predicate Keyed<V(!new)>(lt: (V, V) -> bool, key: V -> Id) {
    forall a, b :: lt(a, b) <==> Before(key(a), key(b))
  }

  lemma ListedLinks<V(!new)>(m: map<Id, V>, lt: (V, V) -> bool, key: V -> Id)
    requires Keyed(lt, key) && forall k | k in m :: key(m[k]) == k
    ensures Linked(Listed(m), lt)
  {
    var keys := ListedBy(m);
    hide Listed;
    forall i | 0 < i < |Listed(m)| ensures lt(Listed(m)[i - 1], Listed(m)[i]) {
      assert Before(keys[i - 1], keys[i]);
    }
  }

  lemma AscendingIsLinked<T>(s: seq<T>, lt: (T, T) -> bool)
    requires Ascending(s, lt)
    ensures Linked(s, lt)
  {}

  /** A strictly ascending list over a set is no longer than the set. */
  lemma {:induction false} AscendingIsBounded(s: seq<Id>, keys: set<Id>)
    requires Ascending(s, Before) && forall x | x in s :: x in keys
    ensures |s| <= |keys|
  {
    if s != [] {
      var front, last := s[..|s| - 1], s[|s| - 1];
      forall x | x in front ensures x in keys - {last} {
        var i :| 0 <= i < |front| && front[i] == x;
        assert Before(s[i], last);
        Irreflexive(last);
      }
      AscendingIsBounded(front, keys - {last});
      assert last in keys;
      assert |keys - {last}| == |keys| - 1;
    }
  }

  // ---- the lists of a projection ---------------------------------------------------------

  lemma ListedRacks(s: State)
    requires RecordsPlaced(s)
    ensures var racks := Project(s).racks;
      && Linked(racks, RackBefore) && |racks| == |s.racks|
      && (forall id :: id in RackIds(racks) <==> id in s.racks)
  {
    var m := DurableRacks(s.racks);
    hide Listed; hide RecordsPlaced;
    var keys := ListedBy(m);
    ListedLinks(m, RackBefore, RackKey);
    assert m.Keys == s.racks.Keys && |m| == |m.Keys| && |s.racks| == |s.racks.Keys|;
    var ids := RackIds(Listed(m));
    forall i | 0 <= i < |ids| ensures ids[i] == keys[i] {}
    assert ids == keys;
  }

  lemma ListedColumn(s: State, kind: DomainKind)
    requires RecordsPlaced(s)
    ensures var list := Project(s).domains.Get(kind);
      && Linked(list, DomainBefore) && |list| == |s.DomainIds(kind)|
      && (forall id :: id in Ids(list) <==> (kind, id) in s.domains)
  {
    hide Listed; hide Project; hide Linked;
    ProjectionColumn(s, kind);
    var m := Column(s, kind);
    ColumnIsKeyed(s, kind);
    hide RecordsPlaced; hide Column;
    var keys := ListedBy(m);
    ListedLinks(m, DomainBefore, DomainKeyOf);
    assert Ids(Listed(m)) == keys;
  }

  lemma ColumnIsKeyed(s: State, kind: DomainKind)
    requires RecordsPlaced(s)
    ensures var m := Column(s, kind);
      && m.Keys == s.DomainIds(kind) && |m| == |s.DomainIds(kind)| && (forall id | id in m :: m[id].id == id)
      && (forall id :: id in m <==> (kind, id) in s.domains)
  {
    var m := Column(s, kind);
    assert |m| == |m.Keys|;
    forall id ensures id in s.DomainIds(kind) <==> (kind, id) in s.domains {}
  }

  lemma ColumnAll(s: State, kind: DomainKind, p: Domain -> bool)
    ensures (forall d | d in Project(s).domains.Get(kind) :: p(d))
      <==> (forall k | k in s.domains && k.0 == kind :: p(s.domains[k]))
  {
    hide Listed; hide Project;
    ProjectionColumn(s, kind);
    var m := Column(s, kind);
    ListedAll(m, p);
    forall k | k in s.domains && k.0 == kind ensures k.1 in m && m[k.1] == s.domains[k] {
      assert k == (kind, k.1) && k.1 in s.DomainIds(kind);
    }
  }

  // ---- record by record ------------------------------------------------------------------

  lemma RackIsKept(s: State, k: Id)
    requires k in s.racks && RackSound(s, k)
    ensures var d := DurableOf(s.racks[k]).(rack := k); AcceptsRack(d) && ValidRack(d) <==> RackKeeps(d)
  {
    var d := DurableOf(s.racks[k]).(rack := k);
    hide Linked; hide IsIdentity; hide AcceptsComposition;
    assert AcceptsEndpoints(d.endpoints) ==> forall e | e in d.endpoints :: IsIdentity(e.id);
    assert AcceptsHints(d.hints) ==> forall h | h in d.hints :: IsIdentity(h.id);
  }

  lemma DurableRacksShape(racks: map<Id, RackRecord>)
    ensures var m := DurableRacks(racks);
      m.Keys == racks.Keys && |m| == |racks| && forall k | k in racks :: m[k] == DurableOf(racks[k]).(rack := k)
  {
    var m := DurableRacks(racks);
    assert m.Keys == racks.Keys;
    assert |m| == |m.Keys| && |racks| == |racks.Keys|;
  }

  lemma RacksAreKept(s: State)
    requires RecordsPlaced(s) && |s.racks| <= MAX_RACKS && forall k | k in s.racks :: RackSound(s, k)
    ensures AcceptsRacks(Project(s).racks) && ValidRacks(Project(s).racks)
      <==> forall k | k in s.racks :: RackKeeps(DurableOf(s.racks[k]).(rack := k))
  {
    hide RackSound; hide AcceptsRack; hide ValidRack; hide RackKeeps; hide Listed; hide Linked; hide RecordsPlaced;
    hide AcceptsList; hide DurableOf; hide DurableRacks; hide Column; hide RackIds;
    var m := DurableRacks(s.racks);
    DurableRacksShape(s.racks);
    ListedRacks(s);
    AcceptsListed(m, MAX_RACKS, AcceptsRack);
    ListedAll(m, ValidRack);
    forall k | k in s.racks ensures AcceptsRack(m[k]) && ValidRack(m[k]) <==> RackKeeps(m[k]) { RackIsKept(s, k); }
  }

  lemma DomainIsKept(s: State, k: DomainKey, racks: seq<Id>)
    requires k in s.domains && DomainSound(s, k) && RecordsPlaced(s) && forall id :: id in racks <==> id in s.racks
    ensures AcceptsDomain(k.0, s.domains[k]) ==> ValidDomain(s.domains[k], racks)
  {
    var d := s.domains[k];
    AscendingIsLinked(d.racks, Before);
    hide Linked; hide IsIdentity; hide AcceptsDetail; hide AcceptsHeader; hide Ascending;
    assert AcceptsIds(d.racks, MAX_DOMAIN_MEMBERS) ==> forall r | r in d.racks :: IsIdentity(r);
    assert forall r | r in d.racks :: r in racks by { assert forall r | r in d.racks :: s.IsMember(r); }
  }

  lemma KindIsKept(s: State, kind: DomainKind, racks: seq<Id>)
    requires RecordsPlaced(s) && (forall k | k in s.domains :: DomainSound(s, k))
    requires |s.DomainIds(kind)| <= MAX_DOMAINS_PER_CLASS && forall id :: id in racks <==> id in s.racks
    ensures var list := Project(s).domains.Get(kind);
      AcceptsDomains(kind, list) && ValidDomains(list, racks)
      <==> forall k | k in s.domains && k.0 == kind :: AcceptsDomain(kind, s.domains[k])
  {
    hide Project; hide Linked; hide RecordsPlaced; hide AcceptsDomain; hide ValidDomain; hide DomainSound;
    hide State.DomainIds; hide Ids;
    var list := Project(s).domains.Get(kind);
    ListedColumn(s, kind);
    ColumnAll(s, kind, DomainFilter(kind));
    ColumnAll(s, kind, (d: Domain) => ValidDomain(d, racks));
    assert All(list, DomainFilter(kind)) <==> forall d | d in list :: DomainFilter(kind)(d);
    forall k | k in s.domains && k.0 == kind && AcceptsDomain(kind, s.domains[k])
      ensures ValidDomain(s.domains[k], racks)
    {
      DomainIsKept(s, k, racks);
    }
  }

  lemma DomainsAreKept(s: State, racks: seq<Id>)
    requires RecordsPlaced(s) && CountsSound(s) && (forall k | k in s.domains :: DomainSound(s, k))
    requires forall id :: id in racks <==> id in s.racks
    ensures var lists := Project(s).domains;
      && AcceptsDomainLists(lists) && (forall kind: DomainKind :: ValidDomains(lists.Get(kind), racks))
      && (forall d | d in lists.capacity :: ValidQuantities(d.quantities))
      <==> forall k | k in s.domains :: DomainKeeps(k.0, s.domains[k])
  {
    hide Project; hide RecordsPlaced; hide AcceptsDomains; hide ValidDomains; hide AcceptsDomain; hide ValidQuantities;
    hide DomainSound; hide State.DomainIds;
    var lists := Project(s).domains;
    forall kind: DomainKind { KindIsKept(s, kind, racks); }
    ColumnAll(s, Capacity, (d: Domain) => ValidQuantities(d.quantities));
    assert lists.Get(Capacity) == lists.capacity;
    if AcceptsDomainLists(lists) && (forall kind: DomainKind :: ValidDomains(lists.Get(kind), racks)) {
      forall k | k in s.domains ensures AcceptsDomain(k.0, s.domains[k]) {
        assert AcceptsDomains(k.0, lists.Get(k.0)) && ValidDomains(lists.Get(k.0), racks);
      }
    }
    if forall k | k in s.domains :: DomainKeeps(k.0, s.domains[k]) {
      forall kind: DomainKind ensures AcceptsDomains(kind, lists.Get(kind)) && ValidDomains(lists.Get(kind), racks) {
        assert forall k | k in s.domains && k.0 == kind :: AcceptsDomain(kind, s.domains[k]);
      }
    }
  }

  lemma LinkIsKept(s: State, k: Id, racks: seq<Id>, networks: seq<Id>, groups: seq<Id>)
    requires k in s.links && LinkSound(s, k) && RecordsPlaced(s) && ReferencesResolve(s)
    requires forall id :: id in racks <==> id in s.racks
    requires forall id :: id in networks <==> (Network, id) in s.domains
    requires forall id :: id in groups <==> (LinkGroup, id) in s.domains
    ensures AcceptsLink(s.links[k]) && ValidLink(s.links[k], racks, networks, groups) <==> LinkKeeps(s.links[k])
  {
    var l := s.links[k];
    assert s.IsMember(l.source) && s.IsMember(l.destination) && l.header.generation != 0;
    assert l.source != [] && l.destination != [];
    assert AcceptsLink(l) ==> IsIdentity(l.id);
    hide AcceptsLink; hide IsIdentity;
  }

  lemma LinksAreKept(s: State, racks: seq<Id>, networks: seq<Id>, groups: seq<Id>)
    requires RecordsPlaced(s) && ReferencesResolve(s) && |s.links| <= MAX_LINKS
    requires forall k | k in s.links :: LinkSound(s, k)
    requires forall id :: id in racks <==> id in s.racks
    requires forall id :: id in networks <==> (Network, id) in s.domains
    requires forall id :: id in groups <==> (LinkGroup, id) in s.domains
    ensures AcceptsLinks(Project(s).links) && ValidLinks(Project(s).links, racks, networks, groups)
      <==> forall k | k in s.links :: LinkKeeps(s.links[k])
  {
    hide RecordsPlaced; hide ReferencesResolve; hide LinkSound; hide AcceptsLink; hide LinkKeeps; hide ValidLink;
    hide Listed; hide Linked; hide AcceptsList; hide DurableRacks; hide Column;
    PlacedKeys(s);
    ListedLinks(s.links, LinkBefore, LinkKey);
    AcceptsListed(s.links, MAX_LINKS, AcceptsLink);
    ListedAll(s.links, (l: Link) => ValidLink(l, racks, networks, groups));
    forall k | k in s.links
      ensures AcceptsLink(s.links[k]) && ValidLink(s.links[k], racks, networks, groups) <==> LinkKeeps(s.links[k])
    {
      LinkIsKept(s, k, racks, networks, groups);
    }
  }

  lemma PlacedKeys(s: State)
    requires RecordsPlaced(s)
    ensures (forall k | k in s.links :: s.links[k].id == k)
      && (forall k | k in s.constraints :: s.constraints[k].id == k)
  {}

  lemma ConstraintIsKept(s: State, k: Id, racks: seq<Id>)
    requires k in s.constraints && ConstraintSound(s, k) && RecordsPlaced(s)
    requires forall id :: id in racks <==> id in s.racks
    ensures AcceptsConstraint(s.constraints[k]) && ValidConstraint(s.constraints[k], racks)
      <==> ConstraintKeeps(s.constraints[k])
  {
    var c := s.constraints[k];
    hide Linked; hide IsIdentity; hide AcceptsHeader;
    assert AcceptsIds(c.racks, MAX_DOMAIN_MEMBERS) ==> forall r | r in c.racks :: IsIdentity(r);
    assert forall r | r in c.racks :: r in racks by { assert forall r | r in c.racks :: s.IsMember(r); }
  }

  lemma ConstraintsAreKept(s: State, racks: seq<Id>)
    requires RecordsPlaced(s) && |s.constraints| <= MAX_CONSTRAINTS
    requires forall k | k in s.constraints :: ConstraintSound(s, k)
    requires forall id :: id in racks <==> id in s.racks
    ensures AcceptsConstraints(Project(s).constraints) && ValidConstraints(Project(s).constraints, racks)
      <==> forall k | k in s.constraints :: ConstraintKeeps(s.constraints[k])
  {
    hide RecordsPlaced; hide ConstraintSound; hide AcceptsConstraint; hide ConstraintKeeps; hide ValidMembers;
    hide Listed; hide Linked; hide AcceptsList; hide DurableRacks; hide Column;
    PlacedKeys(s);
    ListedLinks(s.constraints, ConstraintBefore, ConstraintKey);
    AcceptsListed(s.constraints, MAX_CONSTRAINTS, AcceptsConstraint);
    ListedAll(s.constraints, (c: Constraint) => ValidConstraint(c, racks));
    forall k | k in s.constraints
      ensures AcceptsConstraint(s.constraints[k]) && ValidConstraint(s.constraints[k], racks)
        <==> ConstraintKeeps(s.constraints[k])
    {
      ConstraintIsKept(s, k, racks);
    }
  }

  function RetiredRacks(retired: seq<RetiredIdentity>): seq<Id> {
    seq(|retired|, i requires 0 <= i < |retired| => retired[i].rack)
  }

  /** Retired and withdrawn identities are racks, so what holds of the racks holds of them. */
  lemma IdentitiesAreKept(s: State)
    requires WithdrawnSound(s) && RetirementExact(s) && Ascending(s.sc.retired, RetiredBefore)
    requires |s.racks| <= MAX_RACKS && forall k | k in s.racks :: IsIdentity(k)
    ensures AcceptsRetiredList(s.sc.retired) && AcceptsIds(s.sc.withdrawn, MAX_RACKS)
    ensures ValidWithdrawn(s.sc.withdrawn, s.sc.retired)
    ensures ValidRetired(s.sc.retired) <==> forall r | r in s.sc.retired :: r.lastGeneration != 0
  {
    hide IsIdentity;
    var retired := RetiredRacks(s.sc.retired);
    assert |s.racks| == |s.racks.Keys|;
    assert forall r | r in retired :: r in s.racks.Keys;
    AscendingIsBounded(retired, s.racks.Keys);
    AscendingIsBounded(s.sc.withdrawn, s.racks.Keys);
    AscendingIsLinked(s.sc.withdrawn, Before);
    AscendingIsLinked(s.sc.retired, RetiredBefore);
    forall w, r | w in s.sc.withdrawn && r in s.sc.retired ensures r.rack != w {
      assert s.IsRetired(r.rack);
    }
  }

  lemma FencesAreKept(fenced: seq<FencedAuthority>)
    ensures AcceptsFencedList(fenced) && ValidFenced(fenced)
      <==> |fenced| <= MAX_RACKS && forall f | f in fenced :: FenceKeeps(f)
  {
    hide IsIdentity;
    assert All(fenced, AcceptsFenced) <==> forall f | f in fenced :: AcceptsFenced(f);
  }

  // ---- the whole state -------------------------------------------------------------------

  lemma BlankIsBodySound(s: State)
    requires s.Blank()
    ensures BodySound(s)
  {
    assert forall kind :: s.DomainIds(kind) == {};
  }

  lemma ScalarsAreKept(s: State)
    requires Wired(s) && s.Declared() && CountsSound(s)
    ensures ValidScalars(Project(s)) <==> IsIdentity(s.id)
  {
    hide ReferencesResolve; hide RetirementExact; hide AuthorityJustified; hide IsIdentity; hide Column;
    ListedRacks(s);
    var links := ListedBy(s.links);
    var constraints := ListedBy(s.constraints);
    hide Listed; hide RecordsPlaced;
  }

  /**
   * A sound state can be read back from its container exactly when every record is well-formed on its own. Order,
   * uniqueness, references, counts and the separation of withdrawn and retired racks are never the obstacle.
   */
  lemma ReloadableExactly(s: State)
    requires Inv(s) && s.Declared()
    ensures Reloadable(s) <==> KeepsLocally(s)
  {
    assert BodySound(s) by {
      hide Wired; hide Settled; hide BodySound;
      if s.Blank() { BlankIsBodySound(s); }
    }
    assert Wired(s) by { hide Wired; hide Sound; hide Settled; }
    hide Inv; hide Settled; hide Sound;
    ReloadableParts(s);
  }

  lemma ReloadableParts(s: State)
    requires BodySound(s) && Wired(s) && s.Declared()
    ensures Reloadable(s) <==> KeepsLocally(s)
  {
    hide Project; hide RackSound; hide LinkSound; hide DomainSound; hide ConstraintSound; hide WithdrawnSound;
    hide FencedSound; hide ReferencesResolve; hide RetirementExact; hide RecordsPlaced; hide AuthorityJustified;
    hide CountersKnown; hide Ascending; hide Linked; hide RackKeeps; hide LinkKeeps; hide DomainKeeps;
    hide ConstraintKeeps;
    hide FenceKeeps; hide AcceptsRacks; hide AcceptsLinks; hide AcceptsConstraints; hide AcceptsDomainLists;
    hide AcceptsRetiredList; hide AcceptsFencedList; hide AcceptsIds; hide AcceptsContract; hide ValidScalars;
    hide ValidRacks;
    hide ValidDomains; hide ValidQuantities; hide ValidLinks; hide ValidConstraints; hide ValidRetired;
    hide ValidWithdrawn;
    hide ValidFenced; hide IsIdentity; hide DurableOf; hide RackIds; hide Ids; hide State.DomainIds;
    var p := Project(s);
    var racks, networks, groups := RackIds(p.racks), Ids(p.domains.network), Ids(p.domains.link);
    ProjectionScalars(s);
    ListedRacks(s);
    ListedColumn(s, Network);
    ListedColumn(s, LinkGroup);
    ScalarsAreKept(s);
    RacksAreKept(s);
    DomainsAreKept(s, racks);
    LinksAreKept(s, racks, networks, groups);
    ConstraintsAreKept(s, racks);
    FencesAreKept(s.sc.fenced);
    if AcceptsRacks(p.racks) && ValidRacks(p.racks) {
      KeptRacksAreIdentities(s);
      IdentitiesAreKept(s);
    }
  }

  lemma KeptRacksAreIdentities(s: State)
    requires forall k | k in s.racks :: RackKeeps(DurableOf(s.racks[k]).(rack := k))
    ensures forall k | k in s.racks :: IsIdentity(k)
  {
    hide IsIdentity; hide AcceptsComposition; hide AcceptsEndpoints; hide AcceptsHints; hide Linked;
    forall k | k in s.racks ensures IsIdentity(k) {
      assert RackKeeps(DurableOf(s.racks[k]).(rack := k));
    }
  }

  // ---- states that cannot be read back ----------------------------------------------------

  /** Obstacles that validation before the commit does not look for. */
  lemma NotReloadable(s: State, k: Id, f: FencedAuthority)
    requires Inv(s) && s.Declared()
    ensures k in s.racks && s.racks[k].reference.boot == [] ==> !Reloadable(s)
    ensures k in s.racks && !Linked(s.racks[k].reference.endpoints, EndpointBefore) ==> !Reloadable(s)
    ensures f in s.sc.fenced && f.reason == [] ==> !Reloadable(s)
    ensures |s.sc.fenced| > MAX_RACKS ==> !Reloadable(s)
  {
    hide Inv; hide Reloadable; hide LinkKeeps; hide DomainKeeps; hide ConstraintKeeps; hide AcceptsContract;
    hide AcceptsComposition; hide AcceptsEndpoints; hide AcceptsHints; hide Linked;
    ReloadableExactly(s);
    if KeepsLocally(s) && k in s.racks {
      assert RackKeeps(DurableOf(s.racks[k]).(rack := k));
    }
    EmptyIsNoIdentity();
    hide IsIdentity;
  }

  lemma EmptyIsNoIdentity()
    ensures !IsIdentity([])
  {}

  /** Recovery stores endpoints as the request lists them; committing an unsorted list makes the store unreadable. */
  lemma UnsortedRecoveryCannotBeReloaded(cfg: Config, now: Timestamp, s: State, req: Request)
    requires Inv(s) && req.kind.RecoverRack? && Proposal(cfg, now, s, req).Some?
    requires !Linked(req.reference.endpoints, EndpointBefore)
    ensures !Reloadable(Proposal(cfg, now, s, req).value)
  {
    hide Reloadable; hide Linked;
    var t := Proposal(cfg, now, s, req).value;
    var rack := RecoverySubject(req);
    assert rack in t.racks && t.racks[rack].reference.endpoints == req.reference.endpoints by {
      EmptyIsLinked();
      RecoveredEndpoints(cfg, now, s, req);
    }
    hide Inv; hide Proposal;
    ProposalIsInv(cfg, s, Mutate(now, req, true));
    assert Proposed(cfg, s, Mutate(now, req, true)) == Proposal(cfg, now, s, req);
    NotReloadable(t, rack, FencedAuthority([], [], [], 0));
  }

  lemma EmptyIsLinked()
    ensures Linked<Endpoint>([], EndpointBefore)
  {}

  lemma RecoveredEndpoints(cfg: Config, now: Timestamp, s: State, req: Request)
    requires req.kind.RecoverRack? && Proposal(cfg, now, s, req).Some? && req.reference.endpoints != []
    ensures var t := Proposal(cfg, now, s, req).value; var rack := RecoverySubject(req);
      rack in t.racks && t.racks[rack].reference.endpoints == req.reference.endpoints
  {
    hide Sound; hide Evaluate; hide ValidateCommon; hide RecoverGate; hide Without;
    assert Apply(cfg, now, s, req) == ApplyRecover(s, req);
  }
}
