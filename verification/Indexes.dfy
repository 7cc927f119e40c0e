/** Derived indexes: a cache that agrees with the records it was built from. */
module Indexes {
  import opened Foundation
  import opened Sorting
  import opened Iteration
  import opened EvidenceStamps
  import opened Records
  import opened Durable
  import opened Checking

  /** A missing bucket reads as an empty list. */
  function Lookup<B>(index: map<B, seq<Id>>, b: B): seq<Id> { if b in index then index[b] else [] }

  predicate NoRepeats<B(==)>(s: seq<B>) { forall i, j | 0 <= i < j < |s| :: s[i] != s[j] }

  function Holding<V, B(==)>(m: map<Id, V>, b: B, buckets: V -> seq<B>): set<Id> {
    set k | k in m && b in buckets(m[k])
  }

  /** Every bucket lists exactly the keys that belong to it, in ascending order. */
  ghost predicate Grouped<V, B(!new)>(index: map<B, seq<Id>>, m: map<Id, V>, buckets: V -> seq<B>) {
    forall b :: Lookup(index, b) == SortedKeys(Holding(m, b, buckets))
  }

  /** A bucket while the keys in `rest` are still to come. */
  ghost predicate Filling<V, B>(list: seq<Id>, m: map<Id, V>, b: B, buckets: V -> seq<B>, rest: set<Id>) {
    && Ascending(list, Before)
    && (forall k :: k in list <==> k in m && k !in rest && b in buckets(m[k]))
  }

  lemma FillingGoesOn<V, B>(list: seq<Id>, m: map<Id, V>, b: B, buckets: V -> seq<B>, rest: set<Id>, k: Id)
    requires Filling(list, m, b, buckets, rest) && rest <= m.Keys && IsLeast(k, rest)
    requires forall j | j in m && j !in rest :: Before(j, k)
    ensures Filling(if b in buckets(m[k]) then list + [k] else list, m, b, buckets, rest - {k})
  {}

  /** push_back of every key, in key order, into each of its buckets. */
  method Group<V, B(==, !new)>(m: map<Id, V>, buckets: V -> seq<B>) returns (index: map<B, seq<Id>>)
    requires forall k | k in m :: NoRepeats(buckets(m[k]))
    ensures Grouped(index, m, buckets)
  {
    TextIsOrdered();
    hide StrictOrder;
    index := map[];
    var rest := m.Keys;
    while rest != {}
      invariant rest <= m.Keys
      invariant forall j, l | j in m && j !in rest && l in rest :: Before(j, l)
      invariant forall b :: Filling(Lookup(index, b), m, b, buckets, rest)
      decreases rest
    {
      hide Filling;
      var k := SmallestOf(rest);
      ghost var before := index;
      var list := buckets(m[k]);
      for i := 0 to |list|
        invariant forall b :: Lookup(index, b) == if b in list[..i] then Lookup(before, b) + [k] else Lookup(before, b)
      {
        assert list[i] !in list[..i];
        index := index[list[i] := Lookup(index, list[i]) + [k]];
        assert list[..i + 1] == list[..i] + [list[i]];
      }
      assert list[..|list|] == list;
      forall b ensures Filling(Lookup(index, b), m, b, buckets, rest - {k}) {
        FillingGoesOn(Lookup(before, b), m, b, buckets, rest, k);
      }
      rest := rest - {k};
    }
    forall b ensures Lookup(index, b) == SortedKeys(Holding(m, b, buckets)) {
      assert Filling(Lookup(index, b), m, b, buckets, {});
      AscendingIsUnique(Lookup(index, b), Holding(m, b, buckets));
    }
  }

  // ---- what is indexed -------------------------------------------------------------------

  function Members(d: Domain): seq<Id> { SortUnique(d.racks, Before) }
  function ClassOf(d: Domain): seq<DomainClass> { [d.klass] }
  function SourceOf(l: Link): seq<Id> { [l.source] }
  function DestinationOf(l: Link): seq<Id> { [l.destination] }
  function MembershipOf(r: RackRecord): seq<Membership> { [r.membership] }
  function BootOf(r: RackRecord): seq<Id> { [r.reference.boot] }

  lemma MembersDoNotRepeat(d: Domain)
    ensures NoRepeats(Members(d))
  {
    SortUniqueIds(d.racks);
    TextIsOrdered();
  }

  predicate ListsMembers(index: map<Id, seq<Id>>, column: map<Id, Domain>) {
    index.Keys == column.Keys && forall k | k in column :: index[k] == Members(column[k])
  }

  method ListMembers(column: map<Id, Domain>) returns (index: map<Id, seq<Id>>)
    ensures ListsMembers(index, column)
  {
    hide Members; hide IsLeast;
    index := map[];
    var rest := column.Keys;
    while rest != {}
      invariant rest <= column.Keys && index.Keys == column.Keys - rest
      invariant forall k | k in index :: index[k] == Members(column[k])
      decreases rest
    {
      var k := SmallestOf(rest);
      index := index[k := Members(column[k])];
      rest := rest - {k};
    }
  }

  method GroupMembers(column: map<Id, Domain>) returns (index: map<Id, seq<Id>>)
    ensures Grouped(index, column, Members)
  {
    forall k | k in column ensures NoRepeats(Members(column[k])) { MembersDoNotRepeat(column[k]); }
    index := Group(column, Members);
  }

  method GroupClasses(column: map<Id, Domain>) returns (index: map<DomainClass, seq<Id>>)
    ensures Grouped(index, column, ClassOf)
  {
    index := Group(column, ClassOf);
  }

  method GroupRacks(racks: map<Id, RackRecord>)
    returns (memberships: map<Membership, seq<Id>>, boots: map<Id, seq<Id>>)
    ensures Grouped(memberships, racks, MembershipOf) && Grouped(boots, racks, BootOf)
  {
    hide Grouped;
    memberships := Group(racks, MembershipOf);
    boots := Group(racks, BootOf);
  }

  method GroupLinks(links: map<Id, Link>) returns (sources: map<Id, seq<Id>>, destinations: map<Id, seq<Id>>)
    ensures Grouped(sources, links, SourceOf) && Grouped(destinations, links, DestinationOf)
  {
    hide Grouped;
    sources := Group(links, SourceOf);
    destinations := Group(links, DestinationOf);
  }

  ghost predicate MembersSorted(s: State) { forall k | k in s.domains :: Ascending(s.domains[k].racks, Before) }

  datatype Independence = Unknown | Independent | Shared | RevalidationRequired

  predicate Telling(d: Domain, klass: FailureClass) {
    d.klass == klass && !d.header.evidence.RequiresRevalidation() && d.header.evidence.IsCurrent()
  }

  predicate Waiting(d: Domain, klass: FailureClass) { d.klass == klass && d.header.evidence.RequiresRevalidation() }

  predicate Placed(column: map<Id, Domain>, rack: Id, klass: FailureClass) {
    exists k | k in column :: Telling(column[k], klass) && rack in column[k].racks
  }

  /** Directly over all failure domains, without an index. */
  predicate SharesDomain(column: map<Id, Domain>, lhs: Id, rhs: Id, klass: FailureClass) {
    exists k | k in column :: Telling(column[k], klass) && lhs in column[k].racks && rhs in column[k].racks
  }

  predicate AwaitsDomain(column: map<Id, Domain>, lhs: Id, rhs: Id, klass: FailureClass) {
    exists k | k in column :: Waiting(column[k], klass) && (lhs in column[k].racks || rhs in column[k].racks)
  }

  function IndependenceOf(s: State, lhs: Id, rhs: Id, klass: FailureClass): Independence {
    var column := Column(s, Failure);
    if klass == 0 || lhs !in s.racks || rhs !in s.racks then Independence.Unknown
    else if SharesDomain(column, lhs, rhs, klass) then Shared
    else if AwaitsDomain(column, lhs, rhs, klass) then Independence.RevalidationRequired
    else if Placed(column, lhs, klass) && Placed(column, rhs, klass) then Independent
    else Independence.Unknown
  }

  lemma IndependenceIsSymmetric(s: State, lhs: Id, rhs: Id, klass: FailureClass)
    ensures IndependenceOf(s, lhs, rhs, klass) == IndependenceOf(s, rhs, lhs, klass)
  {
    var column := Column(s, Failure);
    assert SharesDomain(column, lhs, rhs, klass) <==> SharesDomain(column, rhs, lhs, klass);
    assert AwaitsDomain(column, lhs, rhs, klass) <==> AwaitsDomain(column, rhs, lhs, klass);
  }

  // ---- what the answer means, read off the failure domains of the state --------------------

  /** The question has an answer: a known class and two recorded racks. */
  predicate Answerable(s: State, lhs: Id, rhs: Id, klass: FailureClass) {
    klass != 0 && lhs in s.racks && rhs in s.racks
  }

  /** Some current failure domain of the class holds both. */
  predicate TogetherIn(s: State, lhs: Id, rhs: Id, klass: FailureClass) {
    exists k | k in s.domains ::
      && k.0 == Failure && s.domains[k].klass == klass && s.domains[k].header.evidence.IsCurrent()
      && lhs in s.domains[k].racks && rhs in s.domains[k].racks
  }

  predicate CurrentAround(s: State, rack: Id, klass: FailureClass) { TogetherIn(s, rack, rack, klass) }

  /** Some failure domain of the class that holds the rack waits for revalidation. */
  predicate LapsedAround(s: State, rack: Id, klass: FailureClass) {
    exists k | k in s.domains ::
      && k.0 == Failure && s.domains[k].klass == klass && s.domains[k].header.evidence.RequiresRevalidation()
      && rack in s.domains[k].racks
  }

  lemma ColumnSays(s: State, lhs: Id, rhs: Id, klass: FailureClass)
    ensures SharesDomain(Column(s, Failure), lhs, rhs, klass) <==> TogetherIn(s, lhs, rhs, klass)
  {
    var column := Column(s, Failure);
    if TogetherIn(s, lhs, rhs, klass) {
      var k :| k in s.domains && k.0 == Failure && s.domains[k].klass == klass
               && s.domains[k].header.evidence.IsCurrent() && lhs in s.domains[k].racks && rhs in s.domains[k].racks;
      assert k == (Failure, k.1) && k.1 in column && Telling(column[k.1], klass);
    }
    if SharesDomain(column, lhs, rhs, klass) {
      var k :| k in column && Telling(column[k], klass) && lhs in column[k].racks && rhs in column[k].racks;
      assert (Failure, k) in s.domains;
    }
  }

  lemma ColumnAwaits(s: State, lhs: Id, rhs: Id, klass: FailureClass)
    ensures AwaitsDomain(Column(s, Failure), lhs, rhs, klass)
      <==> LapsedAround(s, lhs, klass) || LapsedAround(s, rhs, klass)
  {
    var column := Column(s, Failure);
    forall rack | LapsedAround(s, rack, klass)
      ensures exists k | k in column :: Waiting(column[k], klass) && rack in column[k].racks
    {
      var k :| k in s.domains && k.0 == Failure && s.domains[k].klass == klass
               && s.domains[k].header.evidence.RequiresRevalidation() && rack in s.domains[k].racks;
      assert k == (Failure, k.1) && k.1 in column && Waiting(column[k.1], klass);
    }
    if AwaitsDomain(column, lhs, rhs, klass) {
      var k :| k in column && Waiting(column[k], klass) && (lhs in column[k].racks || rhs in column[k].racks);
      assert (Failure, k) in s.domains;
    }
  }

  /** Each answer, exactly. */
  lemma IndependenceExactly(s: State, lhs: Id, rhs: Id, klass: FailureClass)
    ensures var r := IndependenceOf(s, lhs, rhs, klass);
      && (r.Shared? <==> Answerable(s, lhs, rhs, klass) && TogetherIn(s, lhs, rhs, klass))
      && (r.RevalidationRequired? <==>
            && Answerable(s, lhs, rhs, klass) && !TogetherIn(s, lhs, rhs, klass)
            && (LapsedAround(s, lhs, klass) || LapsedAround(s, rhs, klass)))
      && (r.Independent? <==>
            && Answerable(s, lhs, rhs, klass) && !TogetherIn(s, lhs, rhs, klass)
            && !LapsedAround(s, lhs, klass) && !LapsedAround(s, rhs, klass)
            && CurrentAround(s, lhs, klass) && CurrentAround(s, rhs, klass))
  {
    hide SharesDomain; hide AwaitsDomain; hide Placed; hide TogetherIn; hide LapsedAround; hide Column;
    ColumnSays(s, lhs, rhs, klass);
    PlacedSays(s, lhs, klass);
    PlacedSays(s, rhs, klass);
    ColumnAwaits(s, lhs, rhs, klass);
  }

  lemma PlacedSays(s: State, rack: Id, klass: FailureClass)
    ensures Placed(Column(s, Failure), rack, klass) <==> CurrentAround(s, rack, klass)
  {
    ColumnSays(s, rack, rack, klass);
    hide Column; hide TogetherIn; hide Telling;
  }

  /** No rack is independent of itself, and one current domain around two racks settles the matter. */
  lemma NeverIndependentOfItself(s: State, rack: Id, klass: FailureClass)
    ensures !IndependenceOf(s, rack, rack, klass).Independent?
  {
    IndependenceExactly(s, rack, rack, klass);
    hide IndependenceOf; hide TogetherIn; hide LapsedAround;
  }

  lemma OneSharedDomainSuffices(s: State, id: Id, d: Domain, lhs: Id, rhs: Id)
    requires d.klass != 0 && d.klass <= 9 && d.header.evidence.IsCurrent() && lhs in d.racks && rhs in d.racks
    requires lhs in s.racks && rhs in s.racks
    ensures IndependenceOf(s.(domains := s.domains[(Failure, id) := d]), lhs, rhs, d.klass) == Shared
  {
    var t := s.(domains := s.domains[(Failure, id) := d]);
    assert TogetherIn(t, lhs, rhs, d.klass) by { assert t.domains[(Failure, id)] == d; }
    IndependenceExactly(t, lhs, rhs, d.klass);
    hide IndependenceOf; hide TogetherIn; hide LapsedAround;
  }

  method IndexColumn(column: map<Id, Domain>) returns (racks: map<Id, seq<Id>>, of: map<Id, seq<Id>>)
    ensures MirrorsColumn(racks, of, column)
  {
    hide Grouped; hide ListsMembers;
    racks := ListMembers(column);
    of := GroupMembers(column);
  }

  /** The index maps of one rebuild. */
  datatype Tables = Tables(
    rackCount: nat,
    placementRacks: map<Id, seq<Id>>, capacityRacks: map<Id, seq<Id>>, failureRacks: map<Id, seq<Id>>,
    networkRacks: map<Id, seq<Id>>,
    placementOf: map<Id, seq<Id>>, capacityOf: map<Id, seq<Id>>, failureOf: map<Id, seq<Id>>,
    networkOf: map<Id, seq<Id>>,
    placementByClass: map<DomainClass, seq<Id>>, failureByClass: map<DomainClass, seq<Id>>,
    linksFrom: map<Id, seq<Id>>, linksTo: map<Id, seq<Id>>,
    byMembership: map<Membership, seq<Id>>, byBoot: map<Id, seq<Id>>)

  ghost predicate MirrorsColumn(racks: map<Id, seq<Id>>, of: map<Id, seq<Id>>, column: map<Id, Domain>) {
    ListsMembers(racks, column) && Grouped(of, column, Members)
  }

  /** Every index says exactly what a scan of the records would say. */
  ghost predicate Mirrors(t: Tables, s: State) {
    && t.rackCount == |s.racks|
    && MirrorsColumn(t.placementRacks, t.placementOf, Column(s, Placement))
    && MirrorsColumn(t.capacityRacks, t.capacityOf, Column(s, Capacity))
    && MirrorsColumn(t.failureRacks, t.failureOf, Column(s, Failure))
    && MirrorsColumn(t.networkRacks, t.networkOf, Column(s, Network))
    && Grouped(t.placementByClass, Column(s, Placement), ClassOf)
    && Grouped(t.failureByClass, Column(s, Failure), ClassOf)
    && Grouped(t.linksFrom, s.links, SourceOf) && Grouped(t.linksTo, s.links, DestinationOf)
    && Grouped(t.byMembership, s.racks, MembershipOf) && Grouped(t.byBoot, s.racks, BootOf)
  }

  // ---- what a lookup returns, read off the records ----------------------------------------

  lemma GroupedAnswers<V, B(!new)>(index: map<B, seq<Id>>, m: map<Id, V>, buckets: V -> seq<B>, b: B)
    requires Grouped(index, m, buckets)
    ensures Ascending(Lookup(index, b), Before)
    ensures forall k :: k in Lookup(index, b) <==> k in m && b in buckets(m[k])
  {
    SortedKeysAscend(Holding(m, b, buckets));
    hide SortedKeys;
  }

  /** The list holds exactly the links with this source, in identity order. */
  ghost predicate LinksWithSource(list: seq<Id>, s: State, x: Id) {
    Ascending(list, Before) && forall k :: k in list <==> k in s.links && s.links[k].source == x
  }

  ghost predicate LinksWithDestination(list: seq<Id>, s: State, x: Id) {
    Ascending(list, Before) && forall k :: k in list <==> k in s.links && s.links[k].destination == x
  }

  ghost predicate RacksWithBoot(list: seq<Id>, s: State, x: Id) {
    Ascending(list, Before) && forall k :: k in list <==> k in s.racks && s.racks[k].reference.boot == x
  }

  ghost predicate RacksWithMembership(list: seq<Id>, s: State, m: Membership) {
    Ascending(list, Before) && forall k :: k in list <==> k in s.racks && s.racks[k].membership == m
  }

  /** The list holds exactly the domains of the kind around the rack. */
  ghost predicate DomainsHolding(list: seq<Id>, s: State, kind: DomainKind, x: Id) {
    && Ascending(list, Before)
    && forall d :: d in list <==> (kind, d) in s.domains && x in s.domains[(kind, d)].racks
  }

  ghost predicate RacksWithin(list: seq<Id>, s: State, kind: DomainKind, x: Id) {
    && Ascending(list, Before)
    && forall k :: k in list <==> (kind, x) in s.domains && k in s.domains[(kind, x)].racks
  }

  ghost predicate DomainsOfClass(list: seq<Id>, s: State, kind: DomainKind, klass: DomainClass) {
    && Ascending(list, Before)
    && forall d :: d in list <==> (kind, d) in s.domains && s.domains[(kind, d)].klass == klass
  }

  lemma LinkLookups(sources: map<Id, seq<Id>>, destinations: map<Id, seq<Id>>, s: State, x: Id)
    requires Grouped(sources, s.links, SourceOf) && Grouped(destinations, s.links, DestinationOf)
    ensures LinksWithSource(Lookup(sources, x), s, x) && LinksWithDestination(Lookup(destinations, x), s, x)
  {
    GroupedAnswers(sources, s.links, SourceOf, x);
    GroupedAnswers(destinations, s.links, DestinationOf, x);
    hide Grouped; hide Lookup; hide Ascending;
  }

  lemma RackLookups(memberships: map<Membership, seq<Id>>, boots: map<Id, seq<Id>>, s: State, x: Id, m: Membership)
    requires Grouped(memberships, s.racks, MembershipOf) && Grouped(boots, s.racks, BootOf)
    ensures RacksWithBoot(Lookup(boots, x), s, x) && RacksWithMembership(Lookup(memberships, m), s, m)
  {
    GroupedAnswers(boots, s.racks, BootOf, x);
    GroupedAnswers(memberships, s.racks, MembershipOf, m);
    hide Grouped; hide Lookup; hide Ascending;
  }

  lemma ColumnLookups(racks: map<Id, seq<Id>>, of: map<Id, seq<Id>>, s: State, kind: DomainKind, x: Id)
    requires MirrorsColumn(racks, of, Column(s, kind))
    ensures DomainsHolding(Lookup(of, x), s, kind, x) && RacksWithin(Lookup(racks, x), s, kind, x)
  {
    var column := Column(s, kind);
    assert forall d :: d in column <==> (kind, d) in s.domains;
    forall d | d in column ensures forall k :: k in Members(column[d]) <==> k in column[d].racks {
      SortUniqueIds(column[d].racks);
    }
    if x in column { SortUniqueIds(column[x].racks); }
    GroupedAnswers(of, column, Members, x);
    hide Grouped; hide SortUnique;
    assert Ascending<Id>([], Before);
  }

  lemma ClassLookups(index: map<DomainClass, seq<Id>>, s: State, kind: DomainKind, klass: DomainClass)
    requires Grouped(index, Column(s, kind), ClassOf)
    ensures DomainsOfClass(Lookup(index, klass), s, kind, klass)
  {
    GroupedAnswers(index, Column(s, kind), ClassOf, klass);
    hide Grouped; hide Lookup; hide Ascending;
    assert forall d :: d in Column(s, kind) <==> (kind, d) in s.domains;
  }

  /** Every lookup in a rebuilt table lists exactly what a scan of the records finds, in identity order. */
  lemma LookupsAreExact(t: Tables, s: State, x: Id, m: Membership, klass: DomainClass)
    requires Mirrors(t, s)
    ensures LinksWithSource(Lookup(t.linksFrom, x), s, x) && LinksWithDestination(Lookup(t.linksTo, x), s, x)
    ensures RacksWithBoot(Lookup(t.byBoot, x), s, x) && RacksWithMembership(Lookup(t.byMembership, m), s, m)
    ensures DomainsHolding(Lookup(t.placementOf, x), s, Placement, x)
    ensures DomainsHolding(Lookup(t.capacityOf, x), s, Capacity, x)
    ensures DomainsHolding(Lookup(t.failureOf, x), s, Failure, x)
    ensures DomainsHolding(Lookup(t.networkOf, x), s, Network, x)
    ensures RacksWithin(Lookup(t.placementRacks, x), s, Placement, x)
    ensures RacksWithin(Lookup(t.capacityRacks, x), s, Capacity, x)
    ensures RacksWithin(Lookup(t.failureRacks, x), s, Failure, x)
    ensures RacksWithin(Lookup(t.networkRacks, x), s, Network, x)
    ensures DomainsOfClass(Lookup(t.placementByClass, klass), s, Placement, klass)
    ensures DomainsOfClass(Lookup(t.failureByClass, klass), s, Failure, klass)
  {
    hide Grouped; hide MirrorsColumn; hide Lookup; hide Column; hide LinksWithSource; hide LinksWithDestination;
    hide RacksWithBoot; hide RacksWithMembership; hide DomainsHolding; hide RacksWithin; hide DomainsOfClass;
    LinkLookups(t.linksFrom, t.linksTo, s, x);
    RackLookups(t.byMembership, t.byBoot, s, x, m);
    ColumnLookups(t.placementRacks, t.placementOf, s, Placement, x);
    ColumnLookups(t.capacityRacks, t.capacityOf, s, Capacity, x);
    ColumnLookups(t.failureRacks, t.failureOf, s, Failure, x);
    ColumnLookups(t.networkRacks, t.networkOf, s, Network, x);
    ClassLookups(t.placementByClass, s, Placement, klass);
    ClassLookups(t.failureByClass, s, Failure, klass);
  }

  /** A current domain of the class holds the rack. */
  predicate Tells(column: map<Id, Domain>, k: Id, klass: FailureClass, rack: Id) {
    k in column && Telling(column[k], klass) && rack in column[k].racks
  }

  predicate Waits(column: map<Id, Domain>, k: Id, klass: FailureClass) { k in column && Waiting(column[k], klass) }

  /** The body of both loops: unknown, foreign, stale and lapsed domains are passed over. */
  method Judge(column: map<Id, Domain>, k: Id, klass: FailureClass, lhs: Id, rhs: Id)
    returns (inLhs: bool, inRhs: bool, waits: bool)
    requires ColumnSorted(column)
    ensures inLhs == Tells(column, k, klass, lhs) && inRhs == Tells(column, k, klass, rhs)
    ensures waits == Waits(column, k, klass)
  {
    hide Ascending;
    if k !in column { return false, false, false; }
    var d := column[k];
    if d.klass != klass { return false, false, false; }
    if d.header.evidence.RequiresRevalidation() { return false, false, true; }
    if !d.header.evidence.IsCurrent() { return false, false, false; }
    inLhs := BinarySearch(d.racks, lhs);
    inRhs := BinarySearch(d.racks, rhs);
    waits := false;
  }

  class ClusterIndexes {
    var tables: Tables

    constructor ()
    {
      tables := Tables(0, map[], map[], map[], map[], map[], map[], map[], map[], map[], map[], map[], map[], map[],
        map[]);
    }

    method Rebuild(s: State)
      modifies this
      ensures Mirrors(tables, s)
    {
      hide Grouped; hide MirrorsColumn; hide Column;
      var memberships, boots := GroupRacks(s.racks);
      var placements, capacities := Column(s, Placement), Column(s, Capacity);
      var failures, networks := Column(s, Failure), Column(s, Network);
      var placementRacks, placementOf := IndexColumn(placements);
      var placementClasses := GroupClasses(placements);
      var capacityRacks, capacityOf := IndexColumn(capacities);
      var failureRacks, failureOf := IndexColumn(failures);
      var failureClasses := GroupClasses(failures);
      var networkRacks, networkOf := IndexColumn(networks);
      var sources, destinations := GroupLinks(s.links);
      tables := Tables(|s.racks|, placementRacks, capacityRacks, failureRacks, networkRacks,
                       placementOf, capacityOf, failureOf, networkOf, placementClasses, failureClasses,
                       sources, destinations, memberships, boots);
    }

    /** One of the two loops: the failure domains the index lists for one rack. */
    method Survey(s: State, of: Id, lhs: Id, rhs: Id, klass: FailureClass)
      returns (left: bool, right: bool, waiting: bool, shared: bool)
      requires MembersSorted(s)
      ensures var column := Column(s, Failure); var list := Lookup(tables.failureOf, of);
        && left == Any(list, Teller(column, klass, lhs)) && right == Any(list, Teller(column, klass, rhs))
        && waiting == Any(list, Waiter(column, klass)) && shared == Any(list, Sharer(column, klass, lhs, rhs))
    {
      ColumnsAreSorted(s, Failure);
      hide Tells; hide Waits; hide Column; hide MembersSorted; hide ColumnSorted; hide Lookup; hide Any;
      left, right, waiting, shared := false, false, false, false;
      var column, list := Column(s, Failure), Lookup(tables.failureOf, of);
      AnyStarts(list, Teller(column, klass, lhs)); AnyStarts(list, Teller(column, klass, rhs));
      AnyStarts(list, Waiter(column, klass)); AnyStarts(list, Sharer(column, klass, lhs, rhs));
      for i := 0 to |list|
        invariant left == Any(list[..i], Teller(column, klass, lhs))
        invariant right == Any(list[..i], Teller(column, klass, rhs))
        invariant waiting == Any(list[..i], Waiter(column, klass))
        invariant shared == Any(list[..i], Sharer(column, klass, lhs, rhs))
      {
        AnyGrows(list, i, Teller(column, klass, lhs)); AnyGrows(list, i, Teller(column, klass, rhs));
        AnyGrows(list, i, Waiter(column, klass)); AnyGrows(list, i, Sharer(column, klass, lhs, rhs));
        var inLhs, inRhs, waits := Judge(column, list[i], klass, lhs, rhs);
        if waits { waiting := true; }
        if inLhs { left := true; }
        if inRhs {
          right := true;
          if inLhs { shared := true; }
        }
      }
      assert list[..|list|] == list;
    }

    /** failure_domain_independence: two indexed loops give the answer of a scan over all failure domains. */
    method FailureDomainIndependence(s: State, lhs: Id, rhs: Id, klass: FailureClass) returns (r: Independence)
      requires Mirrors(tables, s) && MembersSorted(s)
      ensures r == IndependenceOf(s, lhs, rhs, klass)
      ensures r.Shared? <==> Answerable(s, lhs, rhs, klass) && TogetherIn(s, lhs, rhs, klass)
      ensures r.RevalidationRequired? <==>
        && Answerable(s, lhs, rhs, klass) && !TogetherIn(s, lhs, rhs, klass)
        && (LapsedAround(s, lhs, klass) || LapsedAround(s, rhs, klass))
      ensures r.Independent? <==>
        && Answerable(s, lhs, rhs, klass) && !TogetherIn(s, lhs, rhs, klass)
        && !LapsedAround(s, lhs, klass) && !LapsedAround(s, rhs, klass)
        && CurrentAround(s, lhs, klass) && CurrentAround(s, rhs, klass)
    {
      IndependenceExactly(s, lhs, rhs, klass);
      hide Grouped; hide Lookup; hide MembersSorted; hide Column; hide Any; hide SharesDomain; hide AwaitsDomain;
      hide Placed; hide TogetherIn; hide LapsedAround; hide CurrentAround; hide Answerable;
      if klass == 0 { return Independence.Unknown; }
      if lhs !in s.racks || rhs !in s.racks { return Independence.Unknown; }
      var a, b, c, d := Survey(s, lhs, lhs, rhs, klass);
      var e, f, g, h := Survey(s, rhs, lhs, rhs, klass);
      TwoLoopsCover(tables.failureOf, Column(s, Failure), lhs, rhs, klass);
      r := if d || h then Shared
           else if c || g then Independence.RevalidationRequired
           else if (a || e) && (b || f) then Independent
           else Independence.Unknown;
    }
  }

  predicate Any(list: seq<Id>, p: Id -> bool) { exists j | 0 <= j < |list| :: p(list[j]) }

  lemma AnyStarts(list: seq<Id>, p: Id -> bool)
    ensures !Any(list[..0], p)
  {}

  lemma AnyGrows(list: seq<Id>, i: nat, p: Id -> bool)
    requires i < |list|
    ensures Any(list[..i + 1], p) <==> Any(list[..i], p) || p(list[i])
  {
    var a, b := list[..i], list[..i + 1];
    if Any(a, p) {
      var j :| 0 <= j < |a| && p(a[j]);
      assert b[j] == a[j];
    }
    assert b[i] == list[i];
    if Any(b, p) {
      var j :| 0 <= j < |b| && p(b[j]);
      if j < i { assert a[j] == b[j]; }
    }
  }

  lemma AnyIn(list: seq<Id>, p: Id -> bool)
    ensures Any(list, p) <==> exists k | k in list :: p(k)
  {
    if k :| k in list && p(k) {
      var j :| 0 <= j < |list| && list[j] == k;
    }
  }

  function Teller(column: map<Id, Domain>, klass: FailureClass, rack: Id): Id -> bool {
    k => Tells(column, k, klass, rack)
  }

  function Waiter(column: map<Id, Domain>, klass: FailureClass): Id -> bool { k => Waits(column, k, klass) }

  function Sharer(column: map<Id, Domain>, klass: FailureClass, lhs: Id, rhs: Id): Id -> bool {
    k => Tells(column, k, klass, lhs) && Tells(column, k, klass, rhs)
  }

  /** Whatever a scan of all domains could find is on one of the two lists. */
  lemma TwoLoopsCover(index: map<Id, seq<Id>>, column: map<Id, Domain>, lhs: Id, rhs: Id, klass: FailureClass)
    requires Grouped(index, column, Members)
    ensures var l, r := Lookup(index, lhs), Lookup(index, rhs);
      && (SharesDomain(column, lhs, rhs, klass)
          <==> Any(l, Sharer(column, klass, lhs, rhs)) || Any(r, Sharer(column, klass, lhs, rhs)))
      && (AwaitsDomain(column, lhs, rhs, klass) <==> Any(l, Waiter(column, klass)) || Any(r, Waiter(column, klass)))
      && (Placed(column, lhs, klass) <==> Any(l, Teller(column, klass, lhs)) || Any(r, Teller(column, klass, lhs)))
      && (Placed(column, rhs, klass) <==> Any(l, Teller(column, klass, rhs)) || Any(r, Teller(column, klass, rhs)))
  {
    hide Grouped; hide Lookup; hide Any; hide SharesDomain; hide AwaitsDomain; hide Placed; hide Teller; hide Waiter;
    hide Sharer;
    SharedIsListed(index, column, lhs, rhs, klass);
    WaitingIsListed(index, column, lhs, rhs, klass);
    PlacedIsListed(index, column, lhs, rhs, klass);
    PlacedIsListed(index, column, rhs, lhs, klass);
  }

  lemma SharedIsListed(index: map<Id, seq<Id>>, column: map<Id, Domain>, lhs: Id, rhs: Id, klass: FailureClass)
    requires Grouped(index, column, Members)
    ensures SharesDomain(column, lhs, rhs, klass)
      <==> (Any(Lookup(index, lhs), Sharer(column, klass, lhs, rhs))
            || Any(Lookup(index, rhs), Sharer(column, klass, lhs, rhs)))
  {
    IndexListsContaining(index, column, lhs);
    AnyIn(Lookup(index, lhs), Sharer(column, klass, lhs, rhs));
    AnyIn(Lookup(index, rhs), Sharer(column, klass, lhs, rhs));
    hide Telling; hide Grouped; hide Lookup; hide Any;
    assert forall k | k in column && Telling(column[k], klass) && lhs in column[k].racks && rhs in column[k].racks ::
      Tells(column, k, klass, lhs) && Tells(column, k, klass, rhs);
  }

  lemma WaitingIsListed(index: map<Id, seq<Id>>, column: map<Id, Domain>, lhs: Id, rhs: Id, klass: FailureClass)
    requires Grouped(index, column, Members)
    ensures AwaitsDomain(column, lhs, rhs, klass)
      <==> Any(Lookup(index, lhs), Waiter(column, klass)) || Any(Lookup(index, rhs), Waiter(column, klass))
  {
    IndexListsContaining(index, column, lhs);
    IndexListsContaining(index, column, rhs);
    AnyIn(Lookup(index, lhs), Waiter(column, klass));
    AnyIn(Lookup(index, rhs), Waiter(column, klass));
    hide Waiting; hide Grouped; hide Lookup; hide Any;
    assert forall k | k in column && Waiting(column[k], klass) :: Waits(column, k, klass);
  }

  lemma PlacedIsListed(index: map<Id, seq<Id>>, column: map<Id, Domain>, rack: Id, other: Id, klass: FailureClass)
    requires Grouped(index, column, Members)
    ensures Placed(column, rack, klass)
      <==> (Any(Lookup(index, rack), Teller(column, klass, rack))
            || Any(Lookup(index, other), Teller(column, klass, rack)))
  {
    IndexListsContaining(index, column, rack);
    AnyIn(Lookup(index, rack), Teller(column, klass, rack));
    AnyIn(Lookup(index, other), Teller(column, klass, rack));
    hide Telling; hide Grouped; hide Lookup; hide Any;
    assert forall k | k in column && Telling(column[k], klass) && rack in column[k].racks ::
      Tells(column, k, klass, rack);
  }

  lemma IndexListsContaining(index: map<Id, seq<Id>>, column: map<Id, Domain>, rack: Id)
    requires Grouped(index, column, Members)
    ensures forall k :: k in Lookup(index, rack) <==> k in column && rack in column[k].racks
  {
    var keys := Holding(column, rack, Members);
    SortedKeysAscend(keys);
    forall k ensures k in keys <==> k in column && rack in column[k].racks {
      if k in column { SortUniqueIds(column[k].racks); }
    }
  }

  // ---- the index checker -----------------------------------------------------------------

  ghost predicate ColumnSorted(column: map<Id, Domain>) { forall k | k in column :: Ascending(column[k].racks, Before) }

  function Around(column: map<Id, Domain>, rack: Id): set<Id> { set k | k in column && rack in column[k].racks }

  /** The domains that hold a rack, found by searching each member list in turn. */
  method DomainsAround(column: map<Id, Domain>, rack: Id) returns (list: seq<Id>)
    requires ColumnSorted(column)
    ensures list == SortedKeys(Around(column, rack))
  {
    TextIsOrdered();
    hide StrictOrder;
    list := [];
    var rest := column.Keys;
    while rest != {}
      invariant rest <= column.Keys && Ascending(list, Before)
      invariant forall k :: k in list <==> k in column && k !in rest && rack in column[k].racks
      invariant forall j, l | j in column && j !in rest && l in rest :: Before(j, l)
      decreases rest
    {
      var k := SmallestOf(rest);
      var found := BinarySearch(column[k].racks, rack);
      if found { list := list + [k]; }
      rest := rest - {k};
    }
    AscendingIsUnique(list, Around(column, rack));
  }

  /** The index lists, for every rack of the state, exactly the domains around it. */
  ghost predicate ListsDomains(of: map<Id, seq<Id>>, column: map<Id, Domain>, racks: map<Id, RackRecord>) {
    forall r | r in racks :: Lookup(of, r) == SortedKeys(Around(column, r))
  }

  method CheckDomainsOf(of: map<Id, seq<Id>>, column: map<Id, Domain>, racks: map<Id, RackRecord>) returns (ok: bool)
    requires ColumnSorted(column)
    ensures ok <==> ListsDomains(of, column, racks)
  {
    hide IsLeast; hide SortedKeys; hide Around; hide Lookup;
    ok := true;
    var rest := racks.Keys;
    while rest != {}
      invariant rest <= racks.Keys
      invariant ok <==> forall r | r in racks && r !in rest :: Lookup(of, r) == SortedKeys(Around(column, r))
      decreases rest
    {
      var r := SmallestOf(rest);
      var expected := DomainsAround(column, r);
      if Lookup(of, r) != expected { ok := false; }
      rest := rest - {r};
    }
  }

  lemma GroupedListsDomains(of: map<Id, seq<Id>>, column: map<Id, Domain>, racks: map<Id, RackRecord>)
    requires Grouped(of, column, Members)
    ensures ListsDomains(of, column, racks)
  {
    forall r | r in racks ensures Lookup(of, r) == SortedKeys(Around(column, r)) {
      assert Holding(column, r, Members) == Around(column, r) by {
        forall k | k in column ensures r in Members(column[k]) <==> r in column[k].racks {
          SortUniqueIds(column[k].racks);
        }
      }
    }
  }

  /** Every bucket of the index is sorted, as a rebuild leaves it; a search of any other list means nothing. */
  ghost predicate BucketsAscend(index: map<Id, seq<Id>>) { forall b | b in index :: Ascending(index[b], Before) }

  /** Every link is listed under its end. Nothing is said about what else is listed there. */
  predicate LinksFound(index: map<Id, seq<Id>>, links: map<Id, Link>, end: Link -> Id) {
    forall k | k in links :: k in Lookup(index, end(links[k]))
  }

  method CheckLinkIndex(index: map<Id, seq<Id>>, links: map<Id, Link>, end: Link -> Id) returns (ok: bool)
    ensures BucketsAscend(index) ==> (ok <==> LinksFound(index, links, end))
  {
    hide IsLeast; hide Ascending;
    ok := true;
    var rest := links.Keys;
    while rest != {}
      invariant rest <= links.Keys
      invariant BucketsAscend(index) ==>
        (ok <==> forall k | k in links && k !in rest :: k in Lookup(index, end(links[k])))
      decreases rest
    {
      var k := SmallestOf(rest);
      var bucket := Lookup(index, end(links[k]));
      assert BucketsAscend(index) ==> Ascending(bucket, Before) by { EmptyAscends(); }
      var found := BinarySearch(bucket, k);
      if !found { ok := false; }
      rest := rest - {k};
    }
  }

  lemma EmptyAscends()
    ensures Ascending<Id>([], Before)
  {}

  lemma GroupedAscends(index: map<Id, seq<Id>>, links: map<Id, Link>, end: Link -> Id, buckets: Link -> seq<Id>)
    requires Grouped(index, links, buckets) && forall l: Link :: buckets(l) == [end(l)]
    ensures BucketsAscend(index) && LinksFound(index, links, end)
  {
    forall b | b in index ensures Ascending(index[b], Before) {
      assert index[b] == Lookup(index, b);
      SortedKeysAscend(Holding(links, b, buckets));
    }
    forall k | k in links ensures k in Lookup(index, end(links[k])) {
      SortedKeysAscend(Holding(links, end(links[k]), buckets));
      assert k in Holding(links, end(links[k]), buckets);
    }
  }

  function Source(l: Link): Id { l.source }
  function Destination(l: Link): Id { l.destination }

  ghost predicate MembersRight(index: map<Id, seq<Id>>, column: map<Id, Domain>) {
    forall k | k in column :: Lookup(index, k) == Members(column[k])
  }

  /** What an accepted index guarantees about domains: all member lists, and the reverse lists of two classes. */
  ghost predicate DomainsRight(t: Tables, s: State) {
    && MembersRight(t.placementRacks, Column(s, Placement)) && MembersRight(t.failureRacks, Column(s, Failure))
    && MembersRight(t.capacityRacks, Column(s, Capacity)) && MembersRight(t.networkRacks, Column(s, Network))
    && ListsDomains(t.placementOf, Column(s, Placement), s.racks)
    && ListsDomains(t.failureOf, Column(s, Failure), s.racks)
  }

  /** The bucket of every rack is right; buckets no rack belongs to are not looked at. */
  ghost predicate RacksRight<B>(index: map<B, seq<Id>>, racks: map<Id, RackRecord>, buckets: RackRecord -> seq<B>) {
    forall k, b | k in racks && b in buckets(racks[k]) :: Lookup(index, b) == SortedKeys(Holding(racks, b, buckets))
  }

  /** Everything check_indexes decides, for an index whose link lists are sorted. */
  ghost predicate Agreeable(t: Tables, s: State) {
    && DomainsRight(t, s) && LinksFound(t.linksFrom, s.links, Source) && LinksFound(t.linksTo, s.links, Destination)
    && RacksRight(t.byMembership, s.racks, MembershipOf) && RacksRight(t.byBoot, s.racks, BootOf)
  }

  method CheckMemberLists(index: map<Id, seq<Id>>, column: map<Id, Domain>) returns (ok: bool)
    ensures ok <==> MembersRight(index, column)
  {
    hide Members; hide Lookup;
    var wrong := Finds(column, (k: Id, d: Domain) => Lookup(index, k) != Members(d));
    ok := !wrong;
  }

  lemma ColumnsAreSorted(s: State, kind: DomainKind)
    requires MembersSorted(s)
    ensures ColumnSorted(Column(s, kind))
  {
    hide Ascending;
  }

  method CheckColumn(racks: map<Id, seq<Id>>, of: map<Id, seq<Id>>, s: State, kind: DomainKind) returns (ok: bool)
    requires MembersSorted(s)
    ensures ok <==> MembersRight(racks, Column(s, kind)) && ListsDomains(of, Column(s, kind), s.racks)
  {
    ColumnsAreSorted(s, kind);
    hide Column; hide Lookup; hide Members; hide ListsDomains; hide ColumnSorted; hide MembersSorted; hide MembersRight;
    var column := Column(s, kind);
    var lists := CheckMemberLists(racks, column);
    var domains := CheckDomainsOf(of, column, s.racks);
    ok := lists && domains;
  }

  /** The capacity and network classes have their member lists checked, not their reverse lists. */
  method CheckDomainIndexes(t: Tables, s: State) returns (ok: bool)
    requires MembersSorted(s)
    ensures ok <==> DomainsRight(t, s)
  {
    hide Column; hide Lookup; hide Members; hide ListsDomains; hide MembersSorted; hide MembersRight;
    var placement := CheckColumn(t.placementRacks, t.placementOf, s, Placement);
    var failure := CheckColumn(t.failureRacks, t.failureOf, s, Failure);
    var capacity := CheckMemberLists(t.capacityRacks, Column(s, Capacity));
    var network := CheckMemberLists(t.networkRacks, Column(s, Network));
    ok := placement && failure && capacity && network;
  }

  /** The buckets of a scan that hold something are exactly those some rack belongs to. */
  method CheckBuckets<B(==, !new)>(
      index: map<B, seq<Id>>, expected: map<B, seq<Id>>, racks: map<Id, RackRecord>,
      ghost buckets: RackRecord -> seq<B>)
    returns (ok: bool)
    requires Grouped(expected, racks, buckets)
    ensures ok <==> RacksRight(index, racks, buckets)
  {
    ok := forall b | b in expected && expected[b] != [] :: Lookup(index, b) == expected[b];
    forall b ensures (exists k | k in racks :: b in buckets(racks[k])) <==> b in expected && expected[b] != [] {
      var keys := Holding(racks, b, buckets);
      SortedKeysAscend(keys);
      assert Lookup(expected, b) == SortedKeys(keys);
      if k: Id :| k in racks && b in buckets(racks[k]) { assert k in keys; }
      if SortedKeys(keys) != [] { assert SortedKeys(keys)[0] in keys; }
    }
    assert forall b | b in expected :: expected[b] == SortedKeys(Holding(racks, b, buckets)) by {
      assert forall b | b in expected :: expected[b] == Lookup(expected, b);
    }
    hide SortedKeys; hide Holding;
  }

  method CheckRackIndexes(t: Tables, s: State) returns (ok: bool)
    ensures ok <==> RacksRight(t.byMembership, s.racks, MembershipOf) && RacksRight(t.byBoot, s.racks, BootOf)
  {
    hide Grouped; hide RacksRight;
    var memberships, boots := GroupRacks(s.racks);
    var membership := CheckBuckets(t.byMembership, memberships, s.racks, MembershipOf);
    var boot := CheckBuckets(t.byBoot, boots, s.racks, BootOf);
    ok := membership && boot;
  }

  /** check_indexes: exactly what acceptance means, and that what a rebuild produced is accepted. */
  method CheckIndexes(t: Tables, s: State) returns (ok: bool)
    requires MembersSorted(s)
    ensures BucketsAscend(t.linksFrom) && BucketsAscend(t.linksTo) ==> (ok <==> Agreeable(t, s))
    ensures Mirrors(t, s) ==> ok
  {
    hide MembersSorted; hide DomainsRight; hide LinksFound; hide RacksRight; hide BucketsAscend; hide Mirrors;
    var domains := CheckDomainIndexes(t, s);
    var from := CheckLinkIndex(t.linksFrom, s.links, Source);
    var to := CheckLinkIndex(t.linksTo, s.links, Destination);
    var racks := CheckRackIndexes(t, s);
    ok := domains && from && to && racks;
    if Mirrors(t, s) { MirrorsAgree(t, s); }
  }

  lemma MirrorsAgree(t: Tables, s: State)
    requires Mirrors(t, s)
    ensures Agreeable(t, s) && BucketsAscend(t.linksFrom) && BucketsAscend(t.linksTo)
  {
    hide Column; hide Members; hide ListsDomains; hide BucketsAscend; hide LinksFound;
    GroupedAscends(t.linksFrom, s.links, Source, SourceOf);
    GroupedAscends(t.linksTo, s.links, Destination, DestinationOf);
    GroupedListsDomains(t.placementOf, Column(s, Placement), s.racks);
    GroupedListsDomains(t.failureOf, Column(s, Failure), s.racks);
    ListedMembers(t.placementRacks, Column(s, Placement));
    ListedMembers(t.failureRacks, Column(s, Failure));
    ListedMembers(t.capacityRacks, Column(s, Capacity));
    ListedMembers(t.networkRacks, Column(s, Network));
  }

  lemma ListedMembers(index: map<Id, seq<Id>>, column: map<Id, Domain>)
    requires ListsMembers(index, column)
    ensures MembersRight(index, column)
  {
    hide Members;
  }

  /** An accepted index may be wrong: a bucket of an incarnation that publishes nothing is never looked at. */
  lemma StaleBucketIsAccepted(t: Tables, s: State, boot: Id, rack: Id)
    requires Mirrors(t, s) && forall k | k in s.racks :: s.racks[k].reference.boot != boot
    ensures var stale := t.(byBoot := t.byBoot[boot := [rack]]);
      && Agreeable(stale, s) && BucketsAscend(stale.linksFrom) && BucketsAscend(stale.linksTo)
      && !Mirrors(stale, s)
  {
    hide MirrorsColumn; hide DomainsRight; hide LinksFound; hide BucketsAscend; hide Grouped; hide RacksRight;
    hide Column;
    MirrorsAgree(t, s);
    StaleBucket(t.byBoot, s.racks, boot, rack);
    SameDomainsRight(t, t.(byBoot := t.byBoot[boot := [rack]]), s);
  }

  lemma SameDomainsRight(t: Tables, u: Tables, s: State)
    requires DomainsRight(t, s) && u == t.(byBoot := u.byBoot)
    ensures DomainsRight(u, s)
  {
    hide MembersRight; hide ListsDomains; hide Column;
  }

  lemma StaleBucket(index: map<Id, seq<Id>>, racks: map<Id, RackRecord>, boot: Id, rack: Id)
    requires Grouped(index, racks, BootOf) && forall k | k in racks :: racks[k].reference.boot != boot
    ensures RacksRight(index[boot := [rack]], racks, BootOf) && !Grouped(index[boot := [rack]], racks, BootOf)
  {
    var stale := index[boot := [rack]];
    forall k, b | k in racks && b in BootOf(racks[k])
      ensures Lookup(stale, b) == SortedKeys(Holding(racks, b, BootOf))
    {
      assert b != boot && Lookup(stale, b) == Lookup(index, b);
    }
    assert Holding(racks, boot, BootOf) == {};
    assert Lookup(stale, boot) != SortedKeys(Holding(racks, boot, BootOf));
  }
}
