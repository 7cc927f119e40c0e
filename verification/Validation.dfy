/** validate_persisted_state: early-exit loops with binary searches, against the predicate they decide. */
module Validation {
  import opened Foundation
  import opened Sorting
  import opened Records
  import opened Mutations
  import opened Durable
  import opened Wire
  import opened Container
  import opened Checking

  /** Each element is acceptable and stands after its predecessor. */
  predicate Good<T>(list: seq<T>, lt: (T, T) -> bool, fits: T -> bool) {
    forall i | 0 <= i < |list| :: fits(list[i]) && (i > 0 ==> lt(list[i - 1], list[i]))
  }

  lemma GoodSplits<T>(list: seq<T>, lt: (T, T) -> bool, fits: T -> bool)
    ensures Good(list, lt, fits) <==> Linked(list, lt) && forall x | x in list :: fits(x)
  {
    if Linked(list, lt) && forall x | x in list :: fits(x) {
      assert forall i | 0 <= i < |list| :: list[i] in list;
    }
    if Good(list, lt, fits) {
      forall i | 0 < i < |list| ensures lt(list[i - 1], list[i]) { assert fits(list[i]); }
    }
  }

  /** The loop every list goes through: stop at the first element that does not fit or is out of order. */
  method CheckList<T>(list: seq<T>, lt: (T, T) -> bool, fits: T -> bool) returns (ok: bool)
    ensures ok <==> Linked(list, lt) && forall x | x in list :: fits(x)
  {
    GoodSplits(list, lt, fits);
    hide Linked;
    for i := 0 to |list|
      invariant forall j | 0 <= j < i :: fits(list[j]) && (j > 0 ==> lt(list[j - 1], list[j]))
    {
      if !fits(list[i]) || (i > 0 && !lt(list[i - 1], list[i])) { return false; }
    }
    ok := true;
  }

  predicate EndpointFits(e: Endpoint) { IsIdentity(e.id) }

  predicate HintFits(h: Hint) { h.klass != 0 && IsIdentity(h.id) }

  method CheckRack(r: DurableRack) returns (ok: bool)
    ensures ok <==> ValidRack(r)
  {
    hide IsIdentity; hide Linked;
    if !IsIdentity(r.rack) || r.generation == 0 || !IsIdentity(r.publisher) { return false; }
    if |r.endpoints| > MAX_RACK_ENDPOINTS { return false; }
    var endpoints := CheckList(r.endpoints, EndpointBefore, EndpointFits);
    if !endpoints { return false; }
    if |r.hints| > MAX_FAILURE_DOMAIN_REFS { return false; }
    ok := CheckList(r.hints, HintBefore, HintFits);
  }

  /** The rack loop also collects the identities every later reference is searched in. */
  method CheckRacks(racks: seq<DurableRack>) returns (ok: bool, ids: seq<Id>)
    ensures ok <==> ValidRacks(racks)
    ensures ok ==> ids == RackIds(racks) && Ascending(ids, Before)
  {
    hide ValidRack;
    ids := [];
    for i := 0 to |racks|
      invariant |ids| == i && forall j | 0 <= j < i :: ids[j] == racks[j].rack
      invariant forall j | 0 <= j < i :: ValidRack(racks[j]) && (j > 0 ==> RackBefore(racks[j - 1], racks[j]))
    {
      var fits := CheckRack(racks[i]);
      if !fits || (i > 0 && !Before(ids[i - 1], racks[i].rack)) { return false, []; }
      ids := ids + [racks[i].rack];
    }
    ok := true;
    assert Linked(ids, Before);
    LinkedAscends(ids);
  }

  lemma {:induction false} LinkedAscends(ids: seq<Id>)
    requires Linked(ids, Before)
    ensures Ascending(ids, Before)
  {
    if ids != [] {
      var front, last := ids[..|ids| - 1], ids[|ids| - 1];
      LinkedAscends(front);
      TextIsOrdered();
      forall i | 0 <= i < |front| ensures Before(ids[i], last) {
        if i < |front| - 1 { assert Before(front[i], front[|front| - 1]); }
      }
    }
  }

  method CheckMembers(members: seq<Id>, racks: seq<Id>) returns (ok: bool)
    requires Ascending(racks, Before)
    ensures ok <==> ValidMembers(members, racks)
  {
    GoodSplits(members, Before, (m: Id) => IsIdentity(m) && m in racks);
    hide IsIdentity; hide Ascending;
    if |members| > MAX_DOMAIN_MEMBERS { return false; }
    for i := 0 to |members|
      invariant forall j | 0 <= j < i ::
        IsIdentity(members[j]) && members[j] in racks && (j > 0 ==> Before(members[j - 1], members[j]))
    {
      var found := BinarySearch(racks, members[i]);
      if !IsIdentity(members[i]) || (i > 0 && !Before(members[i - 1], members[i])) || !found { return false; }
    }
    ok := true;
  }

  method CheckDomainList(domains: seq<Domain>, racks: seq<Id>) returns (ok: bool)
    requires Ascending(racks, Before)
    ensures ok <==> ValidDomains(domains, racks)
  {
    GoodSplits(domains, DomainBefore, (d: Domain) => ValidDomain(d, racks));
    hide IsIdentity; hide Ascending; hide ValidMembers; hide Linked;
    if |domains| > MAX_DOMAINS_PER_CLASS { return false; }
    for i := 0 to |domains|
      invariant forall j | 0 <= j < i ::
        ValidDomain(domains[j], racks) && (j > 0 ==> DomainBefore(domains[j - 1], domains[j]))
    {
      var d := domains[i];
      if !IsIdentity(d.id) || d.header.generation == 0 || (i > 0 && !DomainBefore(domains[i - 1], d)) { return false; }
      var members := CheckMembers(d.racks, racks);
      if !members { return false; }
    }
    ok := true;
  }

  predicate QuantityFits(q: Quantity) {
    q.unit != [] && |q.unit| <= MAX_TEXT && (q.value.Some? ==> Finite(q.value.value))
  }

  method CheckCapacities(domains: seq<Domain>) returns (ok: bool)
    ensures ok <==> forall d | d in domains :: ValidQuantities(d.quantities)
  {
    for i := 0 to |domains|
      invariant forall j | 0 <= j < i :: ValidQuantities(domains[j].quantities)
    {
      if |domains[i].quantities| > MAX_CAPACITY_QUANTITIES { return false; }
      var fits := CheckList(domains[i].quantities, UnitBefore, QuantityFits);
      if !fits {
        assert !ValidQuantities(domains[i].quantities);
        return false;
      }
    }
    ok := true;
  }

  method CheckLinks(links: seq<Link>, racks: seq<Id>, networks: seq<Id>, groups: seq<Id>) returns (ok: bool)
    requires Ascending(racks, Before) && Ascending(networks, Before) && Ascending(groups, Before)
    ensures ok <==> ValidLinks(links, racks, networks, groups)
  {
    GoodSplits(links, LinkBefore, (l: Link) => ValidLink(l, racks, networks, groups));
    hide IsIdentity; hide Ascending; hide Linked;
    for i := 0 to |links|
      invariant forall j | 0 <= j < i ::
        ValidLink(links[j], racks, networks, groups) && (j > 0 ==> LinkBefore(links[j - 1], links[j]))
    {
      var l := links[i];
      var source := BinarySearch(racks, l.source);
      var destination := BinarySearch(racks, l.destination);
      var network := true;
      if l.networkDomain.Some? { network := BinarySearch(networks, l.networkDomain.value); }
      var group := true;
      if l.linkDomain.Some? { group := BinarySearch(groups, l.linkDomain.value); }
      if !IsIdentity(l.id) || l.source == [] || l.destination == [] || l.source == l.destination
         || !source || !destination || l.header.generation == 0 || l.topologyEpoch == 0 || !network || !group
         || (i > 0 && !LinkBefore(links[i - 1], l)) { return false; }
    }
    ok := true;
  }

  method CheckConstraintList(constraints: seq<Constraint>, racks: seq<Id>) returns (ok: bool)
    requires Ascending(racks, Before)
    ensures ok <==> ValidConstraints(constraints, racks)
  {
    GoodSplits(constraints, ConstraintBefore, (c: Constraint) => ValidConstraint(c, racks));
    hide IsIdentity; hide Ascending; hide ValidMembers; hide Linked;
    for i := 0 to |constraints|
      invariant forall j | 0 <= j < i ::
        ValidConstraint(constraints[j], racks) && (j > 0 ==> ConstraintBefore(constraints[j - 1], constraints[j]))
    {
      var c := constraints[i];
      var members := CheckMembers(c.racks, racks);
      if !IsIdentity(c.id) || c.kind == 0 || c.header.generation == 0 || !members
         || (i > 0 && !ConstraintBefore(constraints[i - 1], c)) { return false; }
    }
    ok := true;
    hide ValidConstraint;
  }

  lemma IdsAscend(domains: seq<Domain>)
    requires Linked(domains, DomainBefore)
    ensures Ascending(Ids(domains), Before)
  {
    var ids := Ids(domains);
    forall i | 0 < i < |ids| ensures Before(ids[i - 1], ids[i]) { assert DomainBefore(domains[i - 1], domains[i]); }
    LinkedAscends(ids);
  }

  predicate RetiredFits(r: RetiredIdentity) { IsIdentity(r.rack) && r.lastGeneration != 0 }

  predicate FencedFits(f: FencedAuthority) {
    IsIdentity(f.boot) && IsIdentity(f.rack) && f.reason != [] && |f.reason| <= MAX_TEXT
  }

  predicate Anyhow(a: FencedAuthority, b: FencedAuthority) { true }

  method CheckIdentityLists(sc: Scalars) returns (ok: bool)
    ensures ok <==> ValidRetired(sc.retired) && ValidWithdrawn(sc.withdrawn, sc.retired) && ValidFenced(sc.fenced)
  {
    hide IsIdentity; hide Linked;
    var retired := CheckList(sc.retired, RetiredBefore, RetiredFits);
    if !retired { return false; }
    var withdrawn := CheckList(
      sc.withdrawn, Before, (w: Id) => IsIdentity(w) && forall r | r in sc.retired :: r.rack != w);
    if !withdrawn { return false; }
    var fenced := CheckList(sc.fenced, Anyhow, FencedFits);
    assert Linked(sc.fenced, Anyhow) by { AnyhowLinked(sc.fenced); }
    ok := fenced;
  }

  lemma AnyhowLinked(fenced: seq<FencedAuthority>)
    ensures Linked(fenced, Anyhow)
  {}

  method CheckEveryDomain(lists: DomainLists, racks: seq<Id>) returns (ok: bool)
    requires Ascending(racks, Before)
    ensures ok <==> forall kind: DomainKind :: ValidDomains(lists.Get(kind), racks)
  {
    hide ValidDomains; hide Ascending;
    for i := 0 to |KINDS|
      invariant forall j | 0 <= j < i :: ValidDomains(lists.Get(KINDS[j]), racks)
    {
      var fits := CheckDomainList(lists.Get(KINDS[i]), racks);
      if !fits { return false; }
    }
    ok := true;
    forall kind: DomainKind ensures ValidDomains(lists.Get(kind), racks) {
      var j := KindIndex(kind);
    }
  }

  /** validate_persisted_state. */
  method Validate(p: Persisted) returns (ok: bool)
    ensures ok <==> Valid(p)
  {
    hide ValidScalars; hide ValidRacks; hide ValidDomains; hide ValidQuantities; hide ValidLinks; hide ValidConstraints;
    hide ValidRetired; hide ValidWithdrawn; hide ValidFenced; hide RackIds; hide Ids; hide Ascending;
    if !ValidScalars(p) { return false; }
    var racksFit, racks := CheckRacks(p.racks);
    if !racksFit { return false; }
    var domainsFit := CheckEveryDomain(p.domains, racks);
    if !domainsFit { return false; }
    var capacitiesFit := CheckCapacities(p.domains.capacity);
    if !capacitiesFit { return false; }
    DomainsAscend(p.domains, racks);
    var linksFit := CheckLinks(p.links, racks, Ids(p.domains.network), Ids(p.domains.link));
    if !linksFit { return false; }
    var constraintsFit := CheckConstraintList(p.constraints, racks);
    if !constraintsFit { return false; }
    ok := CheckIdentityLists(p.sc);
  }

  lemma DomainsAscend(lists: DomainLists, racks: seq<Id>)
    requires forall kind: DomainKind :: ValidDomains(lists.Get(kind), racks)
    ensures Ascending(Ids(lists.network), Before) && Ascending(Ids(lists.link), Before)
  {
    hide ValidDomain; hide Linked; hide Ascending; hide Ids;
    assert ValidDomains(lists.Get(Network), racks) && ValidDomains(lists.Get(LinkGroup), racks);
    IdsAscend(lists.network);
    IdsAscend(lists.link);
  }
}
