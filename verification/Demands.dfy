/** Contracts that a cluster without a single current rack can meet. */
module Demands {
  import opened Foundation
  import opened Sorting
  import opened EvidenceStamps
  import opened Records
  import opened Readiness
  import opened Invariants
  import opened Mutations
  import opened Engine
  import opened Acceptance
  import opened Runs
  import opened Scenarios

  /** The promise that a consumable cluster has a current rack fails in some reachable state under the contract. */
  ghost predicate ServesNothing(cfg: Config, c: Contract) {
    exists s :: Reached(cfg, s) && s.sc.contract == c && Consumable(s.sc.lifecycle) && CurrentRacks(s) == {}
  }

  /** The link and domain demands can be met at all: no more links than a cluster holds, no UNKNOWN class. */
  predicate Attainable(c: Contract) {
    c.minimumLinks <= MAX_LINKS && 0 !in c.placementClasses && 0 !in c.failureClasses
  }

  function LinksAsked(c: Contract): nat { if c.connectivity && c.minimumLinks == 0 then 1 else c.minimumLinks }

  /** The configuration has room for what the contract asks for. */
  predicate Houses(cfg: Config, c: Contract) {
    !cfg.persist && cfg.maxRacks >= 2 && cfg.maxLinks >= LinksAsked(c) && cfg.maxDomains >= 9
  }

  // ---- what a consumable cluster without a current rack implies ----------------------------

  lemma ReachedServes(cfg: Config, s: State)
    requires Reached(cfg, s) && Consumable(s.sc.lifecycle) && AsksForCurrentRack(s.sc.contract)
    ensures CurrentRacks(s) != {}
  {
    hide Reached; hide Inv; hide Evaluate;
    ReachedIsInv(cfg, s);
    HasEarnedRack(s);
    var k :| k in s.racks && IsCurrentActive(s.racks[k]);
    assert k in CurrentRacks(s);
  }

  lemma ServingIsSatisfied(s: State)
    requires Settled(s) && Consumable(s.sc.lifecycle) && CurrentRacks(s) == {}
    ensures Satisfied(s)
  {}

  lemma NoUnknownClass(s: State, kind: DomainKind)
    requires BodySound(s) && Classed(kind)
    ensures !ClassCovered(s, kind, 0)
  {
    hide CountsSound; hide RackSound; hide LinkSound; hide ConstraintSound; hide WithdrawnSound; hide FencedSound;
    hide Ascending;
    forall k | k in s.domains && k.0 == kind ensures s.domains[k].klass != 0 { assert DomainSound(s, k); }
  }

  lemma LinksAreCounted(s: State)
    requires BodySound(s)
    ensures |s.links| <= MAX_LINKS
  {
    hide RackSound; hide LinkSound; hide DomainSound; hide ConstraintSound; hide WithdrawnSound; hide FencedSound;
    hide Ascending;
  }

  lemma ServingIsAttainable(s: State)
    requires Inv(s) && Consumable(s.sc.lifecycle) && CurrentRacks(s) == {}
    ensures Attainable(s.sc.contract)
  {
    hide Sound; hide Wired; hide Paced; hide BodySound; hide Evaluate; hide ClassCovered; hide CurrentRacks;
    hide CurrentLinks; hide ActiveRacks; hide AnyRevalidation; hide Conflicted; hide MandatoryMet;
    InvBody(s);
    ServingIsSatisfied(s);
    CurrentLinksAreLinks(s);
    LinksAreCounted(s);
    NoUnknownClass(s, Placement);
    NoUnknownClass(s, Failure);
  }

  lemma CurrentLinksAreLinks(s: State)
    ensures |CurrentLinks(s)| <= |s.links|
  {
    assert CurrentLinks(s) <= s.links.Keys;
    Subset(CurrentLinks(s), s.links.Keys);
    assert |s.links.Keys| == |s.links|;
  }

  lemma Subset<T>(a: set<T>, b: set<T>)
    requires a <= b
    ensures |a| <= |b|
  {
    assert b == a + (b - a);
  }

  // ---- a cluster that meets them -----------------------------------------------------------

  predicate Idle(r: RackRecord) { r.membership.Active? && !r.authoritative && !NeedsRevalidation(r) }

  predicate LinkGrown(s: State, k: Id)
    requires k in s.links
  {
    && |k| <= |s.links| && s.links[k].header.evidence == SEEN
    && s.links[k].source == RACK && s.links[k].destination == OTHER
  }

  predicate DomainGrown(s: State, k: DomainKey)
    requires k in s.domains
  {
    && k.1 == [s.domains[k].klass] && 1 <= s.domains[k].klass <= 9 && s.domains[k].header.evidence == SEEN
    && (k.0.Placement? || k.0.Failure?)
  }

  /** Two racks without current evidence, links between them and domains, all current, and no counter near its end. */
  predicate Grown(s: State, c: Contract) {
    var size := 100 + |s.links| + |s.domains|;
    && s.Declared() && IsIdentity(s.id) && s.sc.contract == c
    && s.sc.lifecycle == Evaluate(s) && !s.sc.lifecycle.Retired? && !s.sc.lifecycle.Retiring?
    && s.racks.Keys == {RACK, OTHER} && Idle(s.racks[RACK]) && Idle(s.racks[OTHER])
    && s.sc.fenced == [] && s.sc.retired == [] && s.sc.withdrawn == [] && s.constraints == map[]
    && s.sc.generation <= size && s.sc.topologyGeneration <= size && s.sc.connectivityGeneration <= size
    && (forall kind: DomainKind :: s.sc.domainGenerations.Get(kind) <= size)
    && (forall k | k in s.links :: LinkGrown(s, k)) && (forall k | k in s.domains :: DomainGrown(s, k))
  }

  lemma GrownIsReady(s: State, c: Contract)
    requires Grown(s, c) && !AsksForCurrentRack(c) && |s.links| >= LinksAsked(c)
    requires forall p | p in c.placementClasses :: ClassCovered(s, Placement, p)
    requires forall f | f in c.failureClasses :: ClassCovered(s, Failure, f)
    ensures s.sc.lifecycle.Ready? && CurrentRacks(s) == {}
  {
    hide IsIdentity; hide ClassCovered; hide DomainGrown;
    assert RACK in ActiveRacks(s);
    assert CurrentRacks(s) == {};
    assert forall k | k in s.racks :: Idle(s.racks[k]);
    assert CurrentLinks(s) == s.links.Keys;
    assert |s.links.Keys| == |s.links|;
    assert !AnyRevalidation(s) && !KnowinglyIncomplete(s);
    assert !Conflicted(s) by {
      forall k | k in s.links ensures s.links[k].source in s.racks && s.links[k].destination in s.racks {
        assert LinkGrown(s, k);
      }
    }
  }

  // ---- growing it, request by request ------------------------------------------------------

  function HeaderOf(s: State): Header { Header(SEEN, 1, None, s.sc.epoch, s.sc.coordinatorEpoch, []) }

  /** An identity longer than that of every link so far. */
  function NextMark(s: State): Id { seq(|s.links| + 1, i => 65) }

  function NewLink(s: State): Link {
    Link(NextMark(s), RACK, OTHER, Direction.Bidirectional, 0, None, None, None, None, 0, None, 0, None, None,
         Reachability.Unknown, 0, [], HeaderOf(s), s.sc.topologyEpoch, 0, 0, None)
  }

  function LinkRequest(s: State): Request { Ask(s, PublishLink, [], None, 0).(link := Some(NewLink(s))) }

  lemma NextMarkIsNew(s: State, c: Contract)
    requires Grown(s, c)
    ensures NextMark(s) !in s.links
  {
    hide IsIdentity; hide Evaluate; hide Idle; hide DomainGrown;
    assert forall k | k in s.links :: LinkGrown(s, k) && |k| <= |s.links|;
  }

  lemma LinkPassesGate(cfg: Config, s: State, c: Contract)
    requires Grown(s, c) && |s.links| < cfg.maxLinks
    ensures LinkGate(cfg, s, Some(NewLink(s))) == Pass
  {
    NextMarkIsNew(s, c);
    hide IsIdentity; hide Evaluate; hide NeedsRevalidation; hide DomainGrown; hide LinkGrown; hide NextMark;
    assert SortUnique<Id>([], Before) == [];
    hide SortUnique;
  }

  /** The candidate after the link is published. */
  lemma LinkJoins(cfg: Config, s: State, c: Contract)
    requires Grown(s, c) && |s.links| < MAX_LINKS && |s.domains| <= 18
    requires LinkGate(cfg, s, Some(NewLink(s))) == Pass
    ensures ApplyLink(cfg, s, Some(NewLink(s))).Changed?
    ensures var t := ApplyLink(cfg, s, Some(NewLink(s))).next;
      && NextMark(s) in t.links
      && t == s.(sc := t.sc, links := s.links[NextMark(s) := t.links[NextMark(s)]])
      && t.links[NextMark(s)].header.evidence == SEEN
      && t.links[NextMark(s)].source == RACK && t.links[NextMark(s)].destination == OTHER
      && t.sc == s.sc.(topologyGeneration := s.sc.topologyGeneration + 1, topology := t.sc.topology,
                       connectivityGeneration := s.sc.connectivityGeneration + 1)
  {
    hide IsIdentity; hide Evaluate; hide Idle; hide DomainGrown; hide LinkGrown; hide LinkGate; hide NextMark;
    hide DomainGenerations.Get; hide SortUnique;
  }

  lemma RequestLinks(cfg: Config, s: State, c: Contract)
    requires Grown(s, c) && |s.links| < MAX_LINKS
    ensures Apply(cfg, 0, s, LinkRequest(s)) == ApplyLink(cfg, s, Some(NewLink(s)))
    ensures Acceptable(0, s, LinkRequest(s))
  {
    hide IsIdentity; hide Evaluate; hide Idle; hide ApplyLink; hide DomainGrown; hide LinkGrown; hide NextMark;
  }

  /** Settling and sealing a grown candidate. */
  lemma SettledGrows(s: State, next: State, t: State, c: Contract)
    requires Grown(s, c) && next.sc.generation < MAX_U64 && t == Sealed(0, Settle(next))
    requires next == s.(sc := next.sc, links := next.links, domains := next.domains)
    requires next.sc == s.sc.(topologyGeneration := next.sc.topologyGeneration, topology := next.sc.topology,
                              connectivityGeneration := next.sc.connectivityGeneration,
                              domainGenerations := next.sc.domainGenerations)
    requires |s.links| + |s.domains| < |next.links| + |next.domains|
    requires next.sc.topologyGeneration <= s.sc.topologyGeneration + 1
    requires next.sc.connectivityGeneration <= s.sc.connectivityGeneration + 1
    requires forall kind: DomainKind :: next.sc.domainGenerations.Get(kind) <= 101 + |s.links| + |s.domains|
    requires forall k | k in next.links :: LinkGrown(next, k)
    requires forall k | k in next.domains :: DomainGrown(next, k)
    ensures Grown(t, c)
  {
    hide IsIdentity; hide Evaluate; hide Idle; hide DomainGenerations.Get;
    EvaluationIsIdempotent(next, t);
    RetiredOnlyIfAlready(next);
    assert forall k | k in t.links :: LinkGrown(next, k) ==> LinkGrown(t, k);
    assert forall k | k in t.domains :: DomainGrown(next, k) ==> DomainGrown(t, k);
  }

  lemma OneMoreLink(cfg: Config, s: State, c: Contract) returns (t: State)
    requires !cfg.persist && Reached(cfg, s) && Grown(s, c)
    requires |s.links| < cfg.maxLinks && |s.links| < MAX_LINKS && |s.domains| <= 18
    ensures Reached(cfg, t) && Grown(t, c) && |t.links| == |s.links| + 1 && t.domains == s.domains
  {
    hide Reached; hide Apply; hide Acceptable; hide Evaluate; hide Idle; hide NextMark; hide Proposal; hide IsIdentity;
    hide DomainGenerations.Get; hide ApplyLink; hide LinkGate; hide LinkRequest; hide NewLink;
    NextMarkIsNew(s, c);
    LinkPassesGate(cfg, s, c);
    LinkJoins(cfg, s, c);
    RequestLinks(cfg, s, c);
    t := RequestIsReached(cfg, 0, s, LinkRequest(s));
    var next := Apply(cfg, 0, s, LinkRequest(s)).next;
    CountAfter(s.links, NextMark(s), next.links[NextMark(s)]);
    MarkLength(s);
    SettledGrows(s, next, t, c);
  }

  lemma MarkLength(s: State)
    ensures |NextMark(s)| == |s.links| + 1
  {}

  lemma {:induction false} ManyLinks(cfg: Config, s: State, c: Contract, n: nat) returns (t: State)
    requires !cfg.persist && Reached(cfg, s) && Grown(s, c) && s.links == map[] && s.domains == map[]
    requires n <= cfg.maxLinks && n <= MAX_LINKS
    ensures Reached(cfg, t) && Grown(t, c) && |t.links| == n && t.domains == map[]
  {
    hide Reached; hide Grown;
    if n == 0 {
      t := s;
    } else {
      var fewer := ManyLinks(cfg, s, c, n - 1);
      t := OneMoreLink(cfg, fewer, c);
    }
  }

  function NewDomain(s: State, klass: DomainClass): Domain { Domain([klass], klass, [], [], None, HeaderOf(s)) }

  function DomainRequest(s: State, kind: DomainKind, klass: DomainClass): Request {
    Ask(s, PublishDomain(kind), [], None, 0).(domain := Some(NewDomain(s, klass)))
  }

  /** The one-byte identities up to n. */
  function Marks(n: nat): set<Id>
    requires n <= 9
  {
    set i: byte | 1 <= i <= n :: [i]
  }

  lemma {:induction false} MarksCount(n: nat)
    requires n <= 9
    ensures |Marks(n)| <= n
  {
    if n > 0 {
      MarksCount(n - 1);
      assert Marks(n) == Marks(n - 1) + {[n]};
    }
  }

  lemma GrownIds(s: State, c: Contract, kind: DomainKind)
    requires Grown(s, c)
    ensures s.DomainIds(kind) <= Marks(9)
  {
    hide IsIdentity; hide Evaluate; hide Idle; hide LinkGrown;
    forall id | id in s.DomainIds(kind) ensures id in Marks(9) {
      assert DomainGrown(s, (kind, id));
    }
  }

  /** At most nine identities of one kind are in use, and an unused one leaves room. */
  lemma DomainsLeaveRoom(s: State, c: Contract, kind: DomainKind, klass: DomainClass)
    requires Grown(s, c) && 1 <= klass && (kind, [klass]) !in s.domains
    ensures |s.DomainIds(kind)| < 9
  {
    hide Grown;
    GrownIds(s, c, kind);
    MarksCount(9);
    assert [klass] in Marks(9) && [klass] !in s.DomainIds(kind);
    hide Marks; hide State.DomainIds;
    Subset(s.DomainIds(kind), Marks(9) - {[klass]});
  }

  lemma NewDomainIsNormal(s: State, kind: DomainKind, klass: DomainClass)
    requires kind.Placement? || kind.Failure?
    ensures Normalized(kind, NewDomain(s, klass)) == NewDomain(s, klass)
  {
    assert SortUnique<Id>([], Before) == [];
    hide SortUnique;
  }

  lemma PayloadPasses(s: State, kind: DomainKind, klass: DomainClass)
    requires 1 <= klass && (kind.Placement? || kind.Failure?)
    ensures PayloadGate(s, kind, NewDomain(s, klass)) == Pass
  {
    hide FirstRefusal; hide Sort; hide State.IsMember;
  }

  lemma DomainPasses(cfg: Config, s: State, c: Contract, kind: DomainKind, klass: DomainClass)
    requires Grown(s, c) && cfg.maxDomains >= 9 && 1 <= klass && (kind, [klass]) !in s.domains
    requires kind.Placement? || kind.Failure?
    ensures DomainGate(cfg, s, kind, Some(NewDomain(s, klass))) == Pass
    ensures Normalized(kind, NewDomain(s, klass)) == NewDomain(s, klass)
    ensures Acceptable(0, s, DomainRequest(s, kind, klass))
  {
    hide Grown; hide State.DomainIds; hide PayloadGate; hide Normalized; hide SameZero;
    DomainsLeaveRoom(s, c, kind, klass);
    NewDomainIsNormal(s, kind, klass);
    PayloadPasses(s, kind, klass);
  }

  /** The candidate after the domain is published. */
  lemma DomainJoins(cfg: Config, s: State, c: Contract, kind: DomainKind, klass: DomainClass)
    requires Grown(s, c) && |s.links| <= MAX_LINKS && |s.domains| <= 18
    requires DomainGate(cfg, s, kind, Some(NewDomain(s, klass))) == Pass
    requires Normalized(kind, NewDomain(s, klass)) == NewDomain(s, klass)
    ensures ApplyDomain(cfg, s, kind, Some(NewDomain(s, klass))).Changed?
    ensures var t := ApplyDomain(cfg, s, kind, Some(NewDomain(s, klass))).next;
      && (kind, [klass]) in t.domains
      && t == s.(sc := t.sc, domains := s.domains[(kind, [klass]) := t.domains[(kind, [klass])]])
      && t.domains[(kind, [klass])].klass == klass && t.domains[(kind, [klass])].header.evidence == SEEN
      && t.sc == s.sc.(topologyGeneration := s.sc.topologyGeneration + 1, topology := t.sc.topology,
                       domainGenerations := t.sc.domainGenerations)
      && forall k: DomainKind :: t.sc.domainGenerations.Get(k) <= 101 + |s.links| + |s.domains|
  {
    hide IsIdentity; hide Evaluate; hide Idle; hide DomainGrown; hide LinkGrown; hide DomainGate; hide Normalized;
    hide DomainGenerations.Get; hide DomainGenerations.Set;
  }

  lemma RequestPublishes(cfg: Config, s: State, c: Contract, kind: DomainKind, klass: DomainClass)
    requires Grown(s, c)
    ensures Apply(cfg, 0, s, DomainRequest(s, kind, klass)) == ApplyDomain(cfg, s, kind, Some(NewDomain(s, klass)))
  {
    hide IsIdentity; hide Evaluate; hide Idle; hide ApplyDomain; hide DomainGrown; hide LinkGrown;
  }

  lemma OneMoreDomain(cfg: Config, s: State, c: Contract, kind: DomainKind, klass: DomainClass) returns (t: State)
    requires !cfg.persist && cfg.maxDomains >= 9 && Reached(cfg, s) && Grown(s, c) && |s.links| <= MAX_LINKS
    requires |s.domains| <= 18 && (kind.Placement? || kind.Failure?) && 1 <= klass
    ensures Reached(cfg, t) && Grown(t, c) && t.links == s.links && ClassCovered(t, kind, klass)
    ensures forall k, l :: ClassCovered(s, k, l) ==> ClassCovered(t, k, l)
  {
    hide Reached; hide Apply; hide Acceptable; hide Evaluate; hide Idle; hide Proposal; hide IsIdentity;
    hide DomainGenerations.Get; hide ApplyDomain; hide DomainGate; hide Normalized; hide DomainRequest; hide NewDomain;
    var key := (kind, [klass]);
    if key in s.domains {
      assert DomainGrown(s, key);
      t := s;
    } else {
      DomainPasses(cfg, s, c, kind, klass);
      DomainJoins(cfg, s, c, kind, klass);
      RequestPublishes(cfg, s, c, kind, klass);
      t := RequestIsReached(cfg, 0, s, DomainRequest(s, kind, klass));
      var next := Apply(cfg, 0, s, DomainRequest(s, kind, klass)).next;
      KeyCount(s.domains, key, next.domains[key]);
      assert forall k | k in next.links :: LinkGrown(s, k) ==> LinkGrown(next, k);
      assert forall k | k in next.domains :: k == key || DomainGrown(s, k);
      SettledGrows(s, next, t, c);
      assert t.domains[key].header.evidence.IsCurrent();
      CoverageStays(s, t, key);
    }
  }

  lemma KeyCount(m: map<DomainKey, Domain>, k: DomainKey, d: Domain)
    requires k !in m
    ensures |m[k := d]| == |m| + 1
  {
    assert m[k := d].Keys == m.Keys + {k};
  }

  lemma CoverageStays(s: State, t: State, key: DomainKey)
    requires key !in s.domains && key in t.domains && t.domains == s.domains[key := t.domains[key]]
    ensures forall k, l :: ClassCovered(s, k, l) ==> ClassCovered(t, k, l)
  {
    forall k, l | ClassCovered(s, k, l) ensures ClassCovered(t, k, l) {
      var d :| d in s.domains && d.0 == k && s.domains[d].klass == l && s.domains[d].header.evidence.IsCurrent();
      assert d in t.domains && t.domains[d] == s.domains[d];
    }
  }

  /** The keys of one kind. */
  function KeysOf(ids: set<Id>, kind: DomainKind): set<DomainKey> { set id | id in ids :: (kind, id) }

  lemma {:induction false} KeysOfCount(ids: set<Id>, kind: DomainKind)
    ensures |KeysOf(ids, kind)| <= |ids|
  {
    if ids != {} {
      var id :| id in ids;
      KeysOfCount(ids - {id}, kind);
      assert KeysOf(ids, kind) == KeysOf(ids - {id}, kind) + {(kind, id)};
    }
  }

  /** Two kinds with nine identities each. */
  lemma FewDomains(s: State, c: Contract)
    requires Grown(s, c)
    ensures |s.domains| <= 18
  {
    GrownKeys(s, c);
    hide Grown;
    var a, b := KeysOf(Marks(9), Placement), KeysOf(Marks(9), Failure);
    MarksCount(9);
    KeysOfCount(Marks(9), Placement);
    KeysOfCount(Marks(9), Failure);
    hide KeysOf; hide Marks;
    Subset(s.domains.Keys, a + b);
    assert |s.domains.Keys| == |s.domains|;
    assert |a + b| <= |a| + |b|;
  }

  lemma GrownKeys(s: State, c: Contract)
    requires Grown(s, c)
    ensures s.domains.Keys <= KeysOf(Marks(9), Placement) + KeysOf(Marks(9), Failure)
  {
    hide IsIdentity; hide Evaluate; hide Idle; hide LinkGrown;
    forall k | k in s.domains ensures k in KeysOf(Marks(9), Placement) + KeysOf(Marks(9), Failure) {
      assert DomainGrown(s, k) && k == (k.0, k.1) && k.1 in Marks(9);
    }
  }

  lemma {:induction false} ManyDomains(cfg: Config, s: State, c: Contract, kind: DomainKind, classes: seq<DomainClass>)
    returns (t: State)
    requires !cfg.persist && cfg.maxDomains >= 9 && Reached(cfg, s) && Grown(s, c) && |s.links| <= MAX_LINKS
    requires (kind.Placement? || kind.Failure?) && 0 !in classes
    ensures Reached(cfg, t) && Grown(t, c) && t.links == s.links
    ensures forall k, l :: ClassCovered(s, k, l) ==> ClassCovered(t, k, l)
    ensures forall l | l in classes :: ClassCovered(t, kind, l)
    decreases |classes|
  {
    hide Reached; hide Grown; hide ClassCovered;
    if classes == [] {
      t := s;
    } else {
      var front, last := classes[..|classes| - 1], classes[|classes| - 1];
      assert classes == front + [last] && last in classes;
      var u := ManyDomains(cfg, s, c, kind, front);
      FewDomains(u, c);
      t := OneMoreDomain(cfg, u, c, kind, last);
    }
  }

  // ---- the exact condition -----------------------------------------------------------------

  /** Two racks admitted without current evidence. */
  lemma TwoIdleRacks(cfg: Config, c: Contract) returns (s: State)
    requires !cfg.persist && cfg.maxRacks >= 2
    ensures Reached(cfg, s) && Grown(s, c) && s.links == map[] && s.domains == map[]
  {
    hide Reached; hide Evaluate; hide IsIdentity; hide DomainGenerations.Get;
    var one := HeldRack(cfg, c, DERIVED);
    assert one.racks.Keys == {RACK} && |one.racks.Keys| == 1;
    s := AdmittedRack(cfg, one, Describe(OTHER, 1, FENCED, 5, DERIVED));
  }

  /**
   * Among all contracts the configuration has room for: some reachable consumable cluster has no current rack if and
   * only if the contract asks for none in any way and its other demands are attainable.
   */
  lemma ServesNothingExactly(cfg: Config, c: Contract)
    requires Houses(cfg, c)
    ensures ServesNothing(cfg, c) <==> !AsksForCurrentRack(c) && Attainable(c)
  {
    hide Reached; hide Evaluate; hide Inv; hide Grown;
    forall s | Reached(cfg, s) && s.sc.contract == c && Consumable(s.sc.lifecycle) && CurrentRacks(s) == {}
      ensures !AsksForCurrentRack(c) && Attainable(c)
    {
      if AsksForCurrentRack(c) { ReachedServes(cfg, s); }
      ReachedIsInv(cfg, s);
      ServingIsAttainable(s);
    }
    if !AsksForCurrentRack(c) && Attainable(c) {
      var s := TwoIdleRacks(cfg, c);
      s := ManyLinks(cfg, s, c, LinksAsked(c));
      s := ManyDomains(cfg, s, c, Placement, c.placementClasses);
      s := ManyDomains(cfg, s, c, Failure, c.failureClasses);
      GrownIsReady(s, c);
      GrownContract(s, c);
    }
  }

  lemma GrownContract(s: State, c: Contract)
    requires Grown(s, c)
    ensures s.sc.contract == c
  {}
}
