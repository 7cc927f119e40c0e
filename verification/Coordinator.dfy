/** The undo journal: what each entry restores and what replaying it in reverse gives back. */
module Journal {
  import opened Foundation
  import opened Records

  /** One entry remembers a value, or its absence, at one place. */
  datatype Undo =
    | Scalar(was: Scalars)
    | Rack(rack: Id, wasRack: Option<RackRecord>)
    | Edge(link: Id, wasLink: Option<Link>)
    | Area(domain: DomainKey, wasDomain: Option<Domain>)
    | Rule(constraint: Id, wasConstraint: Option<Constraint>)

  function At<K, V>(m: map<K, V>, k: K): Option<V> { if k in m then Some(m[k]) else None }

  function Put<K, V>(m: map<K, V>, k: K, v: Option<V>): map<K, V> { if v.Some? then m[k := v.value] else m - {k} }

  function Undone(s: State, u: Undo): State {
    match u
    case Scalar(was) => s.(sc := was)
    case Rack(k, was) => s.(racks := Put(s.racks, k, was))
    case Edge(k, was) => s.(links := Put(s.links, k, was))
    case Area(k, was) => s.(domains := Put(s.domains, k, was))
    case Rule(k, was) => s.(constraints := Put(s.constraints, k, was))
  }

  /** The last entry is undone first. */
  function Replayed(s: State, journal: seq<Undo>): State
    decreases |journal|
  {
    if journal == [] then s else Replayed(Undone(s, journal[|journal| - 1]), journal[..|journal| - 1])
  }

  /** Replaying leads back to the origin, except for the identity, which no entry holds. */
  predicate Traces(s: State, journal: seq<Undo>, origin: State) { Replayed(s, journal) == origin.(id := s.id) }

  /** The scalars have been recorded. */
  predicate Covers(journal: seq<Undo>) { exists i | 0 <= i < |journal| :: journal[i].Scalar? }

  predicate Rewinds(s: State, journal: seq<Undo>, origin: State) { Traces(s, journal, origin) && Covers(journal) }

  lemma ReplayedLast(s: State, journal: seq<Undo>, u: Undo)
    ensures Replayed(s, journal + [u]) == Replayed(Undone(s, u), journal)
  {
    assert (journal + [u])[..|journal|] == journal;
  }

  /** Writing a place after recording it is undone by its entry. */
  lemma PutBack<K, V>(m: map<K, V>, k: K, v: Option<V>)
    ensures Put(Put(m, k, v), k, At(m, k)) == m
  {}

  lemma {:induction false} IdentityFlows(s: State, id: Id, journal: seq<Undo>)
    ensures Replayed(s.(id := id), journal) == Replayed(s, journal).(id := id)
    decreases |journal|
  {
    if journal != [] {
      var u := journal[|journal| - 1];
      assert Undone(s.(id := id), u) == Undone(s, u).(id := id);
      IdentityFlows(Undone(s, u), id, journal[..|journal| - 1]);
    }
  }

  /** Scalars may change freely once they are recorded. */
  lemma {:induction false} ScalarsAreCovered(s: State, sc: Scalars, journal: seq<Undo>)
    requires Covers(journal)
    ensures Replayed(s.(sc := sc), journal) == Replayed(s, journal)
    decreases |journal|
  {
    var u, front := journal[|journal| - 1], journal[..|journal| - 1];
    if u.Scalar? {
      assert Undone(s.(sc := sc), u) == Undone(s, u);
    } else {
      assert Covers(front) by {
        var i :| 0 <= i < |journal| && journal[i].Scalar?;
        assert front[i] == journal[i];
      }
      assert Undone(s.(sc := sc), u) == Undone(s, u).(sc := sc);
      ScalarsAreCovered(Undone(s, u), sc, front);
    }
  }

  lemma RecordingTraces(s: State, t: State, journal: seq<Undo>, u: Undo, origin: State)
    requires Traces(s, journal, origin) && Undone(t, u) == s && t.id == s.id
    ensures Traces(t, journal + [u], origin)
    ensures Covers(journal) || u.Scalar? ==> Covers(journal + [u])
  {
    ReplayedLast(t, journal, u);
    if u.Scalar? { assert (journal + [u])[|journal|].Scalar?; }
    if Covers(journal) {
      var i :| 0 <= i < |journal| && journal[i].Scalar?;
      assert (journal + [u])[i] == journal[i];
    }
  }
}

/** The single writer: canonical state changed in place under the journal, checked, sealed and saved. */
module Coordination {
  import opened Foundation
  import opened Sorting
  import opened Iteration
  import opened EvidenceStamps
  import opened Records
  import opened Readiness
  import opened Invariants
  import opened Mutations
  import opened Engine
  import opened Durable
  import opened Container
  import opened System
  import opened Checking
  import opened Journal

  /** What applying a request answers before the commit path goes on. */
  datatype Reply = Refusal(reason: Mutations.Reason) | Nothing | Unfinished | Done

  /** The answer the specification gives, and on success the state it gives. A refusal may leave partial writes. */
  predicate Answers(spec: Applied, reply: Reply, now: State) {
    match spec
    case Refused(reason) => reply == Refusal(reason)
    case NoChange => reply == Nothing
    case Incomplete => reply == Unfinished
    case Changed(t) => reply == Done && now == t
  }

  /** A map with the chosen entries changed, except those a loop has yet to visit. */
  function Rewritten<V>(m: map<Id, V>, rest: set<Id>, chosen: V -> bool, change: V -> V): map<Id, V> {
    map k | k in m :: if k !in rest && chosen(m[k]) then change(m[k]) else m[k]
  }

  lemma RewriteStarts<V>(m: map<Id, V>, chosen: V -> bool, change: V -> V)
    ensures Rewritten(m, m.Keys, chosen, change) == m
  {}

  lemma RewriteGoesOn<V>(m: map<Id, V>, rest: set<Id>, k: Id, chosen: V -> bool, change: V -> V)
    requires k in rest && k in m
    ensures k in Rewritten(m, rest, chosen, change) && Rewritten(m, rest, chosen, change)[k] == m[k]
    ensures Rewritten(m, rest - {k}, chosen, change)
      == if chosen(m[k]) then Rewritten(m, rest, chosen, change)[k := change(m[k])]
        else Rewritten(m, rest, chosen, change)
  {}

  // A passed gate means that what the request names is there.

  lemma UpdateSubjectIsKnown(s: State, req: Request)
    ensures UpdateGate(s, req).Pass? ==> req.Subject() in s.racks && req.newGeneration.Some?
  {}

  lemma MembershipSubjectIsKnown(s: State, req: Request, target: Membership)
    ensures MembershipGate(s, req, target).Pass? ==> req.Subject() in s.racks
  {}

  lemma RecoverySubjectIsKnown(s: State, req: Request)
    ensures RecoverGate(s, req).Pass? ==> RecoverySubject(req) in s.racks && req.authority.boot.Some?
  {}

  lemma DomainPayloadIsGiven(cfg: Config, s: State, kind: DomainKind, payload: Option<Domain>)
    ensures DomainGate(cfg, s, kind, payload).Pass? ==> payload.Some?
  {}

  lemma ConstraintPayloadIsGiven(cfg: Config, s: State, payload: Option<Constraint>)
    ensures ConstraintGate(cfg, s, payload).Pass? ==> payload.Some?
  {}

  lemma LinkPayloadIsGiven(cfg: Config, s: State, payload: Option<Link>)
    ensures LinkGate(cfg, s, payload).Pass? ==> payload.Some?
  {}

  lemma HealthSubjectIsKnown(s: State, req: Request)
    ensures HealthGate(s, req).Pass? ==> req.Subject() in s.racks
  {}

  lemma WithdrawSubjectIsKnown(s: State, req: Request)
    ensures WithdrawGate(s, req).Pass? ==> req.Subject() in s.racks
  {}

  /** The new state, the answer and the store that a mutation leaves. */
  ghost predicate Executed(
      cfg: Config, now: Timestamp, s: State, req: Request, io: bool, store: seq<byte>,
      outcome: Outcome, t: State, stored: seq<byte>)
  {
    hide Commit; hide Takes; hide Encode; hide Project;
    && Committed(outcome, t) == Commit(cfg, now, s, req, Takes(cfg, s, Mutate(now, req, io)))
    && (outcome.Accepted? <==> Takes(cfg, s, Mutate(now, req, io)))
    && (if outcome.Accepted? && cfg.persist then Encode(Project(t)) == Some(stored) else stored == store)
    && (!outcome.Accepted? ==> t == s.(id := IdentityAfter(s, req)))
  }

  /** The new state and the store that a fence leaves. */
  ghost predicate FencedOff(
      cfg: Config, s: State, e: Event, store: seq<byte>, t: State, stored: seq<byte>)
    requires e.FenceBoot?
  {
    hide Proposed; hide Takes; hide Encode; hide Project;
    if Takes(cfg, s, e) then
      && Proposed(cfg, s, e) == Some(t)
      && (if cfg.persist then Encode(Project(t)) == Some(stored) else stored == store)
    else t == s && stored == store
  }

  /** The class follows the system's transition, event by event. */
  lemma ExecutedReacts(
      cfg: Config, y: Sys, now: Timestamp, req: Request, io: bool, outcome: Outcome, t: State, stored: seq<byte>)
    requires Executed(cfg, now, y.live, req, io, y.store, outcome, t, stored)
    ensures React(cfg, y, Mutate(now, req, io)).live == t && React(cfg, y, Mutate(now, req, io)).store == stored
  {
    hide Commit; hide Proposal; hide Encode; hide Project; hide Takes;
    var e := Mutate(now, req, io);
    if Takes(cfg, y.live, e) {
      TakesProposes(cfg, y.live, e);
      ProposalIsCommitted(cfg, now, y.live, req);
    }
  }

  lemma TakesProposes(cfg: Config, s: State, e: Event)
    requires Takes(cfg, s, e)
    ensures Proposed(cfg, s, e).Some?
  {
    hide Proposed; hide Stored;
  }

  lemma FencedReacts(cfg: Config, y: Sys, e: Event, t: State, stored: seq<byte>)
    requires e.FenceBoot? && FencedOff(cfg, y.live, e, y.store, t, stored)
    ensures React(cfg, y, e).live == t && React(cfg, y, e).store == stored
  {
    hide Proposed; hide Encode; hide Project; hide Takes;
  }

  lemma EmptyTraces(s: State)
    ensures Traces(s, [], s)
  {}

  /** The values of a map in key order. */
  method ListInOrder<V>(m: map<Id, V>) returns (list: seq<V>)
    ensures list == Listed(m)
  {
    var keys := KeysInOrder(m);
    SortedKeysAscend(m.Keys);
    list := [];
    for i := 0 to |keys|
      invariant |list| == i && forall j | 0 <= j < i :: list[j] == m[keys[j]]
    {
      list := list + [m[keys[i]]];
    }
  }

  /** to_persisted_state. */
  method ToPersisted(s: State) returns (p: Persisted)
    ensures p == Project(s)
  {
    hide Listed; hide Column; hide DurableRacks;
    var racks := ListInOrder(DurableRacks(s.racks));
    var placement := ListInOrder(Column(s, Placement));
    var capacity := ListInOrder(Column(s, Capacity));
    var failure := ListInOrder(Column(s, Failure));
    var network := ListInOrder(Column(s, Network));
    var storage := ListInOrder(Column(s, Storage));
    var power := ListInOrder(Column(s, Power));
    var cooling := ListInOrder(Column(s, Cooling));
    var groups := ListInOrder(Column(s, LinkGroup));
    var links := ListInOrder(s.links);
    var constraints := ListInOrder(s.constraints);
    p := Persisted(s.id, s.sc, racks,
                   DomainLists(placement, capacity, failure, network, storage, power, cooling, groups),
                   links, constraints);
  }

  function RevivedAll(racks: map<Id, DurableRack>, sc: Scalars, epoch: u64, now: Timestamp): map<Id, RackRecord> {
    map k | k in racks :: Revived(racks[k], sc, epoch, now)
  }

  lemma RevivedOneMore(racks: map<Id, DurableRack>, d: DurableRack, sc: Scalars, epoch: u64, now: Timestamp)
    ensures RevivedAll(racks[d.rack := d], sc, epoch, now)
         == RevivedAll(racks, sc, epoch, now)[d.rack := Revived(d, sc, epoch, now)]
  {
    hide Revived;
  }

  /** The rack loop of from_persisted_state: every record revived, every unknown incarnation fenced. */
  method ReviveRacks(p: Persisted, epoch: u64, now: Timestamp)
    returns (racks: map<Id, RackRecord>, fenced: seq<FencedAuthority>)
    ensures racks == RevivedRacks(p, epoch, now) && fenced == FenceAll(p.sc.fenced, p.racks, now)
  {
    racks, fenced := map[], p.sc.fenced;
    for i := 0 to |p.racks|
      invariant racks == RevivedAll(Assigned(p.racks[..i], RackKey), p.sc, epoch, now)
      invariant fenced == FenceAll(p.sc.fenced, p.racks[..i], now)
    {
      hide RevivedAll; hide Revived;
      var d := p.racks[i];
      assert p.racks[..i + 1][..i] == p.racks[..i];
      RevivedOneMore(Assigned(p.racks[..i], RackKey), d, p.sc, epoch, now);
      racks := racks[d.rack := Revived(d, p.sc, epoch, now)];
      if !Listing(fenced, d.boot) {
        fenced := fenced + [FencedAuthority(d.boot, d.rack, Ascii("coordinator_restart"), now)];
      }
    }
    assert p.racks[..|p.racks|] == p.racks;
  }

  /** Every value of a map, changed. */
  function Changing<V>(m: map<Id, V>, change: V -> V): map<Id, V> { map k | k in m :: change(m[k]) }

  lemma ChangingOneMore<V>(m: map<Id, V>, k: Id, v: V, change: V -> V)
    ensures Changing(m[k := v], change) == Changing(m, change)[k := change(v)]
  {}

  /** insert_or_assign of every record of a list, each changed on its way. */
  method AssignChanged<V>(list: seq<V>, key: V -> Id, change: V -> V) returns (m: map<Id, V>)
    ensures m == Changing(Assigned(list, key), change)
  {
    m := map[];
    for i := 0 to |list|
      invariant m == Changing(Assigned(list[..i], key), change)
    {
      hide Changing;
      assert list[..i + 1][..i] == list[..i];
      ChangingOneMore(Assigned(list[..i], key), key(list[i]), list[i], change);
      m := m[key(list[i]) := change(list[i])];
    }
    assert list[..|list|] == list;
  }

  function Refreshing(now: Timestamp): Domain -> Domain { (d: Domain) => RefreshedDomain(d, now) }

  /** The domains of one class are exactly the column. */
  predicate ColumnIs(domains: map<DomainKey, Domain>, kind: DomainKind, column: map<Id, Domain>) {
    && (forall id | id in column :: (kind, id) in domains && domains[(kind, id)] == column[id])
    && (forall k | k in domains && k.0 == kind :: k.1 in column)
  }

  /** The domains of the classes recovered so far. */
  predicate Restored(domains: map<DomainKey, Domain>, lists: DomainLists, kinds: seq<DomainKind>, now: Timestamp) {
    && (forall k | k in domains :: k.0 in kinds)
    && (forall kind | kind in kinds ::
          ColumnIs(domains, kind, Changing(Assigned(lists.Get(kind), DomainKeyOf), Refreshing(now))))
  }

  /** The eight domain loops. */
  method RestoreDomains(lists: DomainLists, now: Timestamp) returns (domains: map<DomainKey, Domain>)
    ensures domains == RecoveredDomains(lists, now)
  {
    hide Assigned; hide DomainLists.Get; hide Refreshing; hide Changing; hide RecoveredDomains; hide Restored;
    domains := map[];
    assert Restored(domains, lists, [], now) by { NothingRestored(lists, now); }
    for i := 0 to |KINDS|
      invariant Restored(domains, lists, KINDS[..i], now)
    {
      var kind := KINDS[i];
      var column := AssignChanged(lists.Get(kind), DomainKeyOf, Refreshing(now));
      KindsDiffer(i);
      RestoredOneMore(domains, lists, KINDS[..i], kind, column, now);
      assert KINDS[..i + 1] == KINDS[..i] + [kind];
      domains := domains + Keyed(kind, column);
    }
    assert KINDS[..|KINDS|] == KINDS;
    RestoredIsRecovered(domains, lists, now);
  }

  lemma NothingRestored(lists: DomainLists, now: Timestamp)
    ensures Restored(map[], lists, [], now)
  {}

  /** One class's map under the keys of the model's single map. */
  function Keyed(kind: DomainKind, column: map<Id, Domain>): map<DomainKey, Domain> {
    map id | id in column :: (kind, id) := column[id]
  }

  lemma RestoredOneMore(
      domains: map<DomainKey, Domain>, lists: DomainLists, kinds: seq<DomainKind>, kind: DomainKind,
      column: map<Id, Domain>, now: Timestamp)
    requires Restored(domains, lists, kinds, now) && kind !in kinds
    requires column == Changing(Assigned(lists.Get(kind), DomainKeyOf), Refreshing(now))
    ensures Restored(domains + Keyed(kind, column), lists, kinds + [kind], now)
  {
    hide Assigned; hide DomainLists.Get; hide Refreshing; hide Changing;
    var more := domains + Keyed(kind, column);
    ColumnJoins(domains, kind, column);
    forall other | other in kinds
      ensures ColumnIs(more, other, Changing(Assigned(lists.Get(other), DomainKeyOf), Refreshing(now)))
    {
      ColumnStays(domains, kind, column, other, Changing(Assigned(lists.Get(other), DomainKeyOf), Refreshing(now)));
    }
    assert forall k | k in more :: k in domains || k.0 == kind;
    hide ColumnIs; hide Keyed;
  }

  lemma ColumnJoins(domains: map<DomainKey, Domain>, kind: DomainKind, column: map<Id, Domain>)
    requires forall k | k in domains :: k.0 != kind
    ensures ColumnIs(domains + Keyed(kind, column), kind, column)
  {}

  lemma ColumnStays(
      domains: map<DomainKey, Domain>, kind: DomainKind, column: map<Id, Domain>,
      other: DomainKind, held: map<Id, Domain>)
    requires other != kind && ColumnIs(domains, other, held)
    ensures ColumnIs(domains + Keyed(kind, column), other, held)
  {
    forall id | id in held ensures (other, id) !in Keyed(kind, column) {}
  }

  lemma KindsDiffer(i: nat)
    requires i < |KINDS|
    ensures KINDS[i] !in KINDS[..i]
  {}

  lemma RestoredIsRecovered(domains: map<DomainKey, Domain>, lists: DomainLists, now: Timestamp)
    requires Restored(domains, lists, KINDS, now)
    ensures domains == RecoveredDomains(lists, now)
  {
    hide Assigned; hide DomainLists.Get; hide RefreshedDomain; hide DomainKeys;
    forall k: DomainKey
      ensures k in domains <==> k in DomainKeys(lists)
      ensures k in DomainKeys(lists) ==> domains[k] == RefreshedDomain(DomainAt(lists, k), now)
    {
      InDomainKeys(lists, k);
      var j := KindIndex(k.0);
      assert k == (k.0, k.1) && k.0 in KINDS;
      var column := Changing(Assigned(lists.Get(k.0), DomainKeyOf), Refreshing(now));
      assert k.1 in column <==> k.1 in Assigned(lists.Get(k.0), DomainKeyOf);
    }
  }

  function RefreshingConstraint(now: Timestamp): Constraint -> Constraint {
    (c: Constraint) => c.(header := RefreshedHeader(c.header, now))
  }

  /** from_persisted_state. */
  method FromPersisted(p: Persisted, epoch: u64, now: Timestamp) returns (s: State)
    ensures s == Recover(p, epoch, now)
  {
    hide RevivedRacks; hide FenceAll; hide Sort; hide RecoveredDomains; hide Assigned; hide Evaluate;
    hide RefreshedHeader;
    var racks, fenced := ReviveRacks(p, epoch, now);
    var domains := RestoreDomains(p.domains, now);
    var links := AssignChanged(p.links, LinkKey, SilencedLink);
    var constraints := AssignChanged(p.constraints, ConstraintKey, RefreshingConstraint(now));
    s := State(
      p.id,
      p.sc.(coordinatorEpoch := epoch, lifecycle := Lifecycle.Declared, fenced := Sort(fenced, FencedBefore)),
      racks, links, domains, constraints);
    assert s == Unsettled(p, epoch, now);
    var lifecycle, _ := EvaluateReadiness(s);
    s := s.(sc := s.sc.(lifecycle := lifecycle));
  }

  lemma LeastIsUnique(keys: set<Id>, m: Id)
    requires keys != {} && IsLeast(m, keys)
    ensures m == Least(keys)
  {
    TextIsOrdered();
  }

  lemma FencingKeepsBoots(racks: map<Id, RackRecord>, boot: Id, reason: Text)
    ensures RacksOf(FencedRacks(racks, boot, reason), boot) == RacksOf(racks, boot)
  {}

  function OfBoot(boot: Id): RackRecord -> bool { (r: RackRecord) => r.reference.boot == boot }

  function Orphaning(reason: Text): RackRecord -> RackRecord { (r: RackRecord) => Orphaned(r, reason) }

  function EdgeOf(boot: Id): Link -> bool { (l: Link) => l.boot == Some(boot) }

  function SilencedLink(l: Link): Link { l.Silenced() }

  lemma LoopsDisarm(s: State, boot: Id, reason: Text)
    ensures Rewritten(s.racks, {}, OfBoot(boot), Orphaning(reason)) == FencedRacks(s.racks, boot, reason)
    ensures Rewritten(s.links, {}, EdgeOf(boot), SilencedLink) == FencedLinks(s.links, boot)
    ensures Owns(s, boot) <==>
      || (exists k | k in s.racks :: OfBoot(boot)(s.racks[k]))
      || (exists k | k in s.links :: EdgeOf(boot)(s.links[k]))
  {
    hide Orphaned; hide Link.Silenced;
  }

  lemma FencedKeepsCounters(s: State, boot: Id, reason: Text, stamp: Timestamp)
    ensures var u := Fenced(s, boot, reason, stamp);
      u.sc.generation == s.sc.generation && u.sc.healthGeneration == s.sc.healthGeneration
  {
    hide Engine.FencedList;
  }

  lemma SameSubject(a: map<Id, RackRecord>, b: map<Id, RackRecord>, boot: Id)
    requires RacksOf(a, boot) == RacksOf(b, boot)
    ensures FenceSubject(a, boot) == FenceSubject(b, boot)
  {}

  class Coordinator {
    const cfg: Config
    var canonical: State
    var journal: seq<Undo>
    var store: seq<byte>

    constructor (cfg: Config, canonical: State, store: seq<byte>)
      ensures this.cfg == cfg && this.canonical == canonical && this.store == store && journal == []
    {
      this.cfg, this.canonical, this.store, this.journal := cfg, canonical, store, [];
    }

    // ---- journalled writes ---------------------------------------------------------------

    method RecordScalars(ghost origin: State)
      requires Traces(canonical, journal, origin)
      modifies this`journal
      ensures Rewinds(canonical, journal, origin)
    {
      RecordingTraces(canonical, canonical, journal, Scalar(canonical.sc), origin);
      journal := journal + [Scalar(canonical.sc)];
    }

    method WriteScalars(sc: Scalars, ghost origin: State)
      requires Rewinds(canonical, journal, origin)
      modifies this`canonical
      ensures Rewinds(canonical, journal, origin) && canonical == old(canonical).(sc := sc)
    {
      ScalarsAreCovered(canonical, sc, journal);
      canonical := canonical.(sc := sc);
    }

    method WriteRack(rack: Id, record: RackRecord, ghost origin: State)
      requires Traces(canonical, journal, origin)
      modifies this`canonical, this`journal
      ensures Traces(canonical, journal, origin) && (Covers(old(journal)) ==> Covers(journal))
      ensures canonical == old(canonical).(racks := old(canonical).racks[rack := record])
    {
      PutBack(canonical.racks, rack, Some(record));
      var entry := Rack(rack, At(canonical.racks, rack));
      ghost var before, was := journal, canonical;
      journal := journal + [entry];
      canonical := canonical.(racks := canonical.racks[rack := record]);
      RecordingTraces(was, canonical, before, entry, origin);
    }

    /** insert_or_assign, or erase when no link is given. */
    method WriteLink(id: Id, link: Option<Link>, ghost origin: State)
      requires Traces(canonical, journal, origin)
      modifies this`canonical, this`journal
      ensures Traces(canonical, journal, origin) && (Covers(old(journal)) ==> Covers(journal))
      ensures canonical == old(canonical).(links := Put(old(canonical).links, id, link))
    {
      PutBack(canonical.links, id, link);
      var entry := Edge(id, At(canonical.links, id));
      ghost var before, was := journal, canonical;
      journal := journal + [entry];
      canonical := canonical.(links := Put(canonical.links, id, link));
      RecordingTraces(was, canonical, before, entry, origin);
    }

    method WriteDomain(key: DomainKey, domain: Domain, ghost origin: State)
      requires Rewinds(canonical, journal, origin)
      modifies this`canonical, this`journal
      ensures Rewinds(canonical, journal, origin)
      ensures canonical == old(canonical).(domains := old(canonical).domains[key := domain])
    {
      PutBack(canonical.domains, key, Some(domain));
      var entry := Area(key, At(canonical.domains, key));
      ghost var before, was := journal, canonical;
      journal := journal + [entry];
      canonical := canonical.(domains := canonical.domains[key := domain]);
      RecordingTraces(was, canonical, before, entry, origin);
    }

    method WriteConstraint(id: Id, constraint: Constraint, ghost origin: State)
      requires Rewinds(canonical, journal, origin)
      modifies this`canonical, this`journal
      ensures Rewinds(canonical, journal, origin)
      ensures canonical == old(canonical).(constraints := old(canonical).constraints[id := constraint])
    {
      PutBack(canonical.constraints, id, Some(constraint));
      var entry := Rule(id, At(canonical.constraints, id));
      ghost var before, was := journal, canonical;
      journal := journal + [entry];
      canonical := canonical.(constraints := canonical.constraints[id := constraint]);
      RecordingTraces(was, canonical, before, entry, origin);
    }

    /** A loop over the links that records and rewrites the chosen ones where they stand. */
    method RewriteLinks(chosen: Link -> bool, change: Link -> Link, ghost origin: State) returns (any: bool)
      requires Traces(canonical, journal, origin)
      modifies this`canonical, this`journal
      ensures Traces(canonical, journal, origin) && (Covers(old(journal)) ==> Covers(journal))
      ensures canonical == old(canonical).(links := Rewritten(old(canonical).links, {}, chosen, change))
      ensures any <==> exists k | k in old(canonical).links :: chosen(old(canonical).links[k])
    {
      hide Traces; hide Covers; hide IsLeast; hide Rewritten;
      ghost var was := canonical;
      any := false;
      var rest := canonical.links.Keys;
      RewriteStarts(was.links, chosen, change);
      while rest != {}
        invariant rest <= was.links.Keys && Traces(canonical, journal, origin)
        invariant Covers(old(journal)) ==> Covers(journal)
        invariant canonical == was.(links := Rewritten(was.links, rest, chosen, change))
        invariant any <==> exists k | k in was.links && k !in rest :: chosen(was.links[k])
        decreases rest
      {
        var k := SmallestOf(rest);
        RewriteGoesOn(was.links, rest, k, chosen, change);
        if chosen(canonical.links[k]) {
          WriteLink(k, Some(change(canonical.links[k])), origin);
          any := true;
        }
        rest := rest - {k};
      }
    }

    method RewriteRacks(chosen: RackRecord -> bool, change: RackRecord -> RackRecord, ghost origin: State)
      returns (any: bool)
      requires Traces(canonical, journal, origin)
      modifies this`canonical, this`journal
      ensures Traces(canonical, journal, origin) && (Covers(old(journal)) ==> Covers(journal))
      ensures canonical == old(canonical).(racks := Rewritten(old(canonical).racks, {}, chosen, change))
      ensures any <==> exists k | k in old(canonical).racks :: chosen(old(canonical).racks[k])
    {
      hide Traces; hide Covers; hide IsLeast; hide Rewritten;
      ghost var was := canonical;
      any := false;
      var rest := canonical.racks.Keys;
      RewriteStarts(was.racks, chosen, change);
      while rest != {}
        invariant rest <= was.racks.Keys && Traces(canonical, journal, origin)
        invariant Covers(old(journal)) ==> Covers(journal)
        invariant canonical == was.(racks := Rewritten(was.racks, rest, chosen, change))
        invariant any <==> exists k | k in was.racks && k !in rest :: chosen(was.racks[k])
        decreases rest
      {
        var k := SmallestOf(rest);
        RewriteGoesOn(was.racks, rest, k, chosen, change);
        if chosen(canonical.racks[k]) {
          WriteRack(k, change(canonical.racks[k]), origin);
          any := true;
        }
        rest := rest - {k};
      }
    }

    method WriteIdentity(id: Id, ghost origin: State)
      requires Rewinds(canonical, journal, origin)
      modifies this`canonical
      ensures Rewinds(canonical, journal, origin) && canonical == old(canonical).(id := id)
    {
      IdentityFlows(canonical, id, journal);
      canonical := canonical.(id := id);
    }

    // ---- mutations, in the order the source writes ------------------------------------------

    method Declare(now: Timestamp, req: Request, ghost origin: State) returns (r: Reply)
      requires Rewinds(canonical, journal, origin)
      modifies this`canonical, this`journal
      ensures Rewinds(canonical, journal, origin) && Answers(ApplyDeclare(now, old(canonical), req), r, canonical)
      ensures !r.Done? ==> canonical.id == old(canonical).id
    {
      hide Traces; hide Covers;
      var was := canonical;
      if was.Declared() {
        if req.contract == was.sc.contract && req.lifecycle == was.sc.lifecycle { return Nothing; }
        RecordScalars(origin);
        WriteScalars(was.sc.(contract := req.contract, lifecycle := req.lifecycle), origin);
        return Done;
      }
      RecordScalars(origin);
      WriteIdentity(req.cluster, origin);
      WriteScalars(FirstDeclaration(now, was, req).sc, origin);
      r := Done;
    }

    method Register(req: Request, ghost origin: State) returns (r: Reply)
      requires Rewinds(canonical, journal, origin)
      modifies this`canonical, this`journal
      ensures Rewinds(canonical, journal, origin) && Answers(ApplyRegister(cfg, old(canonical), req), r, canonical)
      ensures canonical.id == old(canonical).id
    {
      hide Traces; hide Covers; hide RegisterGate; hide Registration;
      var gate := RegisterGate(cfg, canonical, req);
      if gate.Refuse? { return Refusal(gate.reason); }
      if gate.Same? { return Nothing; }
      WriteRack(req.Subject(), Registration(canonical, req), origin);
      r := Done;
    }

    method Add(now: Timestamp, req: Request, ghost origin: State) returns (r: Reply)
      requires Rewinds(canonical, journal, origin)
      modifies this`canonical, this`journal
      ensures Rewinds(canonical, journal, origin) && Answers(ApplyAdd(cfg, now, old(canonical), req), r, canonical)
      ensures canonical.id == old(canonical).id
    {
      hide Traces; hide Covers; hide AddGate; hide Admission; hide Canonicalize; hide Without;
      var was, incoming := canonical, Canonicalize(req.reference);
      var gate := AddGate(cfg, was, req);
      if gate.Refuse? { return Refusal(gate.reason); }
      if gate.Same? { return Nothing; }
      var own: u64;
      if AdmissionMoves(was, incoming) {
        if Next(was.sc.membershipGeneration).None? { return Refusal(LimitExceeded); }
        own := was.sc.membershipGeneration + 1;
        WriteScalars(was.sc.(membershipGeneration := own), origin);
      } else {
        own := was.racks[incoming.rack].membershipGeneration;
      }
      WriteScalars(canonical.sc.(withdrawn := Without(was.sc.withdrawn, incoming.rack)), origin);
      WriteRack(incoming.rack, Admission(was, now, incoming, own), origin);
      r := Done;
    }

    method Update(req: Request, ghost origin: State) returns (r: Reply)
      requires Rewinds(canonical, journal, origin)
      modifies this`canonical, this`journal
      ensures Rewinds(canonical, journal, origin) && Answers(ApplyUpdate(old(canonical), req), r, canonical)
      ensures canonical.id == old(canonical).id
    {
      UpdateSubjectIsKnown(canonical, req);
      hide Traces; hide Covers; hide UpdateGate; hide Advanced;
      var was, rack := canonical, req.Subject();
      var gate := UpdateGate(was, req);
      if gate.Refuse? { return Refusal(gate.reason); }
      if gate.Same? { return Nothing; }
      var g := Next(was.sc.membershipGeneration);
      if g.None? { return Refusal(LimitExceeded); }
      WriteScalars(was.sc.(membershipGeneration := g.value), origin);
      WriteRack(rack, Advanced(was, req, was.racks[rack], req.newGeneration.value, g.value), origin);
      r := Done;
    }

    method Exclude(now: Timestamp, req: Request, target: Membership, ghost origin: State) returns (r: Reply)
      requires Rewinds(canonical, journal, origin)
      modifies this`canonical, this`journal
      ensures Rewinds(canonical, journal, origin)
      ensures Answers(ApplyMembership(now, old(canonical), req, target), r, canonical)
      ensures canonical.id == old(canonical).id
    {
      MembershipSubjectIsKnown(canonical, req, target);
      hide Traces; hide Covers; hide MembershipGate; hide WithdrawnAfter; hide RetiredAfter; hide Excluded;
      var was, rack := canonical, req.Subject();
      var gate := MembershipGate(was, req, target);
      if gate.Refuse? { return Refusal(gate.reason); }
      if gate.Same? { return Nothing; }
      var g := Next(was.sc.membershipGeneration);
      if g.None? { return Refusal(LimitExceeded); }
      var record := Excluded(req, was.racks[rack], target, g.value);
      WriteScalars(was.sc.(membershipGeneration := g.value), origin);
      WriteScalars(canonical.sc.(withdrawn := WithdrawnAfter(was.sc.withdrawn, rack, target)), origin);
      if target.Retired? {
        WriteScalars(canonical.sc.(retired := RetiredAfter(was, now, req, rack, record.reference.generation)), origin);
      }
      WriteRack(rack, record, origin);
      r := Done;
    }

    method RecoverRack(req: Request, ghost origin: State) returns (r: Reply)
      requires Rewinds(canonical, journal, origin)
      modifies this`canonical, this`journal
      ensures Rewinds(canonical, journal, origin) && Answers(ApplyRecover(old(canonical), req), r, canonical)
      ensures canonical.id == old(canonical).id
    {
      RecoverySubjectIsKnown(canonical, req);
      hide Traces; hide Covers; hide RecoverGate; hide Recovered; hide Without; hide RecoverySubject;
      var was, rack := canonical, RecoverySubject(req);
      var gate := RecoverGate(was, req);
      if gate.Refuse? { return Refusal(gate.reason); }
      if gate.Same? { return Nothing; }
      var g := Next(was.sc.membershipGeneration);
      if g.None? { return Refusal(LimitExceeded); }
      WriteScalars(was.sc.(membershipGeneration := g.value), origin);
      WriteScalars(canonical.sc.(withdrawn := Without(was.sc.withdrawn, rack)), origin);
      WriteRack(rack, Recovered(was, req, was.racks[rack], g.value), origin);
      r := Done;
    }

    /** The record is written before the topology counter can overflow. */
    method PublishDomain(kind: DomainKind, req: Request, ghost origin: State) returns (r: Reply)
      requires Rewinds(canonical, journal, origin)
      modifies this`canonical, this`journal
      ensures Rewinds(canonical, journal, origin)
      ensures Answers(ApplyDomain(cfg, old(canonical), kind, req.domain), r, canonical)
      ensures canonical.id == old(canonical).id
    {
      DomainPayloadIsGiven(cfg, canonical, kind, req.domain);
      hide Traces; hide Covers; hide DomainGate; hide Normalized; hide AdvanceAggregate; hide DomainGenerations.Set;
      hide DomainGenerations.Get;
      var was := canonical;
      var gate := DomainGate(cfg, was, kind, req.domain);
      if gate.Refuse? { return Refusal(gate.reason); }
      if gate.Same? { return Nothing; }
      var d := Normalized(kind, req.domain.value);
      var aggregate := AdvanceAggregate(was.sc.domainGenerations.Get(kind), d.header.generation);
      if aggregate.None? { return Refusal(LimitExceeded); }
      WriteScalars(was.sc.(domainGenerations := was.sc.domainGenerations.Set(kind, aggregate.value)), origin);
      WriteDomain((kind, d.id), d.(header := Stamped(was, d.header)), origin);
      var g := Next(was.sc.topologyGeneration);
      if g.None? { return Refusal(LimitExceeded); }
      WriteScalars(WithTopology(canonical.sc, g.value), origin);
      r := Done;
    }

    method PublishConstraint(req: Request, ghost origin: State) returns (r: Reply)
      requires Rewinds(canonical, journal, origin)
      modifies this`canonical, this`journal
      ensures Rewinds(canonical, journal, origin)
      ensures Answers(ApplyConstraint(cfg, old(canonical), req.constraint), r, canonical)
      ensures canonical.id == old(canonical).id
    {
      ConstraintPayloadIsGiven(cfg, canonical, req.constraint);
      hide Traces; hide Covers; hide ConstraintGate; hide SortUnique;
      var was := canonical;
      var gate := ConstraintGate(cfg, was, req.constraint);
      if gate.Refuse? { return Refusal(gate.reason); }
      if gate.Same? { return Nothing; }
      var g := Next(was.sc.constraintGeneration);
      if g.None? { return Refusal(LimitExceeded); }
      WriteScalars(was.sc.(constraintGeneration := g.value), origin);
      var c := req.constraint.value;
      WriteConstraint(c.id, c.(racks := SortUnique(c.racks, Before), header := Stamped(was, c.header)), origin);
      r := Done;
    }

    /** bump of the topology and then of the connectivity generation; the first may succeed alone. */
    method MoveTopology(ghost origin: State) returns (ok: bool)
      requires Rewinds(canonical, journal, origin)
      modifies this`canonical
      ensures Rewinds(canonical, journal, origin) && ok == TopologyMoved(old(canonical).sc).Some?
      ensures ok ==> canonical == old(canonical).(sc := TopologyMoved(old(canonical).sc).value)
      ensures canonical.id == old(canonical).id
    {
      hide Traces; hide Covers;
      var t := Next(canonical.sc.topologyGeneration);
      if t.None? { return false; }
      WriteScalars(canonical.sc.(topologyGeneration := t.value), origin);
      var c := Next(canonical.sc.connectivityGeneration);
      if c.None? { return false; }
      WriteScalars(canonical.sc.(connectivityGeneration := c.value), origin);
      WriteScalars(canonical.sc.(topology := canonical.sc.topology.(generation := t.value)), origin);
      ok := true;
    }

    method PublishLink(req: Request, ghost origin: State) returns (r: Reply)
      requires Rewinds(canonical, journal, origin)
      modifies this`canonical, this`journal
      ensures Rewinds(canonical, journal, origin)
      ensures Answers(ApplyLink(cfg, old(canonical), req.link), r, canonical)
      ensures canonical.id == old(canonical).id
    {
      LinkPayloadIsGiven(cfg, canonical, req.link);
      hide Traces; hide Covers; hide LinkGate; hide PublishedLink; hide TopologyMoved;
      var was := canonical;
      var gate := LinkGate(cfg, was, req.link);
      if gate.Refuse? { return Refusal(gate.reason); }
      if gate.Same? { return Nothing; }
      WriteLink(req.link.value.id, Some(PublishedLink(was, req.link.value)), origin);
      var ok := MoveTopology(origin);
      if !ok { return Refusal(LimitExceeded); }
      r := Done;
    }

    method WithdrawLink(req: Request, ghost origin: State) returns (r: Reply)
      requires Rewinds(canonical, journal, origin)
      modifies this`canonical, this`journal
      ensures Rewinds(canonical, journal, origin)
      ensures Answers(ApplyWithdrawLink(old(canonical), req.linkId), r, canonical)
      ensures canonical.id == old(canonical).id
    {
      hide Traces; hide Covers; hide TopologyMoved;
      if req.linkId.None? { return Refusal(Malformed); }
      if req.linkId.value !in canonical.links { return Nothing; }
      WriteLink(req.linkId.value, None, origin);
      var ok := MoveTopology(origin);
      if !ok { return Refusal(LimitExceeded); }
      r := Done;
    }

    method Supersede(now: Timestamp, req: Request, ghost origin: State) returns (r: Reply)
      requires Rewinds(canonical, journal, origin)
      modifies this`canonical, this`journal
      ensures Rewinds(canonical, journal, origin)
      ensures Answers(ApplySupersede(now, old(canonical), req), r, canonical)
      ensures canonical.id == old(canonical).id
    {
      hide Traces; hide Covers;
      if req.targetEpoch.None? { return Refusal(Malformed); }
      var was, target := canonical, req.targetEpoch.value;
      if target <= was.sc.topologyEpoch { return Refusal(StaleTopologyEpoch); }
      var _ := RewriteLinks((l: Link) => true, (l: Link) => l.Silenced(), origin);
      assert canonical.links == SilencedLinks(was.links);
      hide SilencedLinks; hide Rewritten;
      WriteScalars(was.sc.(topologyEpoch := target), origin);
      var ok := MoveTopology(origin);
      if !ok { return Refusal(LimitExceeded); }
      var reason := if req.topologyReason == [] then Ascii("topology_superseded") else req.topologyReason;
      WriteScalars(
        canonical.sc.(topology := TopologyRecord(target, canonical.sc.topologyGeneration, now,
                                                 Stamp(Provenance.Reported, now, 0), reason)), origin);
      r := Done;
    }

    method MoveEvidence(connectivity: bool, ghost origin: State) returns (ok: bool)
      requires Rewinds(canonical, journal, origin)
      modifies this`canonical
      ensures Rewinds(canonical, journal, origin) && ok == EvidenceMoved(old(canonical).sc, connectivity).Some?
      ensures ok ==> canonical == old(canonical).(sc := EvidenceMoved(old(canonical).sc, connectivity).value)
      ensures canonical.id == old(canonical).id
    {
      hide Traces; hide Covers;
      if connectivity {
        var c := Next(canonical.sc.connectivityGeneration);
        if c.None? { return false; }
        WriteScalars(canonical.sc.(connectivityGeneration := c.value), origin);
      }
      var h := Next(canonical.sc.healthGeneration);
      if h.None? { return false; }
      WriteScalars(canonical.sc.(healthGeneration := h.value), origin);
      ok := true;
    }

    method PublishHealth(req: Request, ghost origin: State) returns (r: Reply)
      requires Rewinds(canonical, journal, origin)
      modifies this`canonical, this`journal
      ensures Rewinds(canonical, journal, origin) && Answers(ApplyHealth(old(canonical), req), r, canonical)
      ensures canonical.id == old(canonical).id
    {
      HealthSubjectIsKnown(canonical, req);
      hide Traces; hide Covers; hide HealthGate; hide Mutations.Reported; hide ReportedLink; hide EvidenceMoved;
      var was, rack, spreads := canonical, req.Subject(), !req.reachability.Unknown?;
      var gate := HealthGate(was, req);
      if gate.Refuse? { return Refusal(gate.reason); }
      if gate.Same? { return Nothing; }
      WriteRack(rack, Mutations.Reported(was, req, was.racks[rack]), origin);
      if spreads {
        var _ := RewriteLinks((l: Link) => l.Touches(rack), (l: Link) => ReportedLink(req, l), origin);
        assert canonical.links == ReportedLinks(req, rack, was.links);
      }
      hide ReportedLinks; hide Rewritten;
      var ok := MoveEvidence(spreads, origin);
      if !ok { return Refusal(LimitExceeded); }
      r := Done;
    }

    method Withdraw(req: Request, ghost origin: State) returns (r: Reply)
      requires Rewinds(canonical, journal, origin)
      modifies this`canonical, this`journal
      ensures Rewinds(canonical, journal, origin) && Answers(ApplyWithdrawEvidence(old(canonical), req), r, canonical)
      ensures canonical.id == old(canonical).id
    {
      WithdrawSubjectIsKnown(canonical, req);
      hide Traces; hide Covers; hide WithdrawGate; hide Orphaned; hide OrphanedLink; hide EvidenceMoved; hide Ascii;
      hide Selector;
      var was, rack := canonical, req.Subject();
      var gate := WithdrawGate(was, req);
      if gate.Refuse? { return Refusal(gate.reason); }
      if gate.Same? { return Nothing; }
      var spreads := Selector(req) in {Ascii("reachability"), Ascii("rack_evidence")};
      WriteRack(rack, Orphaned(was.racks[rack], Ascii("evidence_withdrawn")), origin);
      if spreads {
        var _ := RewriteLinks((l: Link) => l.Touches(rack), (l: Link) => OrphanedLink(l), origin);
        assert canonical.links == OrphanedLinks(rack, was.links);
      }
      hide OrphanedLinks; hide Rewritten;
      var ok := MoveEvidence(spreads, origin);
      if !ok { return Refusal(LimitExceeded); }
      r := Done;
    }

    method PublishSnapshot(ghost origin: State) returns (r: Reply)
      requires Rewinds(canonical, journal, origin)
      modifies this`canonical
      ensures Rewinds(canonical, journal, origin) && Answers(ApplySnapshot(old(canonical)), r, canonical)
      ensures canonical.id == old(canonical).id
    {
      hide Traces; hide Covers;
      var n := Next(canonical.sc.snapshotGeneration);
      if n.None? { return Refusal(LimitExceeded); }
      WriteScalars(canonical.sc.(snapshotGeneration := n.value), origin);
      var p := Next(canonical.sc.publicationGeneration);
      if p.None? { return Refusal(LimitExceeded); }
      WriteScalars(canonical.sc.(publicationGeneration := p.value), origin);
      r := Done;
    }

    method RetireCluster(ghost origin: State) returns (r: Reply)
      requires Rewinds(canonical, journal, origin)
      modifies this`canonical, this`journal
      ensures Rewinds(canonical, journal, origin) && Answers(ApplyRetireCluster(old(canonical)), r, canonical)
      ensures canonical.id == old(canonical).id
    {
      hide Traces; hide Covers; hide Demoted;
      if canonical.sc.lifecycle.Retired? { return Nothing; }
      var was := canonical;
      RecordScalars(origin);
      WriteScalars(was.sc.(lifecycle := Lifecycle.Retired), origin);
      var _ := RewriteRacks(
        (r: RackRecord) => r.authoritative, (r: RackRecord) => Demoted(r, Ascii("cluster_retired")), origin);
      assert canonical.racks == DemotedRacks(was.racks, Ascii("cluster_retired"));
      r := Done;
    }

    /** Nothing is written: the candidates are the named racks, or every rack when none is named. */
    method Revalidate(req: Request) returns (r: Reply)
      ensures Answers(ApplyRevalidate(canonical, req), r, canonical)
    {
      var candidates := req.racks;
      if candidates == [] { candidates := KeysInOrder(canonical.racks); SortedKeysAscend(canonical.racks.Keys); }
      hide SortedKeys; hide Ascending; hide FreshlyHeld;
      if candidates == [] {
        assert canonical.racks == map[] by { assert forall k | k in canonical.racks :: k in candidates; }
        return Nothing;
      }
      assert req.racks == [] ==> canonical.racks != map[] by { assert candidates[0] in candidates; }
      var waiting := false;
      for i := 0 to |candidates|
        invariant forall j | 0 <= j < i :: candidates[j] in canonical.racks
        invariant waiting <==> exists j | 0 <= j < i :: !FreshlyHeld(canonical.racks[candidates[j]])
      {
        if candidates[i] !in canonical.racks { return Refusal(UnknownRack); }
        if !FreshlyHeld(canonical.racks[candidates[i]]) { waiting := true; }
      }
      r := if waiting then Unfinished else Done;
      assert forall k | k in candidates :: k in canonical.racks;
      assert waiting <==> exists k | k in candidates :: !FreshlyHeld(canonical.racks[k]);
    }

    /** apply_request. */
    method ApplyRequest(now: Timestamp, req: Request, ghost origin: State) returns (r: Reply)
      requires Rewinds(canonical, journal, origin)
      modifies this`canonical, this`journal
      ensures Rewinds(canonical, journal, origin) && Answers(Apply(cfg, now, old(canonical), req), r, canonical)
      ensures !r.Done? ==> canonical.id == old(canonical).id
    {
      hide Traces; hide Covers; hide ValidateCommon; hide ApplyDeclare; hide ApplyRegister; hide ApplyAdd;
      hide ApplyUpdate;
      hide ApplyMembership; hide ApplyRecover; hide ApplyLink; hide ApplyWithdrawLink; hide ApplyDomain;
      hide ApplyConstraint; hide ApplyHealth; hide ApplyWithdrawEvidence; hide ApplySupersede; hide ApplySnapshot;
      hide ApplyRevalidate; hide ApplyRetireCluster;
      var common := ValidateCommon(canonical, req);
      if common.Refuse? { return Refusal(common.reason); }
      match req.kind
      case Unknown => r := Refusal(Malformed);
      case DeclareCluster => r := Declare(now, req, origin);
      case RegisterPublisher => r := Register(req, origin);
      case AddRack => r := Add(now, req, origin);
      case UpdateRackGeneration => r := Update(req, origin);
      case MarkUnavailable => r := Exclude(now, req, Membership.Unavailable, origin);
      case WithdrawRack => r := Exclude(now, req, Membership.Withdrawn, origin);
      case RetireRack => r := Exclude(now, req, Membership.Retired, origin);
      case RecoverRack => r := RecoverRack(req, origin);
      case PublishLink => r := PublishLink(req, origin);
      case WithdrawLink => r := WithdrawLink(req, origin);
      case PublishDomain(kind) => r := PublishDomain(kind, req, origin);
      case PublishConstraint => r := PublishConstraint(req, origin);
      case PublishHealth => r := PublishHealth(req, origin);
      case WithdrawEvidence => r := Withdraw(req, origin);
      case SupersedeTopology => r := Supersede(now, req, origin);
      case PublishSnapshot => r := PublishSnapshot(origin);
      case Revalidate => r := Revalidate(req);
      case RetireCluster => r := RetireCluster(origin);
    }

    /** Undo everything, last entry first. */
    method Rollback(ghost origin: State)
      requires Traces(canonical, journal, origin)
      modifies this`canonical, this`journal
      ensures canonical == origin.(id := old(canonical).id) && journal == []
    {
      while journal != []
        invariant Replayed(canonical, journal) == Replayed(old(canonical), old(journal))
        decreases |journal|
      {
        canonical := Undone(canonical, journal[|journal| - 1]);
        journal := journal[..|journal| - 1];
      }
    }

    // ---- the commit path -------------------------------------------------------------------

    /** persist_now: without persistence nothing is written and nothing can fail. */
    method PersistNow(io: bool) returns (ok: bool)
      modifies this`store
      ensures ok == Stored(cfg, canonical, io)
      ensures store == if ok && cfg.persist then Encode(Project(canonical)).value else old(store)
    {
      hide Encode; hide Project;
      if !cfg.persist { return true; }
      var p := ToPersisted(canonical);
      var bytes := Encode(p);
      if bytes.None? || !io { return false; }
      store := bytes.value;
      ok := true;
    }

    /** evaluate, check, bump the generation: what stands between an applied candidate and the store. */
    method Seal(now: Timestamp, ghost origin: State) returns (refusal: Option<Mutations.Reason>)
      requires Rewinds(canonical, journal, origin)
      modifies this`canonical
      ensures Rewinds(canonical, journal, origin) && canonical.id == old(canonical).id
      ensures refusal == if !Sound(Settle(old(canonical))) then Some(InvariantViolation)
                         else if old(canonical).sc.generation == MAX_U64 then Some(LimitExceeded) else None
      ensures refusal.None? ==> canonical == Sealed(now, Settle(old(canonical)))
    {
      hide Traces; hide Covers; hide Sound; hide Evaluate;
      var lifecycle, _ := EvaluateReadiness(canonical);
      WriteScalars(canonical.sc.(lifecycle := lifecycle), origin);
      var report := CheckInvariants(canonical);
      if report != [] { return Some(InvariantViolation); }
      var g := Next(canonical.sc.generation);
      if g.None? { return Some(LimitExceeded); }
      WriteScalars(canonical.sc.(generation := g.value), origin);
      WriteScalars(canonical.sc.(lastMutationAt := now), origin);
      refusal := None;
    }

    /** apply_and_commit: the whole new state, the whole answer and the whole store. */
    method ApplyAndCommit(now: Timestamp, req: Request, io: bool) returns (outcome: Outcome)
      modifies this
      ensures Executed(cfg, now, old(canonical), req, io, old(store), outcome, canonical, store)
    {
      hide Traces; hide Covers; hide Apply; hide Sound; hide Settle; hide Encode; hide Project; hide IdentityAfter;
      ghost var origin := canonical;
      journal := [];
      assert Traces(canonical, journal, origin) by { EmptyTraces(canonical); }
      RecordScalars(origin);
      var reply := ApplyRequest(now, req, origin);
      if !reply.Done? {
        Rollback(origin);
        assert canonical == origin;
        AppliedIdentity(cfg, now, origin, req);
        return match reply
          case Refusal(reason) => Rejected(reason)
          case Nothing => Unchanged
          case _ => RevalidationNeeded;
      }
      AppliedIdentity(cfg, now, origin, req);
      var refusal := Seal(now, origin);
      if refusal.Some? {
        Rollback(origin);
        return Rejected(refusal.value);
      }
      var saved := PersistNow(io);
      if !saved {
        Rollback(origin);
        return Rejected(PersistenceFailed);
      }
      journal := [];
      outcome := Accepted;
    }

    /** The first rack of the incarnation, or a placeholder. */
    method FindSubject(boot: Id) returns (rack: Id)
      ensures rack == FenceSubject(canonical.racks, boot)
    {
      hide IsLeast;
      var owned := RacksOf(canonical.racks, boot);
      if owned == {} { return Ascii("unknown-rack"); }
      rack := SmallestOf(owned);
      LeastIsUnique(owned, rack);
    }

    /** The racks, the links and the fence list of one incarnation; scalars are recorded once something changed. */
    method Disarm(boot: Id, reason: Text, stamp: Timestamp, ghost origin: State) returns (changed: bool)
      requires Traces(canonical, journal, origin)
      modifies this`canonical, this`journal
      ensures changed <==> Owns(old(canonical), boot)
      ensures changed ==> canonical == Fenced(old(canonical), boot, reason, stamp)
      ensures changed ==> Rewinds(canonical, journal, origin)
      ensures Traces(canonical, journal, origin) && canonical.id == old(canonical).id
    {
      hide Traces; hide Covers; hide FenceSubject; hide Sort; hide Rewritten; hide FencedLinks; hide FencedRacks;
      hide RacksOf; hide Owns; hide OfBoot; hide Orphaning; hide EdgeOf;
      var was := canonical;
      var racks := RewriteRacks(OfBoot(boot), Orphaning(reason), origin);
      var links := RewriteLinks(EdgeOf(boot), SilencedLink, origin);
      changed := racks || links;
      LoopsDisarm(was, boot, reason);
      if !changed { return; }
      FencingKeepsBoots(was.racks, boot, reason);
      RecordScalars(origin);
      if !canonical.IsFenced(boot) {
        var rack := FindSubject(boot);
        SameSubject(was.racks, canonical.racks, boot);
        WriteScalars(
          canonical.sc.(fenced := Sort(canonical.sc.fenced + [FencedAuthority(boot, rack, reason, stamp)],
            FencedBefore)),
          origin);
      }
    }

    method SealFence(at: Timestamp, ghost origin: State) returns (ok: bool)
      requires Rewinds(canonical, journal, origin)
      modifies this`canonical, this`journal
      ensures Rewinds(canonical, journal, origin) && canonical.id == old(canonical).id
      ensures ok <==> old(canonical).sc.generation < MAX_U64 && old(canonical).sc.healthGeneration < MAX_U64
      ensures ok ==>
        var t := Settle(old(canonical));
        canonical == Sealed(at, t.(sc := t.sc.(healthGeneration := t.sc.healthGeneration + 1)))
    {
      hide Traces; hide Covers; hide Evaluate;
      RecordScalars(origin);
      var lifecycle, _ := EvaluateReadiness(canonical);
      WriteScalars(canonical.sc.(lifecycle := lifecycle), origin);
      var g := Next(canonical.sc.generation);
      if g.None? { return false; }
      WriteScalars(canonical.sc.(generation := g.value), origin);
      var h := Next(canonical.sc.healthGeneration);
      if h.None? { return false; }
      WriteScalars(canonical.sc.(healthGeneration := h.value), origin);
      WriteScalars(canonical.sc.(lastMutationAt := at), origin);
      ok := true;
    }

    /** apply_fence. */
    method ApplyFence(boot: Id, reason: Text, stamp: Timestamp, at: Timestamp, io: bool)
      modifies this
      ensures FencedOff(cfg, old(canonical), FenceBoot(boot, reason, stamp, at, io), old(store), canonical, store)
    {
      hide Traces; hide Covers; hide Encode; hide Project; hide Settle; hide Fenced; hide Owns;
      ghost var origin := canonical;
      journal := [];
      assert Traces(canonical, journal, origin) by { EmptyTraces(canonical); }
      var changed := Disarm(boot, reason, stamp, origin);
      if !changed {
        Rollback(origin);
        return;
      }
      assert canonical.sc.generation == origin.sc.generation
        && canonical.sc.healthGeneration == origin.sc.healthGeneration
      by { FencedKeepsCounters(origin, boot, reason, stamp); }
      var sealed := SealFence(at, origin);
      if !sealed {
        Rollback(origin);
        return;
      }
      var saved := PersistNow(io);
      if !saved { Rollback(origin); }
      journal := [];
    }

    /** load_durable_state: the store is read and left alone. */
    method LoadDurableState(now: Timestamp)
      modifies this`canonical
      ensures canonical == Restart(cfg, Load(store), now)
    {
      hide Decode; hide Recover;
      if store == [] {
        canonical := FreshState(cfg.cluster, cfg.contract, NextEpoch(1));
        return;
      }
      var loading := Decode(store);
      match loading
      case Loaded(p) => canonical := FromPersisted(p, NextEpoch(p.sc.coordinatorEpoch), now);
      case Damaged(_) => canonical := FreshState(cfg.cluster, cfg.contract, NextEpoch(1));
    }
  }
}
