/** The durable projection of canonical state and the state recovered from it. */
module Durable {
  import opened Foundation
  import opened Sorting
  import opened EvidenceStamps
  import opened Records
  import opened Readiness
  import opened Mutations

  datatype DurableRack = DurableRack(
    rack: Id, generation: u64, membership: Membership, publisher: Id, publication: u64, boot: Id,
    composition: Composition, endpoints: seq<Endpoint>, hints: seq<Hint>, rackLifecycle: RackLifecycle,
    membershipGeneration: u64, origin: Text, declaredAt: Timestamp)

  /** One list for each domain class, in the order the container stores them. */
  datatype DomainLists = DomainLists(
    placement: seq<Domain>, capacity: seq<Domain>, failure: seq<Domain>, network: seq<Domain>,
    storage: seq<Domain>, power: seq<Domain>, cooling: seq<Domain>, link: seq<Domain>)
  {
    function Get(kind: DomainKind): seq<Domain> {
      match kind
      case Placement => placement
      case Capacity => capacity
      case Failure => failure
      case Network => network
      case Storage => storage
      case Power => power
      case Cooling => cooling
      case LinkGroup => link
    }
  }

  /** PersistedState. The coordinator epoch among the scalars is the last one that committed. */
  datatype Persisted = Persisted(
    id: Id, sc: Scalars, racks: seq<DurableRack>, domains: DomainLists, links: seq<Link>, constraints: seq<Constraint>)

  // ---- projection ------------------------------------------------------------------------

  function Pick<V>(m: map<Id, V>, keys: seq<Id>): seq<V>
    requires forall k | k in keys :: k in m
  {
    seq(|keys|, i requires 0 <= i < |keys| => m[keys[i]])
  }

  /** The values of a std::map in key order. */
  ghost function Listed<V>(m: map<Id, V>): seq<V> {
    SortedKeysAscend(m.Keys);
    Pick(m, SortedKeys(m.Keys))
  }

  function DurableOf(r: RackRecord): DurableRack {
    DurableRack(
      r.reference.rack, r.reference.generation, r.membership,
      r.reference.publisher.GetOr(Ascii("cluster-fabric-unknown")), r.reference.publication, r.reference.boot,
      r.reference.composition, r.reference.endpoints, r.reference.hints, r.reference.rackLifecycle,
      r.membershipGeneration, r.reference.origin, r.membershipEvidence.observedAt)
  }

  function DurableRacks(racks: map<Id, RackRecord>): map<Id, DurableRack> {
    map k | k in racks :: DurableOf(racks[k]).(rack := k)
  }

  /** One of the eight domain maps. */
  function Column(s: State, kind: DomainKind): map<Id, Domain> {
    map id | id in s.DomainIds(kind) :: s.domains[(kind, id)]
  }

  ghost function Project(s: State): Persisted {
    Persisted(
      s.id, s.sc, Listed(DurableRacks(s.racks)),
      DomainLists(Listed(Column(s, Placement)), Listed(Column(s, Capacity)), Listed(Column(s, Failure)),
                  Listed(Column(s, Network)), Listed(Column(s, Storage)), Listed(Column(s, Power)),
                  Listed(Column(s, Cooling)), Listed(Column(s, LinkGroup))),
      Listed(s.links), Listed(s.constraints))
  }

  // ---- recovery --------------------------------------------------------------------------

  /** insert_or_assign of every element, in list order. */
  function Assigned<V>(list: seq<V>, key: V -> Id): map<Id, V> {
    if list == [] then map[] else Assigned(list[..|list| - 1], key)[key(list[|list| - 1]) := list[|list| - 1]]
  }

  function RackKey(d: DurableRack): Id { d.rack }
  function DomainKeyOf(d: Domain): Id { d.id }
  function LinkKey(l: Link): Id { l.id }
  function ConstraintKey(c: Constraint): Id { c.id }

  /** Every dynamic observation is cleared; the rack has to be republished under fresh authority. */
  function Revived(d: DurableRack, sc: Scalars, coordinatorEpoch: u64, now: Timestamp): RackRecord {
    RackRecord(
      RackReference(
        d.rack, d.generation, d.rackLifecycle, Currentness.RevalidationRequired, d.composition, d.endpoints, d.hints,
        Evidence(Provenance.Reconstructed, d.declaredAt, Freshness.RevalidationRequired, 0), Some(d.publisher),
        d.publication, d.boot, sc.epoch, coordinatorEpoch, 0, d.origin),
      d.membership, d.membershipGeneration, sc.generation,
      Evidence(Provenance.Reconstructed, now, Freshness.RevalidationRequired, 0), false,
      Ascii("recovered_state_requires_revalidation"))
  }

  function RevivedRacks(p: Persisted, coordinatorEpoch: u64, now: Timestamp): map<Id, RackRecord> {
    var racks := Assigned(p.racks, RackKey);
    map k | k in racks :: Revived(racks[k], p.sc, coordinatorEpoch, now)
  }

  function RefreshedHeader(h: Header, now: Timestamp): Header { h.(evidence := h.evidence.Refreshed(now)) }

  function ColumnKeys(lists: DomainLists, kind: DomainKind): set<DomainKey> {
    set id | id in Assigned(lists.Get(kind), DomainKeyOf) :: (kind, id)
  }

  function DomainKeys(lists: DomainLists): set<DomainKey> {
    ColumnKeys(lists, Placement) + ColumnKeys(lists, Capacity) + ColumnKeys(lists, Failure)
    + ColumnKeys(lists, Network) + ColumnKeys(lists, Storage) + ColumnKeys(lists, Power)
    + ColumnKeys(lists, Cooling) + ColumnKeys(lists, LinkGroup)
  }

  lemma InColumnKeys(lists: DomainLists, kind: DomainKind, k: DomainKey)
    ensures k in ColumnKeys(lists, kind) <==> k.0 == kind && k.1 in Assigned(lists.Get(kind), DomainKeyOf)
  {
    hide DomainLists.Get; hide Assigned;
  }

  lemma InDomainKeys(lists: DomainLists, k: DomainKey)
    ensures k in DomainKeys(lists) <==> k.1 in Assigned(lists.Get(k.0), DomainKeyOf)
  {
    hide DomainLists.Get; hide Assigned; hide ColumnKeys;
    forall kind: DomainKind { InColumnKeys(lists, kind, k); }
  }

  function DomainAt(lists: DomainLists, k: DomainKey): Domain
    requires k in DomainKeys(lists)
  {
    InDomainKeys(lists, k);
    Assigned(lists.Get(k.0), DomainKeyOf)[k.1]
  }

  function RefreshedDomain(d: Domain, now: Timestamp): Domain { d.(header := RefreshedHeader(d.header, now)) }

  function RecoveredDomains(lists: DomainLists, now: Timestamp): map<DomainKey, Domain> {
    map k: DomainKey | k in DomainKeys(lists) :: RefreshedDomain(DomainAt(lists, k), now)
  }

  predicate Listing(fenced: seq<FencedAuthority>, boot: Id) { exists f | f in fenced :: f.boot == boot }

  /** Every recovered incarnation that is not fenced yet is appended, in rack order. */
  function FenceAll(fenced: seq<FencedAuthority>, racks: seq<DurableRack>, now: Timestamp): seq<FencedAuthority> {
    if racks == [] then fenced
    else
      var before, last := FenceAll(fenced, racks[..|racks| - 1], now), racks[|racks| - 1];
      if Listing(before, last.boot) then before
      else before + [FencedAuthority(last.boot, last.rack, Ascii("coordinator_restart"), now)]
  }

  /** from_persisted_state, up to the lifecycle, which starts at its default. */
  function Unsettled(p: Persisted, coordinatorEpoch: u64, now: Timestamp): State {
    var links, constraints := Assigned(p.links, LinkKey), Assigned(p.constraints, ConstraintKey);
    State(p.id,
          p.sc.(coordinatorEpoch := coordinatorEpoch, lifecycle := Lifecycle.Declared,
                fenced := Sort(FenceAll(p.sc.fenced, p.racks, now), FencedBefore)),
          RevivedRacks(p, coordinatorEpoch, now),
          map k | k in links :: links[k].Silenced(),
          RecoveredDomains(p.domains, now),
          map k | k in constraints :: constraints[k].(header := RefreshedHeader(constraints[k].header, now)))
  }

  function Recover(p: Persisted, coordinatorEpoch: u64, now: Timestamp): State {
    Settle(Unsettled(p, coordinatorEpoch, now))
  }

  /** The epoch a coordinator takes after loading a container of the given epoch. */
  function NextEpoch(previous: u64): (r: u64)
    ensures r != 0 && r >= previous
    ensures r == previous + 1 <==> previous < MAX_U64
  {
    if previous == 0 then 1 else if previous == MAX_U64 then previous else previous + 1
  }

  /** load_durable_state: a container that cannot be read leaves a fresh, undeclared cluster. */
  function Restart(cfg: Config, loaded: Option<Persisted>, now: Timestamp): State {
    if loaded.Some? then Recover(loaded.value, NextEpoch(loaded.value.sc.coordinatorEpoch), now)
    else FreshState(cfg.cluster, cfg.contract, NextEpoch(1))
  }

  // ---- recovering a projection -----------------------------------------------------------

  lemma AssignedLast<V>(m: map<Id, V>, front: seq<Id>, last: Id, key: V -> Id)
    requires last in m && key(m[last]) == last && forall k | k in front :: k in m
    ensures Assigned(Pick(m, front + [last]), key) == Assigned(Pick(m, front), key)[last := m[last]]
  {
    var list := Pick(m, front + [last]);
    assert list[..|list| - 1] == Pick(m, front) && list[|list| - 1] == m[last];
  }

  lemma {:induction false} AssignedFromAscending<V(!new)>(m: map<Id, V>, keys: seq<Id>, key: V -> Id)
    requires Ascending(keys, Before) && (forall k | k in keys :: k in m && key(m[k]) == k)
    ensures Assigned(Pick(m, keys), key).Keys == (set k | k in keys)
    ensures forall k | k in keys :: Assigned(Pick(m, keys), key)[k] == m[k]
  {
    if keys != [] {
      var front, last := keys[..|keys| - 1], keys[|keys| - 1];
      AssignedFromAscending(m, front, key);
      assert keys == front + [last];
      AssignedLast(m, front, last, key);
      hide Assigned; hide Pick;
    }
  }

  /** Listing a map in key order and assigning the list back gives the map. */
  lemma AssignedInvertsListed<V(!new)>(m: map<Id, V>, key: V -> Id)
    requires forall k | k in m :: key(m[k]) == k
    ensures Assigned(Listed(m), key) == m
  {
    SortedKeysAscend(m.Keys);
    AssignedFromAscending(m, SortedKeys(m.Keys), key);
    assert m.Keys == set k | k in SortedKeys(m.Keys);
  }
}
