/** A coordinator, its store, and every run of mutations, fences, failed saves and restarts. */
module System {
  import opened Foundation
  import opened Records
  import opened Readiness
  import opened Invariants
  import opened Mutations
  import opened Engine
  import opened Durable
  import opened Recovery
  import opened Container

  /** The store holds a container or nothing. `saved` remembers which state was written last. */
  datatype Sys = Sys(live: State, store: seq<Foundation.byte>, saved: Option<State>)

  datatype Event =
    | Mutate(at: Timestamp, request: Request, io: bool)
    | FenceBoot(boot: Id, reason: Text, stamp: Timestamp, at: Timestamp, io: bool)
    | Reboot(at: Timestamp)

  /** persist_now: succeeds without a store, otherwise if the state encodes and the write goes through. */
  ghost predicate Stored(cfg: Config, t: State, io: bool) {
    hide Encode; hide Project;
    cfg.persist ==> io && Encode(Project(t)).Some?
  }

  /** The state can be read back from its container: the decoder's bounds and the structural validation hold. */
  ghost predicate Reloadable(s: State) {
    hide Accepts; hide Valid; hide Project;
    Accepts(Project(s)) && Valid(Project(s))
  }

  ghost function Keep(cfg: Config, y: Sys, live: State): Sys
    requires Stored(cfg, live, true)
  {
    if cfg.persist then Sys(live, Encode(Project(live)).value, Some(live)) else y.(live := live)
  }

  function Load(store: seq<Foundation.byte>): Option<Persisted> {
    if store == [] then None
    else
      match Decode(store)
      case Loaded(p) => Some(p)
      case Damaged(_) => None
  }

  /** What an event proposes to save. */
  ghost function Proposed(cfg: Config, s: State, e: Event): Option<State> {
    match e
    case Mutate(at, request, _) => Proposal(cfg, at, s, request)
    case FenceBoot(boot, reason, stamp, at, _) => FenceProposal(s, boot, reason, stamp, at)
    case Reboot(_) => None
  }

  ghost predicate Takes(cfg: Config, s: State, e: Event) {
    hide Proposed; hide Encode; hide Project;
    Proposed(cfg, s, e).Some? && !e.Reboot? && Stored(cfg, Proposed(cfg, s, e).value, e.io)
  }

  ghost function React(cfg: Config, y: Sys, e: Event): Sys {
    hide Proposed; hide Encode; hide Project; hide Restart; hide Load; hide Commit;
    match e
    case Reboot(at) => y.(live := Restart(cfg, Load(y.store), at))
    case Mutate(at, request, _) =>
      if Takes(cfg, y.live, e) then Keep(cfg, y, Proposed(cfg, y.live, e).value)
      else y.(live := Commit(cfg, at, y.live, request, false).state)
    case FenceBoot(_, _, _, _, _) =>
      if Takes(cfg, y.live, e) then Keep(cfg, y, Proposed(cfg, y.live, e).value) else y
  }

  ghost function Run(cfg: Config, y: Sys, events: seq<Event>): Sys {
    hide React;
    if events == [] then y else React(cfg, Run(cfg, y, events[..|events| - 1]), events[|events| - 1])
  }

  /** A coordinator over an empty store. */
  function Boot(cfg: Config, at: Timestamp): Sys { Sys(Restart(cfg, None, at), [], None) }

  // ---- every reachable state is sound ----------------------------------------------------

  ghost predicate SysInv(y: Sys) {
    hide Inv; hide Encode; hide Project;
    && Inv(y.live)
    && (y.saved.None? ==> y.store == [])
    && (y.saved.Some? ==>
          Inv(y.saved.value) && y.saved.value.Declared() && Encode(Project(y.saved.value)) == Some(y.store))
  }

  lemma ProposalIsInv(cfg: Config, s: State, e: Event)
    requires Inv(s) && Proposed(cfg, s, e).Some?
    ensures Inv(Proposed(cfg, s, e).value) && Proposed(cfg, s, e).value.Declared()
  {
    hide Inv; hide Commit; hide Fence; hide Proposal; hide FenceProposal;
    match e
    case Mutate(at, request, _) =>
      ProposalIsCommitted(cfg, at, s, request);
      CommitKeepsInv(cfg, at, s, request, true);
      CandidateDeclares(cfg, at, s, request);
    case FenceBoot(boot, reason, stamp, at, _) =>
      ProposalIsFenced(s, boot, reason, stamp, at);
      FenceKeepsInv(s, boot, reason, stamp, at, true);
      FencedIsDeclared(s, boot, reason, stamp, at);
  }

  lemma ProposalIsCommitted(cfg: Config, now: Timestamp, s: State, req: Request)
    requires Proposal(cfg, now, s, req).Some?
    ensures Commit(cfg, now, s, req, true) == Committed(Accepted, Proposal(cfg, now, s, req).value)
  {
    hide Apply; hide Sound; hide Settle;
  }

  lemma ProposalIsFenced(s: State, boot: Id, reason: Text, stamp: Timestamp, at: Timestamp)
    requires FenceProposal(s, boot, reason, stamp, at).Some?
    ensures Fence(s, boot, reason, stamp, at, true) == FenceProposal(s, boot, reason, stamp, at).value
  {
    hide FenceProposal;
  }

  lemma CandidateDeclares(cfg: Config, now: Timestamp, s: State, req: Request)
    requires Inv(s) && Proposal(cfg, now, s, req).Some?
    ensures Proposal(cfg, now, s, req).value.Declared()
  {
    hide Sound; hide Wired; hide Settled; hide Apply;
    CandidateIsWired(cfg, now, s, req);
  }

  lemma FencedIsDeclared(s: State, boot: Id, reason: Text, stamp: Timestamp, at: Timestamp)
    requires Inv(s) && FenceProposal(s, boot, reason, stamp, at).Some?
    ensures s.Declared() && FenceProposal(s, boot, reason, stamp, at).value.Declared()
  {
    hide FencedList; hide FencedRacks; hide FencedLinks; hide Evaluate; hide Sound; hide Settled;
  }

  /** What is loaded is what was saved, if it can be read back at all. */
  lemma LoadFindsSaved(y: Sys)
    requires SysInv(y)
    ensures Load(y.store).Some? ==> y.saved.Some? && Load(y.store).value == Project(y.saved.value)
    ensures y.saved.Some? ==>
      (Load(y.store).Some? <==> Reloadable(y.saved.value))
  {
    hide Inv; hide Encode; hide Decode; hide Accepts; hide Valid; hide Project;
    hide PutState;
    if y.saved.Some? {
      RoundTrip(Project(y.saved.value));
      EncodedIsNotEmpty(Project(y.saved.value));
    }
  }

  lemma EncodedIsNotEmpty(p: Persisted)
    requires Encode(p).Some?
    ensures Encode(p).value != []
  {
    hide PutState; hide Seal;
  }

  lemma FreshIsInv(cfg: Config, epoch: u64)
    requires epoch != 0
    ensures Inv(FreshState(cfg.cluster, cfg.contract, epoch))
  {}

  lemma RestartKeepsInv(cfg: Config, y: Sys, at: Timestamp)
    requires SysInv(y)
    ensures Inv(Restart(cfg, Load(y.store), at))
  {
    hide Inv; hide Load; hide Project; hide Recover; hide Encode;
    LoadFindsSaved(y);
    if Load(y.store).Some? {
      RecoveryKeepsInv(y.saved.value, NextEpoch(y.saved.value.sc.coordinatorEpoch), at);
      assert Project(y.saved.value).sc == y.saved.value.sc by { ProjectionScalars(y.saved.value); }
    } else {
      FreshIsInv(cfg, NextEpoch(1));
    }
  }

  lemma ProjectionScalars(s: State)
    ensures Project(s).sc == s.sc && Project(s).id == s.id
  {}

  lemma ReactKeepsInv(cfg: Config, y: Sys, e: Event)
    requires SysInv(y)
    ensures SysInv(React(cfg, y, e))
  {
    hide Inv; hide Encode; hide Project; hide Restart; hide Proposed; hide Load; hide Commit;
    if e.Reboot? {
      RestartKeepsInv(cfg, y, e.at);
    } else if Takes(cfg, y.live, e) {
      ProposalIsInv(cfg, y.live, e);
    } else if e.Mutate? {
      CommitKeepsInv(cfg, e.at, y.live, e.request, false);
    }
  }

  /** Every state reachable by any run satisfies the checker, carries a freshly evaluated lifecycle and is wired. */
  lemma {:induction false} RunKeepsInv(cfg: Config, y: Sys, events: seq<Event>)
    requires SysInv(y)
    ensures SysInv(Run(cfg, y, events))
  {
    hide SysInv; hide React;
    if events != [] {
      RunKeepsInv(cfg, y, events[..|events| - 1]);
      ReactKeepsInv(cfg, Run(cfg, y, events[..|events| - 1]), events[|events| - 1]);
    }
  }

  lemma EveryReachableStateIsSound(cfg: Config, at: Timestamp, events: seq<Event>)
    ensures var s := Run(cfg, Boot(cfg, at), events).live;
      Sound(s) && s.sc.lifecycle == Evaluate(s) && Wired(s) && Paced(s)
  {
    hide Run; hide Sound; hide Wired; hide Paced; hide Evaluate;
    assert SysInv(Boot(cfg, at)) by { FreshIsInv(cfg, NextEpoch(1)); }
    RunKeepsInv(cfg, Boot(cfg, at), events);
  }
}
