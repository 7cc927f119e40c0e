# Cluster Fabric: a verified model

This project models the coordinator of Cluster Fabric in Dafny and proves what its design promises: the single-writer
commit engine with its undo journal, the checks it runs, the durable container it saves, recovery from it, snapshots,
derived indexes, the framed protocol, the request queue, and the draws of the synthetic generator.

`dafny verify dfyconfig.toml` checks everything.

## How the model is built

- **Canonical state** (`Records.dfy`). One record type per entity. The eight domain maps share one record shape and are
  kept in one map keyed by class and identity. Identities and texts are byte sequences compared as unsigned bytes;
  counters are 64-bit and their successor is checked; doubles are their 64 bits; enumerators the coordinator only
  relays keep their wire codes.
- **Specification of the engine** (`Mutations.dfy`, `Readiness.dfy`, `Invariants.dfy`, `Engine.dfy`). The effect of
  every mutation kind, the readiness evaluation, the checker's clauses, commit and fence are functions and predicates
  on states. `Inv` is the strengthened invariant: the checker's clauses, a freshly evaluated lifecycle, and the
  wiring that maintains itself.
- **The coordinator** (`Coordinator.dfy`, `Checking.dfy`). A class that changes canonical state in place under an undo
  journal, in the order the source writes, including partial writes before a late refusal. Every method is proved
  against the specification; rollback is a reverse replay.
- **What a mutation does and when** (`Effects.dfy`, `Permits.dfy`, `Contents.dfy`). Beside the functions that compute
  them, the same facts read off the fields of request and state: every field each mutation writes and every one it
  leaves alone; exactly when it changes something, changes nothing or is refused, and what each reason for a refusal
  says about the request; and what a rack is over whole runs.
- **What the checker adds** (`Acceptance.dfy`). For each mutation kind, the exact condition on the request and the
  state under which an applied mutation passes the checker.
- **The system** (`System.dfy`, `Runs.dfy`, `SnapshotRuns.dfy`, `Authority.dfy`). A coordinator and a store of bytes,
  driven by arbitrary lists of mutations, fences and restarts, with writes that may fail. The run theorems are about
  every such list.
- **Where a promise fails** (`Exceptions.dfy`, `Demands.dfy`, `Losses.dfy`, `Republication.dfy`, `Scenarios.dfy`). The
  exact condition of each failure and reachable states that show it, built request by request.
- **The container and the wire** (`Wire.dfy`, `RecordCodecs.dfy`, `Container.dfy`, `Layout.dfy`, `Sizes.dfy`,
  `Validation.dfy`, `Reloading.dfy`, `Crc.dfy`, `Frames.dfy`). Each writer prepends to a tail, each reader takes back a value and a rest,
  and two lemma shapes cover all of them: what was written is read back exactly, or refused if and only if it violates
  the reader's bounds; and a writer fails if and only if a text or count does not fit, and otherwise adds its exact
  size. The CRC is defined bit by bit on 32-bit words; a bit step is multiplication by x modulo the generator polynomial,
  and the table-driven loops refine it.
- **Caches and concurrency** (`Snapshots.dfy`, `Indexes.dfy`, `Queue.dfy`, `Sampler.dfy`).

The clock, random streams, the success of a write, and the interleaving of threads are arbitrary inputs.

## Main results

1. Every state reachable by any run satisfies every checker clause and carries the lifecycle a fresh evaluation gives,
   although fences, recovery and the generation bump never run the checker
   (`System.EveryReachableStateIsSound`).
2. Over every run whose restarts find a readable container, racks, domains, constraints, retirements and fences stay, no
   cluster counter and no rack, domain or constraint generation falls, and the cluster generation counts exactly the
   commits and fences that took effect (`Runs.RunIsLater`, `Runs.FencesArePermanent`, `Runs.RetirementIsPermanent`).
3. A restart comes back with everything durable exactly when the saved state is reloadable, and a sound state is
   reloadable exactly when each of its records is well-formed on its own (`Runs.RestartForgetsUnlessReloadable`,
   `Reloading.ReloadableExactly`). Clusters that are committed, saved and lost at the next restart are reached by an
   empty incarnation, by a recovery with unsorted endpoints and by a fence without a reason (`Losses.LostExactly`,
   `Losses.EmptyIncarnationIsLost`, `Losses.UnsortedRecoveryIsLost`, `Losses.UnreasonedFenceIsLost`).
4. A mutation that does not end accepted leaves the state as it was, and the identity too unless it was the first
   declaration of a cluster under another name (`Coordination.Coordinator.ApplyAndCommit`,
   `Engine.IdentityIsLostExactly`, `Journal.ScalarsAreCovered`).
5. A snapshot that validates as current equals the live state in every field, across commits and anchored restarts;
   over every run with readable restarts it misleads if and only if both states are restarts of one saved state without
   racks between which some evidence aged (`SnapshotRuns.CurrentMeansEqual`, `SnapshotRuns.CurrentMeansEqualOnceSaved`,
   `SnapshotRuns.SnapshotsMisleadExactly`).
6. A state is encoded if and only if its texts and counts fit and its exact size is within the limit, and comes back
   unchanged if and only if it is also acceptable and valid; one changed byte, a burst within four payload bytes, a
   prefix or an extension is never loaded (`Sizes.EncodesExactly`, `Sizes.RoundTripsExactly`,
   `Container.DamageIsNeverLoaded`, `Container.BurstCorruptionShows`).
7. Every submit is answered, in order and once; the drain after a stop never finds a waiting mutation; and a submit is
   answered after as many steps of the coordinator as stood before it, whatever arrives later
   (`RequestQueue.EverySubmitIsAnswered`, `RequestQueue.WaitIsBounded`).
8. For every mutation kind, an applied mutation of a sound state is turned away by the checker exactly under a condition
   on the request and the state before it (`Acceptance.CheckerRejectsExactly`, `Acceptance.ProposedExactly`).
9. Under a fenced incarnation a request goes through exactly if its kind never looks at the incarnation and it would go
   through without naming one (`AuthorityChecks.FencedCallerExactly`, `AuthorityChecks.HeardKindsExactly`).

10. A publication of an admitted rack at the generation held is accepted only if it describes the same rack, field by
    field, and over any run in which the rack is not recovered its content changes only together with a strictly higher
    rack generation (`Contents.GenerationFixesShape`, `Contents.ContentFollowsGeneration`).
11. Every mutation kind writes exactly the fields it is about: an accepted health report, for one, puts its reachability
    and evidence on every link at the rack and on no other (`Contents.HealthReportIsWritten`, `Effects.AdmissionWrites`
    and its siblings); and every kind is accepted exactly under a condition on fields, with refusals that name a fault
    that is there (`Permits.AdmissionExactly`, `Permits.AdmissionRefusals` and their siblings).
12. The readiness evaluation lists exactly the unmet demands of the contract, and each lifecycle answer is given exactly
    under its condition (`Checking.EvaluateReadiness`, `Readiness.LifecycleExactly`, `Readiness.SatisfiedExactly`).
13. The sampler draws every ordered selection by exactly one list of offsets, and every set of links by some stream
    (`Sampler.OffsetsAreUnique`, `Sampler.EverySelectionIsDrawn`, `Sampler.EveryLinkSetIsDrawn`).

## Where the code and the obvious promise differ

- The scalar snapshot omits the identity: rollback loses it exactly for a first declaration under another name
  (`Engine.IdentityIsLostExactly`, `Exceptions.FailedDeclarationRenames`).
- A RETIRED cluster leaves RETIRED exactly by a restart, or by a declaration of another lifecycle that takes effect, and
  such a declaration only has to name the epoch (`Exceptions.RetiredClusterStaysExactly`, `Exceptions.ReopeningExactly`,
  `Exceptions.RetiredClusterReopens`).
- Restarting twice without a commit reuses the coordinator epoch (`Runs.RestartsShareTheirEpoch`).
- After a restart that finds nothing to load, a declaration brings every compared counter back, so a snapshot of the
  forgotten cluster validates as current (`Exceptions.ForgottenClusterPasses`).
- Link and domain republication is idempotent only for payloads that already carry the stored stamps
  (`Republication.LinkRepublication`, `Republication.DomainRepublication`). A verbatim repetition of an accepted rack
  publication is refused exactly if its authority names another incarnation with current evidence, another publisher, or
  a counter behind that of the reference (`Republication.RackRepublication`, `Exceptions.RepeatedAdmissionIsStale`).
- Not every committed state can be loaded again, and not every valid state can be saved: nothing bounds titles, labels,
  statements and reasons before the writer does (`Losses.LostExactly`, `Sizes.ValidNeedNotEncode`,
  `Losses.OverlongReasonIsNeverSaved`).
- A consumable cluster may have no current rack, exactly if the contract asks for none by number, by name or by asking
  for all, and its other demands are attainable (`Demands.ServesNothingExactly`,
  `Runs.ConsumableClusterHasCurrentRack`).
- A withdrawn or unavailable rack becomes authoritative while it stays excluded exactly by a health report or a
  generation update for it with current evidence (`Exceptions.ExcludedGainsExactly`,
  `Exceptions.WithdrawnRackBecomesAuthoritative`); the checker stops such a report exactly for an undecided rack, a
  fenced incarnation or a link of a superseded epoch (`Acceptance.HealthExact`).
- A rack's publication counter falls exactly when a request that does not compare it writes a lower one. Recoveries
  never compare; updates and reports compare only under the rack's own incarnation and a nonzero counter; admissions
  compare only under an unchanged generation and incarnation of a rack that was admitted before
  (`Exceptions.PublicationFallsExactly`, `Exceptions.LoweredIsAcceptedExactly`, `Exceptions.EveryWriterCanLower`).
- A recovery may rewrite a rack within its generation; it leaves the content alone exactly if all it carries agrees with
  what is held (`Contents.RecoveryKeepsShapeExactly`).
- A capacity domain is refused for a repeated unit even if the provenance differs, although a comment in the source keys
  quantities by both (`Permits.QuantitiesExactly`).
- The frame type is tested after truncation to eight bits (`Frames.UndeclaredTypePasses`).
- Registration and evidence withdrawal name a rack and are not checked against the fenced incarnations; neither is any
  request about links, domains, constraints or the cluster as a whole (`AuthorityChecks.HeardKindsExactly`,
  `AuthorityChecks.FencedRegistrationIsKept`).
- The index checker never looks at buckets no record belongs to, so an index it accepts may list what is not there
  (`Indexes.StaleBucketIsAccepted`).

## Model

| member | source | states |
|---|---|---|
| System.EveryReachableStateIsSound | src/coordinator_engine.cpp:1810-1983 | after any list of mutations, fences, failed saves and restarts the checker has nothing to report, the lifecycle equals a fresh evaluation, references resolve and generations are paced |
| System.RunKeepsInv | src/coordinator_engine.cpp:1810-1983 | the system invariant, live state and store together, survives every run |
| System.ReactKeepsInv | src/coordinator_engine.cpp:1810-1983 | it survives each event, taken or refused |
| System.ProposalIsInv | src/coordinator_engine.cpp:1859-1887 | whatever a mutation or fence proposes to save satisfies the invariant before it is saved |
| System.LoadFindsSaved | src/coordinator.cpp:92-148 | a successful load yields the projection of the state saved last, and it succeeds exactly if that state is reloadable |
| System.RestartKeepsInv | src/coordinator.cpp:92-148 | a restart leads to a sound state whether or not the container can be read |
| Runs.RunIsLater | src/coordinator_engine.cpp:1859-1983 | over any run with readable restarts racks, domains, constraints, retirements and fences stay, no counter and no record generation of a rack, domain or constraint falls, and the cluster generation rises by exactly the number of commits and fences that took effect |
| Runs.ReactIsLater | src/coordinator_engine.cpp:1859-1914 | the same for one event: the generation moves by one if the event took effect and stands still otherwise |
| Runs.StoreFollowsCommits | src/coordinator_engine.cpp:1785-1803 | with persistence on, the store always holds the encoding of the last committed state, and the live state is that state, its rebirth, or not declared yet |
| Runs.RestartForgetsUnlessReloadable | src/coordinator.cpp:92-148 | after a restart the cluster is declared if and only if the saved state is reloadable; otherwise it is a fresh cluster |
| Runs.RecoveryIsReborn | src/coordinator_engine.cpp:203-343 | recovery brings back every identity, generation, membership, domain, retirement and fence, makes no rack authoritative, fences exactly the recovered incarnations and resets every link; each rack keeps its content, publisher and counters |
| Runs.RecoveryAgesRecords | src/coordinator_engine.cpp:258-336 | the evidence of domains and constraints is judged by its age, and every new fence names a recovered rack and the restart |
| Runs.RestartsShareTheirEpoch | src/coordinator.cpp:122-139 | two restarts with no commit in between take the same coordinator epoch |
| Runs.RestartDecidesPermanence | src/coordinator.cpp:92-148 | with persistence on, a fence and a retirement survive a restart if and only if the saved state is reloadable |
| Runs.FencesArePermanent | src/coordinator_engine.cpp:1916-1983 | a fenced incarnation stays fenced over any such run, the list stays strictly sorted, and no rack of that incarnation is authoritative again |
| Runs.RetirementIsPermanent | src/coordinator_engine.cpp:837-905 | a retired rack stays listed, stays RETIRED and never holds authority again |
| Runs.RetiredIsListed | src/coordinator_engine.cpp:880-899 | RETIRED membership and the retired list say the same in every sound state, and neither goes with authority |
| Runs.AuthorityIsEarned | include/cluster_fabric/evidence.hpp:185-188 | in every reachable state an authoritative rack has measured or reported, timestamped, fresh evidence, an unfenced incarnation, a decided membership and no retirement |
| Runs.ConsumableClusterHasCurrentRack | src/cluster_state.cpp:523-732 | a reachable consumable cluster whose contract asks for a current rack, by number, by name or by asking for all, has an ACTIVE authoritative one with current evidence |
| Runs.GenerationsAreDisciplined | src/coordinator_engine.cpp:1357-1376 | membership and topology generations stay strictly below the cluster generation, links carry no future epoch and only past topology generations, aggregates bound their records |
| Runs.ReferenceClausesNeverReject | src/invariant.cpp:248-316 | whatever any request proposes in any reachable state, every rack and domain a record names is there and decided |
| Runs.TakenIsLater | src/coordinator_engine.cpp:1859-1887 | one commit or fence moves the generation by exactly one and loses nothing durable |
| Runs.FenceIsLater | src/coordinator_engine.cpp:1916-1983 | a fence adds its incarnation, moves the generation by one and loses nothing |
| Runs.RebornTwiceIsLater | src/coordinator_engine.cpp:203-343 | restarting again from the same container takes nothing further away |
| Runs.RefusedKeepsState | src/coordinator_engine.cpp:1825-1856 | a request that is not taken leaves a declared cluster exactly as it was |
| AuthorityChecks.FencedIncarnationStaysRefused | src/coordinator_engine.cpp:523-573 | over any run with readable restarts, every request of the seven kinds that check the incarnation is refused under a fenced one |
| AuthorityChecks.FencedIncarnationIsRefused | src/coordinator_engine.cpp:523-573 | in any state, admission, generation update, the three exclusions, recovery and health reports are refused under a fenced incarnation |
| AuthorityChecks.FencedCallerExactly | src/coordinator_engine.cpp:1672-1766 | under a fenced incarnation a request is accepted if and only if its kind does not check the incarnation and it would be accepted without naming one |
| AuthorityChecks.HeardKindsExactly | src/coordinator_engine.cpp:1672-1766 | some reachable state accepts a request of the kind under a fenced incarnation if and only if the kind is not one of the seven, with one accepted request for each |
| AuthorityChecks.WhisperIsHeard | src/coordinator_engine.cpp:1501-1544 | each of the other kinds, evidence withdrawal and registration among them, is accepted under a fenced incarnation in a reachable state |
| AuthorityChecks.FencedRegistrationIsKept | src/coordinator_engine.cpp:577-647 | a registration under a fenced incarnation is stored with that incarnation |
| AuthorityChecks.StaleEpochIsRefused | src/coordinator_engine.cpp:470-521 | every request but a declaration that does not name both current epochs is refused |
| AuthorityChecks.OldRequestsAreRefusedAfterRestart | src/coordinator.cpp:122-139 | a request stamped with the epoch of an earlier incarnation is refused after a restart |
| AuthorityChecks.RetiredIdentityIsRefused | src/coordinator_engine.cpp:577-587 | a retired identity cannot be registered, admitted, recovered or reported on |
| SnapshotRuns.CurrentMeansEqual | src/snapshot.cpp:371-493 | over any run without restarts, or with restarts from containers saved by the capturing or a later incarnation, a current snapshot equals the live state in every field |
| SnapshotRuns.CurrentMeansEqualOnceSaved | src/coordinator.cpp:92-148 | the same with a condition at capture time alone: the capturing incarnation has saved a state and every restart finds a readable container |
| SnapshotRuns.RunStaysDistinguishable | src/coordinator_engine.cpp:1859-1887 | a later state either took a higher coordinator epoch, or has a higher generation, or is the captured one up to its identity |
| SnapshotRuns.RestartsWithoutCommit | src/coordinator.cpp:122-139 | between two restarts without a commit, a snapshot validates as current exactly when the cluster has no racks, and is then right exactly when no evidence changed its freshness |
| SnapshotRuns.SnapshotsMisleadExactly | src/snapshot.cpp:371-493 | over every run with readable restarts from any reachable system, a snapshot validates as current against a different state if and only if both are restarts of the same saved state without racks and some evidence aged in between |
| SnapshotRuns.MisleadsExactly | src/snapshot.cpp:371-493 | the same from any system whose live state is the saved one or a restart of it |
| SnapshotRuns.RunFollows | src/coordinator.cpp:122-139 | along such a run the system is unmoved, a restart of the same saved state, or has saved since and moved on in epoch or generation |
| Snapshots.Capture | src/snapshot.cpp:302-326 | the bindings hold one entry a rack, in identity order, each with the rack's generation, membership, currentness, authority and incarnation |
| Snapshots.Validate | src/snapshot.cpp:371-499 | `current` exactly when counters and rack set match and every bound rack still stands; `consumable` adds the lifecycle; the reasons are exactly those that apply |
| Snapshots.ValidateView | src/coordinator_network.cpp:211-333 | the wire validator decides the same conditions on a view, counting the lifecycle into `current`, and gives exactly the reasons that apply |
| Snapshots.ValidateBoth | src/coordinator_network.cpp:211-333 | for a captured snapshot both validators give the same consumable verdict, and the remote `current` is the local one plus a consumable lifecycle |
| Snapshots.ViewsAgree | src/snapshot.cpp:302-318 | comparing bindings both ways decides equality of the rack sets, so the size comparison adds nothing |
| Snapshots.MatchesUnlessStale | src/snapshot.cpp:371-493 | a view matches exactly if no reason but the lifecycle applies to it |
| Snapshots.OwnStateMatchesExactly | src/snapshot.cpp:449-480 | a snapshot asked about at once is current exactly if no rack is retired, fenced, waiting for revalidation or reconstructed |
| Snapshots.CompareCounters | src/snapshot.cpp:383-447 | each reason about counters is recorded exactly if its counter differs, a topology generation only under an equal epoch |
| Snapshots.CompareDomains | src/snapshot.cpp:414-437 | the reason of a class exactly if its domain counter differs |
| Snapshots.CompareBindings | src/snapshot.cpp:449-480 | a reason exactly if it applies to some binding; a missing or retired rack gives one reason and no other |
| Snapshots.CompareRacks | src/snapshot.cpp:482-490 | a changed membership is recorded exactly if some live rack is not bound |
| Engine.CommitKeepsInv | src/coordinator_engine.cpp:1810-1914 | a commit keeps the invariant in every outcome |
| Engine.FenceKeepsInv | src/coordinator_engine.cpp:1916-1983 | a fence keeps it although no checker runs |
| Engine.SealingKeepsSound | src/coordinator_engine.cpp:1873-1882 | the generation bump after the check disturbs no clause |
| Engine.CandidateIsWired | src/coordinator_engine.cpp:1672-1766 | every candidate satisfies the self-maintaining part before the checker sees it |
| Engine.FencedListGrows | src/coordinator_engine.cpp:1943-1962 | the fence list stays strictly sorted, keeps its entries and gains exactly the incarnation |
| Engine.IdentityIsLostExactly | src/coordinator_engine.cpp:31-52 | a request that is not accepted changes the state if and only if it is the first declaration of a well-formed identity other than the configured one |
| Engine.RollbackRestores | src/coordinator_engine.cpp:1825-1893 | whatever is not accepted leaves every field but the identity, which is the declared one in that case and the old one otherwise |
| Engine.UndeclaredRename | src/coordinator_engine.cpp:31-52 | renaming a cluster that is not declared keeps the invariant |
| Contents.GenerationFixesShape | src/coordinator_engine.cpp:689-695 | publishing an admitted rack at the generation held: a reference that differs in any field but the dynamic ones is refused, and whatever is accepted leaves all the others |
| Contents.ContentFollowsGeneration | src/coordinator_engine.cpp:649-763 | over any run with readable restarts in which a decided rack is not recovered, its content changes only with a strictly higher rack generation |
| Contents.AppliedContinues | src/coordinator_engine.cpp:1672-1766 | no applied request but a recovery of the rack changes the content of an admitted rack within its generation |
| Contents.RecoveryKeepsShapeExactly | src/coordinator_engine.cpp:931-975 | a recovery within the generation keeps the content exactly if lifecycle, composition, endpoints and hints agree or are not given |
| Contents.HealthReportIsWritten | src/coordinator_engine.cpp:1441-1499 | an accepted report writes its health, evidence and counter to its rack, and with a known reachability that reachability and evidence to every link with an end there; no other record and no other field moves |
| Contents.AdmittedShape | src/coordinator_engine.cpp:649-763 | what is stored describes the rack that was published |
| Permits.ContentIsShape | src/coordinator_engine.cpp:423-449 | the cleared copies are equal exactly if every field outside the dynamic ones is, lists in canonical order and without their evidence |
| Permits.AddressedExactly | src/coordinator_engine.cpp:470-521 | a request is heard exactly if it names the cluster and its current epochs; each refusal names what does not agree |
| Permits.SpeaksExactly | src/coordinator_engine.cpp:523-573 | an incarnation may speak for a rack exactly if it is unfenced, contradicts no authority and no publisher, and moves its counter on or repeats what is held |
| Permits.RegistrationExactly | src/coordinator_engine.cpp:577-647 | when a registration takes effect, when it is known already, and what each refusal says |
| Permits.AdmissionExactly | src/coordinator_engine.cpp:649-735 | an admission takes effect exactly if it is well-formed, may speak and succeeds the record held or finds room, and changes nothing exactly if it repeats the record |
| Permits.AdmissionRefusals | src/coordinator_engine.cpp:649-735 | each refusal of an admission names a fault it has |
| Permits.SucceedsExactly | src/coordinator_engine.cpp:666-713 | which reference may replace a record, which one repeats it, and why another may not |
| Permits.UpdateExactly | src/coordinator_engine.cpp:765-835 | the same for a generation update |
| Permits.ExclusionExactly | src/coordinator_engine.cpp:837-911 | the same for the three exclusions |
| Permits.RecoveryExactly | src/coordinator_engine.cpp:913-1000 | the same for a recovery |
| Permits.HealthExactly | src/coordinator_engine.cpp:1441-1499 | the same for a health report |
| Permits.WithdrawalExactly | src/coordinator_engine.cpp:1501-1544 | the same for an evidence withdrawal |
| Permits.LinkExactly | src/coordinator_engine.cpp:1280-1379 | when a link takes effect and when it is known already |
| Permits.LinkRefusals | src/coordinator_engine.cpp:1280-1379 | each refusal of a link names a fault it has |
| Permits.LinkWithdrawalExactly | src/coordinator_engine.cpp:1381-1400 | the same for withdrawing a link |
| Permits.SupersedingExactly | src/coordinator_engine.cpp:1402-1437 | the same for superseding the topology |
| Permits.QuantitiesExactly | src/coordinator_engine.cpp:1075-1125 | quantities pass exactly if each has a label and a finite value and no unit occurs twice |
| Permits.DomainExactly | src/coordinator_engine.cpp:1165-1219 | when a domain takes effect and when it is known already, the two zeros being one value |
| Permits.DomainRefusals | src/coordinator_engine.cpp:1165-1219 | each refusal of a domain names a fault it has |
| Permits.ConstraintExactly | src/coordinator_engine.cpp:1221-1276 | the same for a constraint |
| Permits.DeclarationExactly | src/coordinator_engine.cpp:1548-1600 | a repeated declaration changes nothing exactly if contract and lifecycle are those held |
| Permits.SnapshotExactly | src/coordinator_engine.cpp:1623-1632 | publishing a snapshot is refused exactly at an exhausted counter |
| Effects.CommitAdds | src/coordinator_engine.cpp:1859-1887 | an accepted commit adds to the candidate one generation, the time and a freshly evaluated lifecycle, and changes nothing else |
| Effects.RegistrationWrites | src/coordinator_engine.cpp:577-647 | every field of the placeholder; nothing else changes |
| Effects.AdmissionWrites | src/coordinator_engine.cpp:649-763 | every field of the admitted record, the evidence judged on arrival, and the counter that moves exactly for a new or excluded rack or a new generation |
| Effects.UpdateWrites | src/coordinator_engine.cpp:765-835 | the fields a generation update replaces and those it keeps |
| Effects.ExclusionWrites | src/coordinator_engine.cpp:837-911 | the excluded record and both lists; nothing else changes |
| Effects.RecoveryWrites | src/coordinator_engine.cpp:913-1000 | the fields a recovery replaces and those it keeps |
| Effects.HealthWrites | src/coordinator_engine.cpp:1441-1499 | the reported rack, the links at it, the two counters; nothing else changes |
| Effects.WithdrawalWrites | src/coordinator_engine.cpp:1501-1544 | the rack loses its authority and, unless only its health was meant, the links at it their evidence; nothing else changes |
| Effects.LinkWrites | src/coordinator_engine.cpp:1280-1379 | the stored link is the published one under the current stamps, failure domains sorted |
| Effects.LinkWithdrawalWrites | src/coordinator_engine.cpp:1381-1400 | exactly the named link is gone |
| Effects.SupersedingWrites | src/coordinator_engine.cpp:1402-1437 | the epoch asked for, one more generation, and every link kept without its claims |
| Effects.DomainWrites | src/coordinator_engine.cpp:1165-1219 | the stored domain is the published one under the current stamps, and only the counter of its class moves |
| Effects.ConstraintWrites | src/coordinator_engine.cpp:1221-1276 | the stored constraint is the published one under the current stamps |
| Effects.DeclarationWrites | src/coordinator_engine.cpp:1548-1600 | the first declaration starts every counter at one; a later one replaces contract and lifecycle alone |
| Effects.RetirementWrites | src/coordinator_engine.cpp:1602-1621 | exactly the authoritative racks lose their authority; nothing else of them changes |
| Effects.SnapshotWrites | src/coordinator_engine.cpp:1623-1632 | two counters move by one; nothing else changes |
| Effects.RevalidationExactly | src/coordinator_engine.cpp:1634-1670 | a revalidation writes nothing and is accepted exactly if every rack it means holds current authority |
| Effects.FenceWrites | src/coordinator_engine.cpp:1916-1983 | exactly the racks and links of the incarnation lose authority and claims, each in exactly these fields |
| Effects.FenceCounts | src/coordinator_engine.cpp:1943-1975 | two counters move by one and the list gains exactly one entry, or none if the incarnation was fenced already |
| Effects.FenceNamesFirst | src/coordinator_engine.cpp:1943-1962 | the entry names the first rack of the incarnation in identity order, or a placeholder |
| Acceptance.CheckerRejectsExactly | src/invariant.cpp:102-465 | an applied mutation of a sound state passes the checker if and only if a condition on the request and the state before it holds, given for every kind |
| Acceptance.ProposedExactly | src/coordinator_engine.cpp:1859-1887 | a request gets as far as the store if and only if it applies, is acceptable and the generation is not exhausted |
| Acceptance.RegisterExact | src/coordinator_engine.cpp:577-647 | a registration passes exactly below the rack limit |
| Acceptance.AddExact | src/coordinator_engine.cpp:649-763 | an admission passes exactly below the rack limit and, if its evidence is current, under an unfenced incarnation in the reference |
| Acceptance.UpdateExact | src/coordinator_engine.cpp:765-835 | a generation update passes exactly for a decided rack that, if the evidence is current, is neither fenced nor retired |
| Acceptance.RecoverExact | src/coordinator_engine.cpp:913-1000 | a recovery passes exactly if its endpoints and hints are within their bounds |
| Acceptance.MembershipClean | src/coordinator_engine.cpp:837-911 | marking, withdrawing and retiring always pass |
| Acceptance.HealthExact | src/coordinator_engine.cpp:1441-1499 | a health report passes exactly if current evidence is for a decided, unfenced rack and a reachability report leaves links of superseded epochs undecided |
| Acceptance.WithdrawEvidenceClean | src/coordinator_engine.cpp:1501-1544 | withdrawing evidence always passes |
| Acceptance.DomainExact | src/coordinator_engine.cpp:1165-1219 | a domain passes exactly if it is known or its class has room |
| Acceptance.ConstraintExact | src/coordinator_engine.cpp:1221-1276 | a constraint passes exactly if it is known or there is room |
| Acceptance.LinkExact | src/coordinator_engine.cpp:1280-1379 | a link passes exactly if it is known or there is room |
| Acceptance.WithdrawLinkClean | src/coordinator_engine.cpp:1381-1400 | withdrawing a link always passes |
| Acceptance.SupersedeClean | src/coordinator_engine.cpp:1402-1437 | superseding the topology always passes |
| Acceptance.RetireClusterClean | src/coordinator_engine.cpp:1602-1621 | retiring the cluster always passes |
| Recovery.RecoveryKeepsInv | src/coordinator_engine.cpp:203-343 | recovering the projection of a sound state gives a sound state with a fresh lifecycle |
| Recovery.RecoveryOfList | src/coordinator_engine.cpp:127-343 | projection followed by recovery, in one equation |
| Recovery.ProjectionLists | src/coordinator_engine.cpp:127-201 | the projected lists, assigned back, are the maps they came from |
| Recovery.RebootFencesCover | src/coordinator_engine.cpp:258-274 | the recovered fence list is strictly sorted, keeps the old entries and lists exactly the old and the recovered incarnations |
| Preservation.ApplySteps | src/coordinator_engine.cpp:1672-1766 | every mutation kind: counters only advance, no rack or domain disappears, decided memberships stay decided, rack generations never fall, what is written resolves |
| Preservation.StepKeepsWired | src/invariant.cpp:248-316 | such a step keeps references, placement, retirement and justified authority |
| Preservation.RegisterStep | src/coordinator_engine.cpp:577-647 | registration is such a step |
| Preservation.AddStep | src/coordinator_engine.cpp:649-763 | admission is such a step |
| Preservation.UpdateStep | src/coordinator_engine.cpp:765-835 | a generation update is such a step |
| Preservation.MembershipStep | src/coordinator_engine.cpp:837-911 | marking, withdrawing and retiring are such steps |
| Preservation.RecoverStep | src/coordinator_engine.cpp:913-1000 | recovery is such a step |
| Preservation.DomainStep | src/coordinator_engine.cpp:1165-1219 | a domain publication is such a step and its aggregate bounds the record |
| Preservation.ConstraintStep | src/coordinator_engine.cpp:1221-1276 | a constraint publication is such a step |
| Preservation.LinkStep | src/coordinator_engine.cpp:1280-1379 | a link publication is such a step: ends are members, named domains exist, the topology generation it carries is past |
| Preservation.WithdrawLinkStep | src/coordinator_engine.cpp:1381-1400 | withdrawing a link is such a step |
| Preservation.SupersedeStep | src/coordinator_engine.cpp:1402-1437 | superseding the topology is such a step |
| Preservation.HealthStep | src/coordinator_engine.cpp:1441-1499 | a health report is such a step |
| Preservation.WithdrawEvidenceStep | src/coordinator_engine.cpp:1501-1544 | withdrawing evidence is such a step |
| Preservation.RetireClusterStep | src/coordinator_engine.cpp:1602-1621 | retiring the cluster is such a step |
| Mutations.AdvanceAggregate | src/coordinator_engine.cpp:402-411 | the aggregate never falls, bounds the record and refuses only at its maximum, wrap-around included |
| Readiness.EvaluationIsIdempotent | src/cluster_state.cpp:523-732 | evaluating a state that differs only in its cached lifecycle gives the same lifecycle |
| Readiness.ConsumableHasCurrentRack | src/cluster_state.cpp:523-732 | an evaluated consumable state whose contract asks for a current rack in any way has a current ACTIVE rack |
| EvidenceStamps.OrphanedStaysOrphaned | include/cluster_fabric/evidence.hpp:185-206 | time never lifts an orphaned stamp, and refreshing never changes whether revalidation is required |
| Journal.ScalarsAreCovered | src/coordinator_engine.cpp:104-114 | once recorded, scalars may change freely: reverse replay gives the same state |
| Journal.IdentityFlows | src/coordinator_engine.cpp:31-52 | replay restores everything but the identity, which flows through |
| Journal.RecordingTraces | src/coordinator_engine.cpp:109-114 | a write after its record keeps replay leading back to the origin |
| Coordination.Coordinator.ApplyAndCommit | src/coordinator_engine.cpp:1810-1914 | answer, state and store are those of the specified commit; anything but acceptance leaves every field, with the declared identity after a first declaration and the old one otherwise |
| Coordination.Coordinator.ApplyFence | src/coordinator_engine.cpp:1916-1983 | state and store are those of the specified fence, or unchanged |
| Coordination.Coordinator.Rollback | src/coordinator_engine.cpp:109-114 | reverse replay restores the origin up to the identity |
| Coordination.Coordinator.ApplyRequest | src/coordinator_engine.cpp:1672-1766 | the answer and, on success, the state of the specification; in every case the journal still leads back |
| Coordination.Coordinator.Declare | src/coordinator_engine.cpp:1548-1600 | declaration, first and repeated |
| Coordination.Coordinator.Register | src/coordinator_engine.cpp:577-647 | registration |
| Coordination.Coordinator.Add | src/coordinator_engine.cpp:649-763 | admission; the counter moves before the record is written |
| Coordination.Coordinator.Update | src/coordinator_engine.cpp:765-835 | generation update |
| Coordination.Coordinator.Exclude | src/coordinator_engine.cpp:837-911 | the three membership changes with both lists |
| Coordination.Coordinator.RecoverRack | src/coordinator_engine.cpp:913-1000 | recovery of a rack |
| Coordination.Coordinator.PublishDomain | src/coordinator_engine.cpp:1165-1219 | domain publication; the record is written before the topology counter may overflow |
| Coordination.Coordinator.PublishConstraint | src/coordinator_engine.cpp:1221-1276 | constraint publication |
| Coordination.Coordinator.PublishLink | src/coordinator_engine.cpp:1280-1379 | link publication, with a late overflow |
| Coordination.Coordinator.WithdrawLink | src/coordinator_engine.cpp:1381-1400 | link withdrawal, with a late overflow |
| Coordination.Coordinator.Supersede | src/coordinator_engine.cpp:1402-1437 | every link is silenced in a loop before the counters move |
| Coordination.Coordinator.PublishHealth | src/coordinator_engine.cpp:1441-1499 | the record, then the loop over its links, then the counters |
| Coordination.Coordinator.Withdraw | src/coordinator_engine.cpp:1501-1544 | the record, then the loop over its links, then the counters |
| Coordination.Coordinator.RetireCluster | src/coordinator_engine.cpp:1602-1621 | the loop takes authority from every rack |
| Coordination.Coordinator.PublishSnapshot | src/coordinator_engine.cpp:1623-1632 | both counters or neither after rollback |
| Coordination.Coordinator.Revalidate | src/coordinator_engine.cpp:1634-1670 | the loop over named or all racks decides between refusal, incompletion and acceptance |
| Coordination.Coordinator.Seal | src/coordinator_engine.cpp:1859-1882 | evaluation, check, bump and timestamp; refused exactly for an unsound candidate or an exhausted generation |
| Coordination.Coordinator.PersistNow | src/coordinator_engine.cpp:1785-1803 | the store changes exactly when the write succeeds, to the encoding of the projection |
| Coordination.Coordinator.Disarm | src/coordinator_engine.cpp:1916-1962 | the two loops and the fence list of an incarnation; changed exactly if it owns a rack or a link |
| Coordination.Coordinator.LoadDurableState | src/coordinator.cpp:92-148 | the live state is the specified restart of what the store holds |
| Coordination.Coordinator.RewriteLinks | src/coordinator_engine.cpp:1416-1421 | a recording loop over the links changes exactly the chosen ones |
| Coordination.Coordinator.RewriteRacks | src/coordinator_engine.cpp:1609-1617 | a recording loop over the racks changes exactly the chosen ones |
| Coordination.ToPersisted | src/coordinator_engine.cpp:127-201 | the loops produce the specified projection |
| Coordination.FromPersisted | src/coordinator_engine.cpp:203-343 | the rack, domain, link and constraint loops produce the specified recovery |
| Coordination.RestoreDomains | src/coordinator_engine.cpp:276-323 | the eight domain loops give the recovered domains |
| Coordination.AssignChanged | src/coordinator_engine.cpp:324-336 | inserting each changed record in list order gives the changed map, later records winning |
| Coordination.ExecutedReacts | src/coordinator_engine.cpp:1810-1914 | what the class does to a mutation is the system's transition |
| Coordination.FencedReacts | src/coordinator_engine.cpp:1916-1983 | what the class does to a fence is the system's transition |
| Checking.CheckInvariants | src/invariant.cpp:102-465 | an identifier is reported exactly if what it stands for is broken, and nothing exactly for sound states |
| Checking.CheckRecords | src/invariant.cpp:160-431 | the same for the clauses about records and lists |
| Checking.CheckCounters | src/invariant.cpp:118-158 | twelve comparisons under nine identifiers, each reported exactly if one of its own fails |
| Checking.CheckCounts | src/invariant.cpp:160-183 | nothing is reported exactly within all bounds; the domain loop stops at the first class over its bound |
| Checking.CheckRack | src/invariant.cpp:185-246 | the clauses about one rack, each reported exactly if the rack breaks it |
| Checking.CheckLink | src/invariant.cpp:248-298 | the same for one link |
| Checking.CheckLists | src/invariant.cpp:389-431 | the same for the withdrawn, fenced and retired lists |
| Checking.CheckDomain | src/invariant.cpp:300-377 | the same for one domain |
| Checking.CheckConstraints | src/invariant.cpp:379-387 | the constraint loop reports nothing exactly if every member resolves |
| Checking.CheckDomains | src/invariant.cpp:300-377 | the domain loop of one class reports nothing exactly if class, members, order and aggregate of each record are right |
| Checking.CheckWithdrawn | src/invariant.cpp:389-407 | order, membership both ways, with a binary search that is trusted only on an ordered list |
| Checking.CheckFenced | src/invariant.cpp:409-423 | strict order and no authoritative fenced rack |
| Checking.CheckLifecycle | src/invariant.cpp:433-449 | a READY claim is satisfied and a RETIRED cluster holds no authority |
| Readiness.LifecycleExactly | src/cluster_state.cpp:523-732 | each of the eight lifecycle answers is given exactly under a condition on racks, links, domains and contract |
| Readiness.SatisfiedExactly | src/cluster_state.cpp:523-732 | the contract is satisfied exactly if no demand is unmet: racks, mandatory racks, currentness, connectivity, links, classes and conflicts, each read off the state |
| Readiness.ReadyMeetsEveryDemand | src/cluster_state.cpp:523-732 | READY and PARTIAL promise each demand of the contract separately, counted over racks, links and domains |
| Readiness.UnmetDemandDegrades | src/cluster_state.cpp:687-732 | one unmet demand is enough: with a current rack and nothing awaited the answer is DEGRADED |
| Checking.EvaluateReadiness | src/cluster_state.cpp:523-732 | the loops compute the specified lifecycle and list exactly the blockers that apply; short of retirement there is none exactly if the contract is satisfied |
| Checking.Blockers | src/cluster_state.cpp:560-685 | a blocker is listed exactly if its demand is unmet |
| Checking.CountRacks | src/cluster_state.cpp:546-558 | one loop counts the ACTIVE and the current racks and finds pending revalidation |
| Checking.MandatoryRacks | src/cluster_state.cpp:573-594 | each mandatory rack that is missing, not ACTIVE or not current is listed for exactly that reason; lapsed exactly if one is ACTIVE and not current |
| Checking.Conflicts | src/cluster_state.cpp:666-685 | lists exactly the dangling links and the racks that hold authority while fenced or retired |
| Checking.BinarySearch | src/invariant.cpp:402-403 | on a strictly ascending list, found exactly if present |
| Checking.InOrder | src/invariant.cpp:95-98 | adjacent comparisons decide strict order of the whole list |
| Layout.ContainerLayout | src/persistence.cpp:528-760 | magic, version, flags, length and checksum, then the identity, nineteen counters and the lifecycle, each at its offset |
| Layout.RefusalsAreTruthful | src/persistence.cpp:762-840 | each refusal to open a container names a fault that its bytes have |
| Layout.ValidExactly | src/persistence.cpp:1834-2173 | a state is valid exactly if its counters are known, every list is bounded and strictly ascending as a whole, and whatever a record names is there |
| Layout.LoadedStands | src/persistence.cpp:762-1832 | nothing else is ever loaded, whatever the bytes |
| Container.RoundTrip | src/persistence.cpp:528-760 | decoding an encoding gives exactly the state when it is within the decoder's bounds and valid, and is refused with the status that says which otherwise |
| Sizes.EncodesExactly | src/persistence.cpp:528-760 | a state is encoded if and only if every text and count fits and its size is within the limit; the container is then exactly the header and that size long |
| Sizes.RoundTripsExactly | src/persistence.cpp:528-760 | a state comes back from its container unchanged if and only if it fits, is within the decoder's bounds and is valid |
| Sizes.StateAdds | src/persistence.cpp:528-726 | the body writer fails if and only if something does not fit, and otherwise adds exactly the size of the state |
| Sizes.RackAdds | src/persistence.cpp:555-570 | the same for a rack |
| Sizes.DomainAdds | src/persistence.cpp:572-646 | the same for a domain of each class |
| Sizes.LinkAdds | src/persistence.cpp:648-693 | the same for a link |
| Sizes.ConstraintAdds | src/persistence.cpp:695-703 | the same for a constraint |
| Sizes.ContractAdds | src/persistence.cpp:414-440 | the same for the readiness contract |
| Sizes.CompositionAdds | src/persistence.cpp:186-208 | the same for a composition |
| Sizes.HeaderAdds | src/persistence.cpp:106-118 | the same for a record header |
| Sizes.ListAdds | src/persistence.cpp:153-160 | the same for any counted list of records that satisfy it |
| Sizes.TextAdds | src/protocol.cpp:288-305 | text is written if and only if it has at most 4096 bytes, with four bytes of length |
| Sizes.ValidNeedNotEncode | src/persistence.cpp:1834-2173 | a valid state without records is encoded if and only if the reason of its topology has at most 4096 bytes, which validation does not ask |
| Container.TripState | src/persistence.cpp:762-1832 | the body is read back exactly with nothing left over, or refused exactly outside the bounds |
| Container.CorruptionShows | src/persistence.cpp:762-840 | any container that opens stops opening when any one byte is changed |
| Container.BurstCorruptionShows | src/persistence.cpp:741-755 | so it does for any change within four consecutive payload bytes |
| Container.LengthIsExact | src/persistence.cpp:806-831 | no strict prefix and no extension of a container opens |
| Container.DamageIsNeverLoaded | src/persistence.cpp:762-840 | a damaged encoding is never loaded |
| Container.BoxedOpens | src/persistence.cpp:741-755 | every container the encoder builds opens |
| Validation.Validate | src/persistence.cpp:1834-2173 | the early-exit loops accept exactly the valid states |
| Validation.CheckRacks | src/persistence.cpp:1873-1934 | the rack loop decides order, uniqueness and each rack, and collects the identities in order |
| Validation.CheckMembers | src/persistence.cpp:1936-1960 | members are bounded, ordered, well-formed and present |
| Validation.CheckDomainList | src/persistence.cpp:1962-1989 | one domain list |
| Validation.CheckCapacities | src/persistence.cpp:2028-2054 | quantities are bounded, ordered, finite and named |
| Validation.CheckLinks | src/persistence.cpp:2056-2099 | links are ordered, join two present racks and name present domains |
| Validation.CheckConstraintList | src/persistence.cpp:2101-2122 | constraints are ordered, known and have valid members |
| Validation.CheckIdentityLists | src/persistence.cpp:2124-2167 | retired, withdrawn and fenced identities |
| Reloading.ReloadableExactly | src/persistence.cpp:1834-2173 | a sound declared state is reloadable if and only if each record is well-formed on its own and there are at most 16384 fences |
| Reloading.NotReloadable | src/persistence.cpp:1898-1908 | an empty incarnation, unordered endpoints, an empty fence reason or too many fences each prevent reloading |
| Reloading.UnsortedRecoveryCannotBeReloaded | src/coordinator_engine.cpp:964-969 | committing any recovery with unordered endpoints makes the saved state unreadable |
| Losses.StoredExactly | src/coordinator_engine.cpp:1785-1803 | a commit reaches the store if and only if the write goes through and the projection fits |
| Losses.LostExactly | src/coordinator.cpp:92-148 | a saved cluster comes up undeclared at the next restart if and only if it is not reloadable |
| Losses.UnsortedRecoveryIsLost | src/coordinator_engine.cpp:964-969 | a run that commits and saves a recovery with unordered endpoints and loses the cluster at the next restart |
| Losses.EmptyIncarnationIsLost | src/coordinator_engine.cpp:649-763 | the same for a rack admitted under the empty incarnation |
| Losses.UnreasonedFenceIsLost | src/coordinator_engine.cpp:1943-1962 | the same for a fence without a reason |
| Losses.SavedRack | src/coordinator_engine.cpp:1785-1803 | a declaration and an admission, committed and saved |
| Losses.OverlongReasonIsNeverSaved | src/coordinator_engine.cpp:1402-1437 | with persistence, a superseding with a reason of more than 4096 bytes never takes effect |
| Losses.OverlongReasonIsProposed | src/coordinator_engine.cpp:1402-1437 | although everything before the store accepts it |
| RecordCodecs.TripRack | src/persistence.cpp:555-570 | a rack is read back exactly or refused exactly outside its bounds |
| RecordCodecs.TripDomain | src/persistence.cpp:572-646 | a domain of any class, with the fields of that class |
| RecordCodecs.TripDomainLists | src/persistence.cpp:572-646 | the eight domain lists in order |
| RecordCodecs.TripLink | src/persistence.cpp:648-693 | a link, all twenty-two fields |
| RecordCodecs.TripConstraint | src/persistence.cpp:695-703 | a constraint |
| RecordCodecs.TripContract | src/persistence.cpp:414-493 | the readiness contract |
| RecordCodecs.TripComposition | src/persistence.cpp:186-284 | a composition with its accelerator classes |
| RecordCodecs.TripEndpoint | src/persistence.cpp:286-367 | a rack endpoint |
| RecordCodecs.TripHint | src/persistence.cpp:369-412 | a failure domain hint |
| RecordCodecs.TripHeader | src/persistence.cpp:106-151 | a record header |
| RecordCodecs.TripEvidence | src/persistence.cpp:75-104 | an evidence stamp |
| RecordCodecs.TripIds | src/persistence.cpp:153-184 | a counted identity list |
| RecordCodecs.TripGenerations | src/persistence.cpp:495-524 | the domain generations |
| RecordCodecs.TripTopology | src/persistence.cpp:547-551 | the topology record |
| RecordCodecs.TripQuantity | src/persistence.cpp:585-592 | a capacity quantity; an absent value's placeholder is ignored |
| RecordCodecs.TripRetired | src/persistence.cpp:705-711 | a retired identity |
| RecordCodecs.TripFenced | src/persistence.cpp:715-721 | a fenced authority |
| Wire.TripList | src/persistence.cpp:153-184 | a counted list goes through exactly if its count and every element are acceptable |
| Wire.TripText | src/protocol.cpp:288-305 | bounded text |
| Wire.TripOptId | src/persistence.cpp:106-151 | an optional identity |
| Wire.AbsentNumberIsIgnored | src/persistence.cpp:260-270 | reading is not canonical: any number behind an absent flag reads the same |
| Wire.TripI64 | src/protocol.cpp:284-284 | two's complement |
| Wire.LEInverts | src/protocol.cpp:266-282 | little-endian bytes give the number back |
| Buffers.ByteWriter.Number | src/protocol.cpp:266-282 | the loop appends the little-endian bytes, or the writer fails for good at its limit |
| Buffers.ByteWriter.Text | src/protocol.cpp:288-305 | length and bytes, or a lasting failure exactly past a bound |
| Buffers.ByteReader.Number | src/protocol.cpp:347-382 | the loop reads what the specification reads, or fails for good |
| Buffers.ByteReader.Text | src/protocol.cpp:400-417 | the same for bounded text |
| Crc.Extend | src/protocol.cpp:184-192 | the table-driven loop computes the bitwise definition of section 8 of RFC 1952 |
| Crc.MakeTable | src/protocol.cpp:164-174 | each entry is eight bit steps of its index |
| Crc.Crc32 | src/protocol.cpp:425-427 | the checksum with both inversions |
| Crc.BitStepMultiplies | src/protocol.cpp:164-174 | a bit step multiplies the register, read as a polynomial over GF(2), by x modulo the generator of section 8 of RFC 1952 |
| Crc.ResidueIsConstant | src/protocol.cpp:425-427 | any data followed by its own checksum leaves the same register |
| Crc.EmptyChecksum | src/protocol.cpp:425-427 | the checksum of nothing is zero |
| Crc.TableStep | src/protocol.cpp:184-192 | eight bit steps are one shift and one table entry |
| Crc.StepIsInjective | src/protocol.cpp:164-174 | a byte step is injective in the register and in the byte |
| Crc.ReplacedByteChangesChecksum | src/protocol.cpp:425-427 | replacing any one byte changes the checksum |
| Crc.BurstShows | src/protocol.cpp:184-192 | so does any change within four consecutive bytes |
| Crc.FourSteps | src/protocol.cpp:184-192 | four byte steps are thirty-two bit steps of the register combined with one word |
| Frames.FrameRoundTrip | src/protocol.cpp:429-519 | an encoded frame in front of anything is delivered unchanged, exactly if its type passes the truncated test |
| Frames.StreamRoundTrip | src/protocol.cpp:458-519 | a concatenation of frames and any trailing bytes is received frame by frame with the rest untouched |
| Frames.CorruptFrameIsRejected | src/protocol.cpp:458-519 | one changed byte outside the length field of a deliverable frame is always rejected |
| Frames.UndeclaredTypePasses | src/protocol.cpp:495-498 | a frame of any undeclared type is delivered if and only if the low byte of its type is declared, and is refused as unknown otherwise |
| Frames.RejectionsAreTruthful | src/protocol.cpp:458-519 | each rejection names a fault that the bytes of the frame have |
| Frames.FrameBegins | src/protocol.cpp:429-456 | every frame begins with the bytes of its magic and version |
| Frames.WriteFrame | src/protocol.cpp:429-456 | the writer produces the specified frame |
| Frames.ReadFrame | src/protocol.cpp:458-519 | the reader gives the specified answer, statuses included |
| Indexes.ClusterIndexes.Rebuild | src/cluster_state.cpp:108-199 | every index lists exactly what a scan of the records lists, in order |
| Indexes.LookupsAreExact | src/cluster_state.cpp:201-281 | every lookup in a rebuilt table lists exactly the links, racks or domains that a scan of the records finds, in identity order |
| Indexes.CheckIndexes | src/invariant.cpp:467-569 | with sorted link lists, accepts exactly if all member lists, the reverse lists of placement and failure domains, and the bucket of every rack are right and every link is listed; accepts every rebuilt index |
| Indexes.StaleBucketIsAccepted | src/invariant.cpp:546-566 | a rebuilt index with a bucket added for an incarnation that publishes nothing is accepted and wrong |
| Indexes.ClusterIndexes.FailureDomainIndependence | src/cluster_state.cpp:381-466 | the two indexed loops give the answer of a direct scan over all failure domains, and each answer exactly under its condition |
| Indexes.IndependenceIsSymmetric | src/cluster_state.cpp:381-466 | the answer does not depend on the order of the two racks |
| Indexes.IndependenceExactly | src/cluster_state.cpp:381-466 | SHARED exactly if a current domain of the class holds both; otherwise waiting exactly if a domain around either waits; INDEPENDENT exactly if neither holds and a current domain is around each |
| Indexes.NeverIndependentOfItself | src/cluster_state.cpp:381-466 | no rack is independent of itself |
| Indexes.OneSharedDomainSuffices | src/cluster_state.cpp:381-466 | publishing one current domain around two racks makes them share it |
| Indexes.TwoLoopsCover | src/cluster_state.cpp:398-452 | whatever a scan could find is on one of the two index lists |
| Indexes.Group | src/cluster_state.cpp:125-179 | pushing keys in order fills every bucket with exactly its keys, in ascending order |
| RequestQueue.EverySubmitIsAnswered | src/coordinator.cpp:49-90 | over every interleaving items leave in the order they were pushed, no ticket is pushed or handled twice, every queued mutation is carried out and answered, and nobody waits while the coordinator is off |
| RequestQueue.WaitIsBounded | src/coordinator_engine.cpp:1985-2016 | whatever interleaves, once the coordinator has taken as many steps of its own as stood before a waiting ticket, the ticket has been carried out and answered |
| RequestQueue.PendingIsBounded | src/coordinator_engine.cpp:1985-2016 | whatever was queued while a thread serves, fences too, is carried out at its place in the order after a bounded number of own steps |
| RequestQueue.RequestedFenceIsHandled | src/coordinator.cpp:250-270 | a fence asked for while a thread serves and nothing stops takes the next place and is carried out |
| RequestQueue.RequestedFenceIsQueued | src/coordinator.cpp:250-270 | while stopping a fence is dropped; otherwise it is appended and nothing else changes |
| RequestQueue.SubmitExactly | src/coordinator.cpp:49-90 | a submit is queued exactly while running, not stopping and below 4096 items; otherwise its answer says which |
| RequestQueue.WaitingMakesProgress | src/coordinator_network.cpp:749-822 | while a submitter waits a step of the coordinator itself is enabled and strictly lowers what stands before the ticket |
| RequestQueue.NoStepMovesBack | src/coordinator.cpp:49-90 | no action of anybody raises it |
| RequestQueue.ActKeeps | src/coordinator_engine.cpp:1985-2016 | every step of submitters, commit thread, start and stop keeps the queue invariant |
| RequestQueue.DrainKeeps | src/coordinator_network.cpp:807-822 | the drain after the join only ever finds fences and stop markers, and answers nobody |
| Republication.RackRepublication | src/coordinator_engine.cpp:649-713 | repeating an accepted rack publication verbatim changes nothing, or is refused by the incarnation check under an exact condition on the request |
| Republication.RackRepublicationIsIdempotent | src/coordinator_engine.cpp:666-713 | the comparison with the held record recognises it in every case |
| Republication.LinkRepublication | src/coordinator_engine.cpp:1329-1367 | repeating a link verbatim is recognised if and only if the payload carried the stored stamps; otherwise it conflicts |
| Republication.DomainRepublication | src/coordinator_engine.cpp:1165-1219 | the same for domains |
| Exceptions.RetiredClusterStaysExactly | src/coordinator_engine.cpp:492-502 | a declared RETIRED cluster is RETIRED after an event if and only if the event is neither a restart nor a declaration of another lifecycle that takes effect |
| Exceptions.ReopeningExactly | src/coordinator_engine.cpp:1548-1558 | in a retired cluster such a declaration is accepted if and only if its identity is well-formed, it names the cluster epoch and the generation is not exhausted |
| Exceptions.RetiredClusterReopens | src/coordinator_engine.cpp:1548-1558 | a reachable retired cluster is declared again and is not RETIRED |
| Exceptions.AuthorityIsGainedExactly | src/coordinator_engine.cpp:738-744 | in any step that takes effect, a rack gains authority if and only if the request is an admission, update, recovery or health report for it with current evidence |
| Exceptions.ExcludedGainsExactly | src/coordinator_engine.cpp:1463-1476 | an unavailable or withdrawn rack becomes authoritative and stays excluded if and only if the step is a health report or a generation update for it with current evidence |
| Exceptions.WithdrawnRackBecomesAuthoritative | src/coordinator_engine.cpp:804-824 | a reachable withdrawn rack for which a health report and a generation update are both accepted, make it authoritative and leave it withdrawn |
| Exceptions.PublicationFallsExactly | src/coordinator_engine.cpp:523-573 | in any step that takes effect, a publication counter falls if and only if an admission, update, recovery or health report that does not compare it writes a lower one |
| Exceptions.LoweredIsAcceptedExactly | src/coordinator_engine.cpp:523-573 | an acceptable request with its counter lowered below the held one is still accepted if and only if it is one that does not compare |
| Exceptions.LooseUpdateLowers | src/coordinator_engine.cpp:765-835 | an update without incarnation, without counter, or under another incarnation of a rack without authority lowers the counter |
| Exceptions.LooseReportLowers | src/coordinator_engine.cpp:1441-1499 | so does a health report |
| Exceptions.RecoveryLowers | src/coordinator_engine.cpp:931-975 | a recovery under the rack's own or any other unfenced incarnation lowers the counter |
| Exceptions.AdmissionLowers | src/coordinator_engine.cpp:666-713 | an admission with a newer generation or under another incarnation lowers the counter |
| Exceptions.FirstAdmissionLowers | src/coordinator_engine.cpp:666-713 | so does the first admission of a reachable registered rack under its own incarnation |
| Exceptions.EveryWriterCanLower | src/coordinator_engine.cpp:523-573 | each of the four kinds lowers the counter of a reachable authoritative rack under its own unfenced incarnation |
| Exceptions.RepeatedAdmissionIsStale | src/coordinator_engine.cpp:549-570 | an admission accepted in a reachable state and refused as stale when repeated verbatim |
| Demands.ServesNothingExactly | src/lifecycle.cpp:121-131 | for every contract the configuration has room for, some reachable consumable state has no current rack if and only if the contract asks for none by number, by name or by asking for all, demands no more links than a cluster holds and no UNKNOWN class |
| Demands.ServingIsAttainable | src/cluster_state.cpp:622-664 | a consumable sound state without a current rack satisfies only attainable contracts |
| Demands.GrownIsReady | src/cluster_state.cpp:523-732 | two racks without current evidence with enough current links and domains between them are READY |
| Exceptions.FailedDeclarationRenames | src/coordinator_engine.cpp:31-52 | a first declaration whose save fails leaves a fresh coordinator under the declared identity and otherwise untouched |
| Exceptions.ForgottenClusterPasses | src/snapshot.cpp:371-493 | across a restart that loads nothing, a new declaration makes a snapshot of the forgotten cluster validate as current under another contract |
| Sampler.SelectSubset | src/synthetic.cpp:166-178 | exactly the requested number of distinct candidates, those that the drawn offsets choose; the array stays a permutation of itself |
| Sampler.OffsetsAreUnique | src/synthetic.cpp:166-178 | two lists of offsets that choose the same candidates in the same order are equal |
| Sampler.EverySelectionIsDrawn | src/synthetic.cpp:166-178 | every ordered selection without repetition is chosen by some offsets |
| Sampler.SamplePairs | src/synthetic.cpp:888-901 | exactly the target number of distinct pairs i < j, those that the draws pick, for every random stream |
| Sampler.EveryLinkSetIsDrawn | src/synthetic.cpp:888-901 | every set of pairs is selected under some stream |
| Sampler.GroupIsLeast | src/synthetic.cpp:181-192 | the group size is the requested one if it fits, and otherwise the least that fits |
| Sampler.GroupsFit | src/synthetic.cpp:181-199 | grouping with the effective size stays within the limit and covers every item |
| Sampler.FailureGroups | src/synthetic.cpp:694-705 | the doubling loop ends within the class limit: at the requested size if that fits, at twice that size otherwise |
| Sorting.SortUniqueIds | src/coordinator_engine.cpp:413-421 | strictly ascending, the same members |
| Durable.AssignedInvertsListed | src/coordinator_engine.cpp:127-343 | listing a map in key order and assigning the list back gives the map |
| Durable.NextEpoch | src/coordinator.cpp:122-125 | the next epoch is known, and the successor except at the maximum |
| Foundation.Next | include/cluster_fabric/generation.hpp:43-48 | the checked successor |

## Left out

- Sockets, the accept and session loops, message codecs other than frames, and the rack agent: transport.
- File creation, temporary files and renames of the file store: a save succeeds as a whole or fails as a whole.
- Explanations, structured error texts, recovery notes, statistics counters, and the texts and subjects of violations.
- The order in which violations, blockers and stale reasons are listed, and how often one is listed.
- The semantic digest of snapshots: a 64-bit hash cannot identify a state.
- Capacity aggregation and reachability queries: single scans with flags.
- Requests compare and record quantities as 64-bit patterns; sums and densities in floating point are not modelled. The
  link target of the sampler is an arbitrary number up to the number of pairs.
- std::sort is modelled as a stable sort; the source sorts lists whose equal elements it removes or refuses.
- Container body errors: the decoder's many statuses for a malformed body or an invalid state are one status each.
- Record codecs are functions on byte sequences. The buffer updates of the writer and the reader are modelled for the
  primitives and for frames, not for every record.
- The record lists of the container are read and written whole; the position of a failure inside them is not modelled.
- Reading of the frame checksum field: compared as the word its bytes form instead of through the reader.
- Sorting of index buckets after they are filled: keys arrive in order, so it changes nothing.
- The reachable states that show a failing promise are those of a coordinator without persistence, whose commits cannot
  fail in the store, except where the store is the point: a failed save, a state lost at a restart, a state that does
  not fit.
- Domains of all classes share one record; one that uses a field of another class, which the source cannot express, is
  refused by the encoder (`Sizes.FitsDomain`).
- A container with more than 16384 fences is shown to be unreadable, no run to it is given.
- RequestQueue.EverySubmitIsAnswered: start and stop are called by one owner in turn, as the public interface requires.
- Hooks, and configuration read while running.
