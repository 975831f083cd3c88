# Verified model of the Boule consensus core

A Dafny model of the consensus core of a Byzantine-fault-tolerant node running chained HotStuff, with
machine-checked properties of its state machines. `dafny verify dfyconfig.toml` checks the whole
project.

What is modelled, and where the main results are:

- **Voting and committing.** The vote rule, the lock update, the three-chain commit rule and the
  bounded block cache (`BlockTree`, `HotStuff`), weighted quorums down to the bits of the signer
  bitmap (`Quorum`, `SignerBitmaps`), what the handler does to lock, certificate and cache
  (`HandlerLaws`), and agreement over every run of many nodes, some of them faulty (`Agreement`,
  `LockTracking`), with runs that show where it ends (`ScriptedRuns`, `AgreementLimits`,
  `IngressLimits`). When a node must vote, and that four rounds commit, is in `Progress`.
- **The leader schedule.** Smooth weighted round-robin with exact fairness (`Leader`) and a memoised
  selector that always answers like a recomputation (`LeaderSelector`); what its answers add up to is in
  `LeaderAnswers`.
- **Validator-set and key histories.** How committed blocks change the sets, signing keys, BLS keys
  and operator keys (`ValidatorSets`, `SetHistory`, `KeyHistories`, `Reconfig`, `Histories`), the same
  on mutable objects (`HistoryApply`), and what holds over every chain: the settled past
  (`SettledPast`), the boundaries (`Boundaries`), the lockstep of the two key histories (`Lockstep`),
  the rebuild after a restart (`Rebuild`), what a running node carries instead and what a restart makes
  of it (`LiveHistory`, `Restart`, `UnstoredKeys`), the reverse index and its persistence (`KeyIndex`), what a
  change of keys means for every view (`KeyEffects`), where every key comes from (`Provenance`) and who
  signed for every key that goes (`Accountability`). Exactly which commands take effect is in
  `Admission` and `CommandEffects`, exactly which persisted forms are accepted in `RestoreLaws`.
- **Snapshot download.** Chunking (`SnapshotChunks`), the request and response machine
  (`SnapshotSync`, `SnapshotMachine`) and its guarantees over every run (`SnapshotRuns`,
  `SnapshotCounters`, `SnapshotLimits`, `SnapshotCompletion`), with the exact decision behind each event
  (`SnapshotDecisions`).
- **Storage, rewards, codecs.** A buffered log on disk that refines a plain one (`Wal`, `WalRefinement`,
  `WalLimits`, `WalHistory`, `WalLogs`), an index-based reward ledger (`RewardLedger`), and the binary
  payloads (`Codec`, `RegistryCodec`, `WeightProofCodec`, `CodecLayout`).

The project follows one pattern. Pure functions on values say what each operation does; lemmas prove
what holds of them over all inputs and all runs; classes and methods with loops, in the form the
original has, are proved equal to those functions.

Some properties one might expect do not hold of the code. Each is stated with a failing run and the
exact condition under which it does hold:

- *Agreement, locks.* The lock moves by height (`hotstuff/step/handlers.rs:90-96`) while the vote rule
  compares views (`hotstuff/safety_rules.rs:53`): `AgreementLimits.AgreementFailsWithoutLockCondition`.
  Independently of that, storing a proposal in a full cache can evict the block its lock is computed
  from (`hotstuff/state.rs:89-124`): `IngressLimits.AgreementFailsOnEviction`. The condition for one
  delivery is exact (`LockTracking.LocksFollowViewsIff`, `LockTracking.CacheMissHarmlessIff`); pruning by
  the node's own commits never violates it (`LockTracking.PruningIsHarmless`).
- *Agreement, ingress.* The ingress (`dispatch/ingress.rs:95-128`, `dispatch/verify/qc.rs:27-36`) does
  not compare a proposal's parent with the block its certificate certifies, and accepts certificates
  without signers: `IngressLimits.AgreementFailsWithoutParentCheck`,
  `IngressLimits.AgreementFailsWithoutGenuineCertificates`. `Agreement` assumes both checks.
  Nor does it check that the sender of a proposal leads its view; the runs of `AgreementLimits` and
  `IngressLimits` have no faulty vote but use proposers that deviate.
- *Rebuild equals live state.* A running node never enters an added validator into its signing-key
  history (`consensus_node/reconfig_apply.rs:48-188`), while the rebuild after a restart does:
  `Restart.AddThenRotateFailsRestart`, with `LiveHistory.LiveEqualsFoldIff` and
  `Restart.LiveLockstepIff`. What is proved of the fold of the two apply functions holds of the rebuild,
  and of a running node exactly on the chains without such an add.
- *Stamps hold after a restart.* A leader stamps a proposal with the commitment of its committed
  histories plus the block (`consensus_node/action_interpreter.rs:763-774`) and receivers recompute it
  on theirs (`dispatch/verify/proposal_history.rs:22-38`), while the check after a restart compares it
  with all ancestors plus the block. A child without history commands, of an uncommitted
  block that changes them, therefore fails the check: `Restart.StampBeforeCommitFailsRestart`, `Restart.StaleStampFailsRestart`,
  with `Restart.QuietClaimIff` for one claim and `Restart.RestartPassesIff` and
  `Restart.QuietOrAppliedPassesIff` for a whole chain. A node without a stored key history does not
  depend on the added validators: `UnstoredKeys.UnstoredPassesIff`.
- *The reverse index.* Cancelling a rotation back to an old key drops that key from the index:
  `KeyIndex.CancelledReturnLosesKey`, `KeyIndex.CancelIndexedIff`.
- *Operator keys* are not part of the settled past: `SettledPast.OperatorPastChanges`,
  `SettledPast.OperatorPastIff`, `SettledPast.ChainOperatorsSettled`.
- *Snapshot counters and slots.* A failed verification drops the peer's counter but not its other
  slots, and a later disconnection of that peer is ignored: `SnapshotLimits.SlotWaitsForGonePeer`,
  `SnapshotCompletion.GonePeerBlocksRestore`, `SnapshotCounters.BadChunkExactIff`,
  `SnapshotCounters.DisconnectFreesSlotsIff`.
- *The log on disk* equals the log in memory except when a truncation, a flush, an append or an
  iteration meet halfway: the runs of `WalLimits`, with `WalRefinement.TruncateDuringFlushIff`,
  `WalRefinement.FlushDuringTruncateIff`, `WalRefinement.AppendDuringTruncateIff` and
  `WalRefinement.SplitReadIff`.

Assumptions that the model names instead of proving: signature and proof-of-possession checks are
predicates supplied by the caller; hashes and the history commitment are injective where a lemma says
so; in `Agreement` a proposal reaches the handler only with a genuine certificate that certifies its
parent, and digests do not collide.

## Model

| member | source | states |
|---|---|---|
| `Quorum.QuorumIffThreshold` | crates/boule-consensus/src/hotstuff/qc.rs:19-26 | `has_quorum`, with its saturating products, holds exactly when the signer weight reaches `quorum_weight_threshold`, and exactly when it exceeds two thirds in plain arithmetic |
| `Quorum.QuorumsOverlap` | crates/boule-consensus/src/hotstuff/qc.rs:133-138 | two signer sets that are quorums share more than a third of the weight |
| `Quorum.HonestInBoth` | crates/boule-consensus/src/hotstuff/qc.rs:133-138 | with faulty weight at most a third, any two quorums share an honest voter |
| `Quorum.HonestyMeetsQuorum` | crates/boule-consensus/src/hotstuff/qc.rs:28-31 | a set reaching `honesty_weight_threshold` meets every quorum |
| `Quorum.HonestyIff` | crates/boule-consensus/src/hotstuff/qc.rs:19-26 | the honesty threshold is the least weight above a third of the total, and one where there is no weight |
| `SignerBitmaps.WellFormedIffPaddingClear` | crates/boule-core/src/crypto/sig_scheme.rs:69-85 | the mask test on the last byte accepts exactly the byte vectors of the right size with no bit at or above the length |
| `SignerBitmaps.SetBelowIsExact` | crates/boule-core/src/crypto/sig_scheme.rs:52-67 | `iter_set` lists exactly the set indices, each once, in increasing order |
| `SignerBitmaps.CountIsCardinality` | crates/boule-core/src/crypto/sig_scheme.rs:48-50 | on a well-formed bitmap the popcount of the bytes is the number of signers |
| `SignerBitmaps.SetBitAddsMember` | crates/boule-core/src/crypto/sig_scheme.rs:32-39 | setting a bit adds exactly that member and keeps the bitmap well formed |
| `SignerBitmaps.QuorumCertificate.AddBlsPartial` | crates/boule-consensus/src/hotstuff/qc.rs:87-98 | a signer already present changes nothing; a new one enters the bitmap and the aggregate once |
| `SignerBitmaps.QuorumCertificate.SignerWeight` | crates/boule-consensus/src/hotstuff/qc.rs:117-131 | the saturating loop over the bitmap computes the exact weight of the signer set |
| `SignerBitmaps.QuorumCertificate.HasQuorum` | crates/boule-consensus/src/hotstuff/qc.rs:133-138 | down to the bits: true exactly when the members of the bitmap are a weighted quorum |
| `SignerBitmaps.QuorumCertificate.IterSet` | crates/boule-core/src/crypto/sig_scheme.rs:52-67 | the nested byte and bit loops return the set indices in order |
| `SignerBitmaps.QuorumCertificate.Count` | crates/boule-core/src/crypto/sig_scheme.rs:48-50 | the sum of popcounts is the number of members |
| `SignerBitmaps.QuorumCertificate.IsWellFormed` | crates/boule-consensus/src/hotstuff/qc.rs:140-147 | length, padding and the empty-aggregate test together |
| `BlockTree.Extends` | crates/boule-consensus/src/hotstuff/safety_rules.rs:8-34 | terminates on every map, cyclic ones included, and is true exactly when the ancestor lies on the stored parent path |
| `BlockTree.PathTransitive` | crates/boule-consensus/src/hotstuff/safety_rules.rs:8-34 | on structurally valid maps `extends` is transitive |
| `BlockTree.PathAntisymmetric` | crates/boule-consensus/src/replication/block.rs:83-126 | on structurally valid maps two blocks that extend each other are equal |
| `BlockTree.PathLengthIsHeightDifference` | crates/boule-consensus/src/replication/block.rs:83-126 | the number of parent steps between two blocks is their height difference |
| `BlockTree.StructuralIff` | crates/boule-consensus/src/replication/block.rs:83-126 | a block is accepted on its parent exactly when parent digest, height, view, commitment and time fit, and the first misfit is the one reported |
| `BlockTree.FollowInLarger` | crates/boule-consensus/src/hotstuff/safety_rules.rs:8-34 | a path in a cache is a path in every larger map |
| `HotStuff.EvictionNeverHidesCommit` | crates/boule-consensus/src/hotstuff/state.rs:77-142 | over any sequence of insertions: at most max(capacity, 6) blocks, genesis kept, and the block the high certificate commits is still committed with the same header |
| `HotStuff.InsertPendingKeeps` | crates/boule-consensus/src/hotstuff/state.rs:77-83 | one insertion keeps the size bound, genesis, every surviving block and the pending commit |
| `HotStuff.CommitTripleProtected` | crates/boule-consensus/src/hotstuff/state.rs:126-142 | the three blocks behind a commit of the high certificate are all protected from eviction |
| `HotStuff.ProtectedIsSmall` | crates/boule-consensus/src/hotstuff/state.rs:126-142 | the walk protects at most four blocks besides genesis |
| `HotStuff.LockIsNewestViewIffGuardAgrees` | crates/boule-consensus/src/hotstuff/step/handlers.rs:90-96 | the lock ends at the newest view seen if and only if the height guard of the update agrees with the order of views |
| `HotStuff.HotStuffState.ProtectedBlockHashes` | crates/boule-consensus/src/hotstuff/state.rs:126-142 | the cursor walk computes the protected set |
| `HotStuff.HotStuffState.EvictPendingToFitOne` | crates/boule-consensus/src/hotstuff/state.rs:89-124 | the victim is the unprotected block of least height, then least hash |
| `HotStuff.HotStuffState.Insert` | crates/boule-consensus/src/hotstuff/state.rs:77-83 | the cache after `insert_pending` |
| `HotStuff.HotStuffState.IsSafeToVote` | crates/boule-consensus/src/hotstuff/safety_rules.rs:36-54 | the vote rule, with its call of `extends` |
| `HotStuff.HotStuffState.OnProposalReceived` | crates/boule-consensus/src/hotstuff/step/handlers.rs:28-111 | votes, high certificate, lock, commit and pruning of one proposal |
| `HotStuff.HandlerNeverGoesBack` | crates/boule-consensus/src/hotstuff/step/handlers.rs:55-96 | last voted view, lock height and high certificate never go back, a node votes exactly when its last voted view rises, and its high certificate is then no older than the one it voted on |
| `HandlerLaws.ProtectedExact` | crates/boule-consensus/src/hotstuff/state.rs:126-142 | protected are exactly genesis and the digests that at most three parent links from the high certificate lead to without passing genesis |
| `HandlerLaws.DroppedIff` | crates/boule-consensus/src/hotstuff/state.rs:89-124 | storing a new block drops a block exactly when the cache is full and it is the unprotected one of least height and then least digest |
| `HandlerLaws.HighQcIff` | crates/boule-consensus/src/hotstuff/step/handlers.rs:55-73 | the certificate of a proposal becomes the high one exactly when the node votes and it is newer |
| `HandlerLaws.LockIff` | crates/boule-consensus/src/hotstuff/step/handlers.rs:75-96 | the lock moves exactly when parent and grandparent are stored and the grandparent is higher, and becomes the grandparent |
| `Progress.VotedIff` | crates/boule-consensus/src/hotstuff/safety_rules.rs:36-54 | a proposal on a stored parent is voted for exactly when its view is fresh and there is no lock, or stored parent links lead from the block to the lock, or the certificate is newer |
| `Progress.VotedWithRoomIff` | crates/boule-consensus/src/hotstuff/safety_rules.rs:36-54 | the same in terms of what the node stored before, for a block the cache has room for: the lock is the block or lies on the path of its parent |
| `Progress.ReadyStep` | crates/boule-consensus/src/hotstuff/step/handlers.rs:28-111 | a node that is ready for a block votes for it, prunes exactly up to the committed height, and is ready for every child |
| `Progress.FourRoundsCommit` | crates/boule-consensus/src/hotstuff/step/handlers.rs:28-111 | from nodes ready for the first of four blocks on one chain, three of them in consecutive views, delivering each to all with the certificate of its parent is a run in which everyone votes for all four, everyone commits the first, and every cache keeps exactly what lies above it |
| `Progress.FirstBlockIsReady` | crates/boule-consensus/src/hotstuff/step/handlers.rs:28-111 | at the start of a run with caches of five blocks or more every node is ready for a chain on genesis |
| `Agreement.RunNeverGoesBack` | crates/boule-consensus/src/hotstuff/step/handlers.rs:28-191 | the same over every run, whatever its locks |
| `Agreement.AgreementOverRuns` | crates/boule-consensus/src/hotstuff/safety_rules.rs:36-77 | in every run with faulty weight at most a third in which a node votes only while its lock is as new as the grandparents of its earlier votes, all committed blocks, and all blocks any genuine certificate commits, lie on one chain |
| `LockTracking.AgreementWhenLocksTrack` | crates/boule-consensus/src/hotstuff/step/handlers.rs:75-96 | the same from a condition on single deliveries: a lock that moves does not go back in view, and a vote finds its grandparent covered |
| `LockTracking.LocksFollowViewsIff` | crates/boule-consensus/src/hotstuff/step/handlers.rs:75-96 | for one delivery, the lock does not go back in view and covers the vote cast if and only if that condition holds of the lock and the stored candidate |
| `LockTracking.CacheMissHarmlessIff` | crates/boule-consensus/src/hotstuff/step/handlers.rs:75-96 | the cache leads to the lock the complete tree leads to if and only if the candidate is stored, does not exist, or is not above the lock |
| `LockTracking.TrackingIsGuardAlone` | crates/boule-consensus/src/hotstuff/step/handlers.rs:90-96 | with such a cache the condition is that the height guard agrees with the views |
| `LockTracking.PrunedBelowLock` | crates/boule-consensus/src/hotstuff/step/handlers.rs:102-108 | what a commit prunes is below the lock the same delivery leaves, on a structurally valid tree |
| `LockTracking.PruningIsHarmless` | crates/boule-consensus/src/hotstuff/step/handlers.rs:102-108 | over every run, a block pruned by an own commit is never missed by a later lock |
| `AgreementLimits.AgreementFailsWithoutLockCondition` | crates/boule-consensus/src/hotstuff/step/handlers.rs:90-96 | a run of equal validators with unlimited caches, deviating proposals and no faulty vote in which the height guard leads two nodes to commit conflicting blocks |
| `IngressLimits.AgreementFailsOnEviction` | crates/boule-consensus/src/hotstuff/state.rs:89-124 | a run with the height guard agreeing throughout in which a full cache evicts the block a lock is computed from, and conflicting blocks are committed |
| `IngressLimits.AgreementFailsWithoutParentCheck` | crates/boule-consensus/src/dispatch/ingress.rs:95-128 | a run with genuine certificates and tracking locks in which a proposal carries a newer certificate of a block it does not extend, and conflicting blocks are committed |
| `IngressLimits.AgreementFailsWithoutGenuineCertificates` | crates/boule-consensus/src/dispatch/verify/qc.rs:27-36 | a run in which certificates without signers commit conflicting blocks without a vote |
| `ScriptedRuns.FullIngressIsRun` | crates/boule-consensus/src/dispatch/ingress.rs:95-128 | behind an ingress that checks both, the runs are exactly those of the agreement theorem |
| `Agreement.CommittableOnOneChain` | crates/boule-consensus/src/hotstuff/safety_rules.rs:63-77 | two blocks returned by the three-chain rule for genuine certificates never conflict |
| `Agreement.CertifiedExtendsCommitted` | crates/boule-consensus/src/hotstuff/safety_rules.rs:36-54 | once a consecutive-view three-chain is certified, every block certified in a view at or above the first extends the first |
| `Agreement.OneCertifiedPerView` | crates/boule-consensus/src/hotstuff/safety_rules.rs:36-40 | at most one block per view is ever certified |
| `Agreement.StepKeepsWorld` | crates/boule-consensus/src/hotstuff/step/handlers.rs:28-191 | every proposal, synchronised block and certificate keeps the invariant of runs |
| `Leader.AlwaysBalanced` | crates/boule-consensus/src/pacemaker/leader.rs:150-170 | after any number of steps the priorities sum to zero and each exceeds minus the total weight |
| `Leader.RaisedIsExact` | crates/boule-consensus/src/pacemaker/leader.rs:155-157 | the saturating additions never saturate, for up to 2^31 validators |
| `Leader.StepKeepsBalance` | crates/boule-consensus/src/pacemaker/leader.rs:150-170 | one step adds each weight and charges the elected validator exactly the total |
| `Leader.BestIsGreatest` | crates/boule-consensus/src/pacemaker/leader.rs:159-166 | the scan elects the first validator of greatest priority |
| `Leader.PriorityIsCredit` | crates/boule-consensus/src/pacemaker/leader.rs:150-170 | a priority is steps times weight minus turns times total |
| `Leader.CycleFairness` | crates/boule-consensus/src/pacemaker/leader.rs:150-170 | after every whole number of cycles each validator has led exactly its share and all priorities are zero |
| `Leader.SchedulePeriodic` | crates/boule-consensus/src/pacemaker/leader.rs:150-170 | the schedule repeats with period the total weight |
| `Leader.WindowFairness` | crates/boule-consensus/src/pacemaker/leader.rs:150-170 | in every window of total-weight consecutive views each validator leads exactly its weight |
| `Leader.AccumulatorStep` | crates/boule-consensus/src/pacemaker/leader.rs:150-170 | the in-place step computes the priorities and the leader of the specification |
| `LeaderSelector.WeightedAccumulatorSelector.RegimeStartFor` | crates/boule-consensus/src/pacemaker/leader.rs:91-101 | names the boundary whose set `set_at` returns |
| `LeaderSelector.WeightedAccumulatorSelector.LeaderForView` | crates/boule-consensus/src/pacemaker/leader.rs:105-147 | for queries in any order and across boundaries the memoised frontier gives the leader a fresh recomputation gives |
| `LeaderSelector.WeightedAccumulatorSelector.Advance` | crates/boule-consensus/src/pacemaker/leader.rs:136-139 | repeated steps reach the priorities and leader of the later view |
| `LeaderAnswers.LeaderHasGreatestScore` | crates/boule-consensus/src/pacemaker/leader.rs:105-147 | the leader of a view is the first member that maximises its weight for each view of the regime so far, this one included, less the total weight for each earlier view that it led |
| `LeaderAnswers.AnswersAreFair` | crates/boule-consensus/src/pacemaker/leader.rs:105-147 | in every window of total-weight views inside a regime the answers name each member exactly its weight many times |
| `ValidatorSets.WithWeightsDistinct` | crates/boule-consensus/src/validator_set.rs:99-118 | accepts distinct ids exactly when all weights are positive, and keeps every weight, sorted |
| `ValidatorSets.WithWeightsRoundTrip` | crates/boule-consensus/src/validator_set.rs:99-118 | rebuilding a set from its own listing gives it back |
| `ValidatorSets.SetDetermined` | crates/boule-consensus/src/validator_set.rs:99-118 | two well-formed sets with the same weight per member are equal |
| `RestoreLaws.WithWeightsIff` | crates/boule-consensus/src/validator_set.rs:99-118 | weighted pairs are refused exactly when a weight is zero, at the first; otherwise each id is held once with the weight of its first pair |
| `SetHistory.IndexAtIsLast` | crates/boule-consensus/src/validator_history.rs:30-41 | `set_at` selects the last boundary not later than the view |
| `SetHistory.LaterBoundaryInvisible` | crates/boule-consensus/src/validator_history.rs:30-41 | a boundary later than a view does not change its set |
| `SetHistory.RestoreRoundTrip` | crates/boule-consensus/src/validator_history.rs:83-113 | restoring what was persisted gives the history back |
| `SetHistory.RestoredIsOrdered` | crates/boule-consensus/src/validator_history.rs:95-113 | whatever is accepted starts at view 0 and strictly rises |
| `RestoreLaws.RestoredIff` | crates/boule-consensus/src/validator_history.rs:95-113 | a persisted history is accepted exactly when it starts at view 0, strictly rises and has as many positive weights as members in each boundary, which it then keeps |
| `RestoreLaws.FirstRefusal` | crates/boule-consensus/src/validator_history.rs:95-113 | the first boundary that is not acceptable decides the refusal |
| `SetHistory.FromPersisted` | crates/boule-consensus/src/validator_history.rs:95-113 | the restoring loop with its errors, in order |
| `SetHistory.ValidatorSetHistory.InsertBoundary` | crates/boule-consensus/src/validator_history.rs:43-65 | appends exactly when strictly later than the last boundary, and keeps the history valid |
| `SetHistory.ValidatorSetHistory.AnyBoundaryAfter` | crates/boule-consensus/src/history_commitment.rs:338-343 | whether a boundary is pending |
| `Reconfig.AcceptedMeans` | crates/boule-consensus/src/reconfig.rs:139-315 | an accepted command takes effect late enough and yields a well-formed set of at least four whose weights are exactly the old ones with removes, changes and adds applied |
| `Admission.ValidateIff` | crates/boule-consensus/src/reconfig.rs:139-315 | a command is accepted exactly when it is on time, weighs everybody it names, names nobody twice, names members and newcomers rightly, is vouched for, and leaves at least four members |
| `Admission.FirstRefusal` | crates/boule-consensus/src/reconfig.rs:146-241 | a refused command meets the refusal of the first of thirteen things wrong with it |
| `Admission.PopRefusal` | crates/boule-consensus/src/reconfig.rs:243-265 | the first add without a proof of possession that verifies decides between the two refusals |
| `Admission.ConsentRefusal` | crates/boule-consensus/src/reconfig.rs:267-286 | the first operator key without a consent that verifies decides between the two refusals |
| `Admission.ReconfigurationIff` | crates/boule-consensus/src/history_commitment.rs:318-389 | a reconfiguration changes the histories exactly when it is admissible for the set in force and no boundary is ahead; it adds one boundary with exactly the adds, the changed members and the others |
| `Reconfig.AcceptedAddsHavePop` | crates/boule-consensus/src/reconfig.rs:243-265 | the adds pass exactly when every one carries a proof of possession that verifies |
| `Reconfig.AcceptedAddsConsent` | crates/boule-consensus/src/reconfig.rs:267-286 | the adds pass exactly when every one that declares an operator key carries a consent that verifies |
| `Reconfig.ValidateAgainst` | crates/boule-consensus/src/reconfig.rs:139-315 | the loops over local sets and the edited list compute that verdict, errors in source order |
| `Reconfig.Check` | crates/boule-consensus/src/reconfig.rs:146-286 | the first failing check, in source order |
| `Reconfig.HasDuplicate` | crates/boule-consensus/src/reconfig.rs:179-204 | a growing seen-set finds a repeated id if there is one |
| `KeyHistories.ActiveIsLast` | crates/boule-consensus/src/validator_key_history.rs:154-163 | `key_at` selects the last entry not later than the view |
| `KeyHistories.LaterEntryInvisible` | crates/boule-consensus/src/validator_key_history.rs:154-163 | a later entry can come or go without changing the active key |
| `KeyHistories.AddValidatorKeepsOk` | crates/boule-consensus/src/validator_key_history.rs:123-145 | adding a validator keeps lists non-empty, ascending and headed by the stable id, and index hits honest |
| `KeyHistories.RotateKeepsOk` | crates/boule-consensus/src/validator_key_history.rs:201-243 | so does a rotation |
| `KeyHistories.CancelKeepsOk` | crates/boule-consensus/src/validator_key_history.rs:257-282 | so does a cancellation that leaves an older entry |
| `KeyHistories.PendingIsNotAlone` | crates/boule-consensus/src/history_commitment.rs:67-77 | a list with an active key and a pending entry has another entry |
| `KeyHistories.CancelKeepsExactIffFreshKey` | crates/boule-consensus/src/validator_key_history.rs:279-280 | a cancellation keeps the index exact if and only if the cancelled key does not occur earlier in the list |
| `KeyHistories.ExactIndexDetermined` | crates/boule-consensus/src/validator_key_history.rs:302-353 | an exact index is determined by the lists |
| `KeyHistories.AppendKeepsLists` | crates/boule-consensus/src/bls_key_history.rs:111-136 | BLS and operator rotations keep lists strictly ascending |
| `KeyIndex.PersistRoundTripIffExact` | crates/boule-consensus/src/validator_key_history.rs:284-353 | `from_persisted(to_persisted(h))` is `h` if and only if the index is exact |
| `KeyIndex.RestoredIsExact` | crates/boule-consensus/src/validator_key_history.rs:302-353 | whatever is accepted is well formed and exactly indexed |
| `RestoreLaws.KeysRestoreIff` | crates/boule-consensus/src/validator_key_history.rs:302-353 | a persisted key history of distinct validators is accepted exactly when each list is non-empty, ascending and starts with its id and no key is in two lists, which are then kept |
| `RestoreLaws.FirstKeyRefusal` | crates/boule-consensus/src/validator_key_history.rs:302-353 | the first validator that is not acceptable, and the first of its entries, decides the refusal |
| `KeyIndex.ClaimExact` | crates/boule-consensus/src/validator_key_history.rs:319-349 | when the entries of one validator are accepted, and what the index becomes |
| `KeyIndex.PersistedIds` | crates/boule-consensus/src/validator_key_history.rs:284-300 | validators are listed in ascending order, each once |
| `KeyIndex.FromPersisted` | crates/boule-consensus/src/validator_key_history.rs:302-353 | the two nested loops with their errors, in order |
| `KeyIndex.ChainIndexed` | crates/boule-consensus/src/history_commitment.rs:43-83 | on every chain whose accepted cancellations drop only keys held nowhere earlier in their list, whatever rotations it carries, the index is the exact inverse of the lists |
| `KeyIndex.CancelIndexedIff` | crates/boule-consensus/src/history_commitment.rs:43-83 | a cancellation command keeps the index exact if and only if it drops nothing or a key held nowhere earlier |
| `KeyIndex.ChainPersists` | crates/boule-consensus/src/validator_key_history.rs:284-353 | on such a chain the persisted key history restores to the same history, index included |
| `KeyIndex.CancelledReturnLosesKey` | crates/boule-consensus/src/validator_key_history.rs:279-280 | three commands after which a validator is no longer found under its own id and the persisted history restores to a different one |
| `Histories.StepKeepsOk` | crates/boule-consensus/src/history_commitment.rs:306-491 | every command of every pass keeps all four histories well formed |
| `Lockstep.AddMembersExact` | crates/boule-consensus/src/history_commitment.rs:359-364 | after the member loop exactly the members whose id is not yet a key have a new list; every older list is unchanged |
| `Lockstep.RegisterAddsExact` | crates/boule-consensus/src/history_commitment.rs:366-388 | after the add loop exactly the members with a key to register have a list, new ones with one entry at the effective view; every older list is unchanged |
| `HistoryApply.ApplyReconfig` | crates/boule-consensus/src/history_commitment.rs:318-389 | one reconfiguration command on the four mutable histories |
| `HistoryApply.ApplyRotation` | crates/boule-consensus/src/history_commitment.rs:403-461 | one dual-signed rotation on both key histories |
| `HistoryApply.ApplyRotationCancel` | crates/boule-consensus/src/history_commitment.rs:43-83 | one cancellation on both key histories |
| `HistoryApply.ApplyOperatorRotation` | crates/boule-consensus/src/history_commitment.rs:119-159 | one operator-signed rotation |
| `HistoryApply.ApplyOperatorKeyRotation` | crates/boule-consensus/src/history_commitment.rs:192-223 | one rotation of an operator key |
| `HistoryApply.ApplyReconfigCommands` | crates/boule-consensus/src/history_commitment.rs:306-390 | the first apply function equals one pass of the specification |
| `HistoryApply.ApplyRotationCommands` | crates/boule-consensus/src/history_commitment.rs:392-491 | the second apply function equals its four passes, in order |
| `HistoryApply.ApplyCommittedBlock` | crates/boule-node/src/consensus_node/persistence.rs:445-462 | both apply functions on one block, as the rebuild calls them |
| `HistoryApply.ValidatorKeyHistory.FromGenesis` | crates/boule-consensus/src/validator_key_history.rs:88-102 | every genesis validator under its own key from view 0 |
| `HistoryApply.ValidatorKeyHistory.AddValidator` | crates/boule-consensus/src/validator_key_history.rs:123-145 | both maps after an add, or unchanged when the key is taken |
| `HistoryApply.ValidatorKeyHistory.ApplyRotation` | crates/boule-consensus/src/validator_key_history.rs:201-243 | both maps after a rotation, or unchanged on any of its four errors |
| `HistoryApply.ValidatorKeyHistory.CancelPendingRotation` | crates/boule-consensus/src/validator_key_history.rs:257-282 | both maps after a cancellation, or unchanged |
| `HistoryApply.VersionedKeys.Register` | crates/boule-consensus/src/bls_key_history.rs:96-109 | a first entry, only for a validator without a list; it holds that key from that view on and none before |
| `HistoryApply.VersionedKeys.ApplyRotation` | crates/boule-consensus/src/operator_key_history.rs:93-119 | an entry strictly later than the last; the key switches from that view on and no other key in any view |
| `HistoryApply.VersionedKeys.CancelPendingRotation` | crates/boule-consensus/src/bls_key_history.rs:138-159 | the pending last entry removed; no key changes at or before the committing view |
| `Boundaries.ChainExplained` | crates/boule-consensus/src/history_commitment.rs:306-357 | over every chain each boundary is the preceding set with one accepted command of one block applied |
| `Boundaries.ChainShape` | crates/boule-consensus/src/history_commitment.rs:306-357 | boundaries are at least four views apart, at most one is pending, every later set is well formed with at least four members |
| `SettledPast.BlockSettled` | crates/boule-consensus/src/history_commitment.rs:306-491 | a block at view w below `u64::MAX` changes no set, signing key or BLS key at any view up to w |
| `SettledPast.ChainSettled` | crates/boule-consensus/src/history_commitment.rs:306-491 | no chain of later blocks changes them either |
| `SettledPast.OperatorPastIff` | crates/boule-consensus/src/operator_key_history.rs:93-119 | an operator-key rotation leaves the past alone if and only if it takes effect after the committing view or repeats the current key |
| `SettledPast.ChainOperatorsSettled` | crates/boule-consensus/src/operator_key_history.rs:93-119 | operator keys are settled over every chain whose operator-key rotations take effect after their block |
| `SettledPast.OperatorPastChanges` | crates/boule-consensus/src/operator_key_history.rs:93-119 | a block of view 5 that changes the operator key of view 4 |
| `Lockstep.ReconfigLockstepIff` | crates/boule-consensus/src/history_commitment.rs:359-388 | an accepted reconfiguration keeps the signing-key and BLS histories in lockstep if and only if no new member is refused by the key history |
| `Lockstep.RotateInStep` | crates/boule-consensus/src/history_commitment.rs:432-460 | in lockstep the ignored BLS result of a rotation is a success |
| `Lockstep.CancelInStep` | crates/boule-consensus/src/history_commitment.rs:75-81 | in lockstep the ignored BLS result of a cancellation is a success |
| `Lockstep.ChainInLockstep` | crates/boule-consensus/src/history_commitment.rs:306-491 | on every chain without a refused add both histories have the same validators and the same effective views |
| `Lockstep.LockstepListsNonEmpty` | crates/boule-consensus/src/bls_key_history.rs:122-124 | in lockstep no BLS list is empty, so its panic is unreachable |
| `KeyEffects.RotationSwitchesBoth` | crates/boule-consensus/src/history_commitment.rs:432-460 | in lockstep an accepted rotation switches the signing and the BLS key of one validator in the same view, and no key of anyone else in any view |
| `KeyEffects.OperatorKeySwitches` | crates/boule-consensus/src/history_commitment.rs:192-223 | an accepted operator-key rotation switches that key from its view on and touches nothing else |
| `KeyEffects.CancelUndoesRotation` | crates/boule-consensus/src/validator_key_history.rs:257-282 | cancelling a rotation before it takes effect restores the lists, and the whole history if and only if the rotation was to a key nobody had held |
| `KeyEffects.AdmittedSigningKey` | crates/boule-consensus/src/history_commitment.rs:359-364 | a validator added under an unused id signs with it from the effective view on and not before |
| `KeyEffects.AdmittedDeclaredKeys` | crates/boule-consensus/src/history_commitment.rs:366-388 | a validator added holds exactly the BLS key of its proof and the operator key it declared, from the effective view on and not before |
| `KeyEffects.RegisteredKey` | crates/boule-consensus/src/history_commitment.rs:366-388 | a registered add gets exactly the key it declared |
| `Provenance.ChainTraced` | crates/boule-consensus/src/history_commitment.rs:392-491 | over every chain, every key in a validator's list after its first was scheduled, at least two views ahead, by a rotation in the chain that names that validator, carries a proved BLS key, and is signed by the key that was the validator's latest when the rotation was carried out or by its operator key active in the committing view |
| `Provenance.StepAuthorised` | crates/boule-consensus/src/history_commitment.rs:403-461 | on any histories, each later key that one command adds to a validator's list it schedules for that validator, with the signature of its latest key or active operator key on those histories |
| `CommandEffects.RotationIff` | crates/boule-consensus/src/history_commitment.rs:403-461 | a rotation takes effect exactly when it is signed by the latest key of the validator it names, proves its BLS key, is two views ahead, after the last entry, and to a key free for that validator; it then appends to both lists and the index |
| `CommandEffects.OperatorRotationIff` | crates/boule-consensus/src/history_commitment.rs:119-159 | an operator-signed rotation takes effect exactly when it is signed by the operator key in force in the committing view and otherwise as in order; same effect |
| `CommandEffects.CancellationIff` | crates/boule-consensus/src/history_commitment.rs:43-83 | a cancellation takes effect exactly when the rotation is pending and it is signed by the key in force and the pending key; it drops that entry, its index and the BLS entry of the same view |
| `CommandEffects.OperatorKeyIff` | crates/boule-consensus/src/history_commitment.rs:192-223 | a rotation of an operator key takes effect exactly when signed by the operator key in force and later than the last; it appends that key and touches nothing else |
| `Accountability.RemovalsSigned` | crates/boule-consensus/src/history_commitment.rs:43-83 | over every chain, an entry of a key list at the start of any stretch is in its place at the end, or a command of the chain cancelled it, signed by the key then in force and by the pending key |
| `Accountability.StepKeepsOrCancels` | crates/boule-consensus/src/history_commitment.rs:43-83 | on any histories, what one command takes from a key list it cancels with both signatures, in its own pass |
| `Accountability.OperatorKeysSigned` | crates/boule-consensus/src/history_commitment.rs:192-223 | over every chain operator keys are never taken away; each new one was declared by the accepted reconfiguration that added the validator, or put there by a rotation signed by the operator key in force in its block |
| `Accountability.StepExplainsOperators` | crates/boule-consensus/src/history_commitment.rs:318-491 | on any histories, what one command adds to an operator list it declares or has signed, in its own pass |
| `LiveHistory.LiveEqualsFoldIff` | crates/boule-node/src/consensus_node/reconfig_apply.rs:48-188 | over every chain the histories of a running node equal the fold of the two apply functions, key lists alone or all of them, if and only if no accepted reconfiguration adds a validator the key history does not know |
| `LiveHistory.LiveListsFixed` | crates/boule-node/src/consensus_node/reconfig_apply.rs:48-188 | over every chain the validators with a live signing-key list are those the node started with |
| `LiveHistory.LiveSetsEqualFold` | crates/boule-node/src/consensus_node/reconfig_apply.rs:48-188 | over every chain the live validator sets and operator keys are those of the fold |
| `Restart.RestartPassesIff` | crates/boule-node/src/consensus_node/persistence.rs:345-530 | a node that ran from genesis and stored its key history, on a chain whose blocks are stamped on any committed prefixes, passes the consistency check after a restart if and only if no accepted reconfiguration added a validator its key history did not know and every block gives the same commitment on the histories at its stamp as on those of all its ancestors |
| `Restart.QuietClaimIff` | crates/boule-node/src/consensus_node/action_interpreter.rs:763-774 | the claim of a block without history commands holds of the rebuild if and only if no ancestor added an unknown validator and the ancestors not yet committed at its stamp leave the covered histories as they were |
| `Restart.UntouchedClaimHolds` | crates/boule-node/src/consensus_node/action_interpreter.rs:763-774 | the claim of any block holds if no ancestor committed at its stamp added an unknown validator and the later ancestors leave the covered histories as they were |
| `Restart.QuietOrAppliedPassesIff` | crates/boule-node/src/consensus_node/persistence.rs:345-530 | with every block stamped on all its ancestors or without history commands, the check passes if and only if no unknown validator was added and every stamp saw the covered histories of all ancestors |
| `Restart.RestartPassesWhenApplied` | crates/boule-node/src/consensus_node/persistence.rs:345-530 | with every block stamped on all its ancestors, the check passes if and only if no unknown validator was added |
| `Restart.StoredPassesIff` | crates/boule-node/src/consensus_node/persistence.rs:484-528 | whatever is stored, with the genesis entries intact and every claim true of the fold, the check passes exactly when stored sets, signing keys and BLS keys are those of the fold |
| `Restart.UnknownNeverPasses` | crates/boule-node/src/consensus_node/persistence.rs:496-506 | once an unknown validator was added, no claims make a stored key history pass |
| `Restart.StaleStampFailsRestart` | crates/boule-node/src/consensus_node/persistence.rs:463-483 | one block without history commands, stamped while an ancestor that changes the covered histories was not committed, fails every restart on its chain |
| `Restart.StampBeforeCommitFailsRestart` | crates/boule-node/src/consensus_node/action_interpreter.rs:763-774 | one accepted rotation and then an empty block stamped before the rotation was committed: nobody is added, live histories and fold agree, and the check fails at the second claim |
| `Restart.RepeatedRotationClaimHolds` | crates/boule-node/src/consensus_node/action_interpreter.rs:763-774 | the same accepted rotation in two blocks, both stamped on genesis: the first changes the covered histories and the second claim holds all the same, so for blocks with commands an untouched cover is not needed |
| `Restart.QuietStampAcceptedIff` | crates/boule-consensus/src/dispatch/verify/proposal_history.rs:22-38 | a receiver that recomputes the claim of a block without history commands on its own committed prefix finds it right if and only if its covered histories are those of the leader |
| `UnstoredKeys.UnstoredPassesIff` | crates/boule-node/src/consensus_node/mod.rs:631-643 | without a stored key history, and with no rotation or cancellation accepted by the node or by the fold, the check passes if and only if every claim holds of the rebuild, whatever validators were added |
| `UnstoredKeys.UnstoredMissesRotation` | crates/boule-node/src/consensus_node/mod.rs:631-643 | where the fold holds a second key for some validator, a key history derived from the sets never passes |
| `UnstoredKeys.FromSetsExact` | crates/boule-consensus/src/validator_key_history.rs:104-121 | every member of any set, and nobody else, gets its id as only key, from the first boundary that lists it |
| `UnstoredKeys.FromSetHistory` | crates/boule-consensus/src/validator_key_history.rs:104-121 | the nested loops compute that history: each member under its id from the first boundary that lists it |
| `UnstoredKeys.FoldKeysDerived` | crates/boule-consensus/src/validator_key_history.rs:104-121 | over every chain from genesis without an accepted rotation or cancellation, the signing-key history of the fold is the one derived from the set history |
| `Restart.AddThenRotateFailsRestart` | crates/boule-node/src/consensus_node/reconfig_apply.rs:154-188 | one accepted add, one accepted rotation and a restart: the live histories are out of lockstep and fail the check |
| `Restart.LiveLockstepIff` | crates/boule-node/src/consensus_node/reconfig_apply.rs:154-188 | an accepted reconfiguration keeps the live signing-key and BLS histories in lockstep if and only if every new member already has a key list |
| `Restart.SeedsOfLive` | crates/boule-node/src/consensus_node/persistence.rs:278-343 | over every chain the seeds read out of the live histories are the genesis histories |
| `HistoryApply.ApplyLiveReconfigs` | crates/boule-node/src/consensus_node/reconfig_apply.rs:30-218 | the loop of the running node equals the live pass of the specification |
| `HistoryApply.ApplyLiveBlock` | crates/boule-node/src/consensus_node/rotation_apply.rs:21-222 | both live functions on one block equal the live block of the specification |
| `Rebuild.SeedsOfFold` | crates/boule-node/src/consensus_node/persistence.rs:278-343 | over every chain the seeds read out of the fold are the genesis histories |
| `Rebuild.PassedClaimsMeanStamped` | crates/boule-node/src/consensus_node/persistence.rs:463-483 | with an injective commitment, a rebuild that meets every claim is the history the chain was stamped with |
| `Rebuild.GenesisIsOk` | crates/boule-node/src/consensus_node/persistence.rs:438-443 | the genesis histories a rebuild starts from are well formed |
| `Rebuild.SeedsAreGenesis` | crates/boule-node/src/consensus_node/persistence.rs:278-343 | whatever a chain added, filtering to view 0 gives the genesis lists |
| `Rebuild.GenesisOnlyOfGrown` | crates/boule-node/src/consensus_node/persistence.rs:278-310 | the filter keeps exactly the genesis entry of exactly the genesis validators |
| `Rebuild.VerifyPersistedHistory` | crates/boule-node/src/consensus_node/persistence.rs:445-530 | accepts exactly when every block claims the commitment of the rebuilt histories and the loaded set, key and BLS histories equal the rebuild; a mismatch names the first block |
| `SnapshotChunks.WindowsCover` | crates/boule-consensus/src/replication/snapshot.rs:349-363 | chunks are non-empty, all but the last are full, and in order they are the payload |
| `SnapshotChunks.ChunksRoundTrip` | crates/boule-consensus/src/replication/snapshot.rs:349-375 | assembling the chunks of a payload gives it back, the empty one included |
| `SnapshotChunks.MatchingChunksAssemble` | crates/boule-consensus/src/replication/snapshot.rs:285-307 | with an injective hash, chunks matching the hashes of a payload assemble to it |
| `SnapshotChunks.ChunkSnapshot` | crates/boule-consensus/src/replication/snapshot.rs:349-363 | the loop yields those chunks with their hashes |
| `SnapshotChunks.AssembleChunks` | crates/boule-consensus/src/replication/snapshot.rs:365-375 | the loop yields their concatenation |
| `SnapshotSync.PickExact` | crates/boule-consensus/src/snapshot_sync.rs:478-497 | the search finds a sendable request exactly when there is one |
| `SnapshotDecisions.NextIsFirst` | crates/boule-consensus/src/snapshot_sync.rs:478-497 | what is sent next is for the first slot that anybody can serve, to the first candidate that can |
| `SnapshotDecisions.ScheduleExact` | crates/boule-consensus/src/snapshot_sync.rs:465-507 | the scheduler only puts pending slots in flight at candidates they have not tried, requests exactly those, and goes on until four are in flight or nothing can be sent |
| `SnapshotDecisions.RequestsNameSnapshot` | crates/boule-consensus/src/snapshot_sync.rs:465-507 | each request names the height of the manifest, and there is one for each slot put in flight |
| `SnapshotDecisions.ReactsIff` | crates/boule-consensus/src/snapshot_sync.rs:266-300 | the machine reacts to a chunk response exactly when it is for its snapshot and from the peer the slot waits for |
| `SnapshotDecisions.UndeliveredIff` | crates/boule-consensus/src/snapshot_sync.rs:266-325 | a declined or bad chunk ends the download exactly when it is the slot's third failure or nobody is left to ask, with the reason; otherwise the peer counts as tried, stays candidate if it declined, and the chunk is pending or in flight at somebody not tried |
| `SnapshotDecisions.DeliveredIff` | crates/boule-consensus/src/snapshot_sync.rs:266-325 | a delivered chunk ends the download in its restore exactly when it was the last missing, and in an abort exactly when none of the others is in flight and nobody is left to ask for them; otherwise it is kept |
| `SnapshotDecisions.DisconnectIff` | crates/boule-consensus/src/snapshot_sync.rs:327-372 | the disconnection of a candidate ends the download exactly when one of its slots fails for the third time or has nobody left; otherwise its slots have failed once more and it is no candidate; of anybody else it changes nothing |
| `SnapshotDecisions.RemembersKnown` | crates/boule-consensus/src/snapshot_sync.rs:126-179 | over every run, until a download is under way the machine remembers exactly the validators that proposed and have not disconnected since |
| `SnapshotDecisions.StartIff` | crates/boule-consensus/src/snapshot_sync.rs:126-165 | an idle machine asks for a manifest exactly when snapshots are enabled and a validator proposes at least the interval above the committed height; it asks that proposer |
| `SnapshotDecisions.ManifestIff` | crates/boule-consensus/src/snapshot_sync.rs:200-264 | the primary's answer starts the download exactly when its manifest verifies, with everybody remembered as candidate; any other answer of it, and its disconnection, ends it |
| `SnapshotDecisions.CandidateJoins` | crates/boule-consensus/src/snapshot_sync.rs:166-198 | a new candidate of a download under way joins the others, and the scheduler runs again |
| `SnapshotDecisions.StrangerIgnored` | crates/boule-consensus/src/snapshot_sync.rs:134-143 | a proposal of nobody in the validator set, or with snapshots disabled, changes nothing in any state |
| `SnapshotRuns.RunOk` | crates/boule-consensus/src/snapshot_sync.rs:126-439 | over every run: no chunk requested twice from one peer, at most three requests per chunk, counters within two per peer and four in all, a download with chunks always has one in flight, every restore made of verified chunks in order |
| `SnapshotRuns.StepOk` | crates/boule-consensus/src/snapshot_sync.rs:126-439 | every event in every state keeps all of that |
| `SnapshotRuns.ScheduleGood` | crates/boule-consensus/src/snapshot_sync.rs:465-507 | the scheduler keeps it too |
| `SnapshotRuns.RestoreIsOriginal` | crates/boule-consensus/src/snapshot_sync.rs:413-439 | if the manifest hashes came from splitting a payload, what is restored is that payload |
| `SnapshotRuns.FinalStatesAbsorb` | crates/boule-consensus/src/snapshot_sync.rs:177 | after `Done` or `Aborted` nothing changes the state or causes an action |
| `SnapshotRuns.AcceptedDecreasesWork` | crates/boule-consensus/src/snapshot_sync.rs:266-325 | every accepted response decreases a fixed measure |
| `SnapshotRuns.WorkNeverGrows` | crates/boule-consensus/src/snapshot_sync.rs:126-439 | no event increases it |
| `SnapshotCounters.CountersExactWithoutBadChunks` | crates/boule-consensus/src/snapshot_sync.rs:294-296 | on a run without failed verifications every counter equals the slots in flight |
| `SnapshotCounters.InFlightLimits` | crates/boule-consensus/src/snapshot_sync.rs:472-501 | on such a run at most two slots per peer and four in all are in flight |
| `SnapshotCounters.BadChunkExactIff` | crates/boule-consensus/src/snapshot_sync.rs:303-304 | a failed verification keeps exact counters exact if and only if the peer had no other slot in flight |
| `SnapshotCounters.DisconnectFreesSlotsIff` | crates/boule-consensus/src/snapshot_sync.rs:343-369 | a disconnection leaves no slot waiting for the peer if and only if it was still a candidate or had none in flight |
| `SnapshotCounters.InFlightBound` | crates/boule-consensus/src/snapshot_sync.rs:303-304 | over every run at most four chunks are in flight beyond one for each failed verification so far |
| `SnapshotLimits.AcceptedAtMostThreePerChunk` | crates/boule-consensus/src/snapshot_sync.rs:266-325 | over every run at most three responses per chunk are accepted |
| `SnapshotLimits.SlotWaitsForGonePeer` | crates/boule-consensus/src/snapshot_sync.rs:303-351 | a run with two slots in flight at one peer, one bad chunk and its disconnection, after which a slot still waits for it and no counter knows |
| `SnapshotCompletion.CleanRunCompletes` | crates/boule-consensus/src/snapshot_sync.rs:266-439 | a run on which the manifest verifies, every awaited chunk verifies or is declined before its third failure with somebody left to ask, and no peer leaves never aborts, waits for some peer as long as a chunk is missing, and restores if and only if it has chunks to fetch and that many were delivered |
| `SnapshotCompletion.HonestAnswersRestore` | crates/boule-consensus/src/snapshot_sync.rs:266-325 | from every such run under way, declines included, whose manifest describes a payload, answers to outstanding requests, one for each missing chunk, end in the restore of that payload |
| `SnapshotCompletion.DoneIffRestored` | crates/boule-consensus/src/snapshot_sync.rs:413-439 | over every run the machine is done exactly when it has emitted a restore |
| `SnapshotCompletion.StuckWhileAway` | crates/boule-consensus/src/snapshot_sync.rs:303-351 | a slot that waits for a peer that is no candidate waits on, unless the download aborts, through every sequence of events without a chunk from that peer or its return as candidate, and nothing is restored |
| `SnapshotCompletion.GonePeerBlocksRestore` | crates/boule-consensus/src/snapshot_sync.rs:303-351 | the run with the bad chunk never restores while the peer that sent it stays away |
| `SnapshotRuns.FreshSends` | crates/boule-consensus/src/snapshot_sync.rs:232-263 | a verified manifest with chunks leads to a request at once |
| `SnapshotMachine.RunSchedule` | crates/boule-consensus/src/snapshot_sync.rs:465-507 | the scheduling loop computes the specified state and requests |
| `SnapshotMachine.FindNext` | crates/boule-consensus/src/snapshot_sync.rs:478-494 | the search over slots and candidates |
| `SnapshotMachine.SnapshotDownload.ObserveProposal` | crates/boule-consensus/src/snapshot_sync.rs:126-179 | the state and actions after a proposal |
| `SnapshotMachine.SnapshotDownload.AddCandidate` | crates/boule-consensus/src/snapshot_sync.rs:181-198 | the state and actions after a new candidate |
| `SnapshotMachine.SnapshotDownload.OnManifestResponse` | crates/boule-consensus/src/snapshot_sync.rs:200-264 | the state and actions after a manifest |
| `SnapshotMachine.SnapshotDownload.OnChunkResponse` | crates/boule-consensus/src/snapshot_sync.rs:266-325 | the state and actions after a chunk |
| `SnapshotMachine.SnapshotDownload.OnPeerDisconnected` | crates/boule-consensus/src/snapshot_sync.rs:327-372 | the state and actions after a disconnection |
| `SnapshotMachine.SnapshotDownload.ScheduleElseAbort` | crates/boule-consensus/src/snapshot_sync.rs:385-411 | schedules, or aborts when nothing is in flight and nothing can be sent |
| `SnapshotMachine.SnapshotDownload.TryFinishOrSchedule` | crates/boule-consensus/src/snapshot_sync.rs:413-439 | restores when every chunk is there |
| `WalRefinement.DiskRefinesMemory` | crates/boule-core/src/storage/disk.rs:187-294 | over every run without interference, with appends and the halves of truncations between the parts of a flush and crashes anywhere, reading from any number, or from the cut on between the halves of a truncation, gives exactly what the log in memory gives |
| `WalHistory.ReadsWhatWasAppended` | crates/boule-core/src/storage/disk.rs:187-294 | over every run without interference and crash, reading from a number lists in order exactly the records appended from that number on that no later truncation cut |
| `WalHistory.CrashKeepsFlushed` | crates/boule-core/src/storage/disk.rs:150-227 | after a crash at any point of such a run, reading lists exactly the records that a committed flush had copied and no truncation cut |
| `WalHistory.FlushMakesDurable` | crates/boule-core/src/storage/disk.rs:195-227 | a flush makes everything appended before it durable; with an empty buffer it already was |
| `WalHistory.DamageReportedIff` | crates/boule-core/src/storage/disk.rs:229-270 | reading fails exactly when a row from the number on is not its checksum followed by its payload, and reports the first such row |
| `WalHistory.OpensAt` | crates/boule-core/src/storage/disk.rs:150-183 | the next number is the stored one, or one above the greatest row, or 1 |
| `WalRefinement.StepSim` | crates/boule-core/src/storage/disk.rs:187-294 | every event that does not interfere keeps the relation between the two logs |
| `WalRefinement.IterRefines` | crates/boule-core/src/storage/disk.rs:229-270 | related logs list the same records, and every checksum verifies |
| `WalRefinement.CrashKeepsCommitted` | crates/boule-core/src/storage/disk.rs:195-227 | a crash at any point keeps exactly the records below the mark of the last committed flush |
| `WalRefinement.ReopenNeverReuses` | crates/boule-core/src/storage/disk.rs:162-174 | after reopening the next number is above every surviving record |
| `WalRefinement.ReopenWithoutMeta` | crates/boule-core/src/storage/disk.rs:167-173 | the fallback without a stored number does the same while the last number is not the largest one |
| `WalRefinement.TruncateDuringFlushIff` | crates/boule-core/src/storage/disk.rs:272-293 | a truncation between the copy and the commit of a flush keeps the logs equal if and only if no copied record is below the cut |
| `WalRefinement.FlushDuringTruncateIff` | crates/boule-core/src/storage/disk.rs:277-292 | a flush that starts between the halves of a truncation keeps the logs equal if and only if the buffer holds no record below the cut |
| `WalRefinement.AppendDuringTruncateIff` | crates/boule-core/src/storage/disk.rs:277-292 | an append between the halves of a truncation keeps the logs equal if and only if its number is not below the cut |
| `WalLimits.TruncationUndoneByCommit` | crates/boule-core/src/storage/disk.rs:204-227 | append, copy, truncate, commit, drain: the log on disk lists the record that was cut |
| `WalLimits.TruncationUndoneByCopy` | crates/boule-core/src/storage/disk.rs:277-292 | append, cut rows, copy, cut buffer, commit, drain: the same |
| `WalLimits.AppendLostInTruncation` | crates/boule-core/src/storage/disk.rs:277-292 | cut rows beyond the end, append, cut buffer: the new record is lost |
| `WalLimits.SplitReadMisses` | crates/boule-core/src/storage/disk.rs:229-264 | an iteration around the commit and drain of a flush misses the record it carried |
| `WalRefinement.SplitReadIff` | crates/boule-core/src/storage/disk.rs:229-264 | an iteration whose two reads straddle the commit and drain of a flush lists the whole log if and only if the flush carried nothing it needed |
| `Wal.SortDedupExact` | crates/boule-core/src/storage/disk.rs:266-267 | sorting and removing duplicates invents no record and loses no number |
| `Wal.Unsealed` | crates/boule-core/src/storage/disk.rs:245-253 | a stored row opens to the payload it was written with |
| `WalLogs.MemoryWal.Append` | crates/boule-core/src/storage/memory.rs:118-124 | the record takes the next number, from 1, and reading from it gives it alone |
| `WalLogs.MemoryWal.IterFrom` | crates/boule-core/src/storage/memory.rs:130-136 | the records from a number on |
| `WalLogs.MemoryWal.TruncateBefore` | crates/boule-core/src/storage/memory.rs:138-143 | the records below a number are gone |
| `WalLogs.DiskWal.Open` | crates/boule-core/src/storage/disk.rs:150-183 | the next number read back from the tables |
| `WalLogs.DiskWal.Append` | crates/boule-core/src/storage/disk.rs:187-193 | buffered under the next number |
| `WalLogs.DiskWal.BeginFlush` | crates/boule-core/src/storage/disk.rs:196-202 | the copy of the buffer and the target |
| `WalLogs.DiskWal.CommitFlush` | crates/boule-core/src/storage/disk.rs:204-222 | one transaction with checksummed rows and the target |
| `WalLogs.DiskWal.DrainFlush` | crates/boule-core/src/storage/disk.rs:224-226 | what was committed leaves the buffer |
| `WalLogs.DiskWal.Flush` | crates/boule-core/src/storage/disk.rs:195-227 | without interference everything in the buffer becomes rows and the next number is stored; an empty buffer changes nothing |
| `WalLogs.DiskWal.IterFrom` | crates/boule-core/src/storage/disk.rs:229-270 | rows checked and opened, buffer appended, sorted, duplicates removed |
| `WalLogs.DiskWal.CutRows` | crates/boule-core/src/storage/disk.rs:277-288 | one transaction removes the rows below a number |
| `WalLogs.DiskWal.CutBuffer` | crates/boule-core/src/storage/disk.rs:290-291 | the buffer below that number is removed under the lock |
| `WalLogs.DiskWal.TruncateBefore` | crates/boule-core/src/storage/disk.rs:272-293 | without interference rows and buffer below a number are removed |
| `RewardLedger.PayoutsNeverExceedIssuance` | crates/boule-consensus/src/replication/reward_ledger.rs:32-52 | on every run from an empty ledger in which stakes change only after settling and block totals cover the stakes, payouts do not exceed the issuance, every balance is what an account of bonuses and shares kept beside the ledger says, and all of them are what was paid and granted |
| `RewardLedger.NothingWithheld` | crates/boule-consensus/src/replication/reward_ledger.rs:32-52 | on every run whose block totals are the stakes and whose payments fit their balances, what was paid and is still due falls short of the issuance by less than one unit for each settlement and one index unit for each unit of stake and block |
| `RewardLedger.NoOverflow` | crates/boule-consensus/src/replication/reward_ledger.rs:32-46 | while the total issued, times the scale, fits in 128 bits, so do the index and every product of a stake with its unsettled index |
| `RewardLedger.RunSolvent` | crates/boule-consensus/src/replication/reward_ledger.rs:32-52 | every such run keeps payouts and what is still due, times the scale, within the issuance |
| `RewardLedger.BlockSolvent` | crates/boule-consensus/src/replication/reward_ledger.rs:32-40 | a block adds no more to what is due than it issues, rounding included |
| `RewardLedger.SettleSolvent` | crates/boule-consensus/src/replication/reward_ledger.rs:42-52 | a settlement pays no more than what stops being due, with truncation and saturation |
| `RewardLedger.ClaimableIsSettled` | crates/boule-consensus/src/replication/reward_ledger.rs:58-66 | `claimable` is the balance that settling would leave, and settling again adds nothing |
| `RewardLedger.Rewards.AccrueBlock` | crates/boule-consensus/src/replication/reward_ledger.rs:32-40 | index and bonus after a block; nobody has earned less, no other balance changes, and the proposer has the bonus more, up to the 64-bit limit |
| `RewardLedger.Rewards.SettleStake` | crates/boule-consensus/src/replication/reward_ledger.rs:42-52 | balance and last index after settling; the balance is what `claimable` announced |
| `Codec.BeRoundTrip` | crates/boule-reth/src/registry_payload.rs:51-54 | big-endian writing and reading of a number that fits |
| `Codec.FromBeRoundTrip` | crates/boule-reth/src/registry_payload.rs:90-95 | reading and writing back the same bytes |
| `CodecLayout.BeDigit` | crates/boule-reth/src/registry_payload.rs:51-54 | the most significant byte comes first |
| `CodecLayout.RegistryLayout` | crates/boule-reth/src/registry_payload.rs:39-69 | magic, version, flag, settled view, counted keys in records of 168 bytes and counted weights in records of 40, each field at its offset |
| `CodecLayout.WeightProofLayout` | crates/boule-reth/src/weight_proof.rs:150-169 | magic, version and count, then each proof with node, weight, anchor, receipt index, receipt and nodes at their offsets |
| `Codec.Cursor.TakeBytes` | crates/boule-reth/src/registry_payload.rs:138-143 | advances only when enough bytes are left |
| `RegistryCodec.DecodeIff` | crates/boule-reth/src/registry_payload.rs:79-125 | accepts exactly the encodings of payloads in range, under any flags byte with the right low bit |
| `RegistryCodec.RoundTripIff` | crates/boule-reth-node/src/registry.rs:43-120 | `decode(encode(p)) == p` exactly for payloads with 128-byte keys, numbers in range and fewer than 2^32 items per list |
| `RegistryCodec.ReencodeClearsFlags` | crates/boule-reth/src/registry_payload.rs:39-125 | accepted bytes re-encode to themselves with the seven unused flag bits cleared |
| `RegistryCodec.DecodeInjectiveUpToFlags` | crates/boule-reth-node/src/registry.rs:74-120 | two byte strings decode to the same payload only if they differ at most in those bits |
| `RegistryCodec.EncodePayload` | crates/boule-reth/src/registry_payload.rs:39-69 | the buffer-appending loops produce the encoding |
| `RegistryCodec.DecodePayload` | crates/boule-reth/src/registry_payload.rs:79-125 | the cursor loops decide as specified |
| `WeightProofCodec.DecodeIff` | crates/boule-reth/src/weight_proof.rs:175-211 | accepts exactly the encodings of proof sets in range: every accepted byte string is canonical |
| `WeightProofCodec.RoundTripIff` | crates/boule-reth/src/weight_proof.rs:150-211 | `decode(encode(s)) == s` exactly for proof sets in range |
| `WeightProofCodec.EncodeSet` | crates/boule-reth/src/weight_proof.rs:150-169 | the nested loops produce the encoding |
| `WeightProofCodec.DecodeSet` | crates/boule-reth/src/weight_proof.rs:175-211 | the nested cursor loops decide as specified |

## Left out

- Agreement.AgreementOverRuns: the lock condition is sufficient and not necessary for a whole run, since a run may agree by luck; for single deliveries `LockTracking.LocksFollowViewsIff` is exact.
- Agreement.AgreementOverRuns: one validator-set regime; adoption of a snapshot, restarts from persisted state and the assembly of certificates from single votes are not events of the run.
- Progress.FourRoundsCommit: proposals are delivered to all nodes in rounds, with room for four blocks in every cache; view changes by timeout, message loss and the choice of the leaders are not events of the run.
- HotStuff.HotStuffState.OnProposalReceived: a proposal with an unknown parent is parked and retried by the original; here it changes nothing, and a later delivery stands for the retry.
- SignerBitmaps.QuorumCertificate.AddBlsPartial: the aggregate is the list of partials added, not a curve point.
- Histories.StepKeepsOk: a BLS list emptied by a cancellation outside lockstep makes the original panic at its next use; the model treats that use as refused, and `Lockstep.LockstepListsNonEmpty` shows when it cannot happen.
- HistoryApply.VersionedKeys.ApplyRotation: one generic class stands for the BLS and the operator history, and the panic on an empty list is a refusal.
- HistoryApply.VersionedKeys.CancelPendingRotation: the panic on an empty list is a refusal.
- Rebuild.VerifyPersistedHistory: the walk over stored parent links, the skip for a pruned chain and the genesis-hash comparison are not modelled; the chain is given in order. Like the original it does not compare the loaded operator history beyond its view-0 entries.
- Restart.RestartPassesIff: a node that restarts in the middle of a chain and then goes on is not modelled; the claims of the chain are given with the committed prefix each was stamped on, not derived from a run of the protocol.
- UnstoredKeys.UnstoredPassesIff: a chain on which the fold accepts a rotation and later its cancellation, while the node refuses both, is decided neither here nor in `UnstoredKeys.UnstoredMissesRotation`.
- LiveHistory.LiveEqualsFoldIff: endpoint seeding, the leader selector and the writes to storage in the live functions are not modelled; a live node without a BLS history panics where the model skips it.
- SnapshotMachine.SnapshotDownload.OnManifestResponse: manifest checks other than the chunk layout are one verdict supplied with the manifest; 32-bit chunk indices are natural numbers.
- WalRefinement.DiskRefinesMemory: one flusher and one truncator at a time; an iteration takes both its reads at one point between the steps of other operations (`WalRefinement.SplitReadIff` covers a flush in between); log numbers are unbounded except in the reopening fallback.
- RewardLedger.PayoutsNeverExceedIssuance: the 128-bit index and its products are unbounded; `RewardLedger.NoOverflow` shows when they fit. 64-bit truncation and saturation of balances are modelled.
- RewardLedger.NothingWithheld: the same; a block whose total exceeds the stakes leaves the rest of its issuance with nobody, as in the original.
- RewardLedger.RunSolvent: the same.
- RewardLedger.BlockSolvent: the same.
- RewardLedger.Rewards.AccrueBlock: the same.
- RegistryCodec.RoundTripIff: both crates that implement this format are one model, since their encoders and decoders are the same function on it; fixed-size key arrays are byte strings of length 128.
- Views and heights are natural numbers, except where the original saturates or checks an overflow.
- Round-robin leader selection, quorum sizes by count, the vote bucket and the equivocation evidence: simple lookups.
- Persisted forms of the BLS and operator histories: the same loops as the signing-key history with fewer checks.
- Ancestor rehydration, storage keys and the write batches of the node: plumbing around the modelled state.
- Cryptography and the postcard encoding: only their use is modelled.
- The endpoint registry, consensus parameters, rate limiting, pacemaker timers, networking, RPC, execution-layer and command-line code.
