# Verification of the rotation and recovery control plane

This project models protocol version 3 of the guardian network, the part that decides who
may hold recovery material and when it may be released, together with the version-2
mailbox and two arithmetic kernels. `dafny verify dfyconfig.toml` checks all of it.

**Witnesses** (`WitnessRegister`, `WitnessEntry`, `WitnessNetwork`, `WitnessTheorems`,
`WitnessEvidence`, `WitnessForks`, `WitnessAgreement`, `EpochWitness`). A configuration
witness keeps a register of locked children, its finalised capsule, at most one pending
child with its signed ack, and the owner's vetoes. The network module runs `3f + 1` such
witnesses, at most `f` of them faulty, under arbitrary request sequences, with a history of
everything correct witnesses signed. The only restriction on an adversary is that a correct
witness's ack cannot be forged. The theorems are about every such run: every ack, veto,
answer and finalisation rests on the signatures it should, a fork leaves evidence and takes
a certain number of retractions, finalised chains agree, an owner's veto quorum is final.

**Readers** (`EpochSelection`, `Endorsements`, `SelectionOrder`, `SelectionOutcome`,
`SampleReads`, `ReadFreshness`, `ReadAvailability`). Validation of a Recovery Card and of
activated capsules, selection of the latest epoch from a read, when the order of the answers
decides it, and why a fresh read never falls behind what `f + 1` correct witnesses have
finalised, and when it decides.

**Signers** (`RotationPlans`, `SignerLocks`, `SignerRuntime`, `SignerHistory`,
`SignerEvidence`, `SignerCertificates`). One-for-one rotation plans and chains of them; the
plan lock, vote and tombstone maps of one signer; whole runs of a signer, and of a signer
set with faulty members; what each vote stands for and what a threshold of votes is worth.
`SignerReads` says when a signer's view of the epoch can fall, `SignersAndWitnesses` what a
signer's change of vote says about the witnesses.

**Guardians** (`GuardianEpochs`, `GuardianEpochObject`, `GuardianEpochRuns`,
`GuardianRecoveries`, `GuardianEntry`, `GuardianRuntime`, `GuardianRuns`,
`GuardianTheorems`, `GuardianReleases`, `GuardianHandover`, `GuardianRetirement`,
`GuardianRotations`, `GuardianWedge`). The store of ACTIVE, PREPARED and DRAINING records,
the recovery handler on top of it, the rotation handlers around both, and whole runs of the
entry. `GuardiansAndWitnesses` carries the witnesses' theorems over to the capsules that
readers believe and guardians follow, and `ImmutablePolicy` says what of them never changes.

**Machines** (`EpochRecovery`, `EpochRecoveryRuns`, `GuardianMachineV2`, `GuardianMailbox`,
`HardCancel`). The I/O-free recovery machine over whole runs, the version-2 guardian machine
and the mailbox that rebuilds it for every release, and the owner's hard cancel.

**Kernels** (`Erasure`, `ShareBitmap`). Striping, padding and truncation around a
Reed-Solomon coder, and the duplicate test on share indices.

## How to read it

What the program mutates is a class whose methods follow the source's order of tests and
assignments; each is proved against a function on the object's value. What holds over runs
is proved about those functions. SHA-256 is a collision-free symbol (`Of(x)`), a signature
verifies when it is the one its key makes over that message, and a Merkle-committed signer
set is the map it commits to. Time and epochs are 64-bit with saturating addition. A
handler's change and the save that follows it are one step. Verdicts on certificates that
the model does not open are boolean parameters. Method names are those of the source in
this project's spelling; a reject is `None`, `false` or the error value.

## What the code does that its documentation does not say

- `select_latest_epoch_v3` marks a witness as seen before it checks the signature, so the
  order of the envelopes can decide. Which witnesses count, and with which capsules, depends
  on it exactly when one witness's envelopes clash (`OrderMattersIffClash`). What is
  selected depends on it exactly when some capsule is possible and none is sure
  (`OutcomeOrderFreeIff`): a clash may or may not decide (`BothExist`). The separate
  genesis check can never fail (`GenesisCheckIsImplied`).
- The card check accepts more than `3f + 1` witnesses with the same quorum, where quorums
  need not meet in a correct witness (`QuorumsMeetOnlyAtMinimum`).
- A witness acks a sibling after the owner cancelled the child it acked first
  (`CancelReopensSlot`). Two certified children are possible exactly when the witnesses
  that do so and the faulty ones are `f + 1` (`ForkIffEnoughRetract`, `OneRetractorForks`).
- No card pins the genesis capsule. Past the first epoch a read of `2f + 1` correct answers
  decides whatever the rest says (`ReadDecides`); at the first epoch one pinned witness can
  keep it from deciding (`FirstEpochCanBeBlocked`).
- Signers compare neither the recovery delay, the request lifetime nor the suite of the
  successor they vote for, witnesses do: a complete signer certificate may be one that no
  witness acks (`WitnessAcksIffLimitsKept`).
- A signer checks neither the age nor the nonce of the read that comes with an Intent, and
  overwrites the epoch it observed, so an old Intent takes it back to an old epoch
  (`RepeatedIntentReturns`, `OldIntentRollsBack`); GUARDIAN_ROTATION.md:680-682 asks for a
  fresh read. On a fresh one it does not happen (`FreshReadKeepsEpoch`).
- An abort may overwrite the tombstone of an activated rotation (`AbortRewritesTombstone`).
- A draining epoch may never retire: `RetirableIff` says exactly when it still can. It
  cannot after a cancellation while it drains, a later activation, a reboot, or the expiry
  of a recovery it waits for (`CancelledDrainNeverRetires`, `ActivationEndsRetirement`,
  `RebootStrands`, `ExpiryStrands`). A shorter request lifetime would strand it as well
  (`ShorterLifetimeStrands`), but on genuine certificates the lifetime never changes
  (`GuardianPolicyIsImmutable`).
- The drain deadline is compared with a time in the retirement request, not with the
  guardian's clock (`RetireNow`).
- A guardian that was rotated out can never activate again from the same entry
  (`ReplacedForGood`), because its store keeps expecting the older predecessor.
- An activation the store refuses has already moved the session's machine, and the
  rotation can then be neither activated nor cancelled (`RefusedActivationWedges`). A
  record left prepared for an earlier rotation is enough (`WedgeIsReachable`). The refused
  request is not saved (crates/gp-network/src/server.rs:1749-1763): the wedge lives in
  memory until another request on the store saves it, and a restart before that undoes it.
- At the largest 64-bit epoch the counter stands still; `ActivationLosesDraining`, `Drops`
  and `LastEpochRetirementIsNotFinal` say what fails there, and all other results need no
  such restriction or state it.
- A replayed nonce uses up a new request id (`BeginBurnsId`); `Expired` is final only under
  a wall clock that does not run back (`ExpiryFollowsWallClock`, `ExpiredMayRevive`).
- The mailbox blocks a Begin only under the digest that was cancelled, a kept machine under
  any. Their verdicts on a release differ exactly after a cancellation under the id that
  came before the Begin (`RebuildDiffersIff`).
- The coordinator encodes successor fragments under the new threshold but compares the root
  with the old one (`OtherThresholdKeepsRootIff`).

## Model

| member | source | states |
|---|---|---|
| `WitnessRegister.WitnessEpochStore.PersistSuccessorBeforeAck` | crates/gp-storage/src/rotation.rs:475-503 | one child per predecessor hash: exactly when it is accepted, when it is a conflict, and the whole new register; a repeat changes nothing |
| `WitnessRegister.WitnessEpochStore.CancelPendingSuccessor` | crates/gp-storage/src/rotation.rs:509-528 | accepted exactly for the head child under its lock; then the register stands on the predecessor with that lock gone, otherwise nothing changes |
| `WitnessRegister.WitnessEpochStore.ObserveReadNonce` | crates/gp-storage/src/rotation.rs:530-536 | a nonce is answered once |
| `EpochTypes.CountPinnedWitnesses` | crates/gp-network/src/server.rs:987-1008 | the ack loop succeeds exactly when all acks come from distinct pinned witnesses with valid signatures, and counts them |
| `WitnessEntry.WitnessServer.Provision` | crates/gp-network/src/server.rs:630-721 | accepted exactly with the operator's token, for an acceptable genesis of a configuration not yet held; adds one valid entry that stands on its genesis and keeps the others |
| `WitnessEntry.WitnessConfigEntry.Activate` | crates/gp-network/src/server.rs:826-941 | keeps the entry invariant; replies with the pending ack to a repeat, with a new ack exactly to an admissible certified child, and states the whole new entry |
| `WitnessEntry.WitnessConfigEntry.CancelRotation` | crates/gp-network/src/server.rs:723-824 | keeps the entry invariant; accepted exactly when the owner cancellation is authentic and not in conflict; the register rollback inside never fails |
| `WitnessEntry.WitnessConfigEntry.Finalize` | crates/gp-network/src/server.rs:944-1031 | keeps the entry invariant; the pending child becomes the capsule exactly on a quorum certificate that contains this witness's own ack |
| `WitnessEntry.WitnessConfigEntry.Read` | crates/gp-network/src/server.rs:1033-1076 | shows the finalised capsule, never the pending child, once per nonce |
| `WitnessEntry.ActivateKeepsValid` | crates/gp-network/src/server.rs:859-941 | after activation the register stands on the child that is locked under the capsule, acked, and not tombstoned |
| `WitnessEntry.CancelKeepsValid` | crates/gp-network/src/server.rs:763-804 | cancellation leaves the entry settled, with capsule and register agreeing |
| `WitnessEntry.FinalizeKeepsValid` | crates/gp-network/src/server.rs:949-1026 | finalisation turns the locked pending child into the settled capsule |
| `WitnessEntry.CancelUndoesActivate` | crates/gp-network/src/server.rs:763-804 | the owner's cancellation of an acked child is never refused and restores exactly the entry before the activation, apart from the tombstone |
| `WitnessNetwork.MoveKeepsConsistent` | crates/gp-network/src/server.rs:723-1076 | one step of a correct witness keeps the history invariant: acks are explained, siblings are separated by a veto, vetoes hold, finality is certified |
| `WitnessNetwork.RunsAreConsistent` | crates/gp-network/src/server.rs:723-1076 | every feasible run of the cluster satisfies that invariant |
| `WitnessEvidence.GenesisIsCanonical` | crates/gp-network/src/server.rs:630-686 | what provisioning establishes for a run: signer ids from 1 on, the capsule under its own hash, and pinned witness keys that tell the witnesses apart |
| `WitnessEvidence.RunIsRooted` | crates/gp-network/src/server.rs:859-1026 | every witness, at every moment of every run, has the signers, threshold, owner key, lifetime and suite of the genesis capsule and no shorter delay |
| `WitnessEvidence.VetoIsOwnerSigned` | crates/gp-network/src/server.rs:723-824 | every veto of a correct witness answers a delivered cancellation that carries the signature of the genesis capsule's owner key, in date, out of the capsule it had finalised, for exactly the rotation, plan and text recorded; and it carries the witness's own signature |
| `WitnessEvidence.AnswerShowsFinalised` | crates/gp-network/src/server.rs:1033-1076 | every answer of a correct witness shows the capsule it has finalised at that moment and signs that capsule's own hash and epoch, for a challenge in date |
| `WitnessEvidence.RunIsConsequent` | crates/gp-network/src/server.rs:785-811 | in every run a witness's vetoes of one rotation are for one plan and one cancellation, and it answers no nonce twice |
| `WitnessEvidence.AckRestsOnSigners` | crates/gp-network/src/server.rs:826-941 | every ack goes back to a delivered activation: a direct successor of the witness's finalised capsule under the genesis authorities, for whose hash a threshold of the genesis signers signed |
| `WitnessEvidence.FinalityRestsOnQuorum` | crates/gp-network/src/server.rs:944-1031 | a correct witness finalises only what it acked itself and `2f + 1` pinned witnesses attested, one step on from its capsule |
| `WitnessTheorems.ForkAccountability` | crates/gp-network/src/server.rs:723-1031 | quorum certificates for two children of one capsule exist only if a correct witness acked one, accepted a cancellation of that rotation and plan that was delivered to it under the owner's signature, and then acked the other |
| `WitnessTheorems.CancelReopensSlot` | crates/gp-network/src/server.rs:763-865 | how a witness comes to retract: after the cancellation it issues for the sibling the ack it would have issued at the start |
| `WitnessTheorems.OneChildPerPredecessor` | crates/gp-network/src/server.rs:826-1031 | without such a retraction certified children are unique |
| `WitnessTheorems.QcRestsOnSigners` | crates/gp-network/src/server.rs:866-1008 | no quorum certificate without the signers: a correct witness was delivered the Activate certificate it names, with a threshold of signatures for this child out of the capsule that witness had finalised |
| `WitnessForks.ForkNeedsRetractors` | crates/gp-network/src/server.rs:723-1031 | certificates for two children of one capsule need `f + 1` witnesses that are faulty or have retracted an ack, each of these on a delivered cancellation with the owner's signature |
| `WitnessForks.ForkIffEnoughRetract` | crates/gp-network/src/server.rs:723-941 | for certified siblings and an owner's cancellation of one of them, a feasible run with certificates for both and retractions by a given set of correct witnesses alone exists if and only if that set and the faulty witnesses are `f + 1` |
| `WitnessForks.ForkReachable` | crates/gp-network/src/server.rs:763-941 | that run: one camp acks the first child, the retractors veto it, and with the other camp ack the second |
| `WitnessForks.OneRetractorForks` | crates/gp-network/src/server.rs:763-941 | a cluster of four with one faulty witness in which a single retraction leads to two certified children |
| `WitnessTheorems.OwnerVetoIsFinal` | crates/gp-network/src/server.rs:763-865 | once `2f + 1` witnesses vetoed a rotation before acking it, no continuation of the run has a quorum certificate for it |
| `WitnessTheorems.QuorumsMeetOnlyAtMinimum` | crates/gp-network/src/rotation_protocol.rs:21-40 | the card check admits `n >= 3f + 1` with quorum `2f + 1`; two quorums are bound to share a correct witness exactly when `n == 3f + 1` |
| `WitnessAgreement.Agreement` | crates/gp-network/src/server.rs:826-1031 | unless `f + 1` witnesses are faulty or have retracted an ack, the finalised chains of any two correct witnesses are prefixes of one another, at every moment of every run |
| `WitnessAgreement.NoRetractionIsFew` | crates/gp-network/src/server.rs:826-1031 | in particular when nobody correct retracts |
| `EpochWitness.EpochWitnessMachine.AcceptSuccessor` | crates/gp-core/src/rotation.rs:367-412 | the I/O-free witness register: every refusal in order, and the whole new state |
| `EpochWitness.EpochWitnessMachine.Read` | crates/gp-core/src/rotation.rs:414-437 | a read is answered once per nonce with the highest locked epoch |
| `EpochWitness.EpochWitnessMachine.ObserveSameEpochConflict` | crates/gp-core/src/rotation.rs:439-450 | a different capsule at the head epoch makes the register fail closed |
| `EpochWitness.OneChild` | crates/gp-core/src/rotation.rs:367-412 | in every run, accepted successors of one predecessor are the same |
| `EpochWitness.ReadsDoNotRollBack` | crates/gp-core/src/rotation.rs:385-450 | a later answered read reports no lower epoch, and none is answered after a conflict |
| `EpochWitness.CoSimulate` | crates/gp-core/src/rotation.rs:385-412 | what the machine accepts the durable register accepts with the same effect; the register alone also takes repeats of a locked child that is no longer at the head |
| `EpochSelection.ValidateRecoveryCard` | crates/gp-network/src/rotation_protocol.rs:28-53 | accepts exactly the cards with `n >= 3f + 1`, `f > 0` and pairwise distinct pins |
| `EpochSelection.ValidateActivateCertificate` | crates/gp-network/src/rotation_protocol.rs:601-652 | accepts exactly certificates that bind the capsule and carry a threshold of distinct member votes |
| `EpochSelection.ValidateActivatedCapsule` | crates/gp-network/src/rotation_protocol.rs:654-726 | accepts exactly the bare genesis or a capsule certified by signers and by a pinned witness quorum |
| `Endorsements.ActivatedIsEndorsed` | crates/gp-network/src/rotation_protocol.rs:601-726 | past the first epoch, a capsule a reader believes has signatures of a threshold of the card's signers and of `2f + 1` of its witnesses over this very body out of this very parent |
| `EpochSelection.GenesisCheckIsImplied` | crates/gp-network/src/rotation_protocol.rs:789-813 | at epoch 1 the separate genesis count equals the number of accepted witnesses, so its check cannot fail |
| `EpochSelection.AcceptedIsCoherent` | crates/gp-network/src/rotation_protocol.rs:742-766 | accepted envelopes come from distinct witnesses, report their capsule's epoch and hash, and have epoch at least 1 |
| `EpochSelection.PickHighest` | crates/gp-network/src/rotation_protocol.rs:772-788 | the first capsule of maximal epoch, unless two at that epoch differ |
| `EpochSelection.SelectLatestEpoch` | crates/gp-network/src/rotation_protocol.rs:728-796 | succeeds exactly on `2f + 1` accepted distinct witnesses without a fork at the top, and returns a capsule of maximal accepted epoch |
| `SelectionOrder.OrderMattersIffClash` | crates/gp-network/src/rotation_protocol.rs:742-766 | which witnesses are accepted, and with which capsules, is the same for every order of the envelopes if and only if no witness's envelopes differ in authenticity or, being authentic, in their capsule |
| `SelectionOrder.AcceptedAreVouched` | crates/gp-network/src/rotation_protocol.rs:742-766 | without a clash in authenticity the accepted witnesses are those with some addressed authentic envelope |
| `SelectionOrder.WitnessesOrderFreeIffNoClash` | crates/gp-network/src/rotation_protocol.rs:742-766 | the set of accepted witnesses is the same for every order if and only if no witness's envelopes clash in authenticity |
| `SelectionOrder.SelectionIgnoresOrder` | crates/gp-network/src/rotation_protocol.rs:728-796 | the simplest order-free case: without clashes every order is decidable alike and has the same highest capsules |
| `SelectionOrder.ForgeryInFrontRemovesOne` | crates/gp-network/src/rotation_protocol.rs:742-766 | moving a forged envelope of an accepted witness to the front removes exactly that witness |
| `SelectionOrder.ClashBreaksTightQuorum` | crates/gp-network/src/rotation_protocol.rs:728-796 | the simplest case where it decides: when the quorum is just met, a forged envelope in front leaves nothing to select |
| `SelectionOutcome.SelectsIsChosen` | crates/gp-network/src/rotation_protocol.rs:742-788 | what one order selects, by the first envelope of each witness: a quorum counts, one with this capsule, none with another of its epoch or higher |
| `SelectionOutcome.SelectedByAllIffSure` | crates/gp-network/src/rotation_protocol.rs:728-796 | every order selects a capsule if and only if `2f + 1` witnesses have only authentic envelopes, one of them only for it, and every other authentic capsule has a lower epoch |
| `SelectionOutcome.SelectedBySomeIffPossible` | crates/gp-network/src/rotation_protocol.rs:728-796 | some order selects it if and only if it has an authentic envelope, `2f + 1` witnesses have one for it or a lower epoch, and no witness has only authentic envelopes that stand against it |
| `SelectionOutcome.OutcomeOrderFreeIff` | crates/gp-network/src/rotation_protocol.rs:728-796 | the outcome is the same for every order if and only if some capsule is sure or none is possible |
| `SampleReads.OneForgeryDecides` | crates/gp-network/src/rotation_protocol.rs:742-796 | three genuine answers and one forged: behind them it does no harm, in front of them nothing is selected |
| `SampleReads.BothExist` | crates/gp-network/src/rotation_protocol.rs:742-796 | reads of one card with a clash, one whose outcome depends on the order and one whose outcome does not |
| `ReadFreshness.QuorumMeetsFinalisers` | crates/gp-network/src/rotation_protocol.rs:728-796 | every selectable read quorum contains an accepted answer of a correct finaliser |
| `ReadFreshness.FinalisedEpochsRise` | crates/gp-network/src/server.rs:944-1076 | the finalised epoch of a correct witness never falls in any continuation |
| `ReadFreshness.NoRollbackOnRead` | crates/gp-network/src/rotation_protocol.rs:728-796 | after `f + 1` correct witnesses finalised epoch `e`, any capsule selected for a nonce they had not answered has epoch at least `e` |
| `ReadFreshness.QcHasCorrectSigners` | crates/gp-network/src/rotation_coordinator.rs:810-845 | the acking witnesses of a quorum certificate, who are asked to finalise, include `f + 1` correct ones |
| `ReadAvailability.FinalisedIsBelieved` | crates/gp-network/src/rotation_protocol.rs:654-726 | from a genesis capsule the reader believes in, every capsule any correct witness ever finalises is one it believes in |
| `ReadAvailability.AnswerCounts` | crates/gp-network/src/rotation_protocol.rs:742-766 | every answer of a correct witness to the reader's nonce is addressed, authentic and believed |
| `ReadAvailability.HeardAreCounted` | crates/gp-network/src/rotation_protocol.rs:742-771 | whatever else a read contains, every correct witness whose answer comes first counts |
| `ReadAvailability.BelievedIsOnLine` | crates/gp-network/src/rotation_protocol.rs:654-726 | past the first epoch, whatever any reader believes on genuine certificates descends from the genesis capsule |
| `ReadAvailability.EpochIsOneCapsule` | crates/gp-network/src/rotation_protocol.rs:772-788 | while fewer than `f + 1` witnesses are faulty or retract, no readers believe two capsules of one epoch between the first and the last |
| `ReadAvailability.ReadDecides` | crates/gp-network/src/rotation_protocol.rs:728-796 | so a read that hears `2f + 1` correct witnesses and has accepted an epoch past the first selects, whatever the others answer |
| `ReadAvailability.SelectionRestsOnQuorum` | crates/gp-network/src/rotation_protocol.rs:728-796 | whatever a reader selects, `2f + 1` witnesses of its card signed answers to its own challenge, none for a later epoch or another capsule of that epoch, and the selected capsule is one of the answers |
| `ReadAvailability.FirstEpochCanBeBlocked` | crates/gp-network/src/rotation_protocol.rs:668-676 | at the first epoch it need not: to any read that selects a first capsule one more pinned witness can add an answer that leaves it undecided |
| `RotationPlans.CheckSurvivors` | crates/gp-network/src/rotation_protocol.rs:303-313 | the loop over the old roster: survivors keep key, recipient and domain and change slot and mailbox |
| `RotationPlans.DistinctBySize` | crates/gp-network/src/rotation_protocol.rs:314-342 | the four set-size comparisons say exactly that keys, mailboxes, slots and domains are pairwise distinct |
| `RotationPlans.CompareRosters` | crates/gp-network/src/rotation_protocol.rs:274-342 | finds the one member that left and the one that joined exactly when the rosters differ by such a replacement |
| `RotationPlans.ReplacementIsUnique` | crates/gp-network/src/rotation_protocol.rs:284-302 | who left and who joined is determined by the rosters |
| `RotationPlans.ValidatePlanAgainstIntent` | crates/gp-network/src/rotation_protocol.rs:251-343 | accepts exactly the plans that replace the member the Intent committed to and respect its constraints, and answers the plan hash |
| `RotationPlans.AcceptedPlanSwaps` | crates/gp-network/src/rotation_protocol.rs:251-343 | an accepted plan keeps the roster size of the capsule and replaces exactly the member its Intent committed to, by one with a new key; everybody else keeps the identity and moves, and no two new members share a key, mailbox, slot or operator |
| `RotationPlans.DelayFloor` | crates/gp-network/src/rotation_protocol.rs:227 | an accepted plan stays acceptable under another delay if and only if that is at least the capsule's |
| `RotationPlans.ChainKeepsMostIdentities` | crates/gp-network/src/rotation_protocol.rs:251-343 | any chain of `m` accepted plans keeps the roster size `n`, at least `n - m` original identities, and ends in an all-distinct roster |
| `RotationPlans.ChainLosesOnlyCommitted` | crates/gp-network/src/rotation_protocol.rs:284-302 | an original identity missing from the last roster of a chain was the committed one of some rotation of it |
| `SignerLocks.CountVetoes` | crates/gp-network/src/rotation_protocol.rs:505-527 | the veto loop accepts exactly distinct pinned witnesses whose signed acks name this plan and this cancellation |
| `SignerLocks.ValidateVetoQuorum` | crates/gp-network/src/rotation_protocol.rs:479-531 | accepts exactly an owner-signed cancellation of this plan recorded by `2f + 1` distinct pinned witnesses |
| `SignerLocks.LocksAreLiveRotations` | crates/gp-storage/src/rotation.rs:414-428 | predecessor locks and begun, uncancelled rotations are in one-to-one correspondence |
| `SignerLocks.LockImpliesVote` | crates/gp-network/src/rotation_runtime.rs:142-156 | once the lock is taken the Begin vote cannot conflict, so Begin leaves no dangling lock |
| `SignerLocks.GroundedKeepsValid` | crates/gp-network/src/rotation_runtime.rs:41-413 | every admitted request keeps locks, Intents and votes in correspondence |
| `SignerRuntime.RecordVote` | crates/gp-storage/src/rotation.rs:430-444 | a vote slot is written once; a repeat is accepted, a conflict refused |
| `SignerRuntime.SignerRotationEntry.LockPlan` | crates/gp-storage/src/rotation.rs:414-428 | a lock held for another plan is never taken over |
| `SignerRuntime.SignerRotationEntry.Intent` | crates/gp-network/src/rotation_runtime.rs:41-113 | approves exactly an Intent for the capsule selected from the witness reads, which is an accepted one of maximal epoch; whole new entry, or no change |
| `SignerRuntime.SignerRotationEntry.Begin` | crates/gp-network/src/rotation_runtime.rs:114-166 | votes exactly for an accepted plan of the approved Intent; lock and vote together, or no change |
| `SignerRuntime.SignerRotationEntry.Release` | crates/gp-network/src/rotation_runtime.rs:167-210 | votes exactly on a valid Begin certificate whose delay has run |
| `SignerRuntime.SignerRotationEntry.Activate` | crates/gp-network/src/rotation_runtime.rs:211-280 | votes exactly for a matching successor of a plan it began and released and has not given up |
| `SignerRuntime.SignerRotationEntry.Abort` | crates/gp-network/src/rotation_runtime.rs:281-326 | votes exactly to abort a live plan it has not voted to activate; changes nothing |
| `SignerRuntime.SignerRotationEntry.FinalizeAbort` | crates/gp-network/src/rotation_runtime.rs:327-369 | gives the rotation up exactly on a signer-threshold abort of a plan it has not voted to activate |
| `SignerRuntime.SignerRotationEntry.FinalizeOwnerCancel` | crates/gp-network/src/rotation_runtime.rs:370-412 | gives the rotation up exactly on a witness-backed owner cancellation; a repeat changes nothing |
| `SignerHistory.CommitmentEndsByVeto` | crates/gp-network/src/rotation_runtime.rs:327-412 | a signer that voted Activate keeps that plan's lock until it accepts the owner's cancellation of it |
| `SignerHistory.SecondActivateNeedsVeto` | crates/gp-network/src/rotation_runtime.rs:211-412 | two different Activate votes of one signer out of one predecessor have, between them, an accepted cancellation of the first plan with a `2f + 1` witness veto |
| `SignerHistory.ActivateFollowsDelay` | crates/gp-network/src/rotation_runtime.rs:114-280 | every Activate vote was preceded by the signer's own Release and, before that, Begin of the same plan, and the Release waited the plan's delay and the delay of the capsule the signer followed |
| `SignerHistory.SelectedIsHashed` | crates/gp-network/src/rotation_protocol.rs:660-667 | a capsule selected from reads stands under the hash of its own body |
| `SignerHistory.ActivateWaitsCapsuleDelay` | crates/gp-network/src/rotation_runtime.rs:167-210 | on hashed capsules: between the issue of the rotation and that Release lies the recovery delay of the capsule whose hash the vote names as predecessor |
| `SignerEvidence.VoteNamesSuccessor` | crates/gp-network/src/rotation_runtime.rs:226-270 | an Activate vote signs the hash of the requested successor's body, whose parent is the followed capsule that the plan leaves and which keeps its signers and owner |
| `SignerEvidence.VotesTellSuccessorsApart` | crates/gp-network/src/rotation_runtime.rs:238-270 | two different successors never get the same vote |
| `SignerEvidence.BeginCarriesOutIntent` | crates/gp-network/src/rotation_runtime.rs:114-166 | a Begin carries out an Intent approved before: its context, the member it committed to, its sizes, thresholds and suites, out of the followed capsule with at least its delay and deadlines in order |
| `SignerEvidence.ReleaseRestsOnBegin` | crates/gp-network/src/rotation_runtime.rs:167-210 | a Release goes with a Begin certificate signed by a threshold of the followed capsule's signers for this plan, whose moment has come |
| `SignerEvidence.ReleasesOnce` | crates/gp-network/src/rotation_runtime.rs:190-206 | of one rotation a signer releases one plan on one Begin certificate |
| `SignerEvidence.GivingUpIsSigned` | crates/gp-network/src/rotation_runtime.rs:327-412 | a rotation is given up only on a threshold of abort signatures before any Activate vote, or on the owner's signature with those of `2f + 1` witnesses that recorded it, and its tombstone names that certificate for ever |
| `SignerEvidence.AcceptedVetoIsSigned` | crates/gp-network/src/rotation_protocol.rs:479-531 | the veto that ends a commitment carries the owner's signature and `2f + 1` witness signatures over that very cancellation |
| `SignerEvidence.AbortVoteFollowsBegin` | crates/gp-network/src/rotation_runtime.rs:281-326 | a signer votes to abort only a plan it began, out of the capsule it follows, and never a rotation it has voted to activate or given up |
| `SignerEvidence.OnlyInDate` | crates/gp-network/src/rotation_runtime.rs:30-38 | a request changes a signer only while its rotation context is in date, of its configuration and answerable |
| `SignerCertificates.VotesMakeCertificate` | crates/gp-network/src/rotation_protocol.rs:601-652 | the votes of a threshold of pinned signers on one request form a certificate that is valid for that capsule |
| `SignerCertificates.WitnessAcksIffLimitsKept` | crates/gp-network/src/server.rs:866-890 | a witness at the followed capsule acks it if and only if the successor also keeps delay, lifetime and suite, which no signer compares |
| `SignerHistory.ForkedCertificatesNeedVeto` | crates/gp-network/src/rotation_protocol.rs:601-652 | two Activate certificates for different children of one predecessor need a correct signer that accepted a witness-backed veto, when voter sets overlap in more than the faulty |
| `SignersAndWitnesses.AcceptedVetoReachedWitnesses` | crates/gp-network/src/rotation_protocol.rs:479-531 | a veto quorum a signer accepts was recorded by at least `f + 1` correct witnesses |
| `SignersAndWitnesses.RevoteLeavesVetoes` | crates/gp-network/src/rotation_runtime.rs:211-412 | a signer that votes to activate two children of one predecessor leaves `f + 1` correct witnesses with the owner's veto of the first rotation |
| `SignersAndWitnesses.FirstQuorumRestsOnRetractedAck` | crates/gp-network/src/server.rs:763-941 | then any activation quorum for the first rotation, in any continuation, contains an ack its correct witness issued before vetoing it |
| `SignerReads.RepeatedIntentReturns` | crates/gp-network/src/rotation_runtime.rs:41-87 | an approved Intent is approved again with its old read while its context is in date, whatever happened in between, and puts the signer back on the capsule of that read |
| `SignerReads.EpochFallsIff` | crates/gp-network/src/rotation_runtime.rs:41-87 | a request lowers the signer's epoch exactly when it is an admitted Intent for an older one |
| `SignerReads.RunObservesFollowed` | crates/gp-network/src/rotation_runtime.rs:84-87 | from the first approved Intent on, the epoch on record is that of the capsule followed, not the highest ever shown |
| `SignerReads.LaterIntentThenRepeatFalls` | crates/gp-network/src/rotation_runtime.rs:41-87 | so repeating an Intent after one for a later epoch lowers it |
| `SignerReads.OldIntentRollsBack` | crates/gp-network/src/rotation_runtime.rs:41-87 | every signer with the sample card and fresh rotation ids has such a run, with actual reads behind both capsules: it ends at epoch 1 after epoch 2 |
| `SignerReads.FreshReadKeepsEpoch` | crates/gp-network/src/rotation_runtime.rs:41-87 | on a read whose nonce `f + 1` correct finalisers of the signer's epoch had not answered, no Intent lowers it |
| `GuardianEpochs.NewStoreIsValid` | crates/gp-storage/src/rotation.rs:96-133 | both kinds of new store satisfy the store invariant |
| `GuardianEpochs.StepKeepsValid` | crates/gp-storage/src/rotation.rs:149-383 | every mutation keeps the invariant: active matches the expected predecessor, prepared matches the journal, draining epochs lie before the active one |
| `GuardianEpochObject.GuardianEpochStore.PrepareSuccessor` | crates/gp-storage/src/rotation.rs:149-186 | every refusal; prepared record and journal are set together under a positive generation; a failure changes nothing |
| `GuardianEpochObject.GuardianEpochStore.PreparedAckGeneration` | crates/gp-storage/src/rotation.rs:188-204 | answers exactly for the prepared rotation, and is never `NotDurable` |
| `GuardianEpochObject.GuardianEpochStore.ActivateSuccessor` | crates/gp-storage/src/rotation.rs:206-273 | the whole change of epoch, or the store exactly as it was, although the prepared record is taken out and put back on the way |
| `GuardianEpochObject.GuardianEpochStore.AbortPrepared` | crates/gp-storage/src/rotation.rs:275-300 | drops the prepared record with its journal and tombstones the rotation; a failure changes nothing |
| `GuardianEpochObject.GuardianEpochStore.ObserveReplacementActivation` | crates/gp-storage/src/rotation.rs:304-353 | the active record starts to drain and nothing takes its place; a failure changes nothing |
| `GuardianEpochObject.GuardianEpochStore.FinishDrainingRequest` | crates/gp-storage/src/rotation.rs:355-366 | removes exactly that request from that epoch |
| `GuardianEpochObject.GuardianEpochStore.RetireEpoch` | crates/gp-storage/src/rotation.rs:368-383 | retires exactly an epoch past its deadline with nothing pending, and answers its capsule hash |
| `GuardianEpochRuns.EpochCountsActivations` | crates/gp-storage/src/rotation.rs:206-273 | the expected epoch is the starting epoch plus the number of accepted activations, capped at the last 64-bit value |
| `GuardianEpochRuns.FinishedForGood` | crates/gp-storage/src/rotation.rs:149-300 | a tombstoned rotation is never prepared or activated again |
| `GuardianEpochRuns.ActivatesOnce` | crates/gp-storage/src/rotation.rs:206-273 | no rotation is activated twice in any run |
| `GuardianEpochRuns.AbortRewritesTombstone` | crates/gp-storage/src/rotation.rs:275-300 | tombstone values are not write-once: exactly when an abort overwrites the tombstone of a finished rotation |
| `GuardianEpochRuns.PreparesAreDistinguished` | crates/gp-storage/src/rotation.rs:173-185 | accepted prepares are acknowledged under rising generations until the counter is exhausted |
| `GuardianEpochRuns.RecordHasSource` | crates/gp-storage/src/rotation.rs:149-353 | every record a guardian ever holds is one it was provisioned with or prepared, but for stage, deadline and certificate |
| `GuardianEpochRuns.ActivatedWasPrepared` | crates/gp-storage/src/rotation.rs:206-273 | an activation puts into force the very record prepared for its rotation, and lets the one in force drain unchanged but for stage and deadline |
| `GuardianEpochRuns.ReplacementDrains` | crates/gp-storage/src/rotation.rs:304-353 | a replaced guardian lets its active record drain, unchanged but for stage, deadline and certificate, on a certificate that leaves its capsule for the next epoch |
| `GuardianEpochRuns.NewcomerOwesNothing` | crates/gp-storage/src/rotation.rs:206-226 | a store without an active record takes over no pending recovery |
| `GuardianEpochRuns.RetiresAfterItsDeadline` | crates/gp-storage/src/rotation.rs:368-383 | an epoch retires no earlier than the deadline of the activation that made it drain |
| `GuardianEpochRuns.PendingIsUnfinished` | crates/gp-storage/src/rotation.rs:227-366 | while an epoch drains it waits for exactly the recoveries that were pending at the activation out of it and have not been finished since |
| `GuardianEpochRuns.ActivationOnlyAdds` | crates/gp-storage/src/rotation.rs:227-249 | below the last epoch an activation keeps every draining record and adds exactly the one that was active |
| `GuardianEpochRuns.ActivationLosesDraining` | crates/gp-storage/src/rotation.rs:227-249 | a draining record is lost only at the last epoch, and there it is |
| `GuardianEpochRuns.RetiresOnce` | crates/gp-storage/src/rotation.rs:368-383 | an epoch retires at most once and never drains again |
| `GuardianRecoveries.EpochChangeKeeps` | crates/gp-network/src/guardian_runtime.rs:1314-1392 | a change of epoch keeps drain completeness exactly when it overwrites no record that a live recovery waits under |
| `GuardianRecoveries.DropsOnlyAtLastEpoch` | crates/gp-network/src/guardian_runtime.rs:1314-1392 | that happens only when the epoch counter stands at its last value |
| `GuardianRecoveries.ReleaseKeeps` | crates/gp-network/src/recovery_runtime.rs:279-345 | a release takes exactly its request out of every pending set and keeps the desk drain-complete |
| `GuardianRecoveries.RetirementOwesNothing` | crates/gp-storage/src/rotation.rs:368-383 | an epoch retires only when nothing live is left of it |
| `GuardianRecoveries.CancelStrands` | crates/gp-network/src/recovery_runtime.rs:232-278 | cancelling a draining request leaves it in the pending set of its epoch |
| `GuardianRecoveries.StrandedStays` | crates/gp-network/src/recovery_runtime.rs:232-345 | nothing the guardian does takes it out below the last epoch |
| `GuardianEntry.ActivationKeeps` | crates/gp-network/src/guardian_runtime.rs:1308-1402 | an activation keeps store, sessions and the followed capsule consistent, also when the store refuses it |
| `GuardianEntry.ChangeHandsOver` | crates/gp-network/src/recovery_runtime.rs:143-153 | the pending ids collected at activation are exactly the live recoveries of the active configuration |
| `GuardianEntry.CancelRotationKeeps` | crates/gp-network/src/guardian_runtime.rs:478-512 | an owner cancellation keeps the entry valid, also when the store refuses it |
| `GuardianTheorems.EveryRunDrainsCompletely` | crates/gp-network/src/recovery_runtime.rs:119-345 | in every run that does not use up the epoch counter each live recovery is for the active configuration or pending in its draining epoch |
| `GuardianTheorems.RetirementIsComplete` | crates/gp-network/src/guardian_runtime.rs:1404-1447 | when an epoch retires, each of its recoveries has been released or cancelled |
| `GuardianTheorems.PendingOnlyShrinks` | crates/gp-storage/src/rotation.rs:227-249 | below the last epoch a draining record only loses pending requests, and once retired it does not come back |
| `GuardianReleases.ReleaseIsEarned` | crates/gp-network/src/recovery_runtime.rs:171-345 | every release and the Begin before it, which found the exact configuration active, came with the signers' quorum, in date; in between, on the same boot, passed the delay of the record the guardian was provisioned with or prepared for it; and the request was not cancelled or released before |
| `GuardianReleases.VetoIsTheOwners` | crates/gp-network/src/recovery_runtime.rs:232-278 | every recovery veto came with the owner's signature, in date, for an epoch the guardian still answers for, and before any release of the request |
| `GuardianReleases.RecordIsKnown` | crates/gp-storage/src/rotation.rs:206-273 | whatever record a guardian holds in a run, it was provisioned with it or prepared it |
| `GuardianReleases.NoncesAreUnique` | crates/gp-network/src/recovery_runtime.rs:201-208 | no two recoveries of a guardian share a nonce |
| `GuardianTheorems.CancelledDrainNeverRetires` | crates/gp-network/src/recovery_runtime.rs:232-278 | a recovery cancelled while its epoch drains keeps that epoch from ever retiring |
| `GuardianTheorems.PassedOverNeverRetires` | crates/gp-network/src/guardian_runtime.rs:1404-1424 | an epoch below the one the latest activation left never retires, however empty it becomes |
| `GuardianRetirement.NewEntryIsSound` | crates/gp-network/src/server.rs:1603-1671 | a newly provisioned entry with a new store is sound |
| `GuardianRetirement.EveryRunIsSound` | crates/gp-network/src/guardian_runtime.rs:1308-1447 | every entry a run reaches below the last epoch is sound: drain-complete, vetoes marked, draining epochs behind the active one and covered by the latest activation |
| `GuardianRetirement.RetirableIff` | crates/gp-network/src/guardian_runtime.rs:1404-1424 | from a sound entry below the last epoch, some run served at the given clocks retires a draining epoch if and only if it is the epoch the latest activation left, no recovery it waits for is cancelled, each can be served at one of the clocks, and a notice is fresh at one |
| `GuardianRetirement.RetirableEverIff` | crates/gp-network/src/guardian_runtime.rs:1404-1424 | at whatever clocks, it can still retire if and only if it is that epoch and every recovery it waits for is uncancelled and still admitted by the followed capsule |
| `GuardianRetirement.RetireNow` | crates/gp-network/src/guardian_runtime.rs:1404-1447 | an empty epoch retires on a notice that claims a late enough time: the deadline is not held against the guardian's own clock |
| `GuardianRetirement.ActivationEndsRetirement` | crates/gp-network/src/guardian_runtime.rs:1308-1424 | an epoch still draining when another activation is accepted never retires afterwards |
| `GuardianRetirement.RebootStrands` | crates/gp-network/src/recovery_runtime.rs:279-345 | after a reboot an epoch that still waits for a recovery begun before it never retires |
| `GuardianRetirement.ExpiryStrands` | crates/gp-network/src/recovery_runtime.rs:279-345 | nor does one that waits for an expired request, while the wall clock stays past its expiry |
| `GuardianRetirement.ShorterLifetimeStrands` | crates/gp-network/src/recovery_runtime.rs:279-345 | nor one that waits for a request longer-lived than the followed capsule allows |
| `GuardianRotations.RotationEndsOnce` | crates/gp-network/src/guardian_runtime.rs:367-519 | a rotation this guardian cancelled, aborted, activated or saw activated is never prepared, activated or observed again |
| `GuardianRotations.OutcomeIsFinal` | crates/gp-network/src/guardian_runtime.rs:451-519 | how a rotation ended here stays as it was, although the store alone would let an abort overwrite it |
| `GuardianRotations.CancellationIsFinal` | crates/gp-network/src/guardian_runtime.rs:478-512 | an owner's cancellation that reaches an open session ends the rotation here, also when the store refuses it: it is never prepared, activated or observed afterwards |
| `GuardianRotations.ReplacedForGood` | crates/gp-network/src/guardian_runtime.rs:1308-1402 | a guardian that was rotated out never has authority again: store and followed capsule stay apart for ever |
| `GuardianRotations.ObservingReplaces` | crates/gp-network/src/guardian_runtime.rs:1371-1392 | an accepted activation replaces exactly the guardians outside its new roster |
| `GuardianRotations.RefusedActivationWedges` | crates/gp-network/src/guardian_runtime.rs:1348-1392 | the session is left claiming Active exactly when the store refuses the activation |
| `GuardianRotations.WedgedForGood` | crates/gp-network/src/guardian_runtime.rs:229-265 | such a session stays, whatever is requested |
| `GuardianRotations.WedgedRefuses` | crates/gp-network/src/guardian_runtime.rs:229-265 | and its rotation can no longer be activated, cancelled or aborted |
| `GuardianWedge.StalePreparedWedges` | crates/gp-network/src/guardian_runtime.rs:1348-1392 | a record still prepared for any rotation makes an activation that leaves the guardian out a conflict, which wedges its session and leaves the guardian its authority |
| `GuardianWedge.SecondRotationWedges` | crates/gp-network/src/guardian_runtime.rs:367-450 | begin and prepare one rotation, begin another that leaves the guardian out: its witnessed capsule wedges |
| `GuardianWedge.WedgeIsReachable` | crates/gp-network/src/guardian_runtime.rs:367-450 | such a run from a newly provisioned entry, with all its certificates |
| `GuardianHandover.RoutedOnce` | crates/gp-network/src/guardian_runtime.rs:68-87 | a guardian takes part in a roster exactly when one member, and only one, has its key |
| `GuardianHandover.SessionOrigin` | crates/gp-network/src/guardian_runtime.rs:367-450 | every session was opened by a Begin for its plan that a threshold of the followed capsule's signers signed, out of that capsule with at least its delay |
| `GuardianHandover.HandoverWaits` | crates/gp-network/src/guardian_runtime.rs:250-265 | a session that is preparing had a handover round of its plan at least its delay after that Begin |
| `GuardianHandover.PrepareIsForOpenSession` | crates/gp-network/src/guardian_runtime.rs:1186-1283 | a record is prepared only for a plan whose Begin a threshold signed, by a member of its new roster, for the plan's successor, while the session is open |
| `GuardianHandover.AbortIsSigned` | crates/gp-network/src/guardian_runtime.rs:451-519 | a rotation is aborted only on the owner's signature or a threshold of abort signatures for this plan |
| `GuardianHandover.CloseIsTheOwners` | crates/gp-network/src/guardian_runtime.rs:451-512 | a session is closed only by a cancellation of its rotation that the owner signed |
| `GuardianHandover.OnlyInDate` | crates/gp-network/src/guardian_runtime.rs:357-365 | a rotation request changes a guardian only while its context is in date, of the followed configuration and answerable |
| `GuardianHandover.RetirementIsNoticed` | crates/gp-network/src/guardian_runtime.rs:1404-1424 | an epoch retires on a notice of the latest activation out of it, with nothing pending, at a claimed time past both deadlines |
| `GuardianHandover.ChangeIsSigned` | crates/gp-network/src/guardian_runtime.rs:1308-1402 | an epoch changes only to a child of the followed capsule signed by the card's signers and witnesses, and the record that comes into force is for its configuration and the material it commits to |
| `GuardiansAndWitnesses.OneActivatedChild` | crates/gp-network/src/rotation_protocol.rs:654-726 | two activated capsules out of one predecessor, with genuine certificates, are the same, unless `f + 1` witnesses are faulty or retracted |
| `GuardiansAndWitnesses.RunFollowsLine` | crates/gp-network/src/guardian_runtime.rs:1308-1402 | whatever a guardian comes to follow descends by certified steps of one epoch each from where it started |
| `GuardiansAndWitnesses.GuardiansAgree` | crates/gp-network/src/guardian_runtime.rs:1308-1402 | guardians with a common start follow capsules on one line, and two with ACTIVE authority for one epoch number have it for the same configuration and capsule |
| `GuardiansAndWitnesses.GuardianAgreesWithWitness` | crates/gp-network/src/guardian_runtime.rs:1308-1402 | the same line holds what any correct witness has finalised |
| `GuardiansAndWitnesses.VetoedIsNeverActivated` | crates/gp-network/src/guardian_runtime.rs:1308-1402 | no guardian activates, or follows the capsule of, a rotation that `2f + 1` witnesses vetoed before acking it |
| `ImmutablePolicy.CertifiedKeepsPolicy` | crates/gp-network/src/server.rs:859-941 | a quorum certificate exists only for a child that keeps the signer set, owner key, lifetime and suite of its predecessor and no shorter delay |
| `ImmutablePolicy.GuardianPolicyIsImmutable` | crates/gp-network/src/guardian_runtime.rs:1308-1402 | so every capsule a guardian comes to follow on genuine certificates keeps the policy it started with, although the guardian compares neither lifetime nor delay |
| `ImmutablePolicy.WitnessPolicyIsImmutable` | crates/gp-network/src/server.rs:859-1031 | and every capsule a correct witness finalises keeps the policy of the genesis capsule |
| `GuardianRuntime.GuardianServer.Provision` | crates/gp-network/src/server.rs:1603-1671 | accepted exactly with the operator's token, for an activated capsule, a store that expects its successor, a matching signing key, signer pins in range, the production delay outside demo mode, and a mailbox not yet held; adds one entry, linked to its capsule and valid if the store is, and keeps the others |
| `GuardianRuntime.GuardianRotationEntry.RecordForRequest` | crates/gp-network/src/recovery_runtime.rs:119-141 | holds exactly for the active configuration or a pending request of its exact draining epoch |
| `GuardianRuntime.GuardianRotationEntry.BeginRecovery` | crates/gp-network/src/recovery_runtime.rs:171-231 | accepted exactly under the active configuration, not vetoed, same transcript or new id and nonce; whole new entry, or no change |
| `GuardianRuntime.GuardianRotationEntry.CancelRecovery` | crates/gp-network/src/recovery_runtime.rs:232-278 | accepted exactly for a held record, matching digest and nothing released; tombstone and flag set together |
| `GuardianRuntime.GuardianRotationEntry.ReleaseRecovery` | crates/gp-network/src/recovery_runtime.rs:279-345 | accepted exactly for the recorded, live, undelayed request on the same boot; updates recovery and pending set |
| `GuardianRuntime.GuardianRotationEntry.BeginRotation` | crates/gp-network/src/guardian_runtime.rs:367-450 | opens a session exactly for a participant and a rotation without tombstone or conflicting session |
| `GuardianRuntime.GuardianRotationEntry.CancelRotation` | crates/gp-network/src/guardian_runtime.rs:451-532 | closes the session and tombstones the rotation; when the store refuses, the session stays closed |
| `GuardianRuntime.GuardianRotationEntry.ReleaseRotation` | crates/gp-network/src/guardian_runtime.rs:250-265 | a pending session moves on exactly when its delay has run |
| `GuardianRuntime.GuardianRotationEntry.AbortRotation` | crates/gp-network/src/guardian_runtime.rs:628-649 | stops the session's machine, then tombstones the rotation |
| `GuardianRuntime.GuardianRotationEntry.PrepareCommit` | crates/gp-network/src/guardian_runtime.rs:1186-1282 | stores the successor record exactly for an open session and an admissible record |
| `GuardianRuntime.GuardianRotationEntry.Activate` | crates/gp-network/src/guardian_runtime.rs:1308-1402 | the whole activation, including what a late refusal by the store leaves behind |
| `GuardianRuntime.GuardianRotationEntry.Retire` | crates/gp-network/src/guardian_runtime.rs:1404-1447 | retires exactly the predecessor epoch of the latest activation, once empty and past its deadline by the time the request claims |
| `EpochRecovery.NextKeepsValid` | crates/gp-core/src/rotation.rs:504-661 | draining epochs lie before the active one until the counter stands still; cancelled requests keep their digest |
| `EpochRecovery.EpochRecoveryMachine.BeginRequest` | crates/gp-core/src/rotation.rs:504-547 | every refusal in order and the whole new state, including the id a refused nonce uses up |
| `EpochRecovery.EpochRecoveryMachine.ActivateSuccessor` | crates/gp-core/src/rotation.rs:549-565 | the old epoch drains under its deadline, the direct successor becomes active |
| `EpochRecovery.EpochRecoveryMachine.AuthorizeRelease` | crates/gp-core/src/rotation.rs:567-609 | every refusal in order and the whole new state, including the expiry mark of a late attempt |
| `EpochRecovery.EpochRecoveryMachine.CancelRequest` | crates/gp-core/src/rotation.rs:611-635 | a first cancellation is recorded, a repeat accepted, another digest refused |
| `EpochRecovery.EpochRecoveryMachine.RetireDrainingEpoch` | crates/gp-core/src/rotation.rs:637-661 | retires exactly past the deadline with no unfinished request of that epoch number |
| `EpochRecoveryRuns.RunGrows` | crates/gp-core/src/rotation.rs:504-661 | through any operations a recorded request keeps its earliest release time, expiry and configuration |
| `EpochRecoveryRuns.ReleaseIsEarned` | crates/gp-core/src/rotation.rs:567-609 | every authorised release had an accepted Begin of the same id, digest and configuration while active, the saturated delay earlier, both on valid evidence and in date, and no accepted cancellation before it |
| `EpochRecoveryRuns.StageIsEarned` | crates/gp-core/src/rotation.rs:567-635 | a request is Cancelled exactly when its id is, Releasing only after an authorised release, Expired only after one that came too late |
| `EpochRecoveryRuns.NonceBeginsOnce` | crates/gp-core/src/rotation.rs:526-548 | no nonce begins two recoveries |
| `EpochRecoveryRuns.CancelsOneDigest` | crates/gp-core/src/rotation.rs:611-635 | accepted cancellations of an id are on valid evidence and for one digest |
| `EpochRecoveryRuns.ActiveIsCertified` | crates/gp-core/src/rotation.rs:549-565 | the machine keeps its configuration, and every configuration it makes active is the successor of a valid activation |
| `EpochRecoveryRuns.RetiresAfterItsDeadline` | crates/gp-core/src/rotation.rs:637-661 | an epoch retires no earlier than the deadline its activation recorded |
| `EpochRecoveryRuns.EpochNumberNamesConfiguration` | crates/gp-core/src/rotation.rs:549-597 | below the last epoch an epoch number stands for one configuration, so draining by number is draining by exact configuration |
| `EpochRecoveryRuns.RetirementIsFinal` | crates/gp-core/src/rotation.rs:637-661 | when an epoch retires its requests are cancelled or expired, and nothing begins or releases for it again |
| `EpochRecoveryRuns.LastEpochRetirementIsNotFinal` | crates/gp-core/src/rotation.rs:549-661 | at the last epoch a recovery is begun and released after the retirement of its number |
| `EpochRecoveryRuns.BeginBurnsId` | crates/gp-core/src/rotation.rs:531-535 | a request id is used up by any Begin that reaches the replay test, accepted or not |
| `EpochRecoveryRuns.ExpiryFollowsWallClock` | crates/gp-core/src/rotation.rs:598-601 | an expired request is refused as long as the wall clock does not run back below its expiry |
| `EpochRecoveryRuns.ExpiredMayRevive` | crates/gp-core/src/rotation.rs:598-608 | and for the active or a draining configuration it is released again exactly when it does |
| `GuardianMachineV2.GuardianMachine.BeginAt` | crates/gp-core/src/lib.rs:180-229 | every refusal in order and the whole new state |
| `GuardianMachineV2.GuardianMachine.Cancel` | crates/gp-core/src/lib.rs:231-255 | a first cancellation is recorded, a repeat accepted, a conflict refused |
| `GuardianMachineV2.GuardianMachine.AuthorizeReleaseAt` | crates/gp-core/src/lib.rs:275-310 | every refusal in order and the whole new state |
| `GuardianMailbox.GuardianEntry.Begin` | crates/gp-network/src/server.rs:1884-1918 | accepted exactly for a current, uncancelled request with new id and nonce; the machine inside never refuses it |
| `GuardianMailbox.GuardianEntry.Cancel` | crates/gp-network/src/server.rs:1919-1952 | accepted exactly when not released under this digest and not cancelled under another |
| `GuardianMailbox.GuardianEntry.Release` | crates/gp-network/src/server.rs:1876-2000 | accepted exactly for the recorded request on the same boot, in time and uncancelled; the rebuilt machine accepts the stored Begin |
| `GuardianMailbox.NextKeepsValid` | crates/gp-network/src/server.rs:1876-2000 | stored Begins can be rebuilt; a request is never both released and cancelled |
| `HardCancel.RebuildDiffersIff` | crates/gp-network/src/server.rs:1876-1979 | in every run the kept machine accepts nothing the mailbox refuses, and refuses what the mailbox accepts exactly when a cancellation under the id was accepted before its Begin |
| `HardCancel.RebuildEqualsKeepAlive` | crates/gp-network/src/server.rs:1953-1979 | so while each id carries one request the two verdicts are the same |
| `HardCancel.TwoDigestsDoPart` | crates/gp-network/src/server.rs:1876-2000 | a run with two requests under one id in which the verdicts part |
| `HardCancel.TwoDigestsNeedNotPart` | crates/gp-network/src/server.rs:1876-2000 | and one in which they do not |
| `HardCancel.ReleaseIsEarned` | crates/gp-network/src/server.rs:1876-2000 | a mailbox releases only after the Begin of that very request, on the same boot, with valid certificates, in date, the policy's delay later, and not after its cancellation |
| `HardCancel.CancelIsTheOwners` | crates/gp-network/src/server.rs:1919-1952 | a cancellation counts on a valid certificate for a request in date |
| `HardCancel.BeginsOnce` | crates/gp-network/src/server.rs:1884-1918 | no id and no nonce begins twice |
| `HardCancel.CancelOrRelease` | crates/gp-network/src/server.rs:1919-2000 | a guardian that acknowledges a cancellation has not released and will not release that request |
| `HardCancel.RequiredCancelAcks` | crates/gp-network/src/client.rs:1556-1561 | threshold and required acks together exceed the number of guardians by one |
| `HardCancel.HardCancelRequest` | crates/gp-network/src/client.rs:1520-1547 | the counting loop succeeds exactly when enough distinct guardians acknowledged |
| `HardCancel.HardCancelIsFinal` | crates/gp-network/src/client.rs:1520-1561 | then fewer than the threshold of honest guardians have released or ever will (plus one per faulty acknowledger) |
| `Erasure.Stripe` | crates/gp-crypto/src/lib.rs:312-316 | the striping loop stays in bounds and lays the data out row by row, padded with zeros |
| `Erasure.ShardLengthFits` | crates/gp-crypto/src/lib.rs:311-312 | the shard length is the least positive one that holds the data |
| `Erasure.StripesHoldData` | crates/gp-crypto/src/lib.rs:312-360 | joining the data rows and cutting to length gives back the data |
| `Erasure.ErasureEncode` | crates/gp-crypto/src/lib.rs:301-321 | which error for which input, and the coded stripes otherwise |
| `Erasure.PlacedIffWellPlaced` | crates/gp-crypto/src/lib.rs:340-351 | fragments are placed exactly when indices are in range and distinct and lengths equal, each in its own slot |
| `Erasure.ErasureReconstruct` | crates/gp-crypto/src/lib.rs:323-361 | which error for which input, and the joined, truncated data shards otherwise |
| `Erasure.RoundTrip` | crates/gp-crypto/src/lib.rs:301-361 | any `k` or more distinct fragments of an encoding, in any order, give back the data |
| `Erasure.ReencodingKeepsFragments` | crates/gp-network/src/rotation_coordinator.rs:586-609 | re-encoding what a quorum reconstructs under the same pair gives the committed fragment list |
| `Erasure.OtherThresholdKeepsRootIff` | crates/gp-network/src/rotation_coordinator.rs:586-609 | under any other threshold the successor's fragments have the committed root exactly when the shard length is the same, the committed parity rows that become data rows are zero, and the committed list is a codeword of the successor's coder too |
| `Erasure.ReplicationIsReliable` | crates/gp-crypto/src/lib.rs:309-319 | the assumption on the coder can be met |
| `Erasure.RotateCiphertextFragments` | crates/gp-crypto/src/lib.rs:368-387 | refuses repeated indices, passes reconstruction errors on, and encodes the reconstructed ciphertext anew |
| `ShareBitmap.WithAddsOne` | crates/gp-crypto/src/lib.rs:282-287 | setting a bit adds exactly its index to the set the four words stand for |
| `ShareBitmap.Mark` | crates/gp-crypto/src/lib.rs:282-287 | the in-place test-and-set: duplicate exactly when the index is in the set, which then contains it |
| `ShareBitmap.CheckShares` | crates/gp-crypto/src/lib.rs:275-290 | a duplicate is reported exactly when two of the well-formed indices read so far coincide |
| `ShareBitmap.RecoverSecret` | crates/gp-crypto/src/lib.rs:261-299 | which error for which input, and the interpolated secret otherwise |

## Left out

- GuardianEpochStore.transaction: the clone-and-swap wrapper; the methods themselves are proved to change nothing when they fail.
- Failing saves and restarts: a change and its save are one step, so the model has no state between them.
- HTTP routing, relays, mailboxes, bearer tokens, rate limits, sealing of messages and shares, JSON files.
- Cryptography: Shamir interpolation, FROST, X-Wing, AEAD, Ed25519, Merkle proofs and the Reed-Solomon field arithmetic are parameters or symbols.
- Ready certificates: their guardian acks are one verdict (`acksComplete`); the signer decides on what the certificate binds.
- Recovery certificates: the signer contributions and votes in Begin, Release and owner-cancel certificates of recoveries are one verdict each.
- Key handover (repair and refresh rounds, staging): only the first round's delay test and the final record reach the model; DPSS sequence numbers and local state do not.
- Capsule fields nobody branches on are one `material` value; the recovery descriptor is not modelled.
- The witness read-quorum hash of an Intent is a parameter, because the signer only compares it.
- RotationMachine: only the transitions the guardian handlers drive are modelled, inside a session.
- RecoveryMachine of the version-2 client: a small enumeration without further consequences.
- rotate_v3, recover_v3 and the set-up clients as programs.
- GuardianRuntime.GuardianRotationEntry.PrepareCommit: the checks on the staged material (leaf, Merkle position, slot, custody) are one verdict, `stagedFits`.
- Erasure.ErasureReconstruct: a coder whose answer has fewer than `k` shards counts as a reconstruction error.
- ShareBitmap.CheckShares: a well-formed share always parses, as the share type has no further structure.
- Secrecy, zeroisation and redaction.
