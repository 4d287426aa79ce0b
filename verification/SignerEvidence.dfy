/** What stands behind every vote of a rotation signer, and behind every rotation it gives
    up: the approved Intent, the capsule it followed, and the signatures it was shown. */
module SignerEvidence {
  import opened Foundations
  import opened EpochTypes
  import opened EpochSelection
  import opened RotationPlans
  import opened SignerLocks
  import opened SignerHistory
  import Endorsements
  import SignersAndWitnesses

  // ---- Plans -------------------------------------------------------------------------

  /** The plan leaves the followed capsule, in its own shape and while it is in date. */
  ghost predicate Leaves(plan: RotationPlan, active: Capsule, now: U64) {
    && plan.context.predecessorHash == active.hash && plan.predecessor == active.body.configRef
    && plan.context.issuedAt <= now < plan.context.expiry
    && plan.context.issuedAt < plan.preparationDeadline < plan.drainDeadline
    && plan.minimumDelaySecs >= active.body.minimumRecoveryDelay
    && plan.oldGuardianThreshold == plan.dataShards == active.body.guardianThreshold
    && |plan.oldRoster| == |plan.newRoster| == plan.totalShards == active.body.guardianCount
    && 0 < plan.oldGuardianThreshold <= |plan.oldRoster| && 2 <= plan.newGuardianThreshold <= |plan.newRoster|
    && plan.oldRosterCommitment == Of(plan.oldRoster) && plan.newRosterCommitment == Of(plan.newRoster)
    && (forall i :: 0 <= i < |plan.newRoster| ==> 0 < plan.newRoster[i].guardianIndex <= MAX_ROTATION_ACTORS)
  }

  /** And there is still time to prepare. */
  ghost predicate LeavesInOrder(plan: RotationPlan, active: Capsule, now: U64) {
    Leaves(plan, active, now) && now < plan.preparationDeadline
  }

  // ---- The Activate vote -----------------------------------------------------------

  /** The successor continues the followed capsule under the plan: same signers, same owner,
      the plan's roster and the material that was made ready. */
  ghost predicate Continues(active: CapsuleBody, plan: RotationPlan, ready: ReadyCertificate, next: CapsuleBody) {
    && next.protocolVersion == PROTOCOL_VERSION_V3 && next.configRef == plan.successor
    && next.configRef.configId == active.configRef.configId
    && next.configRef.guardianEpoch == SatAdd(active.configRef.guardianEpoch, 1)
    && next.configRef.epochBinding != active.configRef.epochBinding
    && next.signerCount == active.signerCount && next.signerThreshold == active.signerThreshold
    && next.signerSet == active.signerSet && next.ownerCancelKey == active.ownerCancelKey
    && next.guardianCount == |plan.newRoster| == |plan.oldRoster| == active.guardianCount
    && 2 <= next.guardianThreshold == plan.newGuardianThreshold <= next.guardianCount
    && 1 <= next.signerThreshold <= next.signerCount
    && next.material == ready.material
  }

  /** An Activate vote is for the very capsule it was asked for: the vote signs the hash of
      that capsule's body, whose parent is the capsule the signer follows and its plan leaves,
      under the plan and the Ready certificate of the request. */
  lemma VoteNamesSuccessor(start: SignerState, steps: seq<SignerStep>, i: nat, v: ActivateVoteBody)
    requires i < |steps| && VotesActivate(start, steps, i, v)
    ensures steps[i].request.ActivateRequest?
    ensures var active, q := Before(start, steps, i).activeCapsule, steps[i].request;
            && v.successorHash == BodyHash(q.successor.body)
            && q.successor.body.predecessorHash == v.context.predecessorHash == active.hash
            && Continues(active.body, q.plan, q.ready, q.successor.body)
            && v.context == q.plan.context && v.planHash == Of(q.plan) && v.readyHash == q.ready.transcriptHash
            && v.signerId == start.signerId && v.signerKey == start.signerKey
            && LeavesInOrder(q.plan, active, steps[i].now) && q.ready.acksComplete
            && q.successor == Capsule(q.successor.body, BodyHash(q.successor.body), None, None)
  {
    RunKeepsIdentity(start, steps[..i]);
  }

  lemma NextKeepsIdentity(s: SignerState, q: SignerRequest, now: U64)
    ensures Next(s, q, now).signerId == s.signerId && Next(s, q, now).signerKey == s.signerKey
  {
  }

  lemma {:induction false} RunKeepsIdentity(start: SignerState, steps: seq<SignerStep>)
    ensures After(start, steps).signerId == start.signerId && After(start, steps).signerKey == start.signerKey
  {
    if steps != [] {
      RunKeepsIdentity(start, steps[..|steps| - 1]);
      NextKeepsIdentity(After(start, steps[..|steps| - 1]), steps[|steps| - 1].request, steps[|steps| - 1].now);
    }
  }

  /** Two different successors never get the same vote. */
  lemma VotesTellSuccessorsApart(start: SignerState, steps: seq<SignerStep>, i: nat,
                                 start': SignerState, steps': seq<SignerStep>, j: nat, v: ActivateVoteBody)
    requires i < |steps| && VotesActivate(start, steps, i, v)
    requires j < |steps'| && VotesActivate(start', steps', j, v)
    ensures steps[i].request.ActivateRequest? && steps'[j].request.ActivateRequest?
    ensures steps[i].request.successor.body == steps'[j].request.successor.body
  {
    VoteNamesSuccessor(start, steps, i, v);
    VoteNamesSuccessor(start', steps', j, v);
  }

  // ---- The Begin vote and the Intent -----------------------------------------------

  /** The Intent opens a rotation out of this capsule, and lists what it allows. */
  ghost predicate OpensOutOf(intent: RotationIntent, capsule: Capsule) {
    && intent.context.predecessorHash == capsule.hash && intent.context.configRef == capsule.body.configRef
    && intent.oldGuardianCount == capsule.body.guardianCount
    && intent.oldGuardianThreshold == capsule.body.guardianThreshold
    && 0 < |intent.allowedNewGuardianCount| <= MAX_ROTATION_ACTORS
    && 0 < |intent.allowedNewGuardianThreshold| <= MAX_ROTATION_ACTORS
    && 0 < |intent.allowedDpssSuites| <= 32
  }

  /** The plan does what the Intent allowed and no more. */
  ghost predicate CarriesOut(plan: RotationPlan, intent: RotationIntent) {
    && plan.context == intent.context && plan.intentHash == Of(intent)
    && intent.oldGuardianCount == |plan.oldRoster| && intent.oldGuardianThreshold == plan.oldGuardianThreshold
    && |plan.newRoster| in intent.allowedNewGuardianCount
    && plan.newGuardianThreshold in intent.allowedNewGuardianThreshold
    && plan.dpssSuite in intent.allowedDpssSuites
    && plan.qualifiedSetCommitment == Of(plan.newRoster)
    && exists i: nat, j: nat :: MakesWay(plan.oldRoster, plan.newRoster, i, j)
                                && Of(plan.oldRoster[i].guardianIndex) == intent.selectionConstraint
  }

  ghost predicate ApprovesIntent(start: SignerState, steps: seq<SignerStep>, i: nat, intent: RotationIntent)
    requires i < |steps|
  {
    && Served(start, steps, i) && steps[i].request.IntentRequest? && steps[i].request.intent == intent
    && steps[i].request.selected.Some? && steps[i].request.readHash == Some(intent.witnessReadHash)
    && OpensOutOf(intent, steps[i].request.selected.value)
  }

  lemma IntentOrigin(s: SignerState, q: SignerRequest, now: U64, r: Id32, intent: RotationIntent)
    requires r in Next(s, q, now).intents && Next(s, q, now).intents[r] == intent
    ensures || (r in s.intents && s.intents[r] == intent)
            || (&& Admitted(s, q, now) && q.IntentRequest? && q.intent == intent
                && q.selected.Some? && q.readHash == Some(intent.witnessReadHash) && OpensOutOf(intent, q.selected.value))
  {
  }

  lemma {:induction false} IntentHasOrigin(start: SignerState, steps: seq<SignerStep>, t: nat, r: Id32, intent: RotationIntent) returns (i: nat)
    requires NoVotesYet(start) && t <= |steps|
    requires r in Before(start, steps, t).intents && Before(start, steps, t).intents[r] == intent
    ensures i < t && ApprovesIntent(start, steps, i, intent)
    decreases t
  {
    assert t > 0;
    BeforeSucc(start, steps, t - 1);
    var s, q := Before(start, steps, t - 1), steps[t - 1].request;
    IntentOrigin(s, q, steps[t - 1].now, r, intent);
    if r in s.intents && s.intents[r] == intent {
      i := IntentHasOrigin(start, steps, t - 1, r, intent);
    } else {
      i := t - 1;
    }
  }

  lemma BegunPlanMeans(s: SignerState, plan: RotationPlan, intentHash: IntentHash, now: U64)
    requires Admitted(s, BeginRequest(plan, intentHash), now)
    ensures plan.context.rotationId in s.intents && intentHash == Of(s.intents[plan.context.rotationId])
    ensures CarriesOut(plan, s.intents[plan.context.rotationId])
    ensures LeavesInOrder(plan, s.activeCapsule, now)
  {
    var intent := s.intents[plan.context.rotationId];
    var i, j := AcceptedPlanSwaps(Acceptance(plan, intent, s.activeCapsule, now));
  }

  /** A signer begins only what an Intent it approved before allows: the plan keeps the
      Intent's context, replaces exactly the member the Intent committed to, stays within the
      sizes, thresholds and suites it lists, and leaves the capsule the signer follows with at
      least that capsule's delay. */
  lemma BeginCarriesOutIntent(start: SignerState, steps: seq<SignerStep>, i: nat) returns (j: nat)
    requires NoVotesYet(start) && i < |steps| && Served(start, steps, i) && steps[i].request.BeginRequest?
    ensures j < i && steps[j].request.IntentRequest? && ApprovesIntent(start, steps, j, steps[j].request.intent)
    ensures var plan, intent := steps[i].request.plan, steps[j].request.intent;
            && CarriesOut(plan, intent) && steps[i].request.intentHash == Of(intent)
            && LeavesInOrder(plan, Before(start, steps, i).activeCapsule, steps[i].now)
  {
    var s, q := Before(start, steps, i), steps[i].request;
    BegunPlanMeans(s, q.plan, q.intentHash, steps[i].now);
    j := IntentHasOrigin(start, steps, i, q.plan.context.rotationId, s.intents[q.plan.context.rotationId]);
  }

  // ---- The Release vote --------------------------------------------------------------

  /** The pinned signer signed a Begin vote for this plan. */
  predicate SignedBegin(signerSet: map<nat, Key>, id: nat, begin: BeginCertificate, plan: RotationPlan) {
    && id in signerSet
    && exists i :: 0 <= i < |begin.votes| && BeginsPlan(begin.votes[i], id, signerSet[id], plan)
  }

  predicate BeginsPlan(vote: BeginVote, id: nat, key: Key, plan: RotationPlan) {
    && vote.signature == Signature(key, BeginVoteMessage(vote.body))
    && vote.body.signerId == id && vote.body.signerKey == key
    && vote.body.planHash == Of(plan) && vote.body.intentHash == plan.intentHash
    && vote.body.oldRosterCommitment == Of(plan.oldRoster) && vote.body.newRosterCommitment == Of(plan.newRoster)
    && vote.body.context.rotationId == plan.context.rotationId
    && vote.body.context.predecessorHash == plan.context.predecessorHash
  }

  function Beginners(signerSet: map<nat, Key>, begin: BeginCertificate, plan: RotationPlan): set<nat> {
    set id | id in signerSet && SignedBegin(signerSet, id, begin, plan)
  }

  function BeginIds(begin: BeginCertificate): seq<nat> {
    seq(|begin.votes|, i requires 0 <= i < |begin.votes| => begin.votes[i].body.signerId)
  }

  lemma ValidBeginIsSigned(begin: BeginCertificate, plan: RotationPlan, capsule: Capsule, now: U64)
    requires BeginValid(begin, plan, capsule, now)
    ensures |Beginners(capsule.body.signerSet, begin, plan)| >= capsule.body.signerThreshold
  {
    var ids, signed := BeginIds(begin), Beginners(capsule.body.signerSet, begin, plan);
    forall id | id in Endorsements.Members(ids)
      ensures id in signed
    {
      var i :| 0 <= i < |begin.votes| && begin.votes[i].body.signerId == id;
      assert BeginVoteCounts(capsule, begin, begin.votes[i]);
      assert BeginsPlan(begin.votes[i], id, capsule.body.signerSet[id], plan);
    }
    Endorsements.DistinctMembers(ids);
    SubsetSize(Endorsements.Members(ids), signed);
  }

  /** A Release goes with a Begin certificate that a threshold of the followed capsule's
      signers signed for this plan, after the moment the certificate names, which leaves at
      least the plan's delay. */
  lemma ReleaseRestsOnBegin(start: SignerState, steps: seq<SignerStep>, i: nat)
    requires i < |steps| && Served(start, steps, i) && steps[i].request.ReleaseRequest?
    ensures var active, plan, begin := Before(start, steps, i).activeCapsule, steps[i].request.plan, steps[i].request.begin;
            && |Beginners(active.body.signerSet, begin, plan)| >= active.body.signerThreshold
            && LeavesInOrder(plan, active, steps[i].now)
            && SatAdd(plan.context.issuedAt, plan.minimumDelaySecs) <= begin.notBefore <= steps[i].now
  {
    ValidBeginIsSigned(steps[i].request.begin, steps[i].request.plan, Before(start, steps, i).activeCapsule, steps[i].now);
  }

  /** What the signer's Release vote for this plan on this certificate says. */
  function ReleaseSays(s: SignerState, plan: RotationPlan, begin: BeginCertificate): ReleaseVoteBody {
    ReleaseVoteBody(plan.context, Of(plan), Of(begin), s.signerId, s.signerKey)
  }

  ghost predicate ReleasedOn(s: SignerState, plan: RotationPlan, begin: BeginCertificate) {
    && plan.context.rotationId in s.releaseVotes
    && s.releaseVotes[plan.context.rotationId] == Of(ReleaseSays(s, plan, begin))
  }

  lemma NextKeepsRelease(s: SignerState, q: SignerRequest, now: U64, plan: RotationPlan, begin: BeginCertificate)
    requires ReleasedOn(s, plan, begin)
    ensures ReleasedOn(Next(s, q, now), plan, begin)
  {
  }

  lemma ReleaseIsRecorded(s: SignerState, q: SignerRequest, now: U64)
    requires Admitted(s, q, now) && q.ReleaseRequest?
    ensures ReleasedOn(Next(s, q, now), q.plan, q.begin)
  {
  }

  lemma {:induction false} ReleaseStays(start: SignerState, steps: seq<SignerStep>, i: nat, j: nat)
    requires i < j <= |steps| && Served(start, steps, i) && steps[i].request.ReleaseRequest?
    ensures ReleasedOn(Before(start, steps, j), steps[i].request.plan, steps[i].request.begin)
    decreases j
  {
    BeforeSucc(start, steps, j - 1);
    var q := steps[i].request;
    if j == i + 1 {
      ReleaseIsRecorded(Before(start, steps, i), q, steps[i].now);
    } else {
      ReleaseStays(start, steps, i, j - 1);
      NextKeepsRelease(Before(start, steps, j - 1), steps[j - 1].request, steps[j - 1].now, q.plan, q.begin);
    }
  }

  /** Of one rotation a signer releases one plan, on one Begin certificate. */
  lemma ReleasesOnce(start: SignerState, steps: seq<SignerStep>, i: nat, j: nat)
    requires i < j < |steps| && Served(start, steps, i) && Served(start, steps, j)
    requires steps[i].request.ReleaseRequest? && steps[j].request.ReleaseRequest?
    requires steps[i].request.plan.context.rotationId == steps[j].request.plan.context.rotationId
    ensures steps[i].request.plan == steps[j].request.plan && steps[i].request.begin == steps[j].request.begin
  {
    ReleaseStays(start, steps, i, j);
    ReleaseStays(start, steps, i, j + 1);
    BeforeSucc(start, steps, j);
    ReleaseIsRecorded(Before(start, steps, j), steps[j].request, steps[j].now);
  }

  // ---- The Abort vote ------------------------------------------------------------------

  lemma NextKeepsActivateVote(s: SignerState, q: SignerRequest, now: U64, r: Id32)
    ensures r in s.activateVotes ==> r in Next(s, q, now).activateVotes
    ensures q.ActivateRequest? && q.plan.context.rotationId == r && Admitted(s, q, now) ==> r in Next(s, q, now).activateVotes
  {
  }

  lemma {:induction false} ActivateVoteStays(start: SignerState, steps: seq<SignerStep>, i: nat, j: nat, r: Id32)
    requires i < j <= |steps| && Served(start, steps, i)
    requires steps[i].request.ActivateRequest? && steps[i].request.plan.context.rotationId == r
    ensures r in Before(start, steps, j).activateVotes
    decreases j
  {
    BeforeSucc(start, steps, j - 1);
    NextKeepsActivateVote(Before(start, steps, j - 1), steps[j - 1].request, steps[j - 1].now, r);
    if j > i + 1 {
      ActivateVoteStays(start, steps, i, j - 1, r);
    }
  }

  lemma AbortVoteMeans(s: SignerState, q: SignerRequest, now: U64)
    requires Admitted(s, q, now) && q.AbortRequest?
    ensures var r := q.plan.context.rotationId;
            r in s.beginVotes && s.beginVotes[r] == Of(q.plan) && r !in s.activateVotes && r !in s.cancelled
    ensures Leaves(q.plan, s.activeCapsule, now) && q.responseKeyLength == XWING_PUBLIC_KEY_LEN
    ensures q.stateAtAbort in {DelayPending, Preparing, Ready, Activating}
  {
  }

  /** A signer votes to abort only a plan it began, out of the capsule it follows, and never
      a rotation it has voted to activate or given up. */
  lemma AbortVoteFollowsBegin(start: SignerState, steps: seq<SignerStep>, i: nat) returns (k: nat)
    requires NoVotesYet(start) && i < |steps| && Served(start, steps, i) && steps[i].request.AbortRequest?
    ensures k < i && Begins(start, steps, k, Of(steps[i].request.plan))
    ensures Leaves(steps[i].request.plan, Before(start, steps, i).activeCapsule, steps[i].now)
    ensures steps[i].request.plan.context.rotationId !in Before(start, steps, i).cancelled
    ensures steps[i].request.stateAtAbort in {DelayPending, Preparing, Ready, Activating}
    ensures steps[i].request.responseKeyLength == XWING_PUBLIC_KEY_LEN
    ensures forall j: nat :: j < i && Served(start, steps, j) && steps[j].request.ActivateRequest? ==>
              steps[j].request.plan.context.rotationId != steps[i].request.plan.context.rotationId
  {
    var q := steps[i].request;
    AbortVoteMeans(Before(start, steps, i), q, steps[i].now);
    BeginVoteHasOrigin(start, steps, i, q.plan.context.rotationId, Of(q.plan));
    k :| k < i && Begins(start, steps, k, Of(q.plan));
    forall j: nat | j < i && Served(start, steps, j) && steps[j].request.ActivateRequest?
      ensures steps[j].request.plan.context.rotationId != q.plan.context.rotationId
    {
      ActivateVoteStays(start, steps, j, i, steps[j].request.plan.context.rotationId);
    }
  }

  // ---- Giving a rotation up ------------------------------------------------------------

  predicate SignedAbort(signerSet: map<nat, Key>, id: nat, abort: AbortCertificate, plan: RotationPlan) {
    && id in signerSet
    && exists i :: 0 <= i < |abort.votes| && AbortsPlan(abort.votes[i], id, signerSet[id], abort, plan)
  }

  predicate AbortsPlan(vote: AbortVote, id: nat, key: Key, abort: AbortCertificate, plan: RotationPlan) {
    && vote.signature == Signature(key, AbortVoteMessage(vote.body))
    && vote.body.signerId == id && vote.body.signerKey == key
    && vote.body.planHash == Of(plan) && vote.body.context == plan.context
    && vote.body.stateAtAbort == abort.stateAtAbort && vote.body.reasonCode == abort.reasonCode
  }

  function Aborters(signerSet: map<nat, Key>, abort: AbortCertificate, plan: RotationPlan): set<nat> {
    set id | id in signerSet && SignedAbort(signerSet, id, abort, plan)
  }

  function AbortIds(abort: AbortCertificate): seq<nat> {
    seq(|abort.votes|, i requires 0 <= i < |abort.votes| => abort.votes[i].body.signerId)
  }

  lemma ValidAbortIsSigned(abort: AbortCertificate, plan: RotationPlan, capsule: Capsule, now: U64)
    requires AbortValid(abort, plan, capsule, now)
    ensures |Aborters(capsule.body.signerSet, abort, plan)| >= capsule.body.signerThreshold
    ensures Leaves(plan, capsule, now) && abort.stateAtAbort in {Proposed, DelayPending, Preparing, Ready, Activating}
  {
    var ids, signed := AbortIds(abort), Aborters(capsule.body.signerSet, abort, plan);
    forall id | id in Endorsements.Members(ids)
      ensures id in signed
    {
      var i :| 0 <= i < |abort.votes| && abort.votes[i].body.signerId == id;
      assert AbortVoteCounts(capsule, abort, abort.votes[i]);
      assert AbortsPlan(abort.votes[i], id, capsule.body.signerSet[id], abort, plan);
    }
    Endorsements.DistinctMembers(ids);
    SubsetSize(Endorsements.Members(ids), signed);
  }

  /** The pinned witness signed that it recorded this cancellation. */
  predicate SignedVeto(keys: map<nat, Key>, id: nat, acks: seq<CancelAck>, cancel: OwnerCancelBody) {
    && id in keys
    && exists i :: 0 <= i < |acks| && VetoesOn(acks[i], id, keys[id], cancel)
  }

  predicate VetoesOn(ack: CancelAck, id: nat, key: Key, cancel: OwnerCancelBody) {
    && ack.signature == Signature(key, CancelAckMessage(ack.body))
    && ack.body.witnessId == id && ack.body.witnessKey == key
    && ack.body.cancelHash == Of(cancel)
    && ack.body.planHash == cancel.planHash && ack.body.rotationId == cancel.context.rotationId
    && ack.body.configId == cancel.context.configRef.configId && ack.body.protocolVersion == PROTOCOL_VERSION_V3
  }

  function Vetoers(keys: map<nat, Key>, acks: seq<CancelAck>, cancel: OwnerCancelBody): set<nat> {
    set id | id in keys && SignedVeto(keys, id, acks, cancel)
  }

  /** The owner on the card signed the cancellation of this plan, and `2f + 1` witnesses on
      the card signed that they recorded that very cancellation. */
  ghost predicate OwnerAndWitnesses(card: RecoveryCard, plan: RotationPlan, cancel: OwnerCancelCertificate, acks: seq<CancelAck>) {
    && cancel.signature == Signature(card.ownerCancelKey, OwnerCancelMessage(cancel.body))
    && cancel.body.planHash == Of(plan) && cancel.body.context == plan.context
    && |cancel.body.responseKey| == XWING_PUBLIC_KEY_LEN
    && Endorsements.PinsWitnesses(card)
    && |Vetoers(Pins(card.witnesses), acks, cancel.body)| >= 2 * card.faultBound + 1
  }

  lemma VetoQuorumIsSigned(card: RecoveryCard, plan: RotationPlan, capsule: Capsule, cancel: OwnerCancelCertificate,
                           acks: seq<CancelAck>, now: U64)
    requires VetoQuorum(card, plan, capsule, cancel, acks, now)
    ensures OwnerAndWitnesses(card, plan, cancel, acks)
    ensures Leaves(plan, capsule, now) && card.configId == capsule.body.configRef.configId
  {
    Endorsements.ValidCardPins(card);
    var vetoers := Vetoers(Pins(card.witnesses), acks, cancel.body);
    forall id | id in VetoerIds(acks)
      ensures id in vetoers
    {
      var i :| 0 <= i < |acks| && acks[i].body.witnessId == id;
      assert IsVeto(Pins(card.witnesses), card, plan, cancel, acks[i]);
      assert VetoesOn(acks[i], id, Pins(card.witnesses)[id], cancel.body);
    }
    SubsetSize(VetoerIds(acks), vetoers);
  }

  /** The two grounds on which a signer gives a rotation out of the followed capsule up. */
  ghost predicate GivesUp(s: SignerState, q: SignerRequest, now: U64, r: Id32) {
    || (&& q.FinalizeAbortRequest? && q.plan.context.rotationId == r && r !in s.activateVotes
        && q.responseKeyLength == XWING_PUBLIC_KEY_LEN && Leaves(q.plan, s.activeCapsule, now)
        && |Aborters(s.activeCapsule.body.signerSet, q.abort, q.plan)| >= s.activeCapsule.body.signerThreshold)
    || (&& q.FinalizeOwnerCancelRequest? && q.plan.context.rotationId == r
        && q.responseKeyLength == XWING_PUBLIC_KEY_LEN && Leaves(q.plan, s.activeCapsule, now)
        && s.card.configId == s.activeCapsule.body.configRef.configId
        && OwnerAndWitnesses(s.card, q.plan, q.cancel, q.acks))
  }

  /** The tombstone names the certificate the rotation was given up on. */
  predicate BuriedBy(t: Tombstone, q: SignerRequest) {
    if q.FinalizeAbortRequest? then t == ByAbort(Of(q.abort))
    else q.FinalizeOwnerCancelRequest? && t == ByOwner(Of(q.cancel.body))
  }

  lemma OthersKeepTombstones(s: SignerState, q: SignerRequest)
    requires !q.FinalizeAbortRequest? && !q.FinalizeOwnerCancelRequest?
    ensures Effect(s, q).cancelled == s.cancelled
  {
  }

  lemma GivingUpAnother(s: SignerState, plan: RotationPlan, t: Tombstone, r: Id32)
    requires ValidSigner(s) && Began(s, plan) && HoldsLock(s, plan) && r in s.cancelled
    ensures r in GiveUp(s, plan, t).cancelled && GiveUp(s, plan, t).cancelled[r] == s.cancelled[r]
  {
    GiveUpKeeps(s, plan, t);
  }

  lemma EffectKeepsTombstone(s: SignerState, q: SignerRequest, r: Id32)
    requires ValidSigner(s) && Grounded(s, q) && r in s.cancelled
    ensures r in Effect(s, q).cancelled && Effect(s, q).cancelled[r] == s.cancelled[r]
  {
    if q.FinalizeAbortRequest? {
      GivingUpAnother(s, q.plan, ByAbort(Of(q.abort)), r);
    } else if q.FinalizeOwnerCancelRequest? {
      if !AlreadyCancelled(s, q.plan, q.cancel) {
        GivingUpAnother(s, q.plan, ByOwner(Of(q.cancel.body)), r);
      }
    } else {
      OthersKeepTombstones(s, q);
    }
  }

  lemma NextKeepsTombstone(s: SignerState, q: SignerRequest, now: U64, r: Id32)
    requires ValidSigner(s) && r in s.cancelled
    ensures r in Next(s, q, now).cancelled && Next(s, q, now).cancelled[r] == s.cancelled[r]
  {
    if Admitted(s, q, now) {
      AdmittedIsGrounded(s, q, now);
      EffectKeepsTombstone(s, q, r);
    }
  }

  lemma CancelledOrigin(s: SignerState, q: SignerRequest, now: U64, r: Id32)
    requires r in Next(s, q, now).cancelled && r !in s.cancelled
    ensures Admitted(s, q, now) && GivesUp(s, q, now, r) && BuriedBy(Next(s, q, now).cancelled[r], q)
  {
    if q.FinalizeAbortRequest? {
      ValidAbortIsSigned(q.abort, q.plan, s.activeCapsule, now);
    } else if q.FinalizeOwnerCancelRequest? {
      VetoQuorumIsSigned(s.card, q.plan, s.activeCapsule, q.cancel, q.acks, now);
    }
  }

  lemma TombstoneStays(start: SignerState, steps: seq<SignerStep>, i: nat, r: Id32)
    requires ValidSigner(start) && i < |steps| && r in Before(start, steps, i).cancelled
    ensures r in Before(start, steps, i + 1).cancelled
    ensures Before(start, steps, i + 1).cancelled[r] == Before(start, steps, i).cancelled[r]
  {
    BeforeSucc(start, steps, i);
    RunKeepsValid(start, steps[..i]);
    NextKeepsTombstone(Before(start, steps, i), steps[i].request, steps[i].now, r);
  }

  lemma GivenUpAt(start: SignerState, steps: seq<SignerStep>, i: nat, r: Id32)
    requires i < |steps| && r !in Before(start, steps, i).cancelled && r in Before(start, steps, i + 1).cancelled
    ensures Served(start, steps, i) && GivesUp(Before(start, steps, i), steps[i].request, steps[i].now, r)
    ensures BuriedBy(Before(start, steps, i + 1).cancelled[r], steps[i].request) && Before(start, steps, i).card == start.card
  {
    BeforeSucc(start, steps, i);
    CancelledOrigin(Before(start, steps, i), steps[i].request, steps[i].now, r);
    SignersAndWitnesses.RunKeepsCard(start, steps[..i]);
  }

  /** A signer gives a rotation up only on the signatures of a threshold of signers, and then
      before it has voted to activate, or on the owner's signature recorded by `2f + 1`
      witnesses of its card; and the tombstone names that certificate for ever. */
  lemma {:induction false} GivingUpIsSigned(start: SignerState, steps: seq<SignerStep>, t: nat, r: Id32) returns (i: nat)
    requires ValidSigner(start) && t <= |steps| && r !in start.cancelled && r in Before(start, steps, t).cancelled
    ensures i < t && BuriedBy(Before(start, steps, t).cancelled[r], steps[i].request)
    ensures Served(start, steps, i) && GivesUp(Before(start, steps, i), steps[i].request, steps[i].now, r)
    ensures Before(start, steps, i).card == start.card
    decreases t
  {
    assert t > 0;
    if r in Before(start, steps, t - 1).cancelled {
      i := GivingUpIsSigned(start, steps, t - 1, r);
      TombstoneStays(start, steps, t - 1, r);
    } else {
      i := t - 1;
      GivenUpAt(start, steps, i, r);
    }
  }

  /** The veto that ends a commitment carries those signatures. */
  lemma AcceptedVetoIsSigned(start: SignerState, steps: seq<SignerStep>, i: nat, h: PlanHash)
    requires i < |steps| && AcceptsVeto(start, steps, i, h)
    ensures steps[i].request.FinalizeOwnerCancelRequest? && Of(steps[i].request.plan) == h
    ensures OwnerAndWitnesses(start.card, steps[i].request.plan, steps[i].request.cancel, steps[i].request.acks)
  {
    var q, s := steps[i].request, Before(start, steps, i);
    VetoQuorumIsSigned(s.card, q.plan, s.activeCapsule, q.cancel, q.acks, steps[i].now);
    SignersAndWitnesses.RunKeepsCard(start, steps[..i]);
  }

  // ---- Only in date --------------------------------------------------------------------

  /** A request changes a signer only while its rotation context is in date, of this
      configuration, and answerable. */
  lemma OnlyInDate(s: SignerState, q: SignerRequest, now: U64)
    requires Next(s, q, now) != s
    ensures var c := q.Context();
            && c.protocolVersion == PROTOCOL_VERSION_V3 && c.configRef.configId == s.card.configId
            && c.issuedAt <= now < c.expiry && |c.recipientKey| == XWING_PUBLIC_KEY_LEN
  {
  }
}
