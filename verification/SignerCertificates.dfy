/** From votes to a certificate: a threshold of signers that vote on one request make a
    certificate every reader accepts, and exactly when a witness acks it. */
module SignerCertificates {
  import opened Foundations
  import opened EpochTypes
  import opened EpochSelection
  import opened RotationPlans
  import opened SignerLocks
  import opened SignerHistory
  import opened SignerEvidence
  import WitnessEntry

  /** A signer's run up to the step at which it votes. */
  datatype Cast = Cast(start: SignerState, steps: seq<SignerStep>, step: nat)
  {
    /** The vote is the one this signer cast for this successor under this plan. */
    ghost predicate Gives(plan: RotationPlan, ready: ReadyCertificate, successor: Capsule, vote: ActivateVote) {
      && step < |steps| && steps[step].request == ActivateRequest(plan, ready, successor)
      && VotesActivate(start, steps, step, vote.body)
      && vote.signature == Signature(start.signerKey, ActivateVoteMessage(vote.body))
    }

    /** The signer is the one the capsule pins under its id. */
    predicate PinnedBy(body: CapsuleBody) {
      && 0 < start.signerId <= body.signerCount
      && start.signerId in body.signerSet && body.signerSet[start.signerId] == start.signerKey
    }
  }

  /** A threshold of distinct pinned signers voted on one request. */
  ghost predicate ThresholdVotes(casts: seq<Cast>, plan: RotationPlan, ready: ReadyCertificate, successor: Capsule, votes: seq<ActivateVote>) {
    && |casts| == |votes| && 0 < |votes| && successor.body.signerThreshold <= |votes| <= MAX_ROTATION_ACTORS
    && successor.body.signerCount <= MAX_ROTATION_ACTORS
    && (forall i :: 0 <= i < |votes| ==> casts[i].Gives(plan, ready, successor, votes[i]) && casts[i].PinnedBy(successor.body))
    && (forall i, j :: 0 <= i < j < |votes| ==> casts[i].start.signerId != casts[j].start.signerId)
  }

  function CertificateOf(plan: RotationPlan, ready: ReadyCertificate, successor: Capsule, votes: seq<ActivateVote>): ActivateCertificate {
    ActivateCertificate(plan.context, Of(plan), ready.transcriptHash, plan.successor, BodyHash(successor.body), votes)
  }

  /** What each vote contributes. */
  lemma VoteFits(x: Cast, plan: RotationPlan, ready: ReadyCertificate, successor: Capsule, vote: ActivateVote)
    requires x.Gives(plan, ready, successor, vote) && x.PinnedBy(successor.body)
    ensures vote.body == ActivateVoteBody(plan.context, Of(plan), ready.transcriptHash, BodyHash(successor.body), x.start.signerId, x.start.signerKey)
    ensures MemberVote(successor, vote) && PlanEncodes(plan) && CapsuleEncodes(successor.body)
    ensures successor.hash == BodyHash(successor.body) && successor.body.configRef == plan.successor
    ensures successor.body.predecessorHash == plan.context.predecessorHash
  {
    VoteNamesSuccessor(x.start, x.steps, x.step, vote.body);
  }

  /** The votes of a threshold of pinned signers on one request form a certificate that is
      valid for exactly the capsule they voted for. */
  lemma VotesMakeCertificate(casts: seq<Cast>, plan: RotationPlan, ready: ReadyCertificate, successor: Capsule, votes: seq<ActivateVote>)
    requires ThresholdVotes(casts, plan, ready, successor, votes)
    ensures ActivateCertificateEncodes(CertificateOf(plan, ready, successor, votes))
    ensures CertificateValid(successor, CertificateOf(plan, ready, successor, votes))
  {
    forall i | 0 <= i < |votes|
      ensures votes[i].body == ActivateVoteBody(plan.context, Of(plan), ready.transcriptHash, BodyHash(successor.body),
                                                casts[i].start.signerId, casts[i].start.signerKey)
      ensures MemberVote(successor, votes[i])
    {
      VoteFits(casts[i], plan, ready, successor, votes[i]);
    }
    VoteFits(casts[0], plan, ready, successor, votes[0]);
  }

  /** The rest of the policy: what a witness compares and a signer does not. */
  predicate KeepsLimits(next: CapsuleBody, current: CapsuleBody) {
    && next.minimumRecoveryDelay >= current.minimumRecoveryDelay
    && next.maxRequestLifetime == current.maxRequestLifetime
    && next.dpssSuite == current.dpssSuite
  }

  /** A witness that has finalised the capsule the signers follow, and neither holds a child
      nor a veto of the rotation, acks the signers' certificate exactly when the successor
      also keeps the limits, which no signer has compared. */
  lemma WitnessAcksIffLimitsKept(casts: seq<Cast>, plan: RotationPlan, ready: ReadyCertificate, successor: Capsule,
                                 votes: seq<ActivateVote>, s: WitnessEntry.EntryState)
    requires ThresholdVotes(casts, plan, ready, successor, votes)
    requires Hashed(casts[0].start.activeCapsule) && IntentsHashed(casts[0].steps)
    requires WitnessEntry.ValidState(s) && s.pendingCapsule.None? && s.signerKeys == s.capsule.body.signerSet
    requires s.capsule.hash == plan.context.predecessorHash && plan.context.rotationId !in s.cancellations
    ensures WitnessEntry.ActivateReply(s, WitnessEntry.ActivationRequest(successor, CertificateOf(plan, ready, successor, votes))).Some?
            <==> KeepsLimits(successor.body, s.capsule.body)
  {
    VotesMakeCertificate(casts, plan, ready, successor, votes);
    FollowedIsFinalised(casts[0], plan, ready, successor, votes[0], s.capsule);
    forall i | 0 <= i < |votes|
      ensures WitnessEntry.PinnedVote(s.signerKeys, votes[i])
    {
      VoteFits(casts[i], plan, ready, successor, votes[i]);
    }
    VoteFits(casts[0], plan, ready, successor, votes[0]);
    AcksIff(s, WitnessEntry.ActivationRequest(successor, CertificateOf(plan, ready, successor, votes)));
  }

  lemma FollowedIsFinalised(x: Cast, plan: RotationPlan, ready: ReadyCertificate, successor: Capsule, vote: ActivateVote, finalised: Capsule)
    requires x.Gives(plan, ready, successor, vote) && Hashed(x.start.activeCapsule) && IntentsHashed(x.steps)
    requires finalised.hash == BodyHash(finalised.body) && finalised.hash == plan.context.predecessorHash
    ensures Continues(finalised.body, plan, ready, successor.body)
    ensures plan.context.configRef == finalised.body.configRef && plan.successor.IsDirectSuccessorOf(finalised.body.configRef)
  {
    RunKeepsHashed(x.start, x.steps, x.step);
    VoteNamesSuccessor(x.start, x.steps, x.step, vote.body);
  }

  lemma AcksIff(s: WitnessEntry.EntryState, request: WitnessEntry.ActivationRequest)
    requires WitnessEntry.ValidState(s) && s.pendingCapsule.None?
    requires var certificate, next, current := request.certificate, request.capsule.body, s.capsule.body;
             && CertificateValid(request.capsule, certificate) && CapsuleEncodes(next)
             && request.capsule.hash == BodyHash(next)
             && certificate.context.rotationId !in s.cancellations
             && certificate.context.configRef == current.configRef && certificate.context.predecessorHash == s.capsule.hash
             && next.configRef.IsDirectSuccessorOf(current.configRef)
             && next.signerCount == current.signerCount && next.signerThreshold == current.signerThreshold
             && next.signerSet == current.signerSet && next.ownerCancelKey == current.ownerCancelKey
             && forall i :: 0 <= i < |certificate.votes| ==> WitnessEntry.PinnedVote(s.signerKeys, certificate.votes[i])
    ensures WitnessEntry.ActivateReply(s, request).Some? <==> KeepsLimits(request.capsule.body, s.capsule.body)
  {
  }
}
