/** The signer's request handler, updating its entry in place, step by step. */
module SignerRuntime {
  import opened Foundations
  import opened EpochTypes
  import WitnessEntry
  import opened EpochSelection
  import opened RotationPlans
  import opened SignerLocks

  /** One slot of a vote map: a first vote, a repeat, or a conflict. */
  method RecordVote<V(==)>(votes: map<Id32, V>, rotationId: Id32, vote: V) returns (r: Result<map<Id32, V>, StorageError>)
    ensures r.Ok? <==> Records(votes, rotationId, vote)
    ensures r.Ok? ==> r.value == votes[rotationId := vote]
    ensures r.Err? ==> r.error == Conflict
  {
    if rotationId in votes {
      if votes[rotationId] != vote {
        return Err(Conflict);
      }
      assert votes == votes[rotationId := vote];
      return Ok(votes);
    }
    return Ok(votes[rotationId := vote]);
  }

  class SignerRotationEntry {
    const signerId: nat
    const signerKey: Key
    const card: RecoveryCard
    var activeCapsule: Capsule
    var locks: map<CapsuleHash, PlanHash>
    var intents: map<Id32, RotationIntent>
    var intentVotes: map<Id32, IntentHash>
    var beginVotes: map<Id32, PlanHash>
    var releaseVotes: map<Id32, Hash<ReleaseVoteBody>>
    var activateVotes: map<Id32, Hash<ActivateVoteBody>>
    var cancelled: map<Id32, Tombstone>
    var highestObserved: map<Id32, U64>

    ghost function State(): SignerState
      reads this
    {
      SignerState(signerId, signerKey, card, activeCapsule, locks, intents, intentVotes,
                  beginVotes, releaseVotes, activateVotes, cancelled, highestObserved)
    }

    ghost predicate Valid()
      reads this
    {
      ValidSigner(State())
    }

    constructor (signerId: nat, signerKey: Key, card: RecoveryCard, genesis: Capsule)
      ensures Valid()
      ensures State() == SignerState(signerId, signerKey, card, genesis, map[], map[], map[], map[], map[], map[], map[], map[])
    {
      this.signerId, this.signerKey, this.card, activeCapsule := signerId, signerKey, card, genesis;
      locks, intents, intentVotes, beginVotes := map[], map[], map[], map[];
      releaseVotes, activateVotes, cancelled, highestObserved := map[], map[], map[], map[];
    }

    predicate IsFresh(c: RotationContext, now: U64)
      reads this
      ensures IsFresh(c, now) == Fresh(State(), c, now)
    {
      && c.protocolVersion == PROTOCOL_VERSION_V3
      && c.configRef.configId == card.configId
      && c.issuedAt <= now < c.expiry
      && |c.recipientKey| == XWING_PUBLIC_KEY_LEN
    }

    /** Takes the predecessor's lock for one plan; a lock held for another plan is never
        taken over. */
    method LockPlan(predecessorHash: CapsuleHash, planHash: PlanHash) returns (r: Result<(), StorageError>)
      modifies this`locks
      ensures r.Ok? <==> Records(old(locks), predecessorHash, planHash)
      ensures locks == if r.Ok? then old(locks)[predecessorHash := planHash] else old(locks)
    {
      if predecessorHash in locks {
        if locks[predecessorHash] != planHash {
          return Err(Conflict);
        }
        assert locks == locks[predecessorHash := planHash];
        return Ok(());
      }
      locks := locks[predecessorHash := planHash];
      return Ok(());
    }

    /** Stores an approved Intent; a different Intent of this rotation cannot be there. */
    method Approve(intent: RotationIntent, active: Capsule, votes: map<Id32, IntentHash>)
      requires Valid()
      requires Records(intentVotes, intent.context.rotationId, Of(intent))
      requires votes == intentVotes[intent.context.rotationId := Of(intent)]
      modifies this
      ensures Valid()
      ensures Records(old(intents), intent.context.rotationId, intent)
      ensures State() == IntentNext(old(State()), intent, active)
    {
      IntentKeeps(State(), intent, active);
      intentVotes := votes;
      intents := intents[intent.context.rotationId := intent];
      activeCapsule := active;
      highestObserved := highestObserved[intent.context.configRef.configId := intent.context.configRef.guardianEpoch];
      assert State() == IntentNext(old(State()), intent, active);
    }

    /** Gives a rotation up: its tombstone is written and its lock returned. */
    method Drop(plan: RotationPlan, tombstone: Tombstone)
      requires Valid() && Began(State(), plan) && HoldsLock(State(), plan)
      modifies this`cancelled, this`locks
      ensures Valid()
      ensures plan.context.rotationId !in old(cancelled)
      ensures State() == GiveUp(old(State()), plan, tombstone)
    {
      ghost var next := GiveUp(State(), plan, tombstone);
      GiveUpKeeps(State(), plan, tombstone);
      cancelled := cancelled[plan.context.rotationId := tombstone];
      locks := locks - {plan.context.predecessorHash};
      assert State() == next;
    }

    method CastRelease(plan: RotationPlan, begin: BeginCertificate, body: ReleaseVoteBody) returns (ok: bool)
      requires Valid() && Began(State(), plan) && body == ReleaseVote(State(), plan, begin)
      modifies this`releaseVotes
      ensures Valid()
      ensures ok <==> Records(old(releaseVotes), plan.context.rotationId, Of(body))
      ensures State() == if ok then ReleaseNext(old(State()), plan, begin) else old(State())
    {
      var recorded := RecordVote(releaseVotes, plan.context.rotationId, Of(body));
      if recorded.Err? {
        return false;
      }
      ghost var next := ReleaseNext(State(), plan, begin);
      ReleaseKeeps(State(), plan, begin);
      releaseVotes := recorded.value;
      assert State() == next;
      return true;
    }

    method CastActivate(plan: RotationPlan, ready: ReadyCertificate, successor: Capsule, body: ActivateVoteBody) returns (ok: bool)
      requires Valid() && Began(State(), plan) && plan.context.rotationId in releaseVotes && ready.planHash == Of(plan)
      requires body == ActivationVote(State(), plan, ready, successor)
      modifies this`activateVotes
      ensures Valid()
      ensures ok <==> Records(old(activateVotes), plan.context.rotationId, Of(body))
      ensures State() == if ok then ActivateNext(old(State()), plan, ready, successor) else old(State())
    {
      var recorded := RecordVote(activateVotes, plan.context.rotationId, Of(body));
      if recorded.Err? {
        return false;
      }
      ghost var next := ActivateNext(State(), plan, ready, successor);
      ActivateKeeps(State(), plan, ready, successor);
      activateVotes := recorded.value;
      assert State() == next;
      return true;
    }

    /** The lock, then the Begin vote; the vote cannot conflict once the lock is taken. */
    method LockAndVote(plan: RotationPlan) returns (ok: bool)
      requires Valid()
      requires plan.context.rotationId in intents && plan.context == intents[plan.context.rotationId].context
      requires plan.context.rotationId !in cancelled
      modifies this`locks, this`beginVotes
      ensures Valid()
      ensures ok <==> Records(old(locks), plan.context.predecessorHash, Of(plan))
                      && Records(old(beginVotes), plan.context.rotationId, Of(plan))
      ensures State() == if ok then BeginNext(old(State()), plan) else old(State())
    {
      var locked := LockPlan(plan.context.predecessorHash, Of(plan));
      if locked.Err? {
        return false;
      }
      LockImpliesVote(old(State()), plan);
      var recorded := RecordVote(beginVotes, plan.context.rotationId, Of(plan));
      if recorded.Err? {
        assert false;
        return false;
      }
      BeginKeeps(old(State()), plan);
      beginVotes := recorded.value;
      return true;
    }

    /** Approves an Intent for the epoch selected from a fresh witness read. */
    method Intent(intent: RotationIntent, challenge: ReadChallenge, envelopes: seq<WitnessEntry.ReadEnvelope>,
                  readHash: Option<Id32>, now: U64)
      returns (approved: bool, selected: Option<Capsule>)
      requires Valid()
      modifies this
      ensures Valid()
      ensures Fresh(old(State()), intent.context, now) ==> (selected.Some? <==> Decidable(card, challenge, envelopes))
      ensures selected.Some? ==> ReadSelects(card, challenge, envelopes, selected.value)
      ensures approved <==> Fresh(old(State()), intent.context, now) && IntentAdmitted(old(State()), intent, selected, readHash)
      ensures State() == if approved then IntentNext(old(State()), intent, selected.value) else old(State())
    {
      if !IsFresh(intent.context, now) {
        return false, None;
      }
      selected := SelectLatestEpoch(card, challenge, envelopes);
      if selected.None? || !IntentOpens(intent, selected.value) || readHash != Some(intent.witnessReadHash) || !IntentEncodes(intent) {
        return false, selected;
      }
      var rotation := intent.context.rotationId;
      var recorded := RecordVote(intentVotes, rotation, Of(intent));
      if recorded.Err? {
        return false, selected;
      }
      Approve(intent, selected.value, recorded.value);
      return true, selected;
    }

    /** Locks the predecessor for one accepted plan and votes to begin it. */
    method Begin(plan: RotationPlan, intentHash: IntentHash, now: U64) returns (vote: Option<BeginVote>)
      requires Valid()
      modifies this
      ensures Valid()
      ensures vote.Some? <==> Fresh(old(State()), plan.context, now) && BeginAdmitted(old(State()), plan, intentHash, now)
      ensures State() == if vote.Some? then BeginNext(old(State()), plan) else old(State())
      ensures vote.Some? ==>
                && vote.value.body == BeginVoteBody(plan.context, intentHash, Of(plan), plan.oldRosterCommitment,
                                                    plan.newRosterCommitment, signerId, signerKey)
                && Verify(signerKey, BeginVoteMessage(vote.value.body), vote.value.signature)
    {
      var rotation := plan.context.rotationId;
      if !IsFresh(plan.context, now) || rotation in cancelled || rotation !in intents {
        return None;
      }
      var planHash := ValidatePlanAgainstIntent(plan, intents[rotation], activeCapsule, now);
      if planHash.None? {
        return None;
      }
      if plan.intentHash != intentHash || rotation !in intentVotes || intentVotes[rotation] != intentHash {
        return None;
      }
      var locked := LockAndVote(plan);
      if !locked {
        return None;
      }
      var body := BeginVoteBody(plan.context, intentHash, planHash.value, plan.oldRosterCommitment,
                                plan.newRosterCommitment, signerId, signerKey);
      return Some(BeginVote(body, Signature(signerKey, BeginVoteMessage(body))));
    }

    /** Votes to release the plan it began, once the certified delay has run. */
    method Release(plan: RotationPlan, begin: BeginCertificate, now: U64) returns (vote: Option<ReleaseVoteBody>)
      requires Valid()
      modifies this
      ensures Valid()
      ensures vote.Some? <==> Fresh(old(State()), plan.context, now) && ReleaseAdmitted(old(State()), plan, begin, now)
      ensures State() == if vote.Some? then ReleaseNext(old(State()), plan, begin) else old(State())
      ensures vote.Some? ==> vote.value == ReleaseVote(old(State()), plan, begin)
    {
      var rotation := plan.context.rotationId;
      if !IsFresh(plan.context, now) || rotation in cancelled || !PlanEncodes(plan)
         || rotation !in beginVotes || beginVotes[rotation] != Of(plan) {
        return None;
      }
      if !BeginValid(begin, plan, activeCapsule, now) || now < begin.notBefore {
        return None;
      }
      var body := ReleaseVoteBody(plan.context, Of(plan), Of(begin), signerId, signerKey);
      var cast := CastRelease(plan, begin, body);
      return if cast then Some(body) else None;
    }

    /** Votes to activate one successor capsule of the plan it began and released. */
    method Activate(plan: RotationPlan, ready: ReadyCertificate, successor: Capsule, now: U64)
      returns (vote: Option<ActivateVote>)
      requires Valid()
      modifies this
      ensures Valid()
      ensures vote.Some? <==> Fresh(old(State()), plan.context, now) && ActivateAdmitted(old(State()), plan, ready, successor, now)
      ensures State() == if vote.Some? then ActivateNext(old(State()), plan, ready, successor) else old(State())
      ensures vote.Some? ==> vote.value.body == ActivationVote(old(State()), plan, ready, successor)
                             && Verify(signerKey, ActivateVoteMessage(vote.value.body), vote.value.signature)
    {
      var rotation := plan.context.rotationId;
      if !IsFresh(plan.context, now) || !PlanEncodes(plan) || rotation in cancelled
         || rotation !in beginVotes || beginVotes[rotation] != Of(plan) || rotation !in releaseVotes {
        return None;
      }
      if !ReadyValid(ready, plan, activeCapsule, now) || !SuccessorMatches(plan, ready, activeCapsule, successor) {
        return None;
      }
      var body := ActivateVoteBody(plan.context, ready.planHash, ready.transcriptHash, successor.hash, signerId, signerKey);
      var cast := CastActivate(plan, ready, successor, body);
      return if cast then Some(ActivateVote(body, Signature(signerKey, ActivateVoteMessage(body)))) else None;
    }

    /** Votes to abort a plan it began and has not voted to activate; changes nothing. */
    method Abort(plan: RotationPlan, stateAtAbort: RotationStage, reasonCode: nat, responseKeyLength: nat, now: U64)
      returns (vote: Option<AbortVote>)
      requires Valid()
      ensures vote.Some? <==> Fresh(State(), plan.context, now) && AbortAdmitted(State(), plan, stateAtAbort, responseKeyLength, now)
      ensures vote.Some? ==> vote.value.body == AbortVoteBody(plan.context, Of(plan), stateAtAbort, reasonCode, signerId, signerKey)
                             && Verify(signerKey, AbortVoteMessage(vote.value.body), vote.value.signature)
    {
      var rotation := plan.context.rotationId;
      if !IsFresh(plan.context, now) || responseKeyLength != XWING_PUBLIC_KEY_LEN || !PlanValid(plan, activeCapsule, now) {
        return None;
      }
      if rotation in cancelled || rotation !in beginVotes || beginVotes[rotation] != Of(plan)
         || rotation in activateVotes || stateAtAbort !in {DelayPending, Preparing, Ready, Activating} {
        return None;
      }
      var body := AbortVoteBody(plan.context, Of(plan), stateAtAbort, reasonCode, signerId, signerKey);
      return Some(AbortVote(body, Signature(signerKey, AbortVoteMessage(body))));
    }

    method FinalizeAbort(plan: RotationPlan, certificate: AbortCertificate, responseKeyLength: nat, now: U64)
      returns (ok: bool)
      requires Valid()
      modifies this
      ensures Valid()
      ensures ok <==> Fresh(old(State()), plan.context, now) && FinalizeAbortAdmitted(old(State()), plan, certificate, responseKeyLength, now)
      ensures State() == if ok then GiveUp(old(State()), plan, ByAbort(Of(certificate))) else old(State())
      ensures ok ==> plan.context.rotationId !in old(cancelled)
    {
      var rotation, predecessor := plan.context.rotationId, plan.context.predecessorHash;
      if !IsFresh(plan.context, now) || responseKeyLength != XWING_PUBLIC_KEY_LEN
         || !AbortValid(certificate, plan, activeCapsule, now) {
        return false;
      }
      if rotation !in beginVotes || beginVotes[rotation] != Of(plan) || rotation in activateVotes
         || predecessor !in locks || locks[predecessor] != Of(plan) {
        return false;
      }
      Drop(plan, ByAbort(Of(certificate)));
      return true;
    }

    /** The tests of a finalised owner cancellation, in order: refused, already recorded
        (`Some(false)`), or to be carried out (`Some(true)`). */
    method JudgeOwnerCancel(plan: RotationPlan, certificate: OwnerCancelCertificate, acks: seq<CancelAck>,
                            responseKeyLength: nat, now: U64)
      returns (verdict: Option<bool>)
      ensures verdict.Some? <==> Fresh(State(), plan.context, now)
                                 && FinalizeOwnerCancelAdmitted(State(), plan, certificate, acks, responseKeyLength, now)
      ensures verdict.Some? ==> (verdict.value <==> !AlreadyCancelled(State(), plan, certificate))
      ensures verdict == Some(true) ==> Began(State(), plan) && HoldsLock(State(), plan)
    {
      var rotation, predecessor := plan.context.rotationId, plan.context.predecessorHash;
      if !IsFresh(plan.context, now) || responseKeyLength != XWING_PUBLIC_KEY_LEN {
        return None;
      }
      var cancelHash := ValidateVetoQuorum(card, plan, activeCapsule, certificate, acks, now);
      if cancelHash.None? {
        return None;
      }
      if rotation in cancelled && cancelled[rotation] == ByOwner(cancelHash.value) {
        return Some(false);
      }
      if rotation !in beginVotes || beginVotes[rotation] != Of(plan)
         || predecessor !in locks || locks[predecessor] != Of(plan) {
        return None;
      }
      return Some(true);
    }

    method FinalizeOwnerCancel(plan: RotationPlan, certificate: OwnerCancelCertificate, acks: seq<CancelAck>,
                               responseKeyLength: nat, now: U64)
      returns (ok: bool)
      requires Valid()
      modifies this
      ensures Valid()
      ensures ok <==> Fresh(old(State()), plan.context, now)
                      && FinalizeOwnerCancelAdmitted(old(State()), plan, certificate, acks, responseKeyLength, now)
      ensures State() == if ok && !AlreadyCancelled(old(State()), plan, certificate)
                         then GiveUp(old(State()), plan, ByOwner(Of(certificate.body))) else old(State())
    {
      var verdict := JudgeOwnerCancel(plan, certificate, acks, responseKeyLength, now);
      if verdict == Some(true) {
        Drop(plan, ByOwner(Of(certificate.body)));
      }
      return verdict.Some?;
    }
  }
}
