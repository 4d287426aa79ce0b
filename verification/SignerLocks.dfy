/** One rotation signer's durable entry: Intents it approved, one plan lock per
    predecessor capsule, its votes, and the rotations it gave up for good. */
module SignerLocks {
  import opened Foundations
  import opened EpochTypes
  import opened EpochSelection
  import opened RotationPlans
  import opened WitnessEntry

  // ---- Certificates --------------------------------------------------------------

  predicate Member(capsule: Capsule, id: nat, key: Key) {
    && 0 < id <= capsule.body.signerCount
    && id in capsule.body.signerSet && capsule.body.signerSet[id] == key
  }

  predicate BeginVoteCounts(capsule: Capsule, c: BeginCertificate, v: BeginVote) {
    && v.body.signerId <= MAX_ROTATION_ACTORS
    && SameRotation(c.context, v.body.context)
    && ContextEncodes(v.body.context)
    && v.body.intentHash == c.intentHash && v.body.planHash == c.planHash
    && v.body.oldRosterCommitment == c.oldRosterCommitment
    && v.body.newRosterCommitment == c.newRosterCommitment
    && Member(capsule, v.body.signerId, v.body.signerKey)
    && Verify(v.body.signerKey, BeginVoteMessage(v.body), v.signature)
  }

  /** A signer threshold began exactly this plan, and the delay it starts is at least the
      plan's minimum. */
  predicate BeginValid(c: BeginCertificate, plan: RotationPlan, capsule: Capsule, now: U64) {
    && PlanValid(plan, capsule, now)
    && c.context == plan.context
    && c.intentHash == plan.intentHash && c.planHash == Of(plan)
    && c.oldRosterCommitment == plan.oldRosterCommitment
    && c.newRosterCommitment == plan.newRosterCommitment
    && now < plan.preparationDeadline
    && c.notBefore >= SatAdd(c.context.issuedAt, plan.minimumDelaySecs)
    && (forall i :: 0 <= i < |c.votes| ==> BeginVoteCounts(capsule, c, c.votes[i]))
    && (forall i, j :: 0 <= i < j < |c.votes| ==> c.votes[i].body.signerId != c.votes[j].body.signerId)
    && capsule.body.signerThreshold <= |c.votes| <= MAX_ROTATION_ACTORS
  }

  predicate AbortVoteCounts(capsule: Capsule, c: AbortCertificate, v: AbortVote) {
    && v.body.signerId <= MAX_ROTATION_ACTORS
    && v.body.context == c.context && v.body.planHash == c.planHash
    && v.body.stateAtAbort == c.stateAtAbort && v.body.reasonCode == c.reasonCode
    && Member(capsule, v.body.signerId, v.body.signerKey)
    && Verify(v.body.signerKey, AbortVoteMessage(v.body), v.signature)
  }

  predicate AbortValid(c: AbortCertificate, plan: RotationPlan, capsule: Capsule, now: U64) {
    && PlanValid(plan, capsule, now)
    && c.context == plan.context && c.planHash == Of(plan)
    && c.stateAtAbort in {Proposed, DelayPending, Preparing, Ready, Activating}
    && (forall i :: 0 <= i < |c.votes| ==> AbortVoteCounts(capsule, c, c.votes[i]))
    && (forall i, j :: 0 <= i < j < |c.votes| ==> c.votes[i].body.signerId != c.votes[j].body.signerId)
    && capsule.body.signerThreshold <= |c.votes| <= MAX_ROTATION_ACTORS
  }

  /** Ready as a signer sees it: what it binds, whether its guardian acks are complete and
      correctly signed, and the digest of its transcript. */
  datatype ReadyCertificate = ReadyCertificate(
    context: RotationContext,
    planHash: PlanHash,
    successor: ConfigRef,
    material: Id32,
    acksComplete: bool,
    transcriptHash: Id32)

  predicate ReadyValid(c: ReadyCertificate, plan: RotationPlan, capsule: Capsule, now: U64) {
    && PlanValid(plan, capsule, now)
    && c.context == plan.context && c.planHash == Of(plan) && c.successor == plan.successor
    && now < plan.preparationDeadline
    && c.acksComplete
  }

  // ---- The owner's veto ----------------------------------------------------------

  predicate CancelBinds(card: RecoveryCard, plan: RotationPlan, capsule: Capsule, c: OwnerCancelCertificate, now: U64) {
    && CardValid(card)
    && PlanValid(plan, capsule, now)
    && card.configId == capsule.body.configRef.configId
    && card.ownerCancelKey == capsule.body.ownerCancelKey == c.body.ownerCancelKey
    && c.body.context == plan.context && c.body.planHash == Of(plan)
    && |c.body.responseKey| == XWING_PUBLIC_KEY_LEN
    && Verify(c.body.ownerCancelKey, OwnerCancelMessage(c.body), c.signature)
  }

  predicate IsVeto(pins: map<nat, Key>, card: RecoveryCard, plan: RotationPlan, c: OwnerCancelCertificate, ack: CancelAck) {
    && ack.body.witnessId in pins
    && ack.body.protocolVersion == PROTOCOL_VERSION_V3
    && ack.body.configId == card.configId
    && ack.body.rotationId == plan.context.rotationId
    && ack.body.planHash == Of(plan)
    && ack.body.cancelHash == Of(c.body)
    && ack.body.witnessKey == pins[ack.body.witnessId]
    && Verify(pins[ack.body.witnessId], CancelAckMessage(ack.body), ack.signature)
  }

  function VetoerIds(acks: seq<CancelAck>): set<nat> {
    set i | 0 <= i < |acks| :: acks[i].body.witnessId
  }

  predicate DistinctVetoers(acks: seq<CancelAck>) {
    forall i, j :: 0 <= i < j < |acks| ==> acks[i].body.witnessId != acks[j].body.witnessId
  }

  /** `2f + 1` distinct pinned witnesses recorded the owner's cancellation of this plan. */
  predicate VetoQuorum(card: RecoveryCard, plan: RotationPlan, capsule: Capsule,
                       c: OwnerCancelCertificate, acks: seq<CancelAck>, now: U64) {
    && CancelBinds(card, plan, capsule, c, now)
    && DistinctVetoers(acks)
    && (forall i :: 0 <= i < |acks| ==> IsVeto(Pins(card.witnesses), card, plan, c, acks[i]))
    && |VetoerIds(acks)| >= 2 * card.faultBound + 1
  }

  method ValidateVetoQuorum(card: RecoveryCard, plan: RotationPlan, capsule: Capsule,
                            c: OwnerCancelCertificate, acks: seq<CancelAck>, now: U64)
    returns (r: Option<Hash<OwnerCancelBody>>)
    ensures r == if VetoQuorum(card, plan, capsule, c, acks, now) then Some(Of(c.body)) else None
  {
    if !CancelBinds(card, plan, capsule, c, now) {
      return None;
    }
    var ids := CountVetoes(Pins(card.witnesses), card, plan, c, acks);
    if ids.None? || |ids.value| < 2 * card.faultBound + 1 {
      return None;
    }
    return Some(Of(c.body));
  }

  method CountVetoes(pins: map<nat, Key>, card: RecoveryCard, plan: RotationPlan,
                     c: OwnerCancelCertificate, acks: seq<CancelAck>)
    returns (ids: Option<set<nat>>)
    ensures ids.Some? <==> DistinctVetoers(acks) && forall i :: 0 <= i < |acks| ==> IsVeto(pins, card, plan, c, acks[i])
    ensures ids.Some? ==> ids.value == VetoerIds(acks)
  {
    var seen: set<nat> := {};
    for i := 0 to |acks|
      invariant seen == VetoerIds(acks[..i])
      invariant DistinctVetoers(acks[..i])
      invariant forall j :: 0 <= j < i ==> IsVeto(pins, card, plan, c, acks[j])
    {
      assert acks[..i + 1] == acks[..i] + [acks[i]];
      if acks[i].body.witnessId in seen {
        var j :| 0 <= j < i && acks[..i][j].body.witnessId == acks[i].body.witnessId;
        assert acks[j].body.witnessId == acks[i].body.witnessId;
        return None;
      }
      if !IsVeto(pins, card, plan, c, acks[i]) {
        return None;
      }
      seen := seen + {acks[i].body.witnessId};
    }
    assert acks[..|acks|] == acks;
    return Some(seen);
  }

  // ---- The entry as a value ------------------------------------------------------

  datatype Tombstone = ByAbort(abort: Hash<AbortCertificate>) | ByOwner(cancel: Hash<OwnerCancelBody>)

  datatype SignerState = SignerState(
    signerId: nat,
    signerKey: Key,
    card: RecoveryCard,
    activeCapsule: Capsule,
    locks: map<CapsuleHash, PlanHash>,
    intents: map<Id32, RotationIntent>,
    intentVotes: map<Id32, IntentHash>,
    beginVotes: map<Id32, PlanHash>,
    releaseVotes: map<Id32, Hash<ReleaseVoteBody>>,
    activateVotes: map<Id32, Hash<ActivateVoteBody>>,
    cancelled: map<Id32, Tombstone>,
    highestObserved: map<Id32, U64>)

  /** The plan a signer began is under its predecessor's lock exactly while the rotation
      is not cancelled. */
  ghost predicate LockedWhileLive(locks: map<CapsuleHash, PlanHash>, begun: map<Id32, PlanHash>, cancelled: map<Id32, Tombstone>) {
    && (forall r :: r in begun ==> begun[r].Of? && begun[r].preimage.context.rotationId == r)
    && (forall r :: r in begun && r !in cancelled ==> Under(locks, begun[r]))
    && (forall p :: p in locks ==> IsLive(begun, cancelled, p, locks[p]))
  }

  ghost predicate Under(locks: map<CapsuleHash, PlanHash>, h: PlanHash) {
    && h.Of?
    && h.preimage.context.predecessorHash in locks
    && locks[h.preimage.context.predecessorHash] == h
  }

  ghost predicate IsLive(begun: map<Id32, PlanHash>, cancelled: map<Id32, Tombstone>, p: CapsuleHash, h: PlanHash) {
    && h.Of?
    && h.preimage.context.predecessorHash == p
    && h.preimage.context.rotationId in begun
    && begun[h.preimage.context.rotationId] == h
    && h.preimage.context.rotationId !in cancelled
  }

  ghost predicate IntentsMatch(intents: map<Id32, RotationIntent>, votes: map<Id32, IntentHash>, begun: map<Id32, PlanHash>) {
    && intents.Keys == votes.Keys
    && (forall r :: r in intents ==> intents[r].context.rotationId == r && votes[r] == Of(intents[r]))
    && (forall r :: r in begun ==> r in intents && begun[r].Of? && begun[r].preimage.context == intents[r].context)
  }

  ghost predicate VotesInOrder(begun: map<Id32, PlanHash>, released: map<Id32, Hash<ReleaseVoteBody>>,
                               activated: map<Id32, Hash<ActivateVoteBody>>, cancelled: map<Id32, Tombstone>) {
    && activated.Keys <= released.Keys <= begun.Keys
    && cancelled.Keys <= begun.Keys
    && (forall r :: r in activated ==> activated[r].Of? && activated[r].preimage.planHash == begun[r])
  }

  ghost predicate ValidSigner(s: SignerState) {
    && LockedWhileLive(s.locks, s.beginVotes, s.cancelled)
    && IntentsMatch(s.intents, s.intentVotes, s.beginVotes)
    && VotesInOrder(s.beginVotes, s.releaseVotes, s.activateVotes, s.cancelled)
  }

  function LiveVotes(begun: map<Id32, PlanHash>, cancelled: map<Id32, Tombstone>): map<Id32, PlanHash> {
    begun - cancelled.Keys
  }

  /** Locks and live begun rotations are in one-to-one correspondence. */
  lemma LocksAreLiveRotations(locks: map<CapsuleHash, PlanHash>, begun: map<Id32, PlanHash>, cancelled: map<Id32, Tombstone>)
    requires LockedWhileLive(locks, begun, cancelled)
    ensures locks.Values == LiveVotes(begun, cancelled).Values
    ensures |locks| == |LiveVotes(begun, cancelled)|
    ensures forall p, q :: p in locks && q in locks && locks[p] == locks[q] ==> p == q
  {
    LocksAreSeparate(locks, begun, cancelled);
    InjectiveMapSize(locks);
    InjectiveMapSize(LiveVotes(begun, cancelled));
    LockValuesAreLive(locks, begun, cancelled);
    LiveVotesAreLocked(locks, begun, cancelled);
  }

  lemma LockValuesAreLive(locks: map<CapsuleHash, PlanHash>, begun: map<Id32, PlanHash>, cancelled: map<Id32, Tombstone>)
    requires LockedWhileLive(locks, begun, cancelled)
    ensures locks.Values <= LiveVotes(begun, cancelled).Values
  {
    forall v | v in locks.Values
      ensures v in LiveVotes(begun, cancelled).Values
    {
      var p :| p in locks && locks[p] == v;
      assert IsLive(begun, cancelled, p, v);
      assert v.preimage.context.rotationId in LiveVotes(begun, cancelled);
    }
  }

  lemma LiveVotesAreLocked(locks: map<CapsuleHash, PlanHash>, begun: map<Id32, PlanHash>, cancelled: map<Id32, Tombstone>)
    requires LockedWhileLive(locks, begun, cancelled)
    ensures LiveVotes(begun, cancelled).Values <= locks.Values
  {
    forall v | v in LiveVotes(begun, cancelled).Values
      ensures v in locks.Values
    {
      var r :| r in LiveVotes(begun, cancelled) && LiveVotes(begun, cancelled)[r] == v;
      assert Under(locks, begun[r]);
    }
  }

  lemma LocksAreSeparate(locks: map<CapsuleHash, PlanHash>, begun: map<Id32, PlanHash>, cancelled: map<Id32, Tombstone>)
    requires LockedWhileLive(locks, begun, cancelled)
    ensures forall p, q :: p in locks && q in locks && locks[p] == locks[q] ==> p == q
    ensures forall r, t :: r in begun && t in begun && begun[r] == begun[t] ==> r == t
  {
    forall p, q | p in locks && q in locks && locks[p] == locks[q]
      ensures p == q
    {
      assert IsLive(begun, cancelled, p, locks[p]) && IsLive(begun, cancelled, q, locks[q]);
    }
  }

  lemma {:induction false} InjectiveMapSize<K, V>(m: map<K, V>)
    requires forall a, b :: a in m && b in m && m[a] == m[b] ==> a == b
    ensures |m.Values| == |m|
    decreases |m|
  {
    if m.Keys == {} {
      assert m.Values == {};
    } else {
      var x :| x in m;
      var rest := m - {x};
      InjectiveMapSize(rest);
      assert m.Values == rest.Values + {m[x]} by {
        forall v | v in m.Values
          ensures v in rest.Values + {m[x]}
        {
          var y :| y in m && m[y] == v;
          assert y == x || y in rest;
        }
      }
      assert rest.Keys == m.Keys - {x};
    }
  }

  // ---- One request ---------------------------------------------------------------

  /** A request, with the two verdicts an Intent rests on: the capsule selected from the
      witness reads and the digest of those reads. */
  datatype SignerRequest =
    | IntentRequest(intent: RotationIntent, selected: Option<Capsule>, readHash: Option<Id32>)
    | BeginRequest(plan: RotationPlan, intentHash: IntentHash)
    | ReleaseRequest(plan: RotationPlan, begin: BeginCertificate)
    | ActivateRequest(plan: RotationPlan, ready: ReadyCertificate, successor: Capsule)
    | AbortRequest(plan: RotationPlan, stateAtAbort: RotationStage, reasonCode: nat, responseKeyLength: nat)
    | FinalizeAbortRequest(plan: RotationPlan, abort: AbortCertificate, responseKeyLength: nat)
    | FinalizeOwnerCancelRequest(plan: RotationPlan, cancel: OwnerCancelCertificate, acks: seq<CancelAck>, responseKeyLength: nat)
  {
    function Context(): RotationContext {
      if IntentRequest? then intent.context else plan.context
    }
  }

  predicate Fresh(s: SignerState, c: RotationContext, now: U64) {
    && c.protocolVersion == PROTOCOL_VERSION_V3
    && c.configRef.configId == s.card.configId
    && c.issuedAt <= now < c.expiry
    && |c.recipientKey| == XWING_PUBLIC_KEY_LEN
  }

  /** A first vote under a key, or a repeat of it. */
  predicate Records<K, V(==)>(votes: map<K, V>, key: K, vote: V) {
    key in votes ==> votes[key] == vote
  }

  predicate IntentOpens(intent: RotationIntent, active: Capsule) {
    && active.body.configRef == intent.context.configRef
    && active.hash == intent.context.predecessorHash
    && intent.oldGuardianCount == active.body.guardianCount
    && intent.oldGuardianThreshold == active.body.guardianThreshold
    && intent.allowedNewGuardianCount != []
    && intent.allowedNewGuardianThreshold != []
    && intent.allowedDpssSuites != []
  }

  predicate IntentAdmitted(s: SignerState, intent: RotationIntent, selected: Option<Capsule>, readHash: Option<Id32>) {
    && selected.Some?
    && IntentOpens(intent, selected.value)
    && readHash == Some(intent.witnessReadHash)
    && IntentEncodes(intent)
    && Records(s.intentVotes, intent.context.rotationId, Of(intent))
    && Records(s.intents, intent.context.rotationId, intent)
  }

  function IntentNext(s: SignerState, intent: RotationIntent, active: Capsule): SignerState {
    var c := intent.context;
    s.(intentVotes := s.intentVotes[c.rotationId := Of(intent)],
       intents := s.intents[c.rotationId := intent],
       activeCapsule := active,
       highestObserved := s.highestObserved[c.configRef.configId := c.configRef.guardianEpoch])
  }

  ghost predicate BeginAdmitted(s: SignerState, plan: RotationPlan, intentHash: IntentHash, now: U64) {
    var r := plan.context.rotationId;
    && r !in s.cancelled
    && r in s.intents
    && PlanAccepted(plan, s.intents[r], s.activeCapsule, now)
    && plan.intentHash == intentHash
    && r in s.intentVotes && s.intentVotes[r] == intentHash
    && Records(s.locks, plan.context.predecessorHash, Of(plan))
    && Records(s.beginVotes, r, Of(plan))
  }

  function BeginNext(s: SignerState, plan: RotationPlan): SignerState {
    s.(locks := s.locks[plan.context.predecessorHash := Of(plan)],
       beginVotes := s.beginVotes[plan.context.rotationId := Of(plan)])
  }

  predicate Began(s: SignerState, plan: RotationPlan) {
    plan.context.rotationId in s.beginVotes && s.beginVotes[plan.context.rotationId] == Of(plan)
  }

  predicate HoldsLock(s: SignerState, plan: RotationPlan) {
    plan.context.predecessorHash in s.locks && s.locks[plan.context.predecessorHash] == Of(plan)
  }

  function ReleaseVote(s: SignerState, plan: RotationPlan, begin: BeginCertificate): ReleaseVoteBody {
    ReleaseVoteBody(plan.context, Of(plan), Of(begin), s.signerId, s.signerKey)
  }

  predicate ReleaseAdmitted(s: SignerState, plan: RotationPlan, begin: BeginCertificate, now: U64) {
    var r := plan.context.rotationId;
    && r !in s.cancelled
    && PlanEncodes(plan) && Began(s, plan)
    && BeginValid(begin, plan, s.activeCapsule, now)
    && begin.notBefore <= now
    && Records(s.releaseVotes, r, Of(ReleaseVote(s, plan, begin)))
  }

  function ReleaseNext(s: SignerState, plan: RotationPlan, begin: BeginCertificate): SignerState {
    s.(releaseVotes := s.releaseVotes[plan.context.rotationId := Of(ReleaseVote(s, plan, begin))])
  }

  predicate SuccessorMatches(plan: RotationPlan, ready: ReadyCertificate, active: Capsule, successor: Capsule) {
    && CapsuleEncodes(successor.body)
    && successor.hash == BodyHash(successor.body)
    && successor.body.configRef == plan.successor
    && successor.body.predecessorHash == active.hash
    && successor.body.signerCount == active.body.signerCount
    && successor.body.signerThreshold == active.body.signerThreshold
    && successor.body.signerSet == active.body.signerSet
    && successor.body.ownerCancelKey == active.body.ownerCancelKey
    && successor.body.guardianCount == |plan.newRoster|
    && successor.body.guardianThreshold == plan.newGuardianThreshold
    && successor.body.material == ready.material
    && successor.activationCertificate == None && successor.activationQc == None
  }

  function ActivationVote(s: SignerState, plan: RotationPlan, ready: ReadyCertificate, successor: Capsule): ActivateVoteBody {
    ActivateVoteBody(plan.context, ready.planHash, ready.transcriptHash, successor.hash, s.signerId, s.signerKey)
  }

  predicate ActivateAdmitted(s: SignerState, plan: RotationPlan, ready: ReadyCertificate, successor: Capsule, now: U64) {
    var r := plan.context.rotationId;
    && r !in s.cancelled
    && PlanEncodes(plan) && Began(s, plan)
    && r in s.releaseVotes
    && ReadyValid(ready, plan, s.activeCapsule, now)
    && SuccessorMatches(plan, ready, s.activeCapsule, successor)
    && Records(s.activateVotes, r, Of(ActivationVote(s, plan, ready, successor)))
  }

  function ActivateNext(s: SignerState, plan: RotationPlan, ready: ReadyCertificate, successor: Capsule): SignerState {
    s.(activateVotes := s.activateVotes[plan.context.rotationId := Of(ActivationVote(s, plan, ready, successor))])
  }

  predicate AbortAdmitted(s: SignerState, plan: RotationPlan, stateAtAbort: RotationStage, responseKeyLength: nat, now: U64) {
    && responseKeyLength == XWING_PUBLIC_KEY_LEN
    && PlanValid(plan, s.activeCapsule, now)
    && plan.context.rotationId !in s.cancelled
    && Began(s, plan)
    && plan.context.rotationId !in s.activateVotes
    && stateAtAbort in {DelayPending, Preparing, Ready, Activating}
  }

  predicate FinalizeAbortAdmitted(s: SignerState, plan: RotationPlan, c: AbortCertificate, responseKeyLength: nat, now: U64) {
    && responseKeyLength == XWING_PUBLIC_KEY_LEN
    && AbortValid(c, plan, s.activeCapsule, now)
    && Began(s, plan)
    && plan.context.rotationId !in s.activateVotes
    && HoldsLock(s, plan)
  }

  predicate AlreadyCancelled(s: SignerState, plan: RotationPlan, c: OwnerCancelCertificate) {
    plan.context.rotationId in s.cancelled && s.cancelled[plan.context.rotationId] == ByOwner(Of(c.body))
  }

  predicate FinalizeOwnerCancelAdmitted(s: SignerState, plan: RotationPlan, c: OwnerCancelCertificate,
                                        acks: seq<CancelAck>, responseKeyLength: nat, now: U64) {
    && responseKeyLength == XWING_PUBLIC_KEY_LEN
    && VetoQuorum(s.card, plan, s.activeCapsule, c, acks, now)
    && (AlreadyCancelled(s, plan, c) || (Began(s, plan) && HoldsLock(s, plan)))
  }

  /** The rotation is given up for good and its lock returned. */
  function GiveUp(s: SignerState, plan: RotationPlan, t: Tombstone): SignerState {
    s.(cancelled := s.cancelled[plan.context.rotationId := t],
       locks := s.locks - {plan.context.predecessorHash})
  }

  ghost predicate Admitted(s: SignerState, q: SignerRequest, now: U64) {
    && Fresh(s, q.Context(), now)
    && match q
       case IntentRequest(intent, selected, readHash) => IntentAdmitted(s, intent, selected, readHash)
       case BeginRequest(plan, intentHash) => BeginAdmitted(s, plan, intentHash, now)
       case ReleaseRequest(plan, begin) => ReleaseAdmitted(s, plan, begin, now)
       case ActivateRequest(plan, ready, successor) => ActivateAdmitted(s, plan, ready, successor, now)
       case AbortRequest(plan, stage, _, length) => AbortAdmitted(s, plan, stage, length, now)
       case FinalizeAbortRequest(plan, abort, length) => FinalizeAbortAdmitted(s, plan, abort, length, now)
       case FinalizeOwnerCancelRequest(plan, cancel, acks, length) =>
         FinalizeOwnerCancelAdmitted(s, plan, cancel, acks, length, now)
  }

  /** The entry after an admitted request. */
  function Effect(s: SignerState, q: SignerRequest): SignerState {
    match q
    case IntentRequest(intent, selected, _) => if selected.Some? then IntentNext(s, intent, selected.value) else s
    case BeginRequest(plan, _) => BeginNext(s, plan)
    case ReleaseRequest(plan, begin) => ReleaseNext(s, plan, begin)
    case ActivateRequest(plan, ready, successor) => ActivateNext(s, plan, ready, successor)
    case AbortRequest(_, _, _, _) => s
    case FinalizeAbortRequest(plan, abort, _) => GiveUp(s, plan, ByAbort(Of(abort)))
    case FinalizeOwnerCancelRequest(plan, cancel, _, _) =>
      if AlreadyCancelled(s, plan, cancel) then s else GiveUp(s, plan, ByOwner(Of(cancel.body)))
  }

  ghost function Next(s: SignerState, q: SignerRequest, now: U64): SignerState {
    if Admitted(s, q, now) then Effect(s, q) else s
  }

  // ---- Every request keeps the correspondence -------------------------------------

  lemma LockTaken(locks: map<CapsuleHash, PlanHash>, begun: map<Id32, PlanHash>, cancelled: map<Id32, Tombstone>, plan: RotationPlan)
    requires LockedWhileLive(locks, begun, cancelled)
    requires plan.context.rotationId !in cancelled
    requires Records(locks, plan.context.predecessorHash, Of(plan))
    requires Records(begun, plan.context.rotationId, Of(plan))
    ensures LockedWhileLive(locks[plan.context.predecessorHash := Of(plan)], begun[plan.context.rotationId := Of(plan)], cancelled)
  {
    var locks', begun' := locks[plan.context.predecessorHash := Of(plan)], begun[plan.context.rotationId := Of(plan)];
    forall r | r in begun' && r !in cancelled
      ensures Under(locks', begun'[r])
    {
      if r != plan.context.rotationId {
        assert Under(locks, begun[r]);
      }
    }
    forall p | p in locks'
      ensures IsLive(begun', cancelled, p, locks'[p])
    {
      if p != plan.context.predecessorHash {
        assert IsLive(begun, cancelled, p, locks[p]);
      }
    }
  }

  lemma LockReturned(locks: map<CapsuleHash, PlanHash>, begun: map<Id32, PlanHash>, cancelled: map<Id32, Tombstone>,
                     plan: RotationPlan, t: Tombstone)
    requires LockedWhileLive(locks, begun, cancelled)
    requires Under(locks, Of(plan))
    ensures plan.context.rotationId in begun && plan.context.rotationId !in cancelled
    ensures LockedWhileLive(locks - {plan.context.predecessorHash}, begun, cancelled[plan.context.rotationId := t])
  {
    var q := plan.context.predecessorHash;
    assert IsLive(begun, cancelled, q, locks[q]);
    var locks', cancelled' := locks - {q}, cancelled[plan.context.rotationId := t];
    forall r | r in begun && r !in cancelled'
      ensures Under(locks', begun[r])
    {
      assert Under(locks, begun[r]);
    }
    forall p | p in locks'
      ensures IsLive(begun, cancelled', p, locks'[p])
    {
      assert IsLive(begun, cancelled, p, locks[p]);
    }
  }

  lemma BeginKeeps(s: SignerState, plan: RotationPlan)
    requires ValidSigner(s)
    requires plan.context.rotationId in s.intents && plan.context == s.intents[plan.context.rotationId].context
    requires plan.context.rotationId !in s.cancelled
    requires Records(s.locks, plan.context.predecessorHash, Of(plan))
    requires Records(s.beginVotes, plan.context.rotationId, Of(plan))
    ensures ValidSigner(BeginNext(s, plan))
  {
    LockTaken(s.locks, s.beginVotes, s.cancelled, plan);
  }

  /** Once the lock is taken the Begin vote cannot conflict with an earlier one: both name
      the predecessor of the one approved Intent. So no lock is left without its vote. */
  lemma LockImpliesVote(s: SignerState, plan: RotationPlan)
    requires ValidSigner(s)
    requires plan.context.rotationId in s.intents && plan.context == s.intents[plan.context.rotationId].context
    requires plan.context.rotationId !in s.cancelled
    requires Records(s.locks, plan.context.predecessorHash, Of(plan))
    ensures Records(s.beginVotes, plan.context.rotationId, Of(plan))
  {
  }

  lemma GiveUpKeeps(s: SignerState, plan: RotationPlan, t: Tombstone)
    requires ValidSigner(s) && Began(s, plan) && HoldsLock(s, plan)
    ensures plan.context.rotationId !in s.cancelled
    ensures ValidSigner(GiveUp(s, plan, t))
  {
    LockReturned(s.locks, s.beginVotes, s.cancelled, plan, t);
  }

  lemma IntentKeeps(s: SignerState, intent: RotationIntent, active: Capsule)
    requires ValidSigner(s)
    requires Records(s.intents, intent.context.rotationId, intent)
    ensures ValidSigner(IntentNext(s, intent, active))
  {
    assert IntentsMatch(s.intents[intent.context.rotationId := intent], s.intentVotes[intent.context.rotationId := Of(intent)], s.beginVotes);
  }

  lemma ReleaseKeeps(s: SignerState, plan: RotationPlan, begin: BeginCertificate)
    requires ValidSigner(s) && Began(s, plan)
    ensures ValidSigner(ReleaseNext(s, plan, begin))
  {
  }

  lemma ActivateKeeps(s: SignerState, plan: RotationPlan, ready: ReadyCertificate, successor: Capsule)
    requires ValidSigner(s) && Began(s, plan)
    requires plan.context.rotationId in s.releaseVotes && ready.planHash == Of(plan)
    ensures ValidSigner(ActivateNext(s, plan, ready, successor))
  {
    var vote := Of(ActivationVote(s, plan, ready, successor));
    assert VotesInOrder(s.beginVotes, s.releaseVotes, s.activateVotes[plan.context.rotationId := vote], s.cancelled);
  }

  /** What an admitted request rests on as far as locks and votes are concerned. */
  ghost predicate Grounded(s: SignerState, q: SignerRequest) {
    match q
    case IntentRequest(intent, selected, _) =>
      && selected.Some?
      && Records(s.intentVotes, intent.context.rotationId, Of(intent))
      && Records(s.intents, intent.context.rotationId, intent)
    case BeginRequest(plan, _) =>
      && plan.context.rotationId in s.intents && plan.context == s.intents[plan.context.rotationId].context
      && plan.context.rotationId !in s.cancelled
      && Records(s.locks, plan.context.predecessorHash, Of(plan))
      && Records(s.beginVotes, plan.context.rotationId, Of(plan))
    case ReleaseRequest(plan, begin) =>
      && Began(s, plan) && plan.context.rotationId !in s.cancelled
      && Records(s.releaseVotes, plan.context.rotationId, Of(ReleaseVote(s, plan, begin)))
    case ActivateRequest(plan, ready, successor) =>
      && Began(s, plan) && plan.context.rotationId !in s.cancelled
      && plan.context.rotationId in s.releaseVotes
      && ready.planHash == Of(plan)
      && Records(s.activateVotes, plan.context.rotationId, Of(ActivationVote(s, plan, ready, successor)))
    case AbortRequest(_, _, _, _) => true
    case FinalizeAbortRequest(plan, _, _) =>
      Began(s, plan) && HoldsLock(s, plan) && plan.context.rotationId !in s.activateVotes
    case FinalizeOwnerCancelRequest(plan, cancel, _, _) =>
      AlreadyCancelled(s, plan, cancel) || (Began(s, plan) && HoldsLock(s, plan))
  }

  lemma AdmittedIsGrounded(s: SignerState, q: SignerRequest, now: U64)
    requires Admitted(s, q, now)
    ensures Grounded(s, q)
  {
  }

  lemma GroundedKeepsValid(s: SignerState, q: SignerRequest)
    requires ValidSigner(s) && Grounded(s, q)
    ensures ValidSigner(Effect(s, q))
  {
    match q
    case IntentRequest(intent, selected, _) => IntentKeeps(s, intent, selected.value);
    case BeginRequest(plan, _) => BeginKeeps(s, plan);
    case ReleaseRequest(plan, begin) => ReleaseKeeps(s, plan, begin);
    case ActivateRequest(plan, ready, successor) => ActivateKeeps(s, plan, ready, successor);
    case AbortRequest(_, _, _, _) =>
    case FinalizeAbortRequest(plan, abort, _) => GiveUpKeeps(s, plan, ByAbort(Of(abort)));
    case FinalizeOwnerCancelRequest(plan, cancel, _, _) =>
      if !AlreadyCancelled(s, plan, cancel) {
        GiveUpKeeps(s, plan, ByOwner(Of(cancel.body)));
      }
  }
}
