/** Protocol-v3 epoch objects. Signatures and hashes are symbolic: a signature
    verifies exactly when it is the one its key makes over that message. */
module EpochTypes {
  import opened Foundations

  datatype ConfigRef = ConfigRef(
    configId: Id32,
    payloadGeneration: U64,
    authorizationEpoch: U64,
    guardianEpoch: U64,
    epochBinding: Id32)
  {
    predicate IsDirectSuccessorOf(predecessor: ConfigRef) {
      && configId == predecessor.configId
      && payloadGeneration == predecessor.payloadGeneration
      && authorizationEpoch == predecessor.authorizationEpoch
      && guardianEpoch == SatAdd(predecessor.guardianEpoch, 1)
      && epochBinding != predecessor.epochBinding
    }
  }

  /** `capsule_hash`: the digest of a capsule body, or an arbitrary 256-bit string. */
  datatype CapsuleHash = BodyHash(body: CapsuleBody) | OtherHash(bits: Id32)

  const ZERO_HASH := OtherHash(0)

  /** The hashed part of a capsule. The signer-set commitment is the pinned id-to-key
      map it commits to; `material` stands for the remaining opaque commitments. */
  datatype CapsuleBody = CapsuleBody(
    protocolVersion: nat,
    configRef: ConfigRef,
    predecessorHash: CapsuleHash,
    signerCount: nat,
    signerThreshold: nat,
    guardianCount: nat,
    guardianThreshold: nat,
    minimumRecoveryDelay: U64,
    maxRequestLifetime: U64,
    signerSet: map<nat, Key>,
    ownerCancelKey: Key,
    dpssSuite: nat,
    fragmentRoot: Id32,
    material: Id32)

  /** The number of ancestors a capsule hash commits to. */
  function Depth(h: CapsuleHash): nat
  {
    match h
    case OtherHash(_) => 0
    case BodyHash(body) => 1 + Depth(body.predecessorHash)
  }

  /** The guardian epoch a capsule hash commits to. */
  function EpochOf(h: CapsuleHash): U64 {
    if h.BodyHash? then h.body.configRef.guardianEpoch else 0
  }

  /** Whether `h` is `descendant` or one of the capsules `descendant` commits to. */
  predicate IsAncestor(h: CapsuleHash, descendant: CapsuleHash)
    decreases descendant
  {
    h == descendant || (descendant.BodyHash? && IsAncestor(h, descendant.body.predecessorHash))
  }

  datatype RotationContext = RotationContext(
    protocolVersion: nat,
    configRef: ConfigRef,
    rotationId: Id32,
    predecessorHash: CapsuleHash,
    recipientKey: KeyBytes,
    nonce: Id32,
    issuedAt: U64,
    expiry: U64)

  datatype GuardianRoute = GuardianRoute(
    guardianIndex: nat,
    opaqueSlotId: Id32,
    mailbox: string,
    guardianKey: Key,
    sessionRecipientKey: Id32,
    operatorDomain: Id32)

  datatype RotationIntent = RotationIntent(
    context: RotationContext,
    reason: nat,
    oldGuardianCount: nat,
    oldGuardianThreshold: nat,
    allowedNewGuardianCount: seq<nat>,
    allowedNewGuardianThreshold: seq<nat>,
    allowedDpssSuites: seq<nat>,
    selectionConstraint: Hash<nat>,
    witnessReadHash: Id32)

  type IntentHash = Hash<RotationIntent>
  type RosterHash = Hash<seq<GuardianRoute>>

  datatype RotationPlan = RotationPlan(
    context: RotationContext,
    intentHash: IntentHash,
    predecessor: ConfigRef,
    successor: ConfigRef,
    oldRoster: seq<GuardianRoute>,
    newRoster: seq<GuardianRoute>,
    oldRosterCommitment: RosterHash,
    newRosterCommitment: RosterHash,
    oldGuardianThreshold: nat,
    newGuardianThreshold: nat,
    dataShards: nat,
    totalShards: nat,
    dpssSuite: nat,
    dpssSessionId: Id32,
    qualifiedSetCommitment: RosterHash,
    minimumDelaySecs: U64,
    preparationDeadline: U64,
    drainDeadline: U64)

  type PlanHash = Hash<RotationPlan>

  datatype ActivateVoteBody = ActivateVoteBody(
    context: RotationContext,
    planHash: PlanHash,
    readyHash: Id32,
    successorHash: CapsuleHash,
    signerId: nat,
    signerKey: Key)

  datatype RotationStage =
    Proposed | DelayPending | Preparing | Ready | Activating | Active | Draining | Retired | Aborted

  datatype BeginVoteBody = BeginVoteBody(
    context: RotationContext,
    intentHash: IntentHash,
    planHash: PlanHash,
    oldRosterCommitment: RosterHash,
    newRosterCommitment: RosterHash,
    signerId: nat,
    signerKey: Key)

  datatype ReleaseVoteBody = ReleaseVoteBody(
    context: RotationContext,
    planHash: PlanHash,
    beginHash: Hash<BeginCertificate>,
    signerId: nat,
    signerKey: Key)

  datatype AbortVoteBody = AbortVoteBody(
    context: RotationContext,
    planHash: PlanHash,
    stateAtAbort: RotationStage,
    reasonCode: nat,
    signerId: nat,
    signerKey: Key)

  datatype OwnerCancelBody = OwnerCancelBody(
    context: RotationContext,
    planHash: PlanHash,
    reasonCode: nat,
    responseKey: KeyBytes,
    ownerCancelKey: Key)

  datatype ActivationAckBody = ActivationAckBody(
    context: RotationContext,
    planHash: PlanHash,
    certificateHash: Hash<ActivateCertificate>,
    witnessId: nat,
    predecessorEpoch: U64,
    predecessorHash: CapsuleHash,
    successorEpoch: U64,
    successorHash: CapsuleHash,
    witnessKey: Key)

  datatype CancelAckBody = CancelAckBody(
    protocolVersion: nat,
    configId: Id32,
    rotationId: Id32,
    planHash: PlanHash,
    cancelHash: Hash<OwnerCancelBody>,
    witnessId: nat,
    witnessKey: Key)

  datatype ReadResponseBody = ReadResponseBody(
    protocolVersion: nat,
    configId: Id32,
    clientNonce: Id32,
    witnessId: nat,
    highestGuardianEpoch: U64,
    capsuleHash: CapsuleHash,
    witnessKey: Key)

  /** Domain-separated signing transcripts. */
  datatype Message =
    | BeginVoteMessage(begin: BeginVoteBody)
    | ReleaseVoteMessage(release: ReleaseVoteBody)
    | AbortVoteMessage(abort: AbortVoteBody)
    | ActivateVoteMessage(vote: ActivateVoteBody)
    | OwnerCancelMessage(cancel: OwnerCancelBody)
    | ActivationAckMessage(ack: ActivationAckBody)
    | CancelAckMessage(cancelAck: CancelAckBody)
    | ReadResponseMessage(response: ReadResponseBody)

  datatype Signature = Signature(key: Key, message: Message)

  predicate Verify(key: Key, message: Message, signature: Signature) {
    signature == Signature(key, message)
  }

  datatype BeginVote = BeginVote(body: BeginVoteBody, signature: Signature)
  datatype AbortVote = AbortVote(body: AbortVoteBody, signature: Signature)
  datatype ActivateVote = ActivateVote(body: ActivateVoteBody, signature: Signature)
  datatype OwnerCancelCertificate = OwnerCancelCertificate(body: OwnerCancelBody, signature: Signature)
  datatype ActivationAck = ActivationAck(body: ActivationAckBody, signature: Signature)
  datatype CancelAck = CancelAck(body: CancelAckBody, signature: Signature)
  datatype ReadResponse = ReadResponse(body: ReadResponseBody, signature: Signature)

  datatype BeginCertificate = BeginCertificate(
    context: RotationContext,
    intentHash: IntentHash,
    planHash: PlanHash,
    oldRosterCommitment: RosterHash,
    newRosterCommitment: RosterHash,
    notBefore: U64,
    votes: seq<BeginVote>)

  datatype AbortCertificate = AbortCertificate(
    context: RotationContext,
    planHash: PlanHash,
    stateAtAbort: RotationStage,
    reasonCode: nat,
    votes: seq<AbortVote>)

  datatype ActivateCertificate = ActivateCertificate(
    context: RotationContext,
    planHash: PlanHash,
    readyHash: Id32,
    successor: ConfigRef,
    successorHash: CapsuleHash,
    votes: seq<ActivateVote>)

  datatype ActivationQc = ActivationQc(
    protocolVersion: nat,
    configId: Id32,
    rotationId: Id32,
    predecessorEpoch: U64,
    predecessorHash: CapsuleHash,
    successorEpoch: U64,
    successorHash: CapsuleHash,
    certificateHash: Hash<ActivateCertificate>,
    faultBound: nat,
    acks: seq<ActivationAck>)

  datatype Capsule = Capsule(
    body: CapsuleBody,
    hash: CapsuleHash,
    activationCertificate: Option<ActivateCertificate>,
    activationQc: Option<ActivationQc>)
  {
    function Epoch(): U64 { body.configRef.guardianEpoch }
  }

  datatype ReadChallenge = ReadChallenge(
    protocolVersion: nat,
    configId: Id32,
    clientNonce: Id32,
    issuedAt: U64,
    expiry: U64)

  /** `gp_wire` refuses to encode malformed values; each `…Encodes` predicate says
      when the corresponding transcript exists. */
  predicate ContextEncodes(c: RotationContext) {
    c.protocolVersion == PROTOCOL_VERSION_V3 && c.issuedAt < c.expiry
  }

  predicate SameRotation(a: RotationContext, b: RotationContext) {
    && a.protocolVersion == b.protocolVersion
    && a.configRef == b.configRef
    && a.rotationId == b.rotationId
    && a.predecessorHash == b.predecessorHash
  }

  predicate CapsuleEncodes(b: CapsuleBody) {
    && b.protocolVersion == PROTOCOL_VERSION_V3
    && 0 < b.signerThreshold <= b.signerCount
    && 2 <= b.guardianThreshold <= b.guardianCount
  }

  predicate ActivateCertificateEncodes(c: ActivateCertificate) {
    && ContextEncodes(c.context)
    && |c.votes| <= MAX_ROTATION_ACTORS
    && (forall i :: 0 <= i < |c.votes| ==> 0 < c.votes[i].body.signerId <= MAX_ROTATION_ACTORS)
    && (forall i, j :: 0 <= i < j < |c.votes| ==> c.votes[i].body.signerId != c.votes[j].body.signerId)
    && (forall i :: 0 <= i < |c.votes| ==>
          && ContextEncodes(c.votes[i].body.context)
          && SameRotation(c.context, c.votes[i].body.context)
          && c.votes[i].body.planHash == c.planHash
          && c.votes[i].body.readyHash == c.readyHash
          && c.votes[i].body.successorHash == c.successorHash)
  }

  predicate DistinctWitnesses(acks: seq<ActivationAck>) {
    forall i, j :: 0 <= i < j < |acks| ==> acks[i].body.witnessId != acks[j].body.witnessId
  }

  predicate AckBindsQc(qc: ActivationQc, ack: ActivationAckBody) {
    && ack.context.protocolVersion == qc.protocolVersion
    && ack.context.configRef.configId == qc.configId
    && ack.context.rotationId == qc.rotationId
    && ack.predecessorEpoch == qc.predecessorEpoch
    && ack.predecessorHash == qc.predecessorHash
    && ack.successorEpoch == qc.successorEpoch
    && ack.successorHash == qc.successorHash
    && ack.certificateHash == qc.certificateHash
  }

  predicate QcEncodes(qc: ActivationQc) {
    && qc.protocolVersion == PROTOCOL_VERSION_V3
    && qc.successorEpoch == SatAdd(qc.predecessorEpoch, 1)
    && qc.faultBound <= MAX_ROTATION_ACTORS
    && 2 * qc.faultBound + 1 <= |qc.acks| <= MAX_ROTATION_ACTORS
    && DistinctWitnesses(qc.acks)
    && (forall i :: 0 <= i < |qc.acks| ==>
          && 0 < qc.acks[i].body.witnessId <= MAX_ROTATION_ACTORS
          && ContextEncodes(qc.acks[i].body.context)
          && AckBindsQc(qc, qc.acks[i].body))
  }

  predicate ChallengeEncodes(c: ReadChallenge) {
    c.protocolVersion == PROTOCOL_VERSION_V3 && c.issuedAt < c.expiry
  }

  predicate PinnedAck(keys: map<nat, Key>, ack: ActivationAck) {
    && ack.body.witnessId in keys
    && keys[ack.body.witnessId] == ack.body.witnessKey
    && Verify(ack.body.witnessKey, ActivationAckMessage(ack.body), ack.signature)
  }

  function WitnessIds(acks: seq<ActivationAck>): set<nat> {
    set i | 0 <= i < |acks| :: acks[i].body.witnessId
  }

  /** A quorum of `2f + 1` distinct pinned witnesses signed these acks. */
  predicate WitnessQuorum(keys: map<nat, Key>, faultBound: nat, acks: seq<ActivationAck>) {
    && DistinctWitnesses(acks)
    && (forall i :: 0 <= i < |acks| ==> PinnedAck(keys, acks[i]))
    && |WitnessIds(acks)| >= 2 * faultBound + 1
  }

  /** The loop that both the witness server and the capsule validator run over a QC's
      acks: every ack must come from a pinned witness not seen before. */
  method CountPinnedWitnesses(keys: map<nat, Key>, acks: seq<ActivationAck>) returns (ids: Option<set<nat>>)
    ensures ids.Some? <==> DistinctWitnesses(acks) && forall i :: 0 <= i < |acks| ==> PinnedAck(keys, acks[i])
    ensures ids.Some? ==> ids.value == WitnessIds(acks)
  {
    var seen: set<nat> := {};
    for i := 0 to |acks|
      invariant seen == WitnessIds(acks[..i])
      invariant DistinctWitnesses(acks[..i])
      invariant forall j :: 0 <= j < i ==> PinnedAck(keys, acks[j])
    {
      var ack := acks[i];
      assert acks[..i + 1] == acks[..i] + [ack];
      if ack.body.witnessId in seen {
        var j :| 0 <= j < i && acks[..i][j].body.witnessId == ack.body.witnessId;
        assert acks[j].body.witnessId == acks[i].body.witnessId;
        return None;
      }
      if !PinnedAck(keys, ack) {
        return None;
      }
      seen := seen + {ack.body.witnessId};
    }
    assert acks[..|acks|] == acks;
    return Some(seen);
  }
}
