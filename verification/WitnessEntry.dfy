/** One witness's entry for one configuration: the register, the finalised capsule, at
    most one pending child with its signed ack, and the owner-cancellation tombstones. */
module WitnessEntry {
  import opened Foundations
  import opened EpochTypes
  import opened WitnessRegister

  datatype Cancellation = Cancellation(planHash: PlanHash, certificateHash: Hash<OwnerCancelBody>)

  datatype EntryState = EntryState(
    witnessId: nat,
    witnessKey: Key,
    signerKeys: map<nat, Key>,
    witnessKeys: map<nat, Key>,
    faultBound: nat,
    register: RegisterState,
    capsule: Capsule,
    pendingCapsule: Option<Capsule>,
    pendingAck: Option<ActivationAck>,
    cancellations: map<Id32, Cancellation>)

  datatype ActivationRequest = ActivationRequest(capsule: Capsule, certificate: ActivateCertificate)

  datatype ReadEnvelope = ReadEnvelope(response: ReadResponse, capsule: Capsule)

  // ---- The invariant -------------------------------------------------------------

  /** The pinned roster and identity, checked once when the witness is provisioned. */
  ghost predicate Provisioned(s: EntryState) {
    && s.witnessId != 0
    && s.faultBound != 0
    && 3 * s.faultBound + 1 <= |s.witnessKeys|
    && s.witnessId in s.witnessKeys && s.witnessKeys[s.witnessId] == s.witnessKey
    && s.register.configId == s.capsule.body.configRef.configId
    && s.capsule.hash == BodyHash(s.capsule.body)
  }

  /** Without a pending child the register stands on the finalised capsule, whose own
      child slot is free; every older lock sits under a proper ancestor. */
  ghost predicate Settled(s: EntryState) {
    && s.pendingAck == None
    && s.register.highestEpoch == s.capsule.Epoch()
    && s.register.highestHash == s.capsule.hash
    && (forall k :: k in s.register.locks ==> Depth(k) < Depth(s.capsule.hash))
  }

  /** With a pending child the register stands on that child: the direct successor of the
      finalised capsule under the same policy, locked under its hash, acked, and not vetoed
      by the owner. */
  ghost predicate Awaiting(s: EntryState) {
    && s.pendingCapsule.Some? && s.pendingAck.Some?
    && var child := s.pendingCapsule.value;
    var ack := s.pendingAck.value.body;
    && child.hash == BodyHash(child.body)
    && child.body.predecessorHash == s.capsule.hash
    && child.body.configRef.IsDirectSuccessorOf(s.capsule.body.configRef)
    && KeepsImmutablePolicy(child.body, s.capsule.body)
    && s.register.highestEpoch == child.Epoch()
    && s.register.highestHash == child.hash
    && s.capsule.hash in s.register.locks && s.register.locks[s.capsule.hash] == child.hash
    && (forall k :: k in s.register.locks && k != s.capsule.hash ==> Depth(k) < Depth(s.capsule.hash))
    && child.activationCertificate.Some?
    && var certificate := child.activationCertificate.value;
    && s.pendingAck.value == Acknowledge(s, certificate)
    && certificate.successorHash == child.hash
    && certificate.successor == child.body.configRef
    && certificate.context.configRef == s.capsule.body.configRef
    && ContextEncodes(certificate.context)
    && ack.context.rotationId !in s.cancellations
  }

  ghost predicate ValidState(s: EntryState) {
    && Provisioned(s)
    && if s.pendingCapsule.None? then Settled(s) else Awaiting(s)
  }

  // ---- Activation ----------------------------------------------------------------

  /** The signed ack this witness issues for a certified child of its capsule. */
  function Acknowledge(s: EntryState, certificate: ActivateCertificate): ActivationAck {
    var body := ActivationAckBody(
      certificate.context,
      certificate.planHash,
      Of(certificate),
      s.witnessId,
      s.capsule.Epoch(),
      s.capsule.hash,
      certificate.successor.guardianEpoch,
      certificate.successorHash,
      s.witnessKey);
    ActivationAck(body, Signature(s.witnessKey, ActivationAckMessage(body)))
  }

  /** The request is addressed to this configuration, its certificate binds the exact
      capsule, and its rotation has not been vetoed. */
  predicate Presentable(s: EntryState, request: ActivationRequest) {
    var capsule, certificate := request.capsule, request.certificate;
    && capsule.body.configRef.configId == s.register.configId
    && CapsuleEncodes(capsule.body)
    && capsule.hash == BodyHash(capsule.body)
    && certificate.successor == capsule.body.configRef
    && certificate.successorHash == capsule.hash
    && certificate.context.predecessorHash == capsule.body.predecessorHash
    && ActivateCertificateEncodes(certificate)
    && certificate.context.rotationId !in s.cancellations
  }

  predicate KeepsImmutablePolicy(next: CapsuleBody, current: CapsuleBody) {
    && next.signerCount == current.signerCount
    && next.signerThreshold == current.signerThreshold
    && next.signerSet == current.signerSet
    && next.ownerCancelKey == current.ownerCancelKey
    && next.minimumRecoveryDelay >= current.minimumRecoveryDelay
    && next.maxRequestLifetime == current.maxRequestLifetime
    && next.dpssSuite == current.dpssSuite
  }

  predicate PinnedVote(signerKeys: map<nat, Key>, vote: ActivateVote) {
    && vote.body.signerId in signerKeys
    && signerKeys[vote.body.signerId] == vote.body.signerKey
    && ContextEncodes(vote.body.context)
    && Verify(vote.body.signerKey, ActivateVoteMessage(vote.body), vote.signature)
  }

  /** The certified capsule is an acceptable next epoch of the finalised one. */
  predicate Succeeds(s: EntryState, request: ActivationRequest) {
    var capsule, certificate := request.capsule, request.certificate;
    && certificate.context.configRef == s.capsule.body.configRef
    && capsule.body.predecessorHash == s.capsule.hash
    && capsule.body.configRef.IsDirectSuccessorOf(s.capsule.body.configRef)
    && KeepsImmutablePolicy(capsule.body, s.capsule.body)
    && |certificate.votes| >= s.capsule.body.signerThreshold
    && (forall i :: 0 <= i < |certificate.votes| ==> PinnedVote(s.signerKeys, certificate.votes[i]))
  }

  function ActivateReply(s: EntryState, request: ActivationRequest): Option<ActivationAck> {
    if !Presentable(s, request) then None
    else if s.pendingCapsule.Some? then
      if s.pendingCapsule.value.hash == request.capsule.hash then s.pendingAck else None
    else if Succeeds(s, request) then Some(Acknowledge(s, request.certificate))
    else None
  }

  function ActivateNext(s: EntryState, request: ActivationRequest): EntryState {
    if Presentable(s, request) && s.pendingCapsule.None? && Succeeds(s, request) then
      var capsule := request.capsule;
      s.(register := s.register.(locks := s.register.locks[s.capsule.hash := capsule.hash],
                                 highestEpoch := capsule.Epoch(),
                                 highestHash := capsule.hash),
         pendingCapsule := Some(capsule.(activationCertificate := Some(request.certificate), activationQc := None)),
         pendingAck := Some(Acknowledge(s, request.certificate)))
    else s
  }

  // ---- Owner cancellation --------------------------------------------------------

  /** A live, owner-signed cancellation of a rotation out of the finalised capsule. */
  predicate AuthenticCancel(s: EntryState, certificate: OwnerCancelCertificate, now: U64) {
    var cancel := certificate.body;
    && ContextEncodes(cancel.context)
    && cancel.context.issuedAt <= now < cancel.context.expiry
    && |cancel.responseKey| == XWING_PUBLIC_KEY_LEN
    && cancel.context.configRef == s.capsule.body.configRef
    && cancel.context.predecessorHash == s.capsule.hash
    && cancel.ownerCancelKey == s.capsule.body.ownerCancelKey
    && Verify(s.capsule.body.ownerCancelKey, OwnerCancelMessage(cancel), certificate.signature)
  }

  function VetoRecord(cancel: OwnerCancelBody): Cancellation {
    Cancellation(cancel.planHash, Of(cancel))
  }

  /** A repeat must carry the recorded veto; a first veto must name the pending child's
      rotation and plan if there is a pending child. */
  predicate CancelAdmitted(s: EntryState, certificate: OwnerCancelCertificate, now: U64) {
    var cancel := certificate.body;
    && AuthenticCancel(s, certificate, now)
    && (cancel.context.rotationId in s.cancellations ==>
          s.cancellations[cancel.context.rotationId] == VetoRecord(cancel))
    && (cancel.context.rotationId !in s.cancellations && s.pendingAck.Some? ==>
          && s.pendingAck.value.body.context.rotationId == cancel.context.rotationId
          && s.pendingAck.value.body.planHash == cancel.planHash)
  }

  function VetoAck(s: EntryState, cancel: OwnerCancelBody): CancelAck {
    var body := CancelAckBody(
      PROTOCOL_VERSION_V3,
      cancel.context.configRef.configId,
      cancel.context.rotationId,
      cancel.planHash,
      Of(cancel),
      s.witnessId,
      s.witnessKey);
    CancelAck(body, Signature(s.witnessKey, CancelAckMessage(body)))
  }

  function CancelReply(s: EntryState, certificate: OwnerCancelCertificate, now: U64): Option<CancelAck> {
    if CancelAdmitted(s, certificate, now) then Some(VetoAck(s, certificate.body)) else None
  }

  /** A first veto drops the pending child, if any, and stands the register back on the
      finalised capsule. */
  function CancelNext(s: EntryState, certificate: OwnerCancelCertificate, now: U64): EntryState {
    var cancel := certificate.body;
    if !CancelAdmitted(s, certificate, now) || cancel.context.rotationId in s.cancellations then s
    else
      s.(register := s.register.(locks := s.register.locks - {s.capsule.hash},
                                 highestEpoch := s.capsule.Epoch(),
                                 highestHash := s.capsule.hash),
         pendingCapsule := None,
         pendingAck := None,
         cancellations := s.cancellations[cancel.context.rotationId := VetoRecord(cancel)])
  }

  // ---- Finalisation and reads ----------------------------------------------------

  /** The QC is well formed, signed by a quorum that includes this witness's own ack, and
      certifies exactly the pending child. */
  predicate Finalizes(s: EntryState, qc: ActivationQc) {
    && s.pendingCapsule.Some? && s.pendingAck.Some?
    && var child, ack := s.pendingCapsule.value, s.pendingAck.value;
    && qc.rotationId !in s.cancellations
    && QcEncodes(qc)
    && qc.configId == child.body.configRef.configId
    && qc.configId == s.register.configId
    && qc.faultBound == s.faultBound
    && qc.rotationId == ack.body.context.rotationId
    && qc.predecessorEpoch == ack.body.predecessorEpoch
    && qc.predecessorHash == ack.body.predecessorHash
    && qc.successorEpoch == child.Epoch()
    && qc.successorHash == child.hash
    && qc.certificateHash == ack.body.certificateHash
    && WitnessQuorum(s.witnessKeys, s.faultBound, qc.acks)
    && ack in qc.acks && ack.body.witnessId == s.witnessId
  }

  function FinalizeNext(s: EntryState, qc: ActivationQc): EntryState {
    if Finalizes(s, qc) then
      s.(capsule := s.pendingCapsule.value.(activationQc := Some(qc)), pendingCapsule := None, pendingAck := None)
    else s
  }

  predicate Readable(s: EntryState, challenge: ReadChallenge, now: U64) {
    && ChallengeEncodes(challenge)
    && challenge.configId == s.register.configId
    && challenge.issuedAt <= now < challenge.expiry
  }

  /** The finalised capsule under a fresh signature; a pending child is never shown. */
  function Envelope(s: EntryState, nonce: Id32): ReadEnvelope {
    var body := ReadResponseBody(
      PROTOCOL_VERSION_V3,
      s.register.configId,
      nonce,
      s.witnessId,
      s.capsule.Epoch(),
      s.capsule.hash,
      s.witnessKey);
    ReadEnvelope(ReadResponse(body, Signature(s.witnessKey, ReadResponseMessage(body))), s.capsule)
  }

  function ReadReply(s: EntryState, challenge: ReadChallenge, now: U64): Option<ReadEnvelope> {
    if Readable(s, challenge, now) && challenge.clientNonce !in s.register.seenNonces
    then Some(Envelope(s, challenge.clientNonce)) else None
  }

  function ReadNext(s: EntryState, challenge: ReadChallenge, now: U64): EntryState {
    if Readable(s, challenge, now)
    then s.(register := s.register.(seenNonces := s.register.seenNonces + {challenge.clientNonce}))
    else s
  }

  // ---- What the steps keep -------------------------------------------------------

  lemma ActivateKeepsValid(s: EntryState, request: ActivationRequest)
    requires ValidState(s)
    ensures ValidState(ActivateNext(s, request))
  {
  }

  lemma CancelKeepsValid(s: EntryState, certificate: OwnerCancelCertificate, now: U64)
    requires ValidState(s)
    ensures ValidState(CancelNext(s, certificate, now))
  {
  }

  lemma FinalizeKeepsValid(s: EntryState, qc: ActivationQc)
    requires ValidState(s)
    ensures ValidState(FinalizeNext(s, qc))
  {
  }

  lemma ReadKeepsValid(s: EntryState, challenge: ReadChallenge, now: U64)
    requires ValidState(s)
    ensures ValidState(ReadNext(s, challenge, now))
  {
  }

  /** A cancellation of an acked child by the owner is never refused, and it leaves the
      witness exactly as it was before the activation, apart from the tombstone. */
  lemma CancelUndoesActivate(s: EntryState, request: ActivationRequest, certificate: OwnerCancelCertificate, now: U64)
    requires ValidState(s) && s.pendingCapsule.None?
    requires ActivateReply(s, request).Some?
    requires AuthenticCancel(s, certificate, now)
    requires certificate.body.context.rotationId == request.certificate.context.rotationId
    requires certificate.body.planHash == request.certificate.planHash
    ensures var acked := ActivateNext(s, request);
            && CancelReply(acked, certificate, now).Some?
            && CancelNext(acked, certificate, now)
               == s.(cancellations := s.cancellations[certificate.body.context.rotationId := VetoRecord(certificate.body)])
  {
    assert s.capsule.hash !in s.register.locks;
    assert s.register.locks[s.capsule.hash := request.capsule.hash] - {s.capsule.hash} == s.register.locks;
  }

  // ---- The entry as the server holds it ------------------------------------------

  /** What a witness is provisioned with: any capsule with the right hash may be the
      genesis, and the register starts on it. */
  predicate AcceptableGenesis(witnessId: nat, witnessKey: Key, signerKeys: map<nat, Key>,
                              witnessKeys: map<nat, Key>, faultBound: nat, capsule: Capsule) {
    && witnessId != 0
    && CapsuleEncodes(capsule.body)
    && capsule.Epoch() != 0
    && capsule.hash == BodyHash(capsule.body)
    && (forall id :: id in signerKeys ==> 1 <= id <= capsule.body.signerCount)
    && (forall id :: 1 <= id <= capsule.body.signerCount ==> id in signerKeys)
    && signerKeys == capsule.body.signerSet
    && faultBound != 0
    && 3 * faultBound + 1 <= |witnessKeys|
    && witnessId in witnessKeys && witnessKeys[witnessId] == witnessKey
    && (forall i, j :: i in witnessKeys && j in witnessKeys && i != j ==> witnessKeys[i] != witnessKeys[j])
  }

  function NewEntry(witnessId: nat, witnessKey: Key, signerKeys: map<nat, Key>,
                    witnessKeys: map<nat, Key>, faultBound: nat, capsule: Capsule): EntryState {
    EntryState(witnessId, witnessKey, signerKeys, witnessKeys, faultBound,
               RegisterState(capsule.body.configRef.configId, capsule.Epoch(), capsule.hash, map[], {}),
               capsule, None, None, map[])
  }

  class WitnessConfigEntry {
    const witnessId: nat
    const witnessKey: Key
    const signerKeys: map<nat, Key>
    const witnessKeys: map<nat, Key>
    const faultBound: nat
    const register: WitnessEpochStore
    var capsule: Capsule
    var pendingCapsule: Option<Capsule>
    var pendingAck: Option<ActivationAck>
    var cancellations: map<Id32, Cancellation>

    ghost function State(): EntryState
      reads this, register
    {
      EntryState(witnessId, witnessKey, signerKeys, witnessKeys, faultBound,
                 register.State(), capsule, pendingCapsule, pendingAck, cancellations)
    }

    ghost predicate Valid()
      reads this, register
    {
      ValidState(State())
    }

    constructor (witnessId: nat, witnessKey: Key, signerKeys: map<nat, Key>,
                 witnessKeys: map<nat, Key>, faultBound: nat, capsule: Capsule)
      ensures fresh(register)
      ensures State() == NewEntry(witnessId, witnessKey, signerKeys, witnessKeys, faultBound, capsule)
    {
      this.witnessId := witnessId;
      this.witnessKey := witnessKey;
      this.signerKeys := signerKeys;
      this.witnessKeys := witnessKeys;
      this.faultBound := faultBound;
      this.register := new WitnessEpochStore(capsule.body.configRef, capsule.hash);
      this.capsule := capsule;
      pendingCapsule := None;
      pendingAck := None;
      cancellations := map[];
    }

    method Activate(request: ActivationRequest) returns (reply: Option<ActivationAck>)
      requires Valid()
      modifies this, register
      ensures Valid()
      ensures reply == ActivateReply(old(State()), request)
      ensures State() == ActivateNext(old(State()), request)
    {
      var next, certificate := request.capsule, request.certificate;
      if next.body.configRef.configId != register.configId || !CapsuleEncodes(next.body) {
        return None;
      }
      if BodyHash(next.body) != next.hash
         || certificate.successor != next.body.configRef
         || certificate.successorHash != next.hash
         || next.body.predecessorHash != certificate.context.predecessorHash
         || !ActivateCertificateEncodes(certificate)
      {
        return None;
      }
      if certificate.context.rotationId in cancellations {
        return None;
      }
      if pendingCapsule.Some? {
        if pendingCapsule.value.hash == next.hash {
          return pendingAck;
        }
        return None;
      }
      if certificate.context.configRef != capsule.body.configRef
         || next.body.predecessorHash != capsule.hash
         || !KeepsImmutablePolicy(next.body, capsule.body)
         || |certificate.votes| < capsule.body.signerThreshold
      {
        return None;
      }
      for i := 0 to |certificate.votes|
        invariant forall j :: 0 <= j < i ==> PinnedVote(signerKeys, certificate.votes[j])
      {
        if !PinnedVote(signerKeys, certificate.votes[i]) {
          return None;
        }
      }
      var stored := register.PersistSuccessorBeforeAck(capsule.body.configRef, capsule.hash, next.body.configRef, next.hash);
      if stored.Err? {
        return None;
      }
      var body := ActivationAckBody(certificate.context, certificate.planHash, Of(certificate), witnessId,
                                    capsule.Epoch(), capsule.hash, next.Epoch(), next.hash, witnessKey);
      var ack := ActivationAck(body, Signature(witnessKey, ActivationAckMessage(body)));
      pendingCapsule := Some(next.(activationCertificate := Some(certificate), activationQc := None));
      pendingAck := Some(ack);
      return Some(ack);
    }

    method CancelRotation(certificate: OwnerCancelCertificate, now: U64) returns (reply: Option<CancelAck>)
      requires Valid()
      modifies this, register
      ensures Valid()
      ensures reply == CancelReply(old(State()), certificate, now)
      ensures State() == CancelNext(old(State()), certificate, now)
    {
      var cancel := certificate.body;
      if !ContextEncodes(cancel.context)
         || cancel.context.configRef.configId != register.configId
         || cancel.context.issuedAt > now || cancel.context.expiry <= now
         || |cancel.responseKey| != XWING_PUBLIC_KEY_LEN
      {
        return None;
      }
      if cancel.context.configRef != capsule.body.configRef
         || cancel.context.predecessorHash != capsule.hash
         || cancel.ownerCancelKey != capsule.body.ownerCancelKey
         || !Verify(capsule.body.ownerCancelKey, OwnerCancelMessage(cancel), certificate.signature)
      {
        return None;
      }
      var rotationId := cancel.context.rotationId;
      if rotationId in cancellations {
        if cancellations[rotationId] != Cancellation(cancel.planHash, Of(cancel)) {
          return None;
        }
      } else {
        if pendingCapsule.Some? {
          var pending := pendingCapsule.value;
          if pending.activationCertificate.None? {
            return None;
          }
          var activation := pending.activationCertificate.value;
          if activation.context.rotationId != rotationId
             || activation.planHash != cancel.planHash
             || pending.body.predecessorHash != capsule.hash
          {
            return None;
          }
          var rolledBack := register.CancelPendingSuccessor(capsule.Epoch(), capsule.hash, pending.Epoch(), pending.hash);
          if rolledBack.Err? {
            return None;
          }
          pendingCapsule := None;
          pendingAck := None;
        }
        cancellations := cancellations[rotationId := Cancellation(cancel.planHash, Of(cancel))];
      }
      var body := CancelAckBody(PROTOCOL_VERSION_V3, cancel.context.configRef.configId, rotationId,
                                cancel.planHash, Of(cancel), witnessId, witnessKey);
      return Some(CancelAck(body, Signature(witnessKey, CancelAckMessage(body))));
    }

    method Finalize(qc: ActivationQc) returns (stored: bool)
      requires Valid()
      modifies this
      ensures Valid()
      ensures stored == Finalizes(old(State()), qc)
      ensures State() == FinalizeNext(old(State()), qc)
    {
      if pendingCapsule.None? || pendingAck.None? {
        return false;
      }
      var pending, ack := pendingCapsule.value, pendingAck.value;
      if qc.rotationId in cancellations || !QcEncodes(qc) {
        return false;
      }
      if qc.configId != pending.body.configRef.configId
         || qc.configId != register.configId
         || qc.faultBound != faultBound
         || qc.rotationId != ack.body.context.rotationId
         || qc.predecessorEpoch != ack.body.predecessorEpoch
         || qc.predecessorHash != ack.body.predecessorHash
         || qc.successorEpoch != pending.Epoch()
         || qc.successorHash != pending.hash
         || qc.certificateHash != ack.body.certificateHash
      {
        return false;
      }
      var ids := CountPinnedWitnesses(witnessKeys, qc.acks);
      if ids.None? {
        return false;
      }
      if |ids.value| < 2 * faultBound + 1
         || !exists i :: 0 <= i < |qc.acks| && qc.acks[i].body.witnessId == witnessId && qc.acks[i] == ack
      {
        return false;
      }
      capsule := pending.(activationQc := Some(qc));
      pendingCapsule := None;
      pendingAck := None;
      return true;
    }

    method Read(challenge: ReadChallenge, now: U64) returns (reply: Option<ReadEnvelope>)
      requires Valid()
      modifies register
      ensures Valid()
      ensures reply == ReadReply(old(State()), challenge, now)
      ensures State() == ReadNext(old(State()), challenge, now)
    {
      if !ChallengeEncodes(challenge) || challenge.configId != register.configId {
        return None;
      }
      if challenge.issuedAt > now || now >= challenge.expiry {
        return None;
      }
      var observed := register.ObserveReadNonce(challenge.clientNonce);
      if observed.Err? {
        return None;
      }
      var body := ReadResponseBody(PROTOCOL_VERSION_V3, challenge.configId, challenge.clientNonce, witnessId,
                                   capsule.Epoch(), capsule.hash, witnessKey);
      return Some(ReadEnvelope(ReadResponse(body, Signature(witnessKey, ReadResponseMessage(body))), capsule));
    }
  }

  /** A witness server: one entry for each configuration it was provisioned for. */
  class WitnessServer {
    var entries: map<Id32, WitnessConfigEntry>

    constructor ()
      ensures entries == map[]
    {
      entries := map[];
    }

    /** `authorised` is the verdict on the operator's token. */
    method Provision(authorised: bool, witnessId: nat, witnessKey: Key, signerKeys: map<nat, Key>,
                     witnessKeys: map<nat, Key>, faultBound: nat, capsule: Capsule)
      returns (stored: bool)
      modifies this
      ensures stored <==>
                && authorised
                && AcceptableGenesis(witnessId, witnessKey, signerKeys, witnessKeys, faultBound, capsule)
                && capsule.body.configRef.configId !in old(entries)
      ensures !stored ==> entries == old(entries)
      ensures stored ==>
                && var id := capsule.body.configRef.configId;
                && entries.Keys == old(entries).Keys + {id}
                && (forall i :: i in old(entries) ==> entries[i] == old(entries)[i])
                && fresh(entries[id]) && fresh(entries[id].register)
                && entries[id].State() == NewEntry(witnessId, witnessKey, signerKeys, witnessKeys, faultBound, capsule)
                && entries[id].Valid()
    {
      var id := capsule.body.configRef.configId;
      if !authorised
         || !AcceptableGenesis(witnessId, witnessKey, signerKeys, witnessKeys, faultBound, capsule)
         || id in entries
      {
        return false;
      }
      var entry := new WitnessConfigEntry(witnessId, witnessKey, signerKeys, witnessKeys, faultBound, capsule);
      entries := entries[id := entry];
      return true;
    }
  }
}
