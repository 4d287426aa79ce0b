/** What the certificates of an epoch change amount to, counted in keys: the pinned signers
    and the pinned witnesses that signed for exactly this child. */
module Endorsements {
  import opened Foundations
  import opened EpochTypes
  import opened WitnessEntry
  import opened EpochSelection

  // ---- Signers -------------------------------------------------------------------

  /** The pinned signer signed a vote for the child hashed `child`, under the plan and the
      rotation of the certificate. */
  predicate Endorses(signerSet: map<nat, Key>, id: nat, certificate: ActivateCertificate, child: CapsuleHash) {
    && id in signerSet
    && exists i :: 0 <= i < |certificate.votes| && VotesFor(certificate.votes[i], id, signerSet[id], certificate, child)
  }

  predicate VotesFor(vote: ActivateVote, id: nat, key: Key, certificate: ActivateCertificate, child: CapsuleHash) {
    && vote.signature == Signature(key, ActivateVoteMessage(vote.body))
    && vote.body.signerId == id && vote.body.signerKey == key
    && vote.body.successorHash == child
    && vote.body.planHash == certificate.planHash && vote.body.readyHash == certificate.readyHash
    && vote.body.context.rotationId == certificate.context.rotationId
    && vote.body.context.configRef == certificate.context.configRef
    && vote.body.context.predecessorHash == certificate.context.predecessorHash
  }

  /** Those of the first `count` signer ids that did. */
  function Endorsers(signerSet: map<nat, Key>, count: nat, certificate: ActivateCertificate, child: CapsuleHash): set<nat> {
    set id | id in signerSet && 0 < id <= count && Endorses(signerSet, id, certificate, child)
  }

  function Members(ids: seq<nat>): set<nat> {
    set i | 0 <= i < |ids| :: ids[i]
  }

  lemma {:induction false} DistinctMembers(ids: seq<nat>)
    requires forall i, j :: 0 <= i < j < |ids| ==> ids[i] != ids[j]
    ensures |Members(ids)| == |ids|
  {
    if ids != [] {
      var n := |ids| - 1;
      DistinctMembers(ids[..n]);
      assert Members(ids) == Members(ids[..n]) + {ids[n]};
    }
  }

  function VoterIds(certificate: ActivateCertificate): seq<nat> {
    seq(|certificate.votes|, i requires 0 <= i < |certificate.votes| => certificate.votes[i].body.signerId)
  }

  /** A well-formed certificate whose votes are all pinned is endorsed once for each vote. */
  lemma EveryVoteEndorses(signerSet: map<nat, Key>, count: nat, certificate: ActivateCertificate)
    requires ActivateCertificateEncodes(certificate)
    requires forall i :: 0 <= i < |certificate.votes| ==>
               PinnedVote(signerSet, certificate.votes[i]) && 0 < certificate.votes[i].body.signerId <= count
    ensures |Endorsers(signerSet, count, certificate, certificate.successorHash)| >= |certificate.votes|
  {
    var ids := VoterIds(certificate);
    forall id | id in Members(ids)
      ensures id in Endorsers(signerSet, count, certificate, certificate.successorHash)
    {
      var i :| 0 <= i < |certificate.votes| && certificate.votes[i].body.signerId == id;
      assert PinnedVote(signerSet, certificate.votes[i]);
      assert VotesFor(certificate.votes[i], id, signerSet[id], certificate, certificate.successorHash);
    }
    DistinctMembers(ids);
    SubsetSize(Members(ids), Endorsers(signerSet, count, certificate, certificate.successorHash));
  }

  // ---- Witnesses -----------------------------------------------------------------

  /** The pinned witness signed an ack of exactly what the quorum certificate certifies. */
  predicate Attests(keys: map<nat, Key>, id: nat, qc: ActivationQc) {
    && id in keys
    && exists i :: 0 <= i < |qc.acks| && AcksFor(qc.acks[i], id, keys[id], qc)
  }

  predicate AcksFor(ack: ActivationAck, id: nat, key: Key, qc: ActivationQc) {
    && ack.signature == Signature(key, ActivationAckMessage(ack.body))
    && ack.body.witnessId == id && ack.body.witnessKey == key
    && ack.body.context.configRef.configId == qc.configId && ack.body.context.rotationId == qc.rotationId
    && ack.body.predecessorHash == qc.predecessorHash && ack.body.predecessorEpoch == qc.predecessorEpoch
    && ack.body.successorHash == qc.successorHash && ack.body.successorEpoch == qc.successorEpoch
    && ack.body.certificateHash == qc.certificateHash
  }

  function Attesters(keys: map<nat, Key>, qc: ActivationQc): set<nat> {
    set id | id in keys && Attests(keys, id, qc)
  }

  /** A well-formed quorum certificate is attested by `2f + 1` pinned witnesses. */
  lemma QuorumAttests(keys: map<nat, Key>, faultBound: nat, qc: ActivationQc)
    requires QcEncodes(qc) && WitnessQuorum(keys, faultBound, qc.acks)
    ensures |Attesters(keys, qc)| >= 2 * faultBound + 1
  {
    forall id | id in WitnessIds(qc.acks)
      ensures id in Attesters(keys, qc)
    {
      var i :| 0 <= i < |qc.acks| && qc.acks[i].body.witnessId == id;
      assert PinnedAck(keys, qc.acks[i]) && AckBindsQc(qc, qc.acks[i].body);
      assert AcksFor(qc.acks[i], id, keys[id], qc);
    }
    SubsetSize(WitnessIds(qc.acks), Attesters(keys, qc));
  }

  // ---- Cards ---------------------------------------------------------------------

  /** A verifying signature tells which of them made it. */
  predicate TellsApart(keys: map<nat, Key>) {
    forall v, w :: v in keys && w in keys && keys[v] == keys[w] ==> v == w
  }

  /** The card pins at least `3f + 1` witnesses and tells them apart, by key and by mailbox. */
  ghost predicate PinsWitnesses(card: RecoveryCard) {
    && card.faultBound >= 1 && |Pins(card.witnesses)| >= 3 * card.faultBound + 1
    && 0 !in Pins(card.witnesses) && TellsApart(Pins(card.witnesses))
    && (forall i, j :: 0 <= i < j < |card.witnesses| ==> card.witnesses[i].mailbox != card.witnesses[j].mailbox)
  }

  lemma {:induction false} PinsCount(pins: seq<WitnessPin>)
    requires DistinctPins(pins)
    ensures |Pins(pins)| == |pins|
  {
    if pins != [] {
      var shorter, last := pins[..|pins| - 1], pins[|pins| - 1];
      PinsCount(shorter);
      assert last.witnessId !in Pins(shorter).Keys;
      assert Pins(pins) == Pins(shorter)[last.witnessId := last.key];
    }
  }

  lemma PinsTellApart(pins: seq<WitnessPin>)
    requires DistinctPins(pins)
    ensures TellsApart(Pins(pins))
  {
    var keys := Pins(pins);
    forall v, w | v in keys && w in keys && keys[v] == keys[w]
      ensures v == w
    {
      var i :| 0 <= i < |pins| && pins[i].witnessId == v;
      var j :| 0 <= j < |pins| && pins[j].witnessId == w;
    }
  }

  lemma ValidCardPins(card: RecoveryCard)
    requires CardValid(card)
    ensures PinsWitnesses(card)
  {
    PinsCount(card.witnesses);
    PinsTellApart(card.witnesses);
  }

  // ---- Activated capsules --------------------------------------------------------

  /** The certificate leads from this parent to exactly this child, one epoch on. */
  predicate LeadsTo(certificate: ActivateCertificate, child: CapsuleBody) {
    var from, next := certificate.context.configRef, child.configRef;
    && certificate.successor == next && certificate.successorHash == BodyHash(child)
    && certificate.context.predecessorHash == child.predecessorHash
    && next.configId == from.configId
    && next.payloadGeneration == from.payloadGeneration && next.authorizationEpoch == from.authorizationEpoch
    && next.guardianEpoch == SatAdd(from.guardianEpoch, 1)
  }

  /** The quorum certificate is for the same step, on the authority of the certificate. */
  predicate Confirms(qc: ActivationQc, certificate: ActivateCertificate, child: CapsuleBody) {
    && qc.certificateHash == Of(certificate)
    && qc.configId == child.configRef.configId && qc.rotationId == certificate.context.rotationId
    && qc.predecessorHash == child.predecessorHash && qc.predecessorEpoch == certificate.context.configRef.guardianEpoch
    && qc.successorHash == BodyHash(child) && qc.successorEpoch == child.configRef.guardianEpoch
  }

  /** A threshold of the signers and `2f + 1` witnesses stand behind this capsule. */
  predicate Endorsed(signerSet: map<nat, Key>, keys: map<nat, Key>, faultBound: nat, capsule: Capsule) {
    && capsule.activationCertificate.Some? && capsule.activationQc.Some?
    && var certificate, qc := capsule.activationCertificate.value, capsule.activationQc.value;
    && LeadsTo(certificate, capsule.body)
    && |Endorsers(signerSet, capsule.body.signerCount, certificate, BodyHash(capsule.body))| >= capsule.body.signerThreshold >= 1
    && Confirms(qc, certificate, capsule.body)
    && |Attesters(keys, qc)| >= 2 * faultBound + 1 && qc.faultBound == faultBound
  }

  /** What a reader believes in: the configuration and the authorities of a card that tells
      its witnesses apart, and past the first epoch a signer threshold and a witness quorum
      that all signed for this very body out of this very parent. */
  lemma ActivatedIsEndorsed(card: RecoveryCard, capsule: Capsule)
    requires ActivatedCapsule(card, capsule)
    ensures PinsWitnesses(card)
    ensures capsule.hash == BodyHash(capsule.body)
    ensures capsule.body.configRef.configId == card.configId
    ensures capsule.body.signerSet == card.signerSet && capsule.body.ownerCancelKey == card.ownerCancelKey
    ensures 2 <= capsule.body.guardianThreshold <= capsule.body.guardianCount
    ensures if capsule.body.configRef.guardianEpoch == 1 then
              && capsule.body.predecessorHash == ZERO_HASH
              && capsule.activationCertificate.None? && capsule.activationQc.None?
            else Endorsed(card.signerSet, Pins(card.witnesses), card.faultBound, capsule)
  {
    ValidCardPins(card);
    if capsule.body.configRef.guardianEpoch != 1 {
      var certificate := capsule.activationCertificate.value;
      forall i | 0 <= i < |certificate.votes|
        ensures PinnedVote(card.signerSet, certificate.votes[i])
        ensures 0 < certificate.votes[i].body.signerId <= capsule.body.signerCount
      {
        assert MemberVote(capsule, certificate.votes[i]);
      }
      EveryVoteEndorses(card.signerSet, capsule.body.signerCount, certificate);
      QuorumAttests(Pins(card.witnesses), card.faultBound, capsule.activationQc.value);
    }
  }
}
