/** How a reader picks the current epoch: capsule validation against the Recovery Card,
    and selection of the highest certified epoch from a `2f + 1` witness read. */
module EpochSelection {
  import opened Foundations
  import opened EpochTypes
  import opened WitnessEntry

  datatype WitnessPin = WitnessPin(witnessId: nat, mailbox: string, key: Key)

  datatype RecoveryCard = RecoveryCard(
    protocolVersion: nat,
    configId: Id32,
    signerSet: map<nat, Key>,
    ownerCancelKey: Key,
    faultBound: nat,
    witnesses: seq<WitnessPin>)

  // ---- The card ------------------------------------------------------------------

  predicate DistinctPins(pins: seq<WitnessPin>) {
    forall i, j :: 0 <= i < j < |pins| ==>
      pins[i].witnessId != pins[j].witnessId && pins[i].key != pins[j].key && pins[i].mailbox != pins[j].mailbox
  }

  predicate CardValid(card: RecoveryCard) {
    && card.protocolVersion == PROTOCOL_VERSION_V3
    && card.faultBound != 0
    && |card.witnesses| >= 3 * card.faultBound + 1
    && DistinctPins(card.witnesses)
    && (forall i :: 0 <= i < |card.witnesses| ==>
          card.witnesses[i].witnessId != 0 && card.witnesses[i].mailbox != "")
  }

  method ValidateRecoveryCard(card: RecoveryCard) returns (ok: bool)
    ensures ok == CardValid(card)
  {
    if card.protocolVersion != PROTOCOL_VERSION_V3 || card.faultBound == 0
       || |card.witnesses| < 3 * card.faultBound + 1 {
      return false;
    }
    var ids: set<nat>, keys: set<Key>, mailboxes: set<string> := {}, {}, {};
    for i := 0 to |card.witnesses|
      invariant forall j :: 0 <= j < i ==> card.witnesses[j].witnessId != 0 && card.witnesses[j].mailbox != ""
      invariant DistinctPins(card.witnesses[..i])
      invariant forall x :: x in ids <==> exists j :: 0 <= j < i && card.witnesses[j].witnessId == x
      invariant forall x :: x in keys <==> exists j :: 0 <= j < i && card.witnesses[j].key == x
      invariant forall x :: x in mailboxes <==> exists j :: 0 <= j < i && card.witnesses[j].mailbox == x
    {
      var pin := card.witnesses[i];
      assert card.witnesses[..i + 1] == card.witnesses[..i] + [pin];
      if pin.witnessId == 0 || pin.mailbox == "" || pin.witnessId in ids || pin.key in keys || pin.mailbox in mailboxes {
        return false;
      }
      ids, keys, mailboxes := ids + {pin.witnessId}, keys + {pin.key}, mailboxes + {pin.mailbox};
    }
    assert card.witnesses[..|card.witnesses|] == card.witnesses;
    return true;
  }

  /** The pinned keys by witness id. */
  function Pins(pins: seq<WitnessPin>): (m: map<nat, Key>)
    ensures m.Keys == set i | 0 <= i < |pins| :: pins[i].witnessId
    ensures DistinctPins(pins) ==> forall i :: 0 <= i < |pins| ==> m[pins[i].witnessId] == pins[i].key
  {
    if pins == [] then map[]
    else
      var last := pins[|pins| - 1];
      assert forall i :: 0 <= i < |pins| - 1 ==> pins[..|pins| - 1][i] == pins[i];
      Pins(pins[..|pins| - 1])[last.witnessId := last.key]
  }

  // ---- Activated capsules --------------------------------------------------------

  predicate MemberVote(capsule: Capsule, vote: ActivateVote) {
    && 0 < vote.body.signerId <= capsule.body.signerCount
    && PinnedVote(capsule.body.signerSet, vote)
  }

  /** The signers' certificate binds this exact direct successor. The epoch binding is
      not compared here; only the numeric epoch is. */
  predicate CertificateBinds(capsule: Capsule, certificate: ActivateCertificate) {
    var from, to := certificate.context.configRef, capsule.body.configRef;
    && certificate.successor == to
    && certificate.successorHash == capsule.hash
    && from.configId == to.configId
    && from.payloadGeneration == to.payloadGeneration
    && from.authorizationEpoch == to.authorizationEpoch
    && to.guardianEpoch == SatAdd(from.guardianEpoch, 1)
    && certificate.context.predecessorHash == capsule.body.predecessorHash
  }

  predicate CertificateValid(capsule: Capsule, certificate: ActivateCertificate) {
    && CertificateBinds(capsule, certificate)
    && ActivateCertificateEncodes(certificate)
    && (forall i :: 0 <= i < |certificate.votes| ==> MemberVote(capsule, certificate.votes[i]))
    && |certificate.votes| >= capsule.body.signerThreshold
  }

  predicate QcBinds(card: RecoveryCard, capsule: Capsule, certificate: ActivateCertificate, qc: ActivationQc) {
    && QcEncodes(qc)
    && qc.configId == card.configId
    && qc.rotationId == certificate.context.rotationId
    && qc.predecessorEpoch == certificate.context.configRef.guardianEpoch
    && qc.predecessorHash == capsule.body.predecessorHash
    && qc.successorEpoch == capsule.Epoch()
    && qc.successorHash == capsule.hash
    && qc.certificateHash == Of(certificate)
    && qc.faultBound == card.faultBound
  }

  predicate CapsuleMatchesCard(card: RecoveryCard, capsule: Capsule) {
    && CapsuleEncodes(capsule.body)
    && capsule.hash == BodyHash(capsule.body)
    && capsule.body.configRef.configId == card.configId
    && capsule.body.signerSet == card.signerSet
    && capsule.body.ownerCancelKey == card.ownerCancelKey
  }

  /** A capsule a reader may believe in: the bare genesis, or a successor certified by a
      signer threshold and by a pinned witness quorum. */
  predicate ActivatedCapsule(card: RecoveryCard, capsule: Capsule) {
    && CardValid(card)
    && CapsuleMatchesCard(card, capsule)
    && if capsule.Epoch() == 1 then
         capsule.body.predecessorHash == ZERO_HASH && capsule.activationCertificate.None? && capsule.activationQc.None?
       else
         && capsule.activationCertificate.Some? && capsule.activationQc.Some?
         && CertificateValid(capsule, capsule.activationCertificate.value)
         && QcBinds(card, capsule, capsule.activationCertificate.value, capsule.activationQc.value)
         && WitnessQuorum(Pins(card.witnesses), card.faultBound, capsule.activationQc.value.acks)
  }

  method ValidateActivateCertificate(capsule: Capsule, certificate: ActivateCertificate) returns (ok: bool)
    ensures ok == CertificateValid(capsule, certificate)
  {
    if !CertificateBinds(capsule, certificate) || !ActivateCertificateEncodes(certificate) {
      return false;
    }
    var votes := certificate.votes;
    var signerIds: set<nat> := {};
    for i := 0 to |votes|
      invariant forall j :: 0 <= j < i ==> MemberVote(capsule, votes[j])
      invariant forall x :: x in signerIds <==> exists j :: 0 <= j < i && votes[j].body.signerId == x
      invariant |signerIds| == i
    {
      if votes[i].body.signerId in signerIds || !MemberVote(capsule, votes[i]) {
        return false;
      }
      signerIds := signerIds + {votes[i].body.signerId};
    }
    return |signerIds| >= capsule.body.signerThreshold;
  }

  method ValidateActivatedCapsule(card: RecoveryCard, capsule: Capsule) returns (ok: bool)
    ensures ok == ActivatedCapsule(card, capsule)
  {
    var cardOk := ValidateRecoveryCard(card);
    if !cardOk || !CapsuleMatchesCard(card, capsule) {
      return false;
    }
    if capsule.Epoch() == 1 {
      return capsule.body.predecessorHash == ZERO_HASH
             && capsule.activationCertificate.None? && capsule.activationQc.None?;
    }
    if capsule.activationCertificate.None? {
      return false;
    }
    var certificateOk := ValidateActivateCertificate(capsule, capsule.activationCertificate.value);
    if !certificateOk || capsule.activationQc.None? {
      return false;
    }
    var qc := capsule.activationQc.value;
    if !QcBinds(card, capsule, capsule.activationCertificate.value, qc) {
      return false;
    }
    var ids := CountPinnedWitnesses(Pins(card.witnesses), qc.acks);
    return ids.Some? && |ids.value| >= 2 * card.faultBound + 1;
  }

  // ---- Selection -----------------------------------------------------------------

  /** The response answers this challenge, claims a pinned witness's identity, and speaks
      about the capsule it comes with. */
  predicate Addressed(pins: map<nat, Key>, challenge: ReadChallenge, e: ReadEnvelope) {
    var response := e.response.body;
    && response.witnessId in pins
    && response.protocolVersion == PROTOCOL_VERSION_V3
    && response.configId == challenge.configId
    && response.clientNonce == challenge.clientNonce
    && response.witnessKey == pins[response.witnessId]
    && response.highestGuardianEpoch == e.capsule.Epoch()
    && response.capsuleHash == e.capsule.hash
  }

  /** Only a witness's first addressed envelope is considered: the identity is used up
      before the signature and the capsule are looked at. */
  ghost predicate FirstOfWitness(pins: map<nat, Key>, challenge: ReadChallenge, es: seq<ReadEnvelope>, i: nat)
    requires i < |es|
  {
    && Addressed(pins, challenge, es[i])
    && forall j :: 0 <= j < i && Addressed(pins, challenge, es[j]) ==>
         es[j].response.body.witnessId != es[i].response.body.witnessId
  }

  predicate Authentic(card: RecoveryCard, e: ReadEnvelope) {
    && Verify(e.response.body.witnessKey, ReadResponseMessage(e.response.body), e.response.signature)
    && ActivatedCapsule(card, e.capsule)
  }

  ghost predicate Accepted(card: RecoveryCard, challenge: ReadChallenge, es: seq<ReadEnvelope>, i: nat) {
    i < |es| && FirstOfWitness(Pins(card.witnesses), challenge, es, i) && Authentic(card, es[i])
  }

  ghost function AcceptedIndices(card: RecoveryCard, challenge: ReadChallenge, es: seq<ReadEnvelope>): (a: set<nat>)
    ensures forall i :: i in a ==> i < |es|
  {
    set i: nat | i < |es| && Accepted(card, challenge, es, i)
  }

  ghost predicate InRange(es: seq<ReadEnvelope>, accepted: set<nat>) {
    forall i :: i in accepted ==> i < |es|
  }

  ghost function WitnessesAt(es: seq<ReadEnvelope>, accepted: set<nat>): set<nat>
    requires InRange(es, accepted)
  {
    set i | i in accepted :: es[i].response.body.witnessId
  }

  /** Accepted, and no accepted envelope has a higher epoch. */
  ghost predicate Top(es: seq<ReadEnvelope>, accepted: set<nat>, i: nat)
    requires InRange(es, accepted)
  {
    i in accepted && forall j :: j in accepted ==> es[j].capsule.Epoch() <= es[i].capsule.Epoch()
  }

  ghost predicate Unforked(es: seq<ReadEnvelope>, accepted: set<nat>)
    requires InRange(es, accepted)
  {
    forall i, j :: i in accepted && j in accepted && Top(es, accepted, i) && Top(es, accepted, j) ==>
      es[i].capsule.hash == es[j].capsule.hash
  }

  /** The reader's decision is possible: enough distinct witnesses, one top capsule. */
  ghost predicate Decidable(card: RecoveryCard, challenge: ReadChallenge, es: seq<ReadEnvelope>) {
    var accepted := AcceptedIndices(card, challenge, es);
    && CardValid(card) && ChallengeEncodes(challenge) && challenge.configId == card.configId
    && |WitnessesAt(es, accepted)| >= 2 * card.faultBound + 1
    && Unforked(es, accepted)
  }

  /** The read can be decided, and this capsule is an accepted one of maximal epoch. */
  ghost predicate ReadSelects(card: RecoveryCard, challenge: ReadChallenge, es: seq<ReadEnvelope>, selected: Capsule) {
    && Decidable(card, challenge, es)
    && exists t: nat :: Top(es, AcceptedIndices(card, challenge, es), t) && selected == es[t].capsule
  }

  /** How many of the accepted witnesses reported this genesis capsule, over all envelopes. */
  function GenesisAgreement(es: seq<ReadEnvelope>, validWitnesses: set<nat>, hash: CapsuleHash): nat {
    |set i | 0 <= i < |es|
             && es[i].response.body.witnessId in validWitnesses
             && es[i].response.body.highestGuardianEpoch == 1
             && es[i].response.body.capsuleHash == hash :: es[i].response.body.witnessId|
  }

  lemma ActivatedEpochPositive(card: RecoveryCard, capsule: Capsule)
    requires ActivatedCapsule(card, capsule)
    ensures capsule.Epoch() >= 1
  {
  }

  /** What acceptance says about each accepted envelope on its own. */
  ghost predicate Coherent(es: seq<ReadEnvelope>, accepted: set<nat>) {
    && InRange(es, accepted)
    && forall i :: i in accepted ==>
         && es[i].capsule.Epoch() >= 1
         && es[i].response.body.highestGuardianEpoch == es[i].capsule.Epoch()
         && es[i].response.body.capsuleHash == es[i].capsule.hash
  }

  lemma AcceptedIsCoherent(card: RecoveryCard, challenge: ReadChallenge, es: seq<ReadEnvelope>)
    ensures Coherent(es, AcceptedIndices(card, challenge, es))
    ensures forall i, j :: i in AcceptedIndices(card, challenge, es) && j in AcceptedIndices(card, challenge, es) && i != j ==>
              es[i].response.body.witnessId != es[j].response.body.witnessId
  {
    forall i | i in AcceptedIndices(card, challenge, es)
      ensures es[i].capsule.Epoch() >= 1
    {
      ActivatedEpochPositive(card, es[i].capsule);
    }
  }

  /** When the highest accepted epoch is the genesis epoch, every accepted witness agrees
      on the genesis capsule, so the separate agreement count is the number of accepted
      witnesses and its quorum check cannot fail. */
  lemma GenesisCheckIsImplied(es: seq<ReadEnvelope>, accepted: set<nat>, t: nat)
    requires Coherent(es, accepted) && Unforked(es, accepted)
    requires Top(es, accepted, t) && es[t].capsule.Epoch() == 1
    ensures GenesisAgreement(es, WitnessesAt(es, accepted), es[t].capsule.hash) == |WitnessesAt(es, accepted)|
  {
    var witnesses, hash := WitnessesAt(es, accepted), es[t].capsule.hash;
    var agreeing := set i | 0 <= i < |es|
                            && es[i].response.body.witnessId in witnesses
                            && es[i].response.body.highestGuardianEpoch == 1
                            && es[i].response.body.capsuleHash == hash :: es[i].response.body.witnessId;
    forall w | w in witnesses
      ensures w in agreeing
    {
      var i :| i in accepted && es[i].response.body.witnessId == w;
      assert Top(es, accepted, i);
    }
    assert agreeing == witnesses;
  }

  /** `valid` lists exactly the members of `accepted` below `n`, in order. */
  ghost predicate Lists(accepted: set<nat>, n: nat, valid: seq<nat>) {
    && (forall k :: 0 <= k < |valid| ==> valid[k] < n && valid[k] in accepted)
    && (forall k, l :: 0 <= k < l < |valid| ==> valid[k] < valid[l])
    && (forall j: nat :: j < n && j in accepted ==> j in valid)
  }

  ghost function WitnessesOf(es: seq<ReadEnvelope>, valid: seq<nat>): set<nat>
    requires forall k :: 0 <= k < |valid| ==> valid[k] < |es|
  {
    if valid == [] then {}
    else WitnessesOf(es, valid[..|valid| - 1]) + {es[valid[|valid| - 1]].response.body.witnessId}
  }

  lemma {:induction false} WitnessesOfMembers(es: seq<ReadEnvelope>, valid: seq<nat>)
    requires forall k :: 0 <= k < |valid| ==> valid[k] < |es|
    ensures forall w :: w in WitnessesOf(es, valid) <==> exists i :: i in valid && es[i].response.body.witnessId == w
  {
    if valid != [] {
      var shorter, last := valid[..|valid| - 1], valid[|valid| - 1];
      WitnessesOfMembers(es, shorter);
      assert valid == shorter + [last];
      assert forall i :: i in valid <==> i in shorter || i == last;
    }
  }

  ghost predicate SawWitnesses(pins: map<nat, Key>, challenge: ReadChallenge, es: seq<ReadEnvelope>, n: nat, seen: set<nat>)
    requires n <= |es|
  {
    forall w :: w in seen <==> exists j :: 0 <= j < n && Addressed(pins, challenge, es[j]) && es[j].response.body.witnessId == w
  }

  lemma SeenStep(pins: map<nat, Key>, challenge: ReadChallenge, es: seq<ReadEnvelope>, i: nat, seen: set<nat>)
    requires i < |es| && SawWitnesses(pins, challenge, es, i, seen)
    ensures FirstOfWitness(pins, challenge, es, i) <==>
            Addressed(pins, challenge, es[i]) && es[i].response.body.witnessId !in seen
    ensures SawWitnesses(pins, challenge, es, i + 1,
                         if Addressed(pins, challenge, es[i]) then seen + {es[i].response.body.witnessId} else seen)
  {
  }

  /** Progress of the filtering pass: the listed positions and their witnesses. */
  ghost predicate Filtered(es: seq<ReadEnvelope>, accepted: set<nat>, n: nat,
                           seen: set<nat>, validWitnesses: set<nat>, valid: seq<nat>)
    requires n <= |es|
  {
    && Lists(accepted, n, valid)
    && validWitnesses == WitnessesOf(es, valid) && validWitnesses <= seen
    && |validWitnesses| == |valid|
  }

  lemma FilterStep(es: seq<ReadEnvelope>, accepted: set<nat>, i: nat, seen: set<nat>, seen': set<nat>,
                   validWitnesses: set<nat>, valid: seq<nat>)
    requires i < |es| && Filtered(es, accepted, i, seen, validWitnesses, valid) && seen <= seen'
    requires i in accepted ==> es[i].response.body.witnessId in seen' - seen
    ensures Filtered(es, accepted, i + 1, seen',
                     if i in accepted then validWitnesses + {es[i].response.body.witnessId} else validWitnesses,
                     if i in accepted then valid + [i] else valid)
  {
    if i in accepted {
      assert (valid + [i])[..|valid|] == valid;
    }
  }

  /** `accepted` is the set of accepted positions. The trigger keeps the definition of
      acceptance out of arguments that only move positions around. */
  ghost predicate Denotes(accepted: set<nat>, card: RecoveryCard, challenge: ReadChallenge, es: seq<ReadEnvelope>) {
    forall i: nat {:trigger Accepted(card, challenge, es, i)} :: i in accepted <==> Accepted(card, challenge, es, i)
  }

  /** One turn of the filtering pass: is envelope `i` accepted, given who was seen before? */
  method AcceptOne(card: RecoveryCard, pins: map<nat, Key>, challenge: ReadChallenge, es: seq<ReadEnvelope>, i: nat,
                   seen: set<nat>, ghost accepted: set<nat>)
    returns (seen': set<nat>, take: bool)
    requires i < |es| && pins == Pins(card.witnesses)
    requires SawWitnesses(pins, challenge, es, i, seen) && Denotes(accepted, card, challenge, es)
    ensures SawWitnesses(pins, challenge, es, i + 1, seen') && seen <= seen'
    ensures take <==> i in accepted
    ensures take ==> es[i].response.body.witnessId in seen' - seen
  {
    SeenStep(pins, challenge, es, i, seen);
    assert i in accepted <==> Accepted(card, challenge, es, i);
    seen', take := seen, false;
    if Addressed(pins, challenge, es[i]) && es[i].response.body.witnessId !in seen {
      seen' := seen + {es[i].response.body.witnessId};
      take := IsAuthentic(card, es[i]);
    }
  }

  ghost predicate Progress(card: RecoveryCard, challenge: ReadChallenge, es: seq<ReadEnvelope>, accepted: set<nat>, n: nat,
                           seen: set<nat>, validWitnesses: set<nat>, valid: seq<nat>)
    requires n <= |es|
  {
    Filtered(es, accepted, n, seen, validWitnesses, valid) && SawWitnesses(Pins(card.witnesses), challenge, es, n, seen)
  }

  /** One turn of the pass, with its bookkeeping. */
  method FilterOne(card: RecoveryCard, pins: map<nat, Key>, challenge: ReadChallenge, es: seq<ReadEnvelope>, i: nat,
                   seen: set<nat>, validWitnesses: set<nat>, valid: seq<nat>, ghost accepted: set<nat>)
    returns (seen': set<nat>, validWitnesses': set<nat>, valid': seq<nat>)
    requires i < |es| && pins == Pins(card.witnesses) && Denotes(accepted, card, challenge, es)
    requires Progress(card, challenge, es, accepted, i, seen, validWitnesses, valid)
    ensures Progress(card, challenge, es, accepted, i + 1, seen', validWitnesses', valid')
  {
    var take;
    seen', take := AcceptOne(card, pins, challenge, es, i, seen, accepted);
    FilterStep(es, accepted, i, seen, seen', validWitnesses, valid);
    validWitnesses', valid' := validWitnesses, valid;
    if take {
      validWitnesses', valid' := validWitnesses + {es[i].response.body.witnessId}, valid + [i];
    }
  }

  /** The filtering pass over the envelopes, in the order they arrived. */
  method AcceptEnvelopes(card: RecoveryCard, pins: map<nat, Key>, challenge: ReadChallenge, es: seq<ReadEnvelope>,
                         ghost accepted: set<nat>)
    returns (seen: set<nat>, validWitnesses: set<nat>, valid: seq<nat>)
    requires pins == Pins(card.witnesses) && Denotes(accepted, card, challenge, es)
    ensures Filtered(es, accepted, |es|, seen, validWitnesses, valid)
  {
    seen, validWitnesses, valid := {}, {}, [];
    for i := 0 to |es|
      invariant Progress(card, challenge, es, accepted, i, seen, validWitnesses, valid)
    {
      seen, validWitnesses, valid := FilterOne(card, pins, challenge, es, i, seen, validWitnesses, valid, accepted);
    }
  }

  method IsAuthentic(card: RecoveryCard, e: ReadEnvelope) returns (ok: bool)
    ensures ok == Authentic(card, e)
  {
    if !Verify(e.response.body.witnessKey, ReadResponseMessage(e.response.body), e.response.signature) {
      return false;
    }
    ok := ValidateActivatedCapsule(card, e.capsule);
  }

  ghost predicate Highest(es: seq<ReadEnvelope>, valid: seq<nat>, t: nat)
    requires forall k :: 0 <= k < |valid| ==> valid[k] < |es|
  {
    t in valid && forall k :: 0 <= k < |valid| ==> es[valid[k]].capsule.Epoch() <= es[t].capsule.Epoch()
  }

  /** The first capsule of maximal epoch among the listed ones, unless two such capsules
      differ. */
  method PickHighest(es: seq<ReadEnvelope>, valid: seq<nat>) returns (r: Option<nat>)
    requires valid != [] && forall k :: 0 <= k < |valid| ==> valid[k] < |es|
    requires forall k, l :: 0 <= k < l < |valid| ==> valid[k] < valid[l]
    ensures r.Some? <==> forall t: nat, u: nat :: Highest(es, valid, t) && Highest(es, valid, u) ==> es[t].capsule.hash == es[u].capsule.hash
    ensures r.Some? ==> Highest(es, valid, r.value) && forall u: nat :: u < r.value ==> !Highest(es, valid, u)
  {
    var first := valid[0];
    for k := 1 to |valid|
      invariant first in valid[..k]
      invariant forall l :: 0 <= l < k ==> es[valid[l]].capsule.Epoch() <= es[first].capsule.Epoch()
      invariant forall l :: 0 <= l < k && valid[l] < first ==> es[valid[l]].capsule.Epoch() < es[first].capsule.Epoch()
    {
      if es[first].capsule.Epoch() < es[valid[k]].capsule.Epoch() {
        first := valid[k];
      }
    }
    assert Highest(es, valid, first);
    for k := 0 to |valid|
      invariant forall l :: 0 <= l < k && es[valid[l]].capsule.Epoch() == es[first].capsule.Epoch() ==>
                  es[valid[l]].capsule.hash == es[first].capsule.hash
    {
      if es[valid[k]].capsule.Epoch() == es[first].capsule.Epoch() && es[valid[k]].capsule.hash != es[first].capsule.hash {
        assert Highest(es, valid, valid[k]);
        return None;
      }
    }
    return Some(first);
  }

  lemma ListedIsAccepted(es: seq<ReadEnvelope>, accepted: set<nat>, valid: seq<nat>)
    requires InRange(es, accepted) && Lists(accepted, |es|, valid)
    ensures WitnessesOf(es, valid) == WitnessesAt(es, accepted)
    ensures forall t: nat :: Highest(es, valid, t) <==> Top(es, accepted, t)
  {
    WitnessesOfMembers(es, valid);
    assert forall i :: i in valid <==> i in accepted;
    forall t: nat | Top(es, accepted, t)
      ensures Highest(es, valid, t)
    {
    }
    forall t: nat | Highest(es, valid, t)
      ensures Top(es, accepted, t)
    {
      forall j | j in accepted
        ensures es[j].capsule.Epoch() <= es[t].capsule.Epoch()
      {
        var k :| 0 <= k < |valid| && valid[k] == j;
      }
    }
  }

  /** The verdict over the envelopes that passed: a quorum of them, no two different
      capsules at the highest epoch, and agreement if that epoch is the genesis. */
  method Decide(faultBound: nat, es: seq<ReadEnvelope>, seen: set<nat>, validWitnesses: set<nat>, valid: seq<nat>,
                ghost accepted: set<nat>)
    returns (r: Option<nat>)
    requires Coherent(es, accepted) && Filtered(es, accepted, |es|, seen, validWitnesses, valid)
    ensures r.Some? <==> |WitnessesAt(es, accepted)| >= 2 * faultBound + 1 && Unforked(es, accepted)
    ensures r.Some? ==> Top(es, accepted, r.value) && forall u: nat :: u < r.value ==> !Top(es, accepted, u)
  {
    ListedIsAccepted(es, accepted, valid);
    SubsetSize(validWitnesses, seen);
    var required := 2 * faultBound + 1;
    if |seen| < required || |valid| < required {
      return None;
    }
    var picked := PickHighest(es, valid);
    if picked.None? {
      return None;
    }
    if es[picked.value].capsule.Epoch() == 1 {
      GenesisCheckIsImplied(es, accepted, picked.value);
      if GenesisAgreement(es, validWitnesses, es[picked.value].capsule.hash) < required {
        return None;
      }
    }
    return picked;
  }

  /** The reader's selection; `None` is every refusal. */
  method SelectLatestEpoch(card: RecoveryCard, challenge: ReadChallenge, es: seq<ReadEnvelope>)
    returns (r: Option<Capsule>)
    ensures r.Some? <==> Decidable(card, challenge, es)
    ensures r.Some? ==>
              var accepted := AcceptedIndices(card, challenge, es);
              exists t: nat ::
                && Top(es, accepted, t) && r.value == es[t].capsule
                && forall u: nat :: u < t ==> !Top(es, accepted, u)
  {
    var cardOk := ValidateRecoveryCard(card);
    if !cardOk || !ChallengeEncodes(challenge) || challenge.configId != card.configId {
      return None;
    }
    ghost var accepted := AcceptedIndices(card, challenge, es);
    AcceptedIsCoherent(card, challenge, es);
    var seen, validWitnesses, valid := AcceptEnvelopes(card, Pins(card.witnesses), challenge, es, accepted);
    var picked := Decide(card.faultBound, es, seen, validWitnesses, valid, accepted);
    if picked.None? {
      return None;
    }
    return Some(es[picked.value].capsule);
  }
}
