/** What stands behind every line of a witness cluster's history: the request a correct
    witness served, and the signatures of owner, signers and witnesses it rests on. */
module WitnessEvidence {
  import opened Foundations
  import opened EpochTypes
  import opened WitnessEntry
  import opened WitnessNetwork
  import opened Endorsements

  // ---- Everything descends from the genesis capsule -------------------------------

  /** The authorities of a capsule body are those of an earlier one. */
  ghost predicate SameAuthorities(g: CapsuleBody, b: CapsuleBody) {
    && b.configRef.configId == g.configRef.configId
    && b.signerCount == g.signerCount && b.signerThreshold == g.signerThreshold && b.signerSet == g.signerSet
    && b.ownerCancelKey == g.ownerCancelKey
    && b.minimumRecoveryDelay >= g.minimumRecoveryDelay
    && b.maxRequestLifetime == g.maxRequestLifetime
    && b.dpssSuite == g.dpssSuite
  }

  ghost predicate Rooted(c: Cluster, s: EntryState) {
    && s.signerKeys == c.genesis.body.signerSet
    && s.register.configId == c.genesis.body.configRef.configId
    && SameAuthorities(c.genesis.body, s.capsule.body)
  }

  lemma ServeKeepsRooted(c: Cluster, s: EntryState, r: Request)
    requires ValidState(s) && Rooted(c, s)
    ensures Rooted(c, Serve(s, r))
  {
  }

  lemma DeliveryKeepsRooted(c: Cluster, n: Net, d: Delivery, w: nat)
    requires d.recipient in n.entries && w in n.entries
    requires ValidState(n.entries[d.recipient]) && Rooted(c, n.entries[d.recipient]) && Rooted(c, n.entries[w])
    ensures w in Deliver(n, d).entries && Rooted(c, Deliver(n, d).entries[w])
  {
    ServeKeepsRooted(c, n.entries[d.recipient], d.request);
  }

  /** The signers have the ids from 1 on, the capsule its own hash, and every signature of a
      pinned witness tells which one. */
  ghost predicate Canonical(c: Cluster) {
    var g := c.genesis.body;
    && c.genesis.hash == BodyHash(g)
    && c.signerKeys == g.signerSet
    && (forall id :: id in g.signerSet <==> 1 <= id <= g.signerCount)
    && 1 <= g.signerThreshold <= g.signerCount && 2 <= g.guardianThreshold <= g.guardianCount
    && g.configRef.guardianEpoch >= 1
    && c.faultBound >= 1 && 0 !in c.correct
    && TellsApart(c.keys)
  }

  /** What the provisioning of one correct witness establishes for the whole cluster. */
  lemma GenesisIsCanonical(c: Cluster, w: nat)
    requires WellFormed(c) && w in c.correct
    ensures Canonical(c)
  {
    assert AcceptableGenesis(w, c.keys[w], c.signerKeys, c.keys, c.faultBound, c.genesis);
    forall v | v in c.correct
      ensures v != 0
    {
      assert AcceptableGenesis(v, c.keys[v], c.signerKeys, c.keys, c.faultBound, c.genesis);
    }
  }

  lemma StartIsRooted(c: Cluster, w: nat)
    requires WellFormed(c) && w in c.correct
    ensures w in Start(c).entries && Rooted(c, Start(c).entries[w])
  {
    assert AcceptableGenesis(w, c.keys[w], c.signerKeys, c.keys, c.faultBound, c.genesis);
  }

  /** Every witness of a run, at every moment, keeps the authorities it was provisioned with. */
  lemma {:induction false} RunIsRooted(c: Cluster, steps: seq<Delivery>, w: nat)
    requires WellFormed(c) && Feasible(c, steps) && w in c.correct
    ensures w in Run(c, steps).entries && Rooted(c, Run(c, steps).entries[w])
    decreases |steps|
  {
    if steps == [] {
      StartIsRooted(c, w);
    } else {
      var before, d := steps[..|steps| - 1], steps[|steps| - 1];
      RunIsRooted(c, before, w);
      RunIsRooted(c, before, d.recipient);
      RunEntryValid(c, before, d.recipient);
      DeliveryKeepsRooted(c, Run(c, before), d, w);
    }
  }

  // ---- Where a line of the history comes from -------------------------------------

  /** The entry that serves delivery `j`, as it stands when the delivery arrives. */
  ghost function Server(c: Cluster, steps: seq<Delivery>, j: nat): EntryState
    requires WellFormed(c) && Feasible(c, steps) && j < |steps|
  {
    FeasibleUpTo(c, steps, j);
    RunIsRooted(c, steps[..j], steps[j].recipient);
    Run(c, steps[..j]).entries[steps[j].recipient]
  }

  lemma {:induction false} FeasibleUpTo(c: Cluster, steps: seq<Delivery>, j: nat)
    requires Feasible(c, steps) && j <= |steps|
    ensures Feasible(c, steps[..j])
    ensures j < |steps| ==> Possible(c, Run(c, steps[..j]).history, steps[j])
    decreases |steps|
  {
    var n := |steps| - 1;
    if j < n {
      FeasibleUpTo(c, steps[..n], j);
      assert steps[..n][..j] == steps[..j];
    } else if j == |steps| {
      assert steps[..j] == steps;
    }
  }

  lemma EntryIsSound(c: Cluster, steps: seq<Delivery>, w: nat)
    requires WellFormed(c) && Feasible(c, steps) && w in c.correct
    ensures w in Run(c, steps).entries
    ensures var s := Run(c, steps).entries[w]; ValidState(s) && Rooted(c, s) && Identified(c, w, s)
    ensures Canonical(c)
  {
    GenesisIsCanonical(c, w);
    RunIsRooted(c, steps, w);
    RunsAreConsistent(c, steps);
    assert EntrySound(c, Run(c, steps).history, w, Run(c, steps).entries[w]);
  }

  lemma ServerIsSound(c: Cluster, steps: seq<Delivery>, j: nat)
    requires WellFormed(c) && Feasible(c, steps) && j < |steps|
    ensures var s := Server(c, steps, j); ValidState(s) && Rooted(c, s) && Identified(c, steps[j].recipient, s)
    ensures Canonical(c)
  {
    FeasibleUpTo(c, steps, j);
    EntryIsSound(c, steps[..j], steps[j].recipient);
  }

  /** Line `k` of the history is what delivery `j` produced. */
  ghost predicate Produces(c: Cluster, steps: seq<Delivery>, j: nat, k: nat)
    requires WellFormed(c) && Feasible(c, steps)
  {
    && j < |steps| && k < |Run(c, steps).history|
    && Run(c, steps[..j]).history == Run(c, steps).history[..k]
    && Emitted(steps[j].recipient, Server(c, steps, j), steps[j].request) == Some(Run(c, steps).history[k])
  }

  lemma {:induction false} LineHasOrigin(c: Cluster, steps: seq<Delivery>, k: nat) returns (j: nat)
    requires WellFormed(c) && Feasible(c, steps) && k < |Run(c, steps).history|
    ensures Produces(c, steps, j, k)
    decreases |steps|
  {
    var n := |steps| - 1;
    var before := Run(c, steps[..n]);
    if k < |before.history| {
      j := LineHasOrigin(c, steps[..n], k);
      assert steps[..n][..j] == steps[..j];
    } else {
      j := n;
      RunIsRooted(c, steps[..n], steps[n].recipient);
    }
  }

  // ---- Vetoes ----------------------------------------------------------------------

  /** The delivery is a cancellation that the owner of the genesis capsule signed, in date,
      for exactly the rotation, the plan and the text that the veto records. */
  ghost predicate OwnerSigned(c: Cluster, d: Delivery, veto: CancelAckBody) {
    && d.request.CancelRequest?
    && var cancel, now := d.request.certificate.body, d.request.cancelledAt;
    && d.request.certificate.signature == Signature(c.genesis.body.ownerCancelKey, OwnerCancelMessage(cancel))
    && cancel.ownerCancelKey == c.genesis.body.ownerCancelKey
    && veto.cancelHash == Of(cancel)
    && veto.planHash == cancel.planHash
    && veto.rotationId == cancel.context.rotationId
    && veto.configId == cancel.context.configRef.configId == c.genesis.body.configRef.configId
    && cancel.context.issuedAt <= now < cancel.context.expiry
    && |cancel.responseKey| == XWING_PUBLIC_KEY_LEN
    && veto.protocolVersion == cancel.context.protocolVersion == PROTOCOL_VERSION_V3
  }

  /** The cancellation is for a rotation out of this capsule. */
  ghost predicate CancelsOutOf(cancel: OwnerCancelBody, capsule: Capsule) {
    cancel.context.configRef == capsule.body.configRef && cancel.context.predecessorHash == BodyHash(capsule.body)
  }

  /** Every veto of a correct witness answers a delivered cancellation, signed by the owner,
      out of the capsule the witness had finalised; the veto carries the witness's own
      signature. */
  lemma VetoIsOwnerSigned(c: Cluster, steps: seq<Delivery>, k: nat) returns (j: nat)
    requires WellFormed(c) && Feasible(c, steps) && k < |Run(c, steps).history| && Run(c, steps).history[k].Vetoed?
    ensures Produces(c, steps, j, k)
    ensures var w, veto := Run(c, steps).history[k].actor, Run(c, steps).history[k].veto;
            && steps[j].recipient == w && w in c.keys
            && OwnerSigned(c, steps[j], veto.body)
            && CancelsOutOf(steps[j].request.certificate.body, Server(c, steps, j).capsule)
            && veto.body.witnessId == w && veto.body.witnessKey == c.keys[w]
            && veto.signature == Signature(c.keys[w], CancelAckMessage(veto.body))
  {
    j := LineHasOrigin(c, steps, k);
    ServerIsSound(c, steps, j);
    VetoMeans(c, steps[j].recipient, Server(c, steps, j), steps[j], Run(c, steps).history[k]);
  }

  lemma VetoMeans(c: Cluster, w: nat, s: EntryState, d: Delivery, e: Event)
    requires ValidState(s) && Rooted(c, s) && Identified(c, w, s)
    requires Emitted(w, s, d.request) == Some(e) && e.Vetoed?
    ensures e.actor == w && OwnerSigned(c, d, e.veto.body) && CancelsOutOf(d.request.certificate.body, s.capsule)
    ensures e.veto.body.witnessId == w && e.veto.body.witnessKey == c.keys[w]
    ensures e.veto.signature == Signature(c.keys[w], CancelAckMessage(e.veto.body))
  {
  }

  // ---- Answers ---------------------------------------------------------------------

  /** What a witness says to a challenge about the capsule it has finalised. */
  ghost predicate Speaks(w: nat, key: Key, challenge: ReadChallenge, e: ReadEnvelope) {
    var said := e.response.body;
    && said.protocolVersion == challenge.protocolVersion == PROTOCOL_VERSION_V3
    && said.configId == challenge.configId && said.clientNonce == challenge.clientNonce
    && said.witnessId == w && said.witnessKey == key
    && said.highestGuardianEpoch == e.capsule.body.configRef.guardianEpoch
    && said.capsuleHash == BodyHash(e.capsule.body)
    && e.response.signature == Signature(key, ReadResponseMessage(said))
  }

  /** Every answer of a correct witness shows the capsule it has finalised at that moment,
      never a pending child, and signs that capsule's own hash and epoch, for a challenge of
      its configuration that is in date. */
  lemma AnswerShowsFinalised(c: Cluster, steps: seq<Delivery>, k: nat) returns (j: nat)
    requires WellFormed(c) && Feasible(c, steps) && k < |Run(c, steps).history| && Run(c, steps).history[k].Answered?
    ensures Produces(c, steps, j, k)
    ensures var w, e := Run(c, steps).history[k].actor, Run(c, steps).history[k].envelope;
            && steps[j].recipient == w && w in c.keys && steps[j].request.ReadRequest?
            && var challenge, now := steps[j].request.challenge, steps[j].request.readAt;
            && e.capsule == Server(c, steps, j).capsule
            && e.capsule.hash == BodyHash(e.capsule.body)
            && challenge.configId == c.genesis.body.configRef.configId
            && challenge.issuedAt <= now < challenge.expiry
            && Speaks(w, c.keys[w], challenge, e)
  {
    j := LineHasOrigin(c, steps, k);
    ServerIsSound(c, steps, j);
    AnswerMeans(c, steps[j].recipient, Server(c, steps, j), steps[j].request, Run(c, steps).history[k]);
  }

  lemma AnswerMeans(c: Cluster, w: nat, s: EntryState, r: Request, e: Event)
    requires ValidState(s) && Rooted(c, s) && Identified(c, w, s)
    requires Emitted(w, s, r) == Some(e) && e.Answered?
    ensures e.actor == w && r.ReadRequest?
    ensures e.envelope.capsule == s.capsule && s.capsule.hash == BodyHash(s.capsule.body)
    ensures r.challenge.configId == c.genesis.body.configRef.configId && r.challenge.issuedAt <= r.readAt < r.challenge.expiry
    ensures Speaks(w, c.keys[w], r.challenge, e.envelope)
  {
  }

  // ---- What a witness remembers of its own words ------------------------------------

  /** Recorded vetoes and used nonces stay, and a pending ack is one that was sent. */
  ghost predicate Remembers(w: nat, s: EntryState, t: EntryState, e: Option<Event>) {
    && (e.Some? ==> e.value.actor == w)
    && (t.pendingAck.Some? ==> t.pendingAck == s.pendingAck || e == Some(Acked(w, t.pendingAck.value)))
    && (forall r :: r in s.cancellations ==> r in t.cancellations && t.cancellations[r] == s.cancellations[r])
    && (e.Some? && e.value.Vetoed? ==> Records(t, e.value.veto.body))
    && s.register.seenNonces <= t.register.seenNonces
    && (e.Some? && e.value.Answered? ==>
          e.value.envelope.response.body.clientNonce in t.register.seenNonces - s.register.seenNonces)
  }

  ghost predicate Records(s: EntryState, veto: CancelAckBody) {
    veto.rotationId in s.cancellations && s.cancellations[veto.rotationId] == Cancellation(veto.planHash, veto.cancelHash)
  }

  lemma ServeRemembers(w: nat, s: EntryState, r: Request)
    requires ValidState(s)
    ensures Remembers(w, s, Serve(s, r), Emitted(w, s, r))
  {
  }

  ghost predicate InMemory(n: Net) {
    && (forall w :: w in n.entries && n.entries[w].pendingAck.Some? ==> Acked(w, n.entries[w].pendingAck.value) in n.history)
    && (forall i :: 0 <= i < |n.history| && n.history[i].Vetoed? ==>
          n.history[i].actor in n.entries && Records(n.entries[n.history[i].actor], n.history[i].veto.body))
    && (forall i :: 0 <= i < |n.history| && n.history[i].Answered? ==>
          && n.history[i].actor in n.entries
          && n.history[i].envelope.response.body.clientNonce in n.entries[n.history[i].actor].register.seenNonces)
  }

  /** One word per question: a witness's vetoes of one rotation are for one plan and one
      cancellation, and no nonce is answered twice. */
  ghost predicate Consequent(h: seq<Event>) {
    && (forall i, j :: 0 <= i < j < |h| && h[i].Vetoed? && h[j].Vetoed? && h[i].actor == h[j].actor
                       && h[i].veto.body.rotationId == h[j].veto.body.rotationId ==>
          h[i].veto.body.planHash == h[j].veto.body.planHash && h[i].veto.body.cancelHash == h[j].veto.body.cancelHash)
    && (forall i, j :: 0 <= i < j < |h| && h[i].Answered? && h[j].Answered? && h[i].actor == h[j].actor ==>
          h[i].envelope.response.body.clientNonce != h[j].envelope.response.body.clientNonce)
  }

  lemma StepStaysInMemory(n: Net, w: nat, t: EntryState, e: Option<Event>)
    requires w in n.entries && Remembers(w, n.entries[w], t, e) && InMemory(n)
    ensures InMemory(Net(n.entries[w := t], Record(n.history, e)))
  {
    var h := Record(n.history, e);
    assert forall i :: 0 <= i < |n.history| ==> h[i] == n.history[i];
    assert forall x :: x in n.history ==> x in h;
    assert e.Some? ==> h[|n.history|] == e.value && e.value in h;
  }

  lemma StepStaysConsequent(n: Net, w: nat, t: EntryState, e: Option<Event>)
    requires w in n.entries && Remembers(w, n.entries[w], t, e) && InMemory(n) && Consequent(n.history)
    ensures Consequent(Record(n.history, e))
  {
    var h := Record(n.history, e);
    assert forall i :: 0 <= i < |n.history| ==> h[i] == n.history[i];
  }

  /** Correct witnesses never contradict themselves, in any run. */
  lemma {:induction false} RunIsConsequent(c: Cluster, steps: seq<Delivery>)
    requires WellFormed(c) && Feasible(c, steps)
    ensures InMemory(Run(c, steps)) && Consequent(Run(c, steps).history)
    decreases |steps|
  {
    if steps != [] {
      var before, d := steps[..|steps| - 1], steps[|steps| - 1];
      RunIsConsequent(c, before);
      RunEntryValid(c, before, d.recipient);
      var n := Run(c, before);
      var s := n.entries[d.recipient];
      ServeRemembers(d.recipient, s, d.request);
      StepStaysInMemory(n, d.recipient, Serve(s, d.request), Emitted(d.recipient, s, d.request));
      StepStaysConsequent(n, d.recipient, Serve(s, d.request), Emitted(d.recipient, s, d.request));
    }
  }

  // ---- Acks ------------------------------------------------------------------------

  /** The child is the direct successor of the parent capsule, under the same authorities. */
  ghost predicate DirectChild(c: Cluster, parent: Capsule, child: Capsule) {
    var from, next := parent.body.configRef, child.body.configRef;
    && child.hash == BodyHash(child.body)
    && child.body.predecessorHash == BodyHash(parent.body)
    && next.configId == from.configId
    && next.payloadGeneration == from.payloadGeneration
    && next.authorizationEpoch == from.authorizationEpoch
    && next.guardianEpoch == SatAdd(from.guardianEpoch, 1)
    && next.epochBinding != from.epochBinding
    && child.body.minimumRecoveryDelay >= parent.body.minimumRecoveryDelay
    && child.body.protocolVersion == PROTOCOL_VERSION_V3
    && 2 <= child.body.guardianThreshold <= child.body.guardianCount
    && SameAuthorities(c.genesis.body, child.body)
  }

  /** The ack is for exactly this child out of this parent, on the authority of this
      certificate. */
  ghost predicate AcksChild(ack: ActivationAckBody, parent: Capsule, child: Capsule, certificate: ActivateCertificate) {
    && ack.predecessorHash == BodyHash(parent.body) && ack.predecessorEpoch == parent.body.configRef.guardianEpoch
    && ack.successorHash == BodyHash(child.body) && ack.successorEpoch == child.body.configRef.guardianEpoch
    && ack.certificateHash == Of(certificate)
    && ack.context == certificate.context && ack.planHash == certificate.planHash
    && certificate.context.configRef == parent.body.configRef
    && certificate.context.predecessorHash == BodyHash(parent.body)
    && certificate.successor == child.body.configRef
  }

  /** As many signers as the genesis capsule asks for signed for this child. */
  ghost predicate ThresholdSigned(c: Cluster, certificate: ActivateCertificate, child: CapsuleBody) {
    && |Endorsers(c.genesis.body.signerSet, c.genesis.body.signerCount, certificate, BodyHash(child))| >= c.genesis.body.signerThreshold
    && |certificate.votes| <= MAX_ROTATION_ACTORS
  }

  /** The delivery asks for the ack of a direct child of this parent that the signers' own
      threshold signed. */
  ghost predicate AskedFor(c: Cluster, d: Delivery, parent: Capsule, ack: ActivationAckBody) {
    && d.request.ActivateRequest?
    && var child, certificate := d.request.activation.capsule, d.request.activation.certificate;
    && DirectChild(c, parent, child)
    && AcksChild(ack, parent, child, certificate)
    && ThresholdSigned(c, certificate, child.body)
  }

  lemma FirstAckMeans(c: Cluster, w: nat, s: EntryState, d: Delivery, e: Event)
    requires ValidState(s) && Rooted(c, s) && Identified(c, w, s) && Canonical(c)
    requires Emitted(w, s, d.request) == Some(e) && e.Acked? && s.pendingAck.None?
    ensures e.actor == w && AskedFor(c, d, s.capsule, e.ack.body)
    ensures e.ack.body.witnessId == w && e.ack.body.witnessKey == c.keys[w]
    ensures e.ack.signature == Signature(c.keys[w], ActivationAckMessage(e.ack.body))
  {
    var certificate := d.request.activation.certificate;
    assert forall i :: 0 <= i < |certificate.votes| ==> PinnedVote(s.signerKeys, certificate.votes[i]);
    EveryVoteEndorses(c.genesis.body.signerSet, c.genesis.body.signerCount, certificate);
  }

  lemma RepeatedAckIsPending(w: nat, s: EntryState, r: Request, e: Event)
    requires ValidState(s) && Emitted(w, s, r) == Some(e) && e.Acked? && s.pendingAck.Some?
    ensures e == Acked(w, s.pendingAck.value)
  {
  }

  /** Every ack of a correct witness goes back to a delivered activation: at that moment its
      finalised capsule was the parent, and the child was a direct successor that a threshold
      of the pinned signers had signed for. Later copies of the ack repeat it. */
  lemma {:induction false} AckRestsOnSigners(c: Cluster, steps: seq<Delivery>, k: nat) returns (j: nat, first: nat)
    requires WellFormed(c) && Feasible(c, steps) && k < |Run(c, steps).history| && Run(c, steps).history[k].Acked?
    ensures first <= k && Run(c, steps).history[first] == Run(c, steps).history[k] && Produces(c, steps, j, first)
    ensures var w, ack := Run(c, steps).history[k].actor, Run(c, steps).history[k].ack;
            && steps[j].recipient == w && w in c.keys
            && AskedFor(c, steps[j], Server(c, steps, j).capsule, ack.body)
            && ack.body.witnessId == w && ack.body.witnessKey == c.keys[w]
            && ack.signature == Signature(c.keys[w], ActivationAckMessage(ack.body))
    decreases k
  {
    var h := Run(c, steps).history;
    j := LineHasOrigin(c, steps, k);
    ServerIsSound(c, steps, j);
    var w, s := steps[j].recipient, Server(c, steps, j);
    if s.pendingAck.None? {
      FirstAckMeans(c, w, s, steps[j], h[k]);
      first := k;
    } else {
      RepeatedAckIsPending(w, s, steps[j].request, h[k]);
      var earlier := PendingAckWasSent(c, steps, j);
      assert h[..k][earlier] == h[earlier];
      j, first := AckRestsOnSigners(c, steps, earlier);
    }
  }

  lemma PendingAckWasSent(c: Cluster, steps: seq<Delivery>, j: nat) returns (k: nat)
    requires WellFormed(c) && Feasible(c, steps) && j < |steps| && Server(c, steps, j).pendingAck.Some?
    ensures k < |Run(c, steps[..j]).history|
    ensures Run(c, steps[..j]).history[k] == Acked(steps[j].recipient, Server(c, steps, j).pendingAck.value)
  {
    FeasibleUpTo(c, steps, j);
    RunIsRooted(c, steps[..j], steps[j].recipient);
    RunIsConsequent(c, steps[..j]);
    var h := Run(c, steps[..j]).history;
    k :| 0 <= k < |h| && h[k] == Acked(steps[j].recipient, Server(c, steps, j).pendingAck.value);
  }

  // ---- Finalisations ---------------------------------------------------------------

  /** The certificate holds this very ack and as many attestations of the step it certifies
      as a quorum has members. */
  ghost predicate QuorumBehind(c: Cluster, qc: ActivationQc, own: ActivationAck) {
    && own in qc.acks
    && own.body.predecessorHash == qc.predecessorHash && own.body.successorHash == qc.successorHash
    && own.body.predecessorEpoch == qc.predecessorEpoch && own.body.successorEpoch == qc.successorEpoch
    && own.body.certificateHash == qc.certificateHash
    && own.body.context.rotationId == qc.rotationId
    && own.body.context.configRef.configId == qc.configId == c.genesis.body.configRef.configId
    && |Attesters(c.keys, qc)| >= 2 * c.faultBound + 1 && qc.faultBound == c.faultBound
  }

  lemma FinalityMeans(c: Cluster, w: nat, s: EntryState, r: Request, e: Event)
    requires ValidState(s) && Rooted(c, s) && Identified(c, w, s)
    requires Emitted(w, s, r) == Some(e) && e.Finalized?
    ensures e.actor == w && s.pendingAck.Some? && QuorumBehind(c, e.qc, s.pendingAck.value)
    ensures e.qc.predecessorHash == BodyHash(s.capsule.body)
    ensures Serve(s, r).capsule.hash == e.qc.successorHash && Serve(s, r).capsule.activationQc == Some(e.qc)
  {
    QuorumAttests(c.keys, c.faultBound, e.qc);
  }

  /** A correct witness finalises only what it has acked itself and `2f + 1` pinned witnesses
      attested, one step on from the capsule it had. */
  lemma FinalityRestsOnQuorum(c: Cluster, steps: seq<Delivery>, k: nat) returns (j: nat, own: nat)
    requires WellFormed(c) && Feasible(c, steps) && k < |Run(c, steps).history| && Run(c, steps).history[k].Finalized?
    ensures Produces(c, steps, j, k) && steps[j].recipient == Run(c, steps).history[k].actor
    ensures own < k && Run(c, steps).history[own].Acked? && Run(c, steps).history[own].actor == Run(c, steps).history[k].actor
    ensures QuorumBehind(c, Run(c, steps).history[k].qc, Run(c, steps).history[own].ack)
    ensures Run(c, steps).history[k].qc.predecessorHash == BodyHash(Server(c, steps, j).capsule.body)
  {
    var h := Run(c, steps).history;
    j := LineHasOrigin(c, steps, k);
    ServerIsSound(c, steps, j);
    FinalityMeans(c, steps[j].recipient, Server(c, steps, j), steps[j].request, h[k]);
    own := PendingAckWasSent(c, steps, j);
    assert h[..k][own] == h[own];
  }
}
