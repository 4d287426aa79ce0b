/** The other half of a quorum read: what correct witnesses show is believed by every reader
    that holds their card, so that no correct answer is lost. */
module ReadAvailability {
  import opened Foundations
  import opened EpochTypes
  import opened EpochSelection
  import opened WitnessEntry
  import opened WitnessNetwork
  import opened WitnessEvidence
  import opened ReadFreshness
  import Endorsements
  import WitnessTheorems
  import opened WitnessAgreement
  import Lines = GuardiansAndWitnesses

  /** A reader with this card believes in the finalised capsule, and will believe in the
      pending child once a quorum has certified it. */
  ghost predicate Believed(card: RecoveryCard, s: EntryState) {
    && ActivatedCapsule(card, s.capsule)
    && (s.pendingCapsule.Some? ==> Promising(s.pendingCapsule.value))
  }

  ghost predicate Promising(child: Capsule) {
    && CapsuleEncodes(child.body)
    && child.activationCertificate.Some? && CertificateValid(child, child.activationCertificate.value)
  }

  ghost predicate CanonicalIds(b: CapsuleBody) {
    forall id :: id in b.signerSet ==> 1 <= id <= b.signerCount
  }

  lemma ActivationPromises(c: Cluster, s: EntryState, request: ActivationRequest)
    requires ValidState(s) && Rooted(c, s) && CanonicalIds(c.genesis.body)
    requires Presentable(s, request) && Succeeds(s, request)
    ensures Promising(request.capsule.(activationCertificate := Some(request.certificate), activationQc := None))
  {
    var child, certificate := request.capsule.(activationCertificate := Some(request.certificate), activationQc := None), request.certificate;
    forall i | 0 <= i < |certificate.votes|
      ensures MemberVote(child, certificate.votes[i])
    {
      assert PinnedVote(s.signerKeys, certificate.votes[i]);
    }
  }

  lemma CertificateSeesBody(a: Capsule, b: Capsule, certificate: ActivateCertificate)
    requires a.body == b.body && a.hash == b.hash && CertificateValid(a, certificate)
    ensures CertificateValid(b, certificate)
  {
    assert forall i :: 0 <= i < |certificate.votes| ==> MemberVote(a, certificate.votes[i]);
  }

  lemma FinalityIsBelieved(c: Cluster, card: RecoveryCard, w: nat, s: EntryState, qc: ActivationQc)
    requires ValidState(s) && Rooted(c, s) && Identified(c, w, s) && CardOf(card, c) && Believed(card, s)
    requires Finalizes(s, qc)
    ensures ActivatedCapsule(card, FinalizeNext(s, qc).capsule)
  {
    var child := FinalizeNext(s, qc).capsule;
    ActivatedEpochPositive(card, s.capsule);
    assert KeepsImmutablePolicy(child.body, s.capsule.body);
    CertificateSeesBody(s.pendingCapsule.value, child, child.activationCertificate.value);
  }

  lemma ServeIsBelieved(c: Cluster, card: RecoveryCard, w: nat, s: EntryState, r: Request)
    requires ValidState(s) && Rooted(c, s) && Identified(c, w, s) && CanonicalIds(c.genesis.body)
    requires CardOf(card, c) && Believed(card, s)
    ensures Believed(card, Serve(s, r))
  {
    match r
    case ActivateRequest(activation) =>
      if Presentable(s, activation) && Succeeds(s, activation) {
        ActivationPromises(c, s, activation);
      }
    case CancelRequest(_, _) =>
    case FinalizeRequest(qc) =>
      if Finalizes(s, qc) {
        FinalityIsBelieved(c, card, w, s, qc);
      }
    case ReadRequest(_, _) =>
  }

  lemma DeliveryIsBelieved(c: Cluster, card: RecoveryCard, n: Net, d: Delivery, w: nat)
    requires d.recipient in n.entries && w in n.entries && CanonicalIds(c.genesis.body) && CardOf(card, c)
    requires var s := n.entries[d.recipient]; ValidState(s) && Rooted(c, s) && Identified(c, d.recipient, s)
    requires Believed(card, n.entries[d.recipient]) && Believed(card, n.entries[w])
    ensures w in Deliver(n, d).entries && Believed(card, Deliver(n, d).entries[w])
  {
    ServeIsBelieved(c, card, d.recipient, n.entries[d.recipient], d.request);
  }

  lemma StartIsBelieved(c: Cluster, card: RecoveryCard, w: nat)
    requires WellFormed(c) && w in c.correct && ActivatedCapsule(card, c.genesis)
    ensures w in Start(c).entries && Believed(card, Start(c).entries[w])
    ensures CanonicalIds(c.genesis.body)
  {
    assert AcceptableGenesis(w, c.keys[w], c.signerKeys, c.keys, c.faultBound, c.genesis);
  }

  /** From a genesis capsule the reader believes in, every capsule that any correct witness
      ever finalises is one the reader believes in. */
  lemma {:induction false} FinalisedIsBelieved(c: Cluster, card: RecoveryCard, steps: seq<Delivery>, w: nat)
    requires WellFormed(c) && Feasible(c, steps) && w in c.correct
    requires CardOf(card, c) && ActivatedCapsule(card, c.genesis)
    ensures w in Run(c, steps).entries && Believed(card, Run(c, steps).entries[w])
    decreases |steps|
  {
    StartIsBelieved(c, card, w);
    if steps != [] {
      var before, d := steps[..|steps| - 1], steps[|steps| - 1];
      FinalisedIsBelieved(c, card, before, w);
      FinalisedIsBelieved(c, card, before, d.recipient);
      EntryIsSound(c, before, d.recipient);
      DeliveryIsBelieved(c, card, Run(c, before), d, w);
    }
  }

  /** So every answer of a correct witness counts for a reader that drew its nonce: it is
      addressed to the challenge, its signature verifies, and its capsule is believed. */
  lemma AnswerCounts(c: Cluster, card: RecoveryCard, steps: seq<Delivery>, k: nat, challenge: ReadChallenge)
    requires WellFormed(c) && Feasible(c, steps) && k < |Run(c, steps).history| && Run(c, steps).history[k].Answered?
    requires CardOf(card, c) && ActivatedCapsule(card, c.genesis) && challenge.configId == card.configId
    requires Run(c, steps).history[k].envelope.response.body.clientNonce == challenge.clientNonce
    ensures var e := Run(c, steps).history[k].envelope;
            && e.response.body.witnessId == Run(c, steps).history[k].actor
            && Addressed(Pins(card.witnesses), challenge, e) && Authentic(card, e)
  {
    var j := AnswerShowsFinalised(c, steps, k);
    FeasibleUpTo(c, steps, j);
    FinalisedIsBelieved(c, card, steps[..j], steps[j].recipient);
  }

  /** In this read the first envelope addressed for the witness is one it really sent. */
  ghost predicate Heard(c: Cluster, card: RecoveryCard, h: seq<Event>, challenge: ReadChallenge, es: seq<ReadEnvelope>, w: nat) {
    exists i, k :: 0 <= i < |es| && 0 <= k < |h| && HeardAt(card, h, challenge, es, w, i, k)
  }

  ghost predicate HeardAt(card: RecoveryCard, h: seq<Event>, challenge: ReadChallenge, es: seq<ReadEnvelope>, w: nat, i: nat, k: nat)
    requires i < |es| && k < |h|
  {
    h[k] == Answered(w, es[i]) && FirstOfWitness(Pins(card.witnesses), challenge, es, i)
  }

  lemma FirstIsAccepted(card: RecoveryCard, challenge: ReadChallenge, es: seq<ReadEnvelope>, i: nat, w: nat)
    requires i < |es| && FirstOfWitness(Pins(card.witnesses), challenge, es, i) && Authentic(card, es[i])
    requires es[i].response.body.witnessId == w
    ensures i in AcceptedIndices(card, challenge, es)
    ensures w in WitnessesAt(es, AcceptedIndices(card, challenge, es))
  {
    assert Accepted(card, challenge, es, i);
    assert i in AcceptedIndices(card, challenge, es);
  }

  lemma HeardIsCounted(c: Cluster, card: RecoveryCard, steps: seq<Delivery>, challenge: ReadChallenge,
                       es: seq<ReadEnvelope>, w: nat)
    requires WellFormed(c) && Feasible(c, steps) && CardOf(card, c) && ActivatedCapsule(card, c.genesis)
    requires challenge.configId == card.configId && Heard(c, card, Run(c, steps).history, challenge, es, w)
    ensures w in WitnessesAt(es, AcceptedIndices(card, challenge, es))
  {
    var h := Run(c, steps).history;
    var i, k :| 0 <= i < |es| && 0 <= k < |h| && HeardAt(card, h, challenge, es, w, i, k);
    AnswerCounts(c, card, steps, k, challenge);
    FirstIsAccepted(card, challenge, es, i, w);
  }

  /** Every correct witness that is heard counts, whatever else the read contains. */
  lemma HeardAreCounted(c: Cluster, card: RecoveryCard, steps: seq<Delivery>, challenge: ReadChallenge,
                        es: seq<ReadEnvelope>, heard: set<nat>)
    requires WellFormed(c) && Feasible(c, steps) && CardOf(card, c) && ActivatedCapsule(card, c.genesis)
    requires challenge.configId == card.configId
    requires forall w :: w in heard ==> Heard(c, card, Run(c, steps).history, challenge, es, w)
    ensures heard <= WitnessesAt(es, AcceptedIndices(card, challenge, es))
    ensures |WitnessesAt(es, AcceptedIndices(card, challenge, es))| >= |heard|
  {
    forall w | w in heard
      ensures w in WitnessesAt(es, AcceptedIndices(card, challenge, es))
    {
      HeardIsCounted(c, card, steps, challenge, es, w);
    }
    SubsetSize(heard, WitnessesAt(es, AcceptedIndices(card, challenge, es)));
  }

  // ---- Whether the reader can decide -----------------------------------------------

  lemma CertifiedGrowsWithHistory(c: Cluster, g: seq<Event>, h: seq<Event>, child: CapsuleHash, parent: CapsuleHash)
    requires g <= h && Certifies(c, g, child, parent)
    ensures Certifies(c, h, child, parent)
  {
    var qc :| WitnessTheorems.Assembled(c, g, qc) && qc.successorHash == child && qc.predecessorHash == parent;
    assert forall e :: e in g ==> e in h;
    assert WitnessTheorems.Assembled(c, h, qc);
  }

  lemma {:induction false} LineGrows(c: Cluster, g: seq<Event>, h: seq<Event>, root: CapsuleHash, hash: CapsuleHash)
    requires g <= h && Line(c, g, root, hash)
    ensures Line(c, h, root, hash)
    decreases hash
  {
    if hash != root {
      CertifiedGrowsWithHistory(c, g, h, hash, hash.body.predecessorHash);
      LineGrows(c, g, h, root, hash.body.predecessorHash);
    }
  }

  lemma EntryIsOnLine(c: Cluster, n: Net, h: seq<Event>, w: nat)
    requires Consistent(c, n) && w in c.correct && n.history <= h
    ensures Line(c, h, c.genesis.hash, n.entries[w].capsule.hash)
  {
    assert EntrySound(c, n.history, w, n.entries[w]);
    FinalisedIsLine(c, n.history, n.entries[w].capsule.hash);
    LineGrows(c, n.history, h, c.genesis.hash, n.entries[w].capsule.hash);
  }

  lemma PrefixHistory(c: Cluster, steps: seq<Delivery>, j: nat)
    requires j <= |steps|
    ensures Run(c, steps[..j]).history <= Run(c, steps).history
  {
    assert steps[..j] + steps[j..] == steps;
    WitnessTheorems.HistoryGrows(c, steps[..j], steps[j..]);
  }

  /** The capsule a correct witness had finalised when it served a delivery is on the line. */
  lemma ServerIsOnLine(c: Cluster, steps: seq<Delivery>, j: nat)
    requires WellFormed(c) && Feasible(c, steps) && j < |steps|
    ensures Line(c, Run(c, steps).history, c.genesis.hash, Server(c, steps, j).capsule.hash)
  {
    FeasibleUpTo(c, steps, j);
    RunsAreConsistent(c, steps[..j]);
    PrefixHistory(c, steps, j);
    EntryIsOnLine(c, Run(c, steps[..j]), Run(c, steps).history, steps[j].recipient);
  }

  /** Whatever a quorum certifies is one epoch on from a capsule on the line. */
  lemma CertifiedIsOnLine(c: Cluster, steps: seq<Delivery>, child: CapsuleHash, parent: CapsuleHash)
    requires WellFormed(c) && Feasible(c, steps) && Certifies(c, Run(c, steps).history, child, parent)
    ensures child.BodyHash? && child.body.predecessorHash == parent
    ensures EpochOf(child) == SatAdd(EpochOf(parent), 1)
    ensures Line(c, Run(c, steps).history, c.genesis.hash, parent)
  {
    var h := Run(c, steps).history;
    var qc :| WitnessTheorems.Assembled(c, h, qc) && qc.successorHash == child && qc.predecessorHash == parent;
    var j := WitnessTheorems.QcRestsOnSigners(c, steps, qc);
    ServerIsSound(c, steps, j);
    ServerIsOnLine(c, steps, j);
  }

  lemma {:induction false} LineIsCounted(c: Cluster, steps: seq<Delivery>, hash: CapsuleHash)
    requires WellFormed(c) && Feasible(c, steps) && Line(c, Run(c, steps).history, c.genesis.hash, hash)
    ensures Lines.Counted(c.genesis.hash, hash)
    decreases hash
  {
    if hash != c.genesis.hash {
      CertifiedIsOnLine(c, steps, hash, hash.body.predecessorHash);
      LineIsCounted(c, steps, hash.body.predecessorHash);
    }
  }

  /** Past the first epoch, whatever any reader believes on genuine certificates descends
      from the genesis capsule of the cluster. */
  lemma BelievedIsOnLine(c: Cluster, steps: seq<Delivery>, card: RecoveryCard, capsule: Capsule)
    requires WellFormed(c) && Feasible(c, steps) && CardOf(card, c)
    requires ActivatedCapsule(card, capsule) && capsule.Epoch() > 1 && Lines.Genuine(c, Run(c, steps).history, capsule)
    ensures Line(c, Run(c, steps).history, c.genesis.hash, capsule.hash) && Lines.Counted(c.genesis.hash, capsule.hash)
    ensures capsule.hash == BodyHash(capsule.body)
  {
    Lines.ActivatedIsCertified(c, Run(c, steps).history, card, capsule);
    CertifiedIsOnLine(c, steps, capsule.hash, capsule.body.predecessorHash);
    LineIsCounted(c, steps, capsule.hash);
  }

  /** One epoch number, one capsule: while few enough witnesses retract, readers of any cards
      for the cluster never believe two capsules of one epoch between the first and the
      last. */
  lemma EpochIsOneCapsule(c: Cluster, steps: seq<Delivery>, card: RecoveryCard, card': RecoveryCard, x: Capsule, y: Capsule)
    requires WellFormed(c) && Feasible(c, steps) && FewRetract(c, Run(c, steps).history)
    requires CardOf(card, c) && ActivatedCapsule(card, x) && Lines.Genuine(c, Run(c, steps).history, x)
    requires CardOf(card', c) && ActivatedCapsule(card', y) && Lines.Genuine(c, Run(c, steps).history, y)
    requires 1 < x.Epoch() == y.Epoch() < U64_MAX
    ensures x.hash == y.hash
  {
    BelievedIsOnLine(c, steps, card, x);
    BelievedIsOnLine(c, steps, card', y);
    FewRetractUnique(c, steps);
    LinesCompare(c, Run(c, steps).history, c.genesis.hash, x.hash, y.hash);
    Lines.EpochNamesCapsule(c.genesis.hash, x.hash, y.hash);
  }

  ghost predicate AllGenuine(c: Cluster, h: seq<Event>, es: seq<ReadEnvelope>) {
    forall i :: 0 <= i < |es| ==> Lines.Genuine(c, h, es[i].capsule)
  }

  lemma ReadIsUnforked(c: Cluster, steps: seq<Delivery>, card: RecoveryCard, challenge: ReadChallenge,
                       es: seq<ReadEnvelope>, t: nat)
    requires WellFormed(c) && Feasible(c, steps) && FewRetract(c, Run(c, steps).history) && CardOf(card, c)
    requires AllGenuine(c, Run(c, steps).history, es)
    requires Top(es, AcceptedIndices(card, challenge, es), t) && 1 < es[t].capsule.Epoch() < U64_MAX
    ensures Unforked(es, AcceptedIndices(card, challenge, es))
  {
    var accepted := AcceptedIndices(card, challenge, es);
    forall i, j | i in accepted && j in accepted && Top(es, accepted, i) && Top(es, accepted, j)
      ensures es[i].capsule.hash == es[j].capsule.hash
    {
      EpochIsOneCapsule(c, steps, card, card, es[i].capsule, es[j].capsule);
    }
  }

  /** A read decides: when `2f + 1` correct witnesses are heard and a capsule past the first
      epoch is accepted, no answer of the others, signed or not, stops the reader from
      selecting. */
  lemma ReadDecides(c: Cluster, steps: seq<Delivery>, card: RecoveryCard, challenge: ReadChallenge,
                    es: seq<ReadEnvelope>, heard: set<nat>, t: nat)
    requires WellFormed(c) && Feasible(c, steps) && FewRetract(c, Run(c, steps).history)
    requires CardOf(card, c) && ActivatedCapsule(card, c.genesis)
    requires ChallengeEncodes(challenge) && challenge.configId == card.configId
    requires |heard| >= 2 * c.faultBound + 1
    requires forall w :: w in heard ==> Heard(c, card, Run(c, steps).history, challenge, es, w)
    requires AllGenuine(c, Run(c, steps).history, es)
    requires Top(es, AcceptedIndices(card, challenge, es), t) && 1 < es[t].capsule.Epoch() < U64_MAX
    ensures ReadSelects(card, challenge, es, es[t].capsule)
  {
    HeardAreCounted(c, card, steps, challenge, es, heard);
    ReadIsUnforked(c, steps, card, challenge, es, t);
  }

  // ---- What a selection rests on ---------------------------------------------------

  /** In this read the witness speaks, to this challenge, for a capsule of no later epoch than
      the selected one, and of the same if it is for the same epoch. */
  ghost predicate SpeaksFor(card: RecoveryCard, challenge: ReadChallenge, es: seq<ReadEnvelope>, w: nat, selected: Capsule) {
    && w in Pins(card.witnesses)
    && exists i :: 0 <= i < |es| && Speaks(w, Pins(card.witnesses)[w], challenge, es[i]) && NotAhead(es[i].capsule, selected)
  }

  predicate NotAhead(capsule: Capsule, selected: Capsule) {
    && capsule.body.configRef.guardianEpoch <= selected.body.configRef.guardianEpoch
    && (capsule.body.configRef.guardianEpoch == selected.body.configRef.guardianEpoch ==> capsule.body == selected.body)
  }

  lemma AcceptedSpeaks(card: RecoveryCard, challenge: ReadChallenge, es: seq<ReadEnvelope>, i: nat)
    requires i in AcceptedIndices(card, challenge, es) && ChallengeEncodes(challenge)
    ensures es[i].response.body.witnessId in Pins(card.witnesses)
    ensures Speaks(es[i].response.body.witnessId, Pins(card.witnesses)[es[i].response.body.witnessId], challenge, es[i])
    ensures es[i].capsule.hash == BodyHash(es[i].capsule.body) && ActivatedCapsule(card, es[i].capsule)
  {
  }

  lemma AcceptedIsNotAhead(card: RecoveryCard, challenge: ReadChallenge, es: seq<ReadEnvelope>, t: nat, i: nat)
    requires Decidable(card, challenge, es) && Top(es, AcceptedIndices(card, challenge, es), t)
    requires i in AcceptedIndices(card, challenge, es)
    ensures SpeaksFor(card, challenge, es, es[i].response.body.witnessId, es[t].capsule)
  {
    var accepted := AcceptedIndices(card, challenge, es);
    AcceptedSpeaks(card, challenge, es, i);
    AcceptedSpeaks(card, challenge, es, t);
    if es[i].capsule.Epoch() == es[t].capsule.Epoch() {
      assert Top(es, accepted, i);
    }
  }

  /** Whatever a reader selects, at least `2f + 1` witnesses of its card signed answers to its
      own challenge, none of them for a later epoch or another capsule of that epoch; and the
      selected capsule is one of the answers. */
  lemma SelectionRestsOnQuorum(card: RecoveryCard, challenge: ReadChallenge, es: seq<ReadEnvelope>, selected: Capsule)
    returns (q: set<nat>, t: nat)
    requires ReadSelects(card, challenge, es, selected)
    ensures |q| >= 2 * card.faultBound + 1 && forall w :: w in q ==> SpeaksFor(card, challenge, es, w, selected)
    ensures t < |es| && es[t].capsule == selected && es[t].response.body.witnessId in q
    ensures Endorsements.PinsWitnesses(card) && challenge.configId == card.configId == selected.body.configRef.configId
    ensures challenge.protocolVersion == PROTOCOL_VERSION_V3 && challenge.issuedAt < challenge.expiry
  {
    t :| Top(es, AcceptedIndices(card, challenge, es), t) && selected == es[t].capsule;
    q := WitnessesAt(es, AcceptedIndices(card, challenge, es));
    forall w | w in q
      ensures SpeaksFor(card, challenge, es, w, selected)
    {
      var i :| i in AcceptedIndices(card, challenge, es) && es[i].response.body.witnessId == w;
      AcceptedIsNotAhead(card, challenge, es, t, i);
    }
    AcceptedSpeaks(card, challenge, es, t);
    Endorsements.ActivatedIsEndorsed(card, selected);
  }

  // ---- The first epoch -------------------------------------------------------------

  /** The same first capsule with different material: nothing on the card tells them apart. */
  function OtherGenesis(genesis: Capsule): Capsule {
    var body := genesis.body.(material := genesis.body.material + 1);
    Capsule(body, BodyHash(body), None, None)
  }

  function Claim(challenge: ReadChallenge, w: nat, key: Key, capsule: Capsule): ReadEnvelope {
    var said := ReadResponseBody(PROTOCOL_VERSION_V3, challenge.configId, challenge.clientNonce, w, capsule.Epoch(), capsule.hash, key);
    ReadEnvelope(ReadResponse(said, Signature(key, ReadResponseMessage(said))), capsule)
  }

  lemma OtherGenesisIsActivated(card: RecoveryCard, genesis: Capsule)
    requires ActivatedCapsule(card, genesis) && genesis.Epoch() == 1
    ensures ActivatedCapsule(card, OtherGenesis(genesis)) && OtherGenesis(genesis).Epoch() == 1
    ensures OtherGenesis(genesis).hash != genesis.hash
  {
  }

  lemma AcceptedStays(card: RecoveryCard, challenge: ReadChallenge, es: seq<ReadEnvelope>, e: ReadEnvelope, i: nat)
    requires i < |es|
    ensures i in AcceptedIndices(card, challenge, es + [e]) <==> i in AcceptedIndices(card, challenge, es)
  {
    assert forall j :: 0 <= j < |es| ==> (es + [e])[j] == es[j];
  }

  lemma TwoTopsBlock(card: RecoveryCard, challenge: ReadChallenge, es: seq<ReadEnvelope>, i: nat, j: nat)
    requires i in AcceptedIndices(card, challenge, es) && j in AcceptedIndices(card, challenge, es)
    requires Top(es, AcceptedIndices(card, challenge, es), i)
    requires es[i].capsule.Epoch() == es[j].capsule.Epoch() && es[i].capsule.hash != es[j].capsule.hash
    ensures !Decidable(card, challenge, es)
  {
    assert Top(es, AcceptedIndices(card, challenge, es), j);
  }

  /** At the first epoch the restriction is needed: to every read that selects a first
      capsule, any pinned witness not yet heard can add an answer that leaves the reader
      undecided. */
  lemma FirstEpochCanBeBlocked(card: RecoveryCard, challenge: ReadChallenge, es: seq<ReadEnvelope>, t: nat, w: nat)
    returns (e: ReadEnvelope)
    requires Decidable(card, challenge, es) && Top(es, AcceptedIndices(card, challenge, es), t) && es[t].capsule.Epoch() == 1
    requires w in Pins(card.witnesses)
    requires forall j :: 0 <= j < |es| && Addressed(Pins(card.witnesses), challenge, es[j]) ==> es[j].response.body.witnessId != w
    ensures e.response.body.witnessId == w && !Decidable(card, challenge, es + [e])
  {
    var other := OtherGenesis(es[t].capsule);
    OtherGenesisIsActivated(card, es[t].capsule);
    e := Claim(challenge, w, Pins(card.witnesses)[w], other);
    FirstIsAccepted(card, challenge, es + [e], |es|, w);
    WithOtherGenesis(card, challenge, es, e, t);
  }

  lemma WithOtherGenesis(card: RecoveryCard, challenge: ReadChallenge, es: seq<ReadEnvelope>, e: ReadEnvelope, t: nat)
    requires Top(es, AcceptedIndices(card, challenge, es), t)
    requires |es| in AcceptedIndices(card, challenge, es + [e])
    requires e.capsule.Epoch() == es[t].capsule.Epoch() && e.capsule.hash != es[t].capsule.hash
    ensures !Decidable(card, challenge, es + [e])
  {
    var more := es + [e];
    forall j | j in AcceptedIndices(card, challenge, more)
      ensures more[j].capsule.Epoch() <= es[t].capsule.Epoch()
    {
      if j < |es| {
        AcceptedStays(card, challenge, es, e, j);
      }
    }
    AcceptedStays(card, challenge, es, e, t);
    TwoTopsBlock(card, challenge, more, t, |es|);
  }
}
