/** Reads that exist: a card of four witnesses, the genesis capsule and a certified child of
    it, answers of the witnesses, and what follows from each list of them. */
module SampleReads {
  import opened Foundations
  import opened EpochTypes
  import opened EpochSelection
  import opened SelectionOrder
  import opened SelectionOutcome
  import opened WitnessEntry
  import opened WitnessNetwork
  import opened WitnessForks

  // ---- The card and the capsules -------------------------------------------------

  function SampleCard(): RecoveryCard {
    RecoveryCard(PROTOCOL_VERSION_V3, 7, map[1 := SIGNER], OWNER, 1,
                 [WitnessPin(1, "a", 1), WitnessPin(2, "b", 2), WitnessPin(3, "c", 3), WitnessPin(4, "d", 4)])
  }

  /** The child of a rotation with the acks of witnesses 1 to 3. */
  function SampleCertified(rotationId: Id32): Capsule {
    var r := SampleChild(rotationId);
    r.capsule.(activationCertificate := Some(r.certificate),
               activationQc := Some(QcBy(SampleCluster({1, 2, 3}), r.certificate, [1, 2, 3])))
  }

  lemma SampleCardIsValid()
    ensures CardValid(SampleCard())
  {
  }

  lemma SampleCardPins()
    ensures Pins(SampleCard().witnesses) == map[1 := 1, 2 := 2, 3 := 3, 4 := 4]
  {
    SampleCardIsValid();
    FourPins(SampleCard().witnesses, Pins(SampleCard().witnesses));
  }

  lemma FourPins(pins: seq<WitnessPin>, m: map<nat, Key>)
    requires |pins| == 4 && m.Keys == set i | 0 <= i < |pins| :: pins[i].witnessId
    requires forall i :: 0 <= i < |pins| ==> pins[i].witnessId == i + 1 && m[pins[i].witnessId] == i + 1
    ensures m == map[1 := 1, 2 := 2, 3 := 3, 4 := 4]
  {
    assert forall k :: k in m.Keys <==> k in {1, 2, 3, 4} by {
      assert pins[0].witnessId == 1 && pins[1].witnessId == 2 && pins[2].witnessId == 3 && pins[3].witnessId == 4;
    }
  }

  lemma SampleIsActivated(rotationId: Id32)
    requires rotationId != 0
    ensures ActivatedCapsule(SampleCard(), SampleCertified(rotationId))
  {
    SampleCardIsValid();
    SampleCertificate(rotationId);
    SampleQuorum(rotationId);
  }

  lemma SampleCertificate(rotationId: Id32)
    requires rotationId != 0
    ensures CapsuleMatchesCard(SampleCard(), SampleCertified(rotationId))
    ensures CertificateValid(SampleCertified(rotationId), SampleChild(rotationId).certificate)
  {
  }

  lemma SampleQuorum(rotationId: Id32)
    requires rotationId != 0
    ensures var qc := SampleCertified(rotationId).activationQc.value;
            && QcBinds(SampleCard(), SampleCertified(rotationId), SampleChild(rotationId).certificate, qc)
            && WitnessQuorum(Pins(SampleCard().witnesses), 1, qc.acks)
  {
    SampleCardPins();
    SampleQc(SampleCluster({1, 2, 3}), rotationId);
    SampleQcBinds(rotationId);
  }

  lemma SampleQc(c: Cluster, rotationId: Id32)
    requires c == SampleCluster({1, 2, 3}) && rotationId != 0
    ensures QcEncodes(QcBy(c, SampleChild(rotationId).certificate, [1, 2, 3]))
    ensures WitnessQuorum(c.keys, 1, QcBy(c, SampleChild(rotationId).certificate, [1, 2, 3]).acks)
  {
    SampleIsWellFormed();
    SampleAccepts(c, 1, rotationId);
    QcCertifies(c, SampleChild(rotationId), [1, 2, 3], 1);
  }

  lemma SampleQcBinds(rotationId: Id32)
    requires QcEncodes(SampleCertified(rotationId).activationQc.value)
    ensures QcBinds(SampleCard(), SampleCertified(rotationId), SampleChild(rotationId).certificate,
                    SampleCertified(rotationId).activationQc.value)
  {
  }

  lemma GenesisIsActivated()
    ensures ActivatedCapsule(SampleCard(), SampleGenesis())
  {
    SampleCardIsValid();
  }

  // ---- Answers -------------------------------------------------------------------

  function SampleChallenge(nonce: Id32): ReadChallenge {
    ReadChallenge(PROTOCOL_VERSION_V3, 7, nonce, 0, 1000)
  }

  /** What a witness with this finalised capsule answers. */
  function Answer(c: Cluster, w: nat, capsule: Capsule, nonce: Id32): ReadEnvelope
    requires w in c.keys
  {
    Envelope(NewWitness(c, w).(capsule := capsule), nonce)
  }

  /** The same under a signature of somebody else. */
  function Forged(e: ReadEnvelope, forger: Key): ReadEnvelope {
    e.(response := e.response.(signature := Signature(forger, e.response.signature.message)))
  }

  /** A cluster whose keys are the card's. */
  ghost predicate Pinned(c: Cluster) {
    c.keys == Pins(SampleCard().witnesses) && c.keys.Keys == {1, 2, 3, 4} && c.genesis == SampleGenesis()
  }

  lemma SampleIsPinned()
    ensures Pinned(SampleCluster({1, 2, 3}))
  {
    SampleCardPins();
  }

  lemma AnswerIsAuthentic(c: Cluster, w: nat, capsule: Capsule, nonce: Id32)
    requires Pinned(c) && w in c.keys && ActivatedCapsule(SampleCard(), capsule)
    ensures Faces(SampleCard(), SampleChallenge(nonce), [Answer(c, w, capsule, nonce)]) == [Seen(w, Some(capsule.hash))]
  {
  }

  lemma ForgedIsNot(c: Cluster, w: nat, capsule: Capsule, nonce: Id32, forger: Key)
    requires Pinned(c) && w in c.keys && forger != c.keys[w]
    ensures Faces(SampleCard(), SampleChallenge(nonce), [Forged(Answer(c, w, capsule, nonce), forger)]) == [Seen(w, None)]
  {
  }

  lemma SampleGuards(nonce: Id32)
    ensures Guards(SampleCard(), SampleChallenge(nonce))
  {
    SampleCardIsValid();
  }

  // ---- Three answers -------------------------------------------------------------

  function ThreeFaces(hash: CapsuleHash): seq<Face> {
    [Seen(1, Some(hash)), Seen(2, Some(hash)), Seen(3, Some(hash))]
  }

  /** Answers in the names of witnesses 1 to 3, all authentic and with this capsule. */
  ghost predicate Three(card: RecoveryCard, challenge: ReadChallenge, es: seq<ReadEnvelope>, hash: CapsuleHash) {
    Guards(card, challenge) && card.faultBound == 1 && Faces(card, challenge, es) == ThreeFaces(hash)
  }

  /** Some such read of any activated capsule. */
  lemma ThreeAnswers(card: RecoveryCard, challenge: ReadChallenge, capsule: Capsule, nonce: Id32) returns (es: seq<ReadEnvelope>)
    requires card == SampleCard() && challenge == SampleChallenge(nonce) && ActivatedCapsule(card, capsule)
    ensures Three(card, challenge, es, capsule.hash)
    ensures forall e :: e in es ==> e.capsule == capsule
  {
    var c := SampleCluster({1, 2, 3});
    SampleIsPinned();
    AnswerIsAuthentic(c, 1, capsule, nonce);
    AnswerIsAuthentic(c, 2, capsule, nonce);
    AnswerIsAuthentic(c, 3, capsule, nonce);
    SampleGuards(nonce);
    es := InOneRead(card, challenge, Answer(c, 1, capsule, nonce), Answer(c, 2, capsule, nonce), Answer(c, 3, capsule, nonce), capsule);
  }

  lemma InOneRead(card: RecoveryCard, challenge: ReadChallenge, a: ReadEnvelope, b: ReadEnvelope, c: ReadEnvelope, capsule: Capsule)
    returns (es: seq<ReadEnvelope>)
    requires Guards(card, challenge) && card.faultBound == 1
    requires Faces(card, challenge, [a]) == [Seen(1, Some(capsule.hash))] && a.capsule == capsule
    requires Faces(card, challenge, [b]) == [Seen(2, Some(capsule.hash))] && b.capsule == capsule
    requires Faces(card, challenge, [c]) == [Seen(3, Some(capsule.hash))] && c.capsule == capsule
    ensures Three(card, challenge, es, capsule.hash)
    ensures forall e :: e in es ==> e.capsule == capsule
  {
    es := [a] + [b] + [c];
    FacesJoin(card, challenge, [a], [b]);
    FacesJoin(card, challenge, [a] + [b], [c]);
  }

  /** A list that begins with the three and in which only this capsule is authentic. */
  lemma ThreeAreChosen(fs: seq<Face>, hash: CapsuleHash)
    requires ThreeFaces(hash) <= fs && forall w, g :: Shown(fs, w, g) ==> g == hash
    ensures Chosen(fs, 3, hash)
  {
    assert First(fs, 0) && First(fs, 1) && First(fs, 2);
    assert fs[0] == Seen(1, Some(hash)) && fs[1] == Seen(2, Some(hash)) && fs[2] == Seen(3, Some(hash));
    assert 1 in Counted(fs) && 2 in Counted(fs) && 3 in Counted(fs);
    SubsetSize({1, 2, 3}, Counted(fs));
    assert Counts(fs, 1, hash);
    forall w, g | Counts(fs, w, g)
      ensures g == hash
    {
      assert Shown(fs, w, g);
    }
  }

  lemma ThreeSelect(card: RecoveryCard, challenge: ReadChallenge, es: seq<ReadEnvelope>, hash: CapsuleHash)
    requires Three(card, challenge, es, hash)
    ensures Selects(card, challenge, es, hash)
  {
    ThreeAreChosen(ThreeFaces(hash), hash);
    SelectsIsChosen(card, challenge, es, hash);
  }

  // ---- One forged envelope -------------------------------------------------------

  lemma ForgedInFront(hash: CapsuleHash, g: CapsuleHash)
    ensures !Chosen([Seen(1, None)] + ThreeFaces(hash), 3, g)
  {
    var fs := [Seen(1, None)] + ThreeFaces(hash);
    forall w | w in Counted(fs)
      ensures w in {2, 3}
    {
      var i: nat :| i < |fs| && First(fs, i) && fs[i].view.Some? && fs[i].speaker == w;
      assert fs[0] == Seen(1, None);
      assert i != 1;
    }
    SubsetSize(Counted(fs), {2, 3});
  }

  lemma ForgedBehind(card: RecoveryCard, challenge: ReadChallenge, es: seq<ReadEnvelope>, forged: ReadEnvelope, hash: CapsuleHash)
    requires Three(card, challenge, es, hash) && Faces(card, challenge, [forged]) == [Seen(1, None)]
    ensures Selects(card, challenge, es + [forged], hash)
  {
    FacesJoin(card, challenge, es, [forged]);
    ThreeAreChosen(ThreeFaces(hash) + [Seen(1, None)], hash);
    SelectsIsChosen(card, challenge, es + [forged], hash);
  }

  lemma Rotated<T>(s: seq<T>, x: T)
    ensures Permutes(s + [x], [x] + s)
  {
  }

  lemma NoneSelected(card: RecoveryCard, challenge: ReadChallenge, es: seq<ReadEnvelope>, forged: ReadEnvelope, hash: CapsuleHash)
    requires Three(card, challenge, es, hash) && Faces(card, challenge, [forged]) == [Seen(1, None)]
    ensures forall g :: !Selects(card, challenge, [forged] + es, g)
  {
    FacesJoin(card, challenge, [forged], es);
    forall g
      ensures !Selects(card, challenge, [forged] + es, g)
    {
      ForgedInFront(hash, g);
      SelectsIsChosen(card, challenge, [forged] + es, g);
    }
  }

  /** Three genuine answers and one forged in a witness's name: behind them it does no harm,
      in front of them nothing can be selected. */
  lemma OneForgeryDecides(card: RecoveryCard, challenge: ReadChallenge, es: seq<ReadEnvelope>, forged: ReadEnvelope, hash: CapsuleHash)
    requires Three(card, challenge, es, hash) && Faces(card, challenge, [forged]) == [Seen(1, None)]
    ensures Selects(card, challenge, es + [forged], hash)
    ensures forall g :: !Selects(card, challenge, [forged] + es, g)
    ensures !OutcomeIsOrderFree(card, challenge, es + [forged])
  {
    ForgedBehind(card, challenge, es, forged, hash);
    NoneSelected(card, challenge, es, forged, hash);
    Rotated(es, forged);
    TwoOutcomes(card, challenge, es + [forged], [forged] + es, hash);
  }

  // ---- A clash that decides nothing ----------------------------------------------

  /** With a fourth witness that answers genuinely the same forged envelope is a clash still,
      but every order is sure to select the capsule. */
  lemma ClashNeedNotDecide(card: RecoveryCard, challenge: ReadChallenge, es: seq<ReadEnvelope>, fourth: ReadEnvelope,
                           forged: ReadEnvelope, hash: CapsuleHash)
    requires Three(card, challenge, es, hash) && Faces(card, challenge, [forged]) == [Seen(1, None)]
    requires Faces(card, challenge, [fourth]) == [Seen(4, Some(hash))]
    ensures !NoClash(card, challenge, es + [fourth] + [forged])
    ensures Sure(card, challenge, es + [fourth] + [forged], hash)
  {
    var all := es + [fourth] + [forged];
    FacesJoin(card, challenge, es, [fourth]);
    FacesJoin(card, challenge, es + [fourth], [forged]);
    FourIsSure(Faces(card, challenge, all), hash);
    ClashOfFirst(card, challenge, all, 4, hash);
  }

  lemma ClashOfFirst(card: RecoveryCard, challenge: ReadChallenge, es: seq<ReadEnvelope>, k: nat, hash: CapsuleHash)
    requires 0 < k < |es| && Faces(card, challenge, es)[0] == Seen(1, Some(hash)) && Faces(card, challenge, es)[k] == Seen(1, None)
    ensures !NoClash(card, challenge, es)
  {
    assert es[0] in es && es[k] in es;
  }

  lemma FourIsSure(fs: seq<Face>, hash: CapsuleHash)
    requires fs == ThreeFaces(hash) + [Seen(4, Some(hash))] + [Seen(1, None)]
    ensures AlwaysChosen(fs, 3, hash)
  {
    assert fs[1] == Seen(2, Some(hash)) && fs[2] == Seen(3, Some(hash)) && fs[3] == Seen(4, Some(hash));
    assert 2 in Speakers(fs) && 3 in Speakers(fs) && 4 in Speakers(fs);
    SubsetSize({2, 3, 4}, Steady(fs));
    assert SteadyFor(fs, 2, hash);
  }

  lemma OneClashDecidesOneDoesNot(card: RecoveryCard, challenge: ReadChallenge, es: seq<ReadEnvelope>, fourth: ReadEnvelope,
                                  forged: ReadEnvelope, hash: CapsuleHash)
    requires Three(card, challenge, es, hash) && Faces(card, challenge, [forged]) == [Seen(1, None)]
    requires Faces(card, challenge, [fourth]) == [Seen(4, Some(hash))]
    ensures !NoClash(card, challenge, es + [forged]) && !OutcomeIsOrderFree(card, challenge, es + [forged])
    ensures !NoClash(card, challenge, es + [fourth] + [forged]) && OutcomeIsOrderFree(card, challenge, es + [fourth] + [forged])
  {
    OneForgeryDecides(card, challenge, es, forged, hash);
    ClashNeedNotDecide(card, challenge, es, fourth, forged, hash);
    SureIsOrderFree(card, challenge, es + [fourth] + [forged], hash);
    FacesJoin(card, challenge, es, [forged]);
    ClashOfFirst(card, challenge, es + [forged], 3, hash);
  }

  /** Both kinds of read exist for one card. */
  lemma BothExist() returns (card: RecoveryCard, challenge: ReadChallenge, es: seq<ReadEnvelope>, fourth: ReadEnvelope, forged: ReadEnvelope)
    ensures !NoClash(card, challenge, es + [forged]) && !OutcomeIsOrderFree(card, challenge, es + [forged])
    ensures !NoClash(card, challenge, es + [fourth] + [forged]) && OutcomeIsOrderFree(card, challenge, es + [fourth] + [forged])
  {
    var c, genesis := SampleCluster({1, 2, 3}), SampleGenesis();
    GenesisIsActivated();
    SampleIsPinned();
    card, challenge := SampleCard(), SampleChallenge(1);
    es := ThreeAnswers(card, challenge, genesis, 1);
    fourth, forged := Answer(c, 4, genesis, 1), Forged(Answer(c, 1, genesis, 1), OWNER);
    AnswerIsAuthentic(c, 4, genesis, 1);
    ForgedIsNot(c, 1, genesis, 1, OWNER);
    OneClashDecidesOneDoesNot(card, challenge, es, fourth, forged, genesis.hash);
  }
}
