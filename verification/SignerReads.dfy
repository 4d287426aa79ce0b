/** When a signer's view of the current epoch can fall: it judges each Intent by the read
    that comes with it, and neither the read's nonce nor the epoch seen before stops an old
    one. */
module SignerReads {
  import opened Foundations
  import opened EpochTypes
  import opened EpochSelection
  import opened SignerLocks
  import opened SignerHistory
  import SelectionOutcome
  import SignersAndWitnesses
  import WitnessEntry
  import WitnessNetwork
  import ReadFreshness
  import opened SampleReads
  import WitnessForks

  /** The Intent is approved here, and nothing will ever replace it. */
  ghost predicate Approved(s: SignerState, intent: RotationIntent) {
    var r := intent.context.rotationId;
    && r in s.intentVotes && s.intentVotes[r] == Of(intent)
    && r in s.intents && s.intents[r] == intent
  }

  lemma NextKeepsApproved(s: SignerState, q: SignerRequest, now: U64, intent: RotationIntent)
    requires Approved(s, intent)
    ensures Approved(Next(s, q, now), intent)
  {
  }

  /** Step `i` approved an Intent for the epoch `selected` was read at. */
  ghost predicate Approves(start: SignerState, steps: seq<SignerStep>, i: nat, intent: RotationIntent, selected: Capsule)
    requires i < |steps|
  {
    && Served(start, steps, i)
    && steps[i].request.IntentRequest?
    && steps[i].request.intent == intent && steps[i].request.selected == Some(selected)
  }

  lemma ApprovingStep(s: SignerState, q: SignerRequest, now: U64)
    requires Admitted(s, q, now) && q.IntentRequest?
    ensures q.selected.Some? && Approved(Next(s, q, now), q.intent) && Next(s, q, now).activeCapsule == q.selected.value
  {
  }

  lemma {:induction false} ApprovedStays(start: SignerState, steps: seq<SignerStep>, i: nat, j: nat, intent: RotationIntent, selected: Capsule)
    requires i < j <= |steps| && Approves(start, steps, i, intent, selected)
    ensures Approved(Before(start, steps, j), intent)
    decreases j
  {
    BeforeSucc(start, steps, j - 1);
    if j == i + 1 {
      ApprovingStep(Before(start, steps, i), steps[i].request, steps[i].now);
    } else {
      ApprovedStays(start, steps, i, j - 1, intent, selected);
      NextKeepsApproved(Before(start, steps, j - 1), steps[j - 1].request, steps[j - 1].now, intent);
    }
  }

  lemma RepeatIsAdmitted(s: SignerState, t: SignerState, q: SignerRequest, earlier: U64, now: U64)
    requires Admitted(s, q, earlier) && q.IntentRequest? && Approved(t, q.intent) && Fresh(t, q.intent.context, now)
    ensures Admitted(t, q, now)
  {
  }

  /** One step lowers the epoch exactly when it approves an Intent for an older one: no other
      request touches it, and nothing the signer remembers stops this one. */
  lemma EpochFallsIff(s: SignerState, q: SignerRequest, now: U64)
    ensures Next(s, q, now).activeCapsule.Epoch() < s.activeCapsule.Epoch() <==>
              q.IntentRequest? && Admitted(s, q, now) && q.selected.value.Epoch() < s.activeCapsule.Epoch()
  {
    if q.IntentRequest? && Admitted(s, q, now) {
      ApprovingStep(s, q, now);
    }
  }

  /** The epoch a signer has on record for its configuration is that of the capsule it
      follows: the latest, not the highest it was ever shown. */
  ghost predicate ObservesFollowed(s: SignerState) {
    && s.activeCapsule.body.configRef.configId == s.card.configId
    && s.card.configId in s.highestObserved
    && s.highestObserved[s.card.configId] == s.activeCapsule.Epoch()
  }

  lemma NextObservesFollowed(s: SignerState, q: SignerRequest, now: U64)
    ensures ObservesFollowed(s) ==> ObservesFollowed(Next(s, q, now))
    ensures q.IntentRequest? && Admitted(s, q, now) ==> ObservesFollowed(Next(s, q, now))
  {
  }

  /** It is so from the first approved Intent on. */
  lemma {:induction false} RunObservesFollowed(start: SignerState, steps: seq<SignerStep>, i: nat, j: nat,
                                               intent: RotationIntent, selected: Capsule)
    requires i < j <= |steps| && Approves(start, steps, i, intent, selected)
    ensures ObservesFollowed(Before(start, steps, j))
    decreases j
  {
    BeforeSucc(start, steps, j - 1);
    NextObservesFollowed(Before(start, steps, j - 1), steps[j - 1].request, steps[j - 1].now);
    if j > i + 1 {
      RunObservesFollowed(start, steps, i, j - 1, intent, selected);
    }
  }

  /** An Intent that was approved once is approved again whenever its context is in date,
      with the same old read, and puts the signer back on the capsule of that read,
      whatever it followed in between. */
  lemma RepeatedIntentReturns(start: SignerState, steps: seq<SignerStep>, i: nat, j: nat, intent: RotationIntent, selected: Capsule)
    requires i < j < |steps| && Approves(start, steps, i, intent, selected)
    requires steps[j].request == steps[i].request
    requires Fresh(Before(start, steps, j), intent.context, steps[j].now)
    ensures Approves(start, steps, j, intent, selected)
    ensures Before(start, steps, j + 1).activeCapsule == selected
  {
    var s, t, q := Before(start, steps, i), Before(start, steps, j), steps[i].request;
    ApprovedStays(start, steps, i, j, intent, selected);
    RepeatIsAdmitted(s, t, q, steps[i].now, steps[j].now);
    BeforeSucc(start, steps, j);
    ApprovingStep(t, q, steps[j].now);
  }

  /** So a repeat straight after an Intent for a later epoch lowers the epoch. */
  lemma LaterIntentThenRepeatFalls(start: SignerState, steps: seq<SignerStep>, i: nat, j: nat, intent: RotationIntent, selected: Capsule,
                                   intent': RotationIntent, selected': Capsule)
    requires i < j && j + 1 < |steps| && Approves(start, steps, i, intent, selected)
    requires Approves(start, steps, j, intent', selected') && selected.Epoch() < selected'.Epoch()
    requires steps[j + 1].request == steps[i].request
    requires Fresh(Before(start, steps, j + 1), intent.context, steps[j + 1].now)
    ensures Before(start, steps, j + 2).activeCapsule.Epoch() < Before(start, steps, j + 1).activeCapsule.Epoch()
  {
    BeforeSucc(start, steps, j);
    ApprovingStep(Before(start, steps, j), steps[j].request, steps[j].now);
    RepeatedIntentReturns(start, steps, i, j + 1, intent, selected);
  }

  /** What does keep it from falling is a read that is really fresh: when `f + 1` correct
      witnesses have finalised the signer's epoch and none of them has answered the nonce
      before, no request lowers the epoch. */
  lemma FreshReadKeepsEpoch(c: WitnessNetwork.Cluster, deliveries: seq<WitnessNetwork.Delivery>,
                            more: seq<WitnessNetwork.Delivery>, finalisers: set<nat>, s: SignerState,
                            challenge: ReadChallenge, es: seq<WitnessEntry.ReadEnvelope>, t: nat,
                            intent: RotationIntent, readHash: Option<Id32>, now: U64)
    requires WitnessNetwork.WellFormed(c) && ReadFreshness.CardOf(s.card, c) && WitnessNetwork.Feasible(c, deliveries + more)
    requires finalisers <= c.correct && |finalisers| >= c.faultBound + 1
    requires ReadFreshness.FinalisedBy(WitnessNetwork.Run(c, deliveries), finalisers, s.activeCapsule.Epoch())
    requires ReadFreshness.Unanswered(WitnessNetwork.Run(c, deliveries).history, finalisers, challenge.clientNonce)
    requires ReadFreshness.Genuine(c, WitnessNetwork.Run(c, deliveries + more).history, es)
    requires Decidable(s.card, challenge, es) && Top(es, AcceptedIndices(s.card, challenge, es), t)
    ensures Next(s, IntentRequest(intent, Some(es[t].capsule), readHash), now).activeCapsule.Epoch() >= s.activeCapsule.Epoch()
  {
    ReadFreshness.NoRollbackOnRead(c, s.card, deliveries, more, finalisers, s.activeCapsule.Epoch(), challenge, es, t);
  }

  // ---- Such a run exists ---------------------------------------------------------

  /** An Intent out of this capsule. */
  function IntentFrom(active: Capsule, rotationId: Id32): RotationIntent {
    RotationIntent(
      RotationContext(PROTOCOL_VERSION_V3, active.body.configRef, rotationId, active.hash,
                      seq(XWING_PUBLIC_KEY_LEN, i => 0), rotationId, 0, 1000),
      0, active.body.guardianCount, active.body.guardianThreshold, [3], [2], [1], Raw(0), 0)
  }

  function IntentStep(active: Capsule, rotationId: Id32, now: U64): SignerStep {
    SignerStep(IntentRequest(IntentFrom(active, rotationId), Some(active), Some(0)), now)
  }

  lemma IntentIsAdmitted(s: SignerState, active: Capsule, rotationId: Id32, now: U64)
    requires active.body.configRef.configId == s.card.configId && now < 1000
    requires rotationId !in s.intents && rotationId !in s.intentVotes
    ensures Admitted(s, IntentStep(active, rotationId, now).request, now)
  {
  }

  lemma IntentIsApproved(start: SignerState, steps: seq<SignerStep>, i: nat, active: Capsule, rotationId: Id32, now: U64)
    requires i < |steps| && steps[i] == IntentStep(active, rotationId, now) && now < 1000
    requires active.body.configRef.configId == start.card.configId
    requires var s := Before(start, steps, i); rotationId !in s.intents && rotationId !in s.intentVotes
    ensures Approves(start, steps, i, IntentFrom(active, rotationId), active)
    ensures Before(start, steps, i + 1) == IntentNext(Before(start, steps, i), IntentFrom(active, rotationId), active)
  {
    SignersAndWitnesses.RunKeepsCard(start, steps[..i]);
    IntentIsAdmitted(Before(start, steps, i), active, rotationId, now);
    BeforeSucc(start, steps, i);
  }

  /** Two Intents for two capsules and the first of them again: any signer that has not
      voted on either rotation ends where the first one took it. */
  lemma ThreeIntents(start: SignerState, first: Capsule, second: Capsule, r: Id32, r': Id32) returns (steps: seq<SignerStep>)
    requires first.body.configRef.configId == start.card.configId == second.body.configRef.configId && r != r'
    requires forall k :: k in {r, r'} ==> k !in start.intents && k !in start.intentVotes
    ensures |steps| == 3 && steps[2].request == steps[0].request
    ensures Approves(start, steps, 0, IntentFrom(first, r), first)
    ensures Approves(start, steps, 1, IntentFrom(second, r'), second)
    ensures Approves(start, steps, 2, IntentFrom(first, r), first)
    ensures Before(start, steps, 2).activeCapsule == second && Before(start, steps, 3).activeCapsule == first
  {
    steps := [IntentStep(first, r, 5), IntentStep(second, r', 6), IntentStep(first, r, 7)];
    IntentIsApproved(start, steps, 0, first, r, 5);
    IntentIsApproved(start, steps, 1, second, r', 6);
    SignersAndWitnesses.RunKeepsCard(start, steps[..2]);
    RepeatedIntentReturns(start, steps, 0, 2, IntentFrom(first, r), first);
  }

  lemma SampleReadSelects(card: RecoveryCard, challenge: ReadChallenge, capsule: Capsule, nonce: Id32)
    returns (es: seq<WitnessEntry.ReadEnvelope>)
    requires card == SampleCard() && challenge == SampleChallenge(nonce) && ActivatedCapsule(card, capsule)
    ensures ReadSelects(card, challenge, es, capsule)
  {
    es := ThreeAnswers(card, challenge, capsule, nonce);
    ThreeSelect(card, challenge, es, capsule.hash);
    OneOfThem(card, challenge, es, capsule);
  }

  lemma OneOfThem(card: RecoveryCard, challenge: ReadChallenge, es: seq<WitnessEntry.ReadEnvelope>, capsule: Capsule)
    requires SelectionOutcome.Selects(card, challenge, es, capsule.hash) && forall e :: e in es ==> e.capsule == capsule
    ensures ReadSelects(card, challenge, es, capsule)
  {
    var t: nat :| Top(es, AcceptedIndices(card, challenge, es), t) && es[t].capsule.hash == capsule.hash;
    assert es[t] in es;
  }

  /** What a signer is shown with an Intent. */
  datatype Read = Read(challenge: ReadChallenge, envelopes: seq<WitnessEntry.ReadEnvelope>)

  ghost predicate Shows(card: RecoveryCard, read: Read, selected: Capsule) {
    ReadSelects(card, read.challenge, read.envelopes, selected)
  }

  /** Reads of two successive epochs of one configuration. */
  ghost predicate Successive(card: RecoveryCard, earlier: Read, first: Capsule, later: Read, second: Capsule) {
    && Shows(card, earlier, first) && Shows(card, later, second)
    && earlier.challenge.clientNonce != later.challenge.clientNonce
    && first.body.configRef.configId == card.configId == second.body.configRef.configId
    && second.body.predecessorHash == first.hash
    && first.Epoch() == 1 && second.Epoch() == 2
  }

  lemma TwoReads() returns (earlier: Read, first: Capsule, later: Read, second: Capsule)
    ensures Successive(SampleCard(), earlier, first, later, second)
  {
    GenesisIsActivated();
    SampleIsActivated(12);
    first, second := WitnessForks.SampleGenesis(), SampleCertified(12);
    var es := SampleReadSelects(SampleCard(), SampleChallenge(1), first, 1);
    var es' := SampleReadSelects(SampleCard(), SampleChallenge(2), second, 2);
    earlier, later := Read(SampleChallenge(1), es), Read(SampleChallenge(2), es');
  }

  lemma SuccessiveRollBack(start: SignerState, earlier: Read, first: Capsule, later: Read, second: Capsule, r: Id32, r': Id32)
    returns (steps: seq<SignerStep>)
    requires Successive(start.card, earlier, first, later, second) && r != r'
    requires forall k :: k in {r, r'} ==> k !in start.intents && k !in start.intentVotes
    ensures |steps| == 3 && steps[2].request == steps[0].request
    ensures Approves(start, steps, 0, IntentFrom(first, r), first)
    ensures Approves(start, steps, 1, IntentFrom(second, r'), second)
    ensures Approves(start, steps, 2, IntentFrom(first, r), first)
    ensures Before(start, steps, 2).activeCapsule.Epoch() == 2 && Before(start, steps, 3).activeCapsule.Epoch() == 1
  {
    steps := ThreeIntents(start, first, second, r, r');
  }

  /** Every signer with the sample card can be taken from epoch 2 back to epoch 1: by an
      Intent on a read of the genesis capsule, one on a read of a certified second epoch, and
      the first again. */
  lemma OldIntentRollsBack(start: SignerState, r: Id32, r': Id32)
    returns (steps: seq<SignerStep>, earlier: Read, first: Capsule, later: Read, second: Capsule)
    requires start.card == SampleCard() && r != r'
    requires forall k :: k in {r, r'} ==> k !in start.intents && k !in start.intentVotes
    ensures Successive(start.card, earlier, first, later, second)
    ensures |steps| == 3 && steps[2].request == steps[0].request
    ensures Approves(start, steps, 0, IntentFrom(first, r), first)
    ensures Approves(start, steps, 1, IntentFrom(second, r'), second)
    ensures Approves(start, steps, 2, IntentFrom(first, r), first)
    ensures Before(start, steps, 2).activeCapsule.Epoch() == 2 && Before(start, steps, 3).activeCapsule.Epoch() == 1
  {
    earlier, first, later, second := TwoReads();
    steps := SuccessiveRollBack(start, earlier, first, later, second, r, r');
  }
}
