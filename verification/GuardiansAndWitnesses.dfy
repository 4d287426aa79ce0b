/** Across the two layers: what the witnesses' run means for the capsules that readers
    believe and guardians follow. */
module GuardiansAndWitnesses {
  import opened Foundations
  import opened EpochTypes
  import opened EpochSelection
  import opened RotationPlans
  import opened GuardianEpochs
  import opened GuardianEntry
  import opened GuardianRuns
  import opened GuardianTheorems
  import opened GuardianRotations
  import WitnessNetwork
  import WitnessTheorems
  import opened WitnessAgreement
  import ReadFreshness

  type Cluster = WitnessNetwork.Cluster
  type History = seq<WitnessNetwork.Event>

  // ---- One activated child -------------------------------------------------------

  /** The capsule's quorum certificate is no forgery. */
  ghost predicate Genuine(c: Cluster, h: History, capsule: Capsule) {
    capsule.activationQc.Some? ==> WitnessNetwork.Backed(c, h, capsule.activationQc.value)
  }

  lemma ActivatedIsCertified(c: Cluster, h: History, card: RecoveryCard, capsule: Capsule)
    requires ReadFreshness.CardOf(card, c) && ActivatedCapsule(card, capsule) && capsule.activationQc.Some?
    requires Genuine(c, h, capsule)
    ensures Certifies(c, h, capsule.hash, capsule.body.predecessorHash)
  {
    assert WitnessTheorems.Assembled(c, h, capsule.activationQc.value);
  }

  /** Two capsules that readers of any card for this cluster believe, out of the same
      predecessor, are the same capsule. */
  lemma OneActivatedChild(c: Cluster, steps: seq<WitnessNetwork.Delivery>, card: RecoveryCard, card': RecoveryCard,
                          x: Capsule, y: Capsule)
    requires WitnessNetwork.WellFormed(c) && WitnessNetwork.Feasible(c, steps)
    requires FewRetract(c, WitnessNetwork.Run(c, steps).history)
    requires ReadFreshness.CardOf(card, c) && ReadFreshness.CardOf(card', c)
    requires ActivatedCapsule(card, x) && ActivatedCapsule(card', y) && x.activationQc.Some? && y.activationQc.Some?
    requires Genuine(c, WitnessNetwork.Run(c, steps).history, x) && Genuine(c, WitnessNetwork.Run(c, steps).history, y)
    requires x.body.predecessorHash == y.body.predecessorHash
    ensures x.hash == y.hash && x.body == y.body
  {
    var h := WitnessNetwork.Run(c, steps).history;
    FewRetractUnique(c, steps);
    ActivatedIsCertified(c, h, card, x);
    ActivatedIsCertified(c, h, card', y);
  }

  // ---- What a guardian follows ---------------------------------------------------

  /** The guardian was shown genuine certificates only. */
  ghost predicate ShownGenuine(c: Cluster, h: History, run: Run) {
    forall i :: 0 <= i < |run.steps| && run.steps[i].request.ActivateRotation? ==> Genuine(c, h, run.steps[i].request.capsule)
  }

  /** Each step of the way from `root` counts one epoch. */
  ghost predicate Counted(root: CapsuleHash, hash: CapsuleHash)
    decreases hash
  {
    hash == root
    || (&& hash.BodyHash?
        && EpochOf(hash) == SatAdd(EpochOf(hash.body.predecessorHash), 1)
        && Counted(root, hash.body.predecessorHash))
  }

  /** A step either leaves the followed capsule, or follows a genuine certified child of it. */
  ghost predicate FollowsOn(s: GuardianState, t: GuardianState, q: Request) {
    && t.card == s.card
    && (t.predecessor == s.predecessor
        || (&& q.ActivateRotation? && t.predecessor == q.capsule
            && ActivatedCapsule(s.card, q.capsule) && q.capsule.activationQc.Some?
            && q.capsule.hash == BodyHash(q.capsule.body)
            && q.capsule.body.predecessorHash == s.predecessor.hash
            && s.predecessor.hash == BodyHash(s.predecessor.body)
            && q.capsule.Epoch() == SatAdd(s.predecessor.Epoch(), 1)))
  }

  lemma ActivationFollowsOn(s: GuardianState, q: Request)
    requires ValidGuardian(s) && q.ActivateRotation? && ActivationReaches(s, q.plan, q.capsule)
    ensures FollowsOn(s, ActivationNext(s, q.plan, q.capsule, q.deadline), q)
  {
    ActivationFacts(s, q.plan, q.capsule);
    if Replaced(s) {
      ReplacedRefusesChange(s, q.plan, q.capsule, q.deadline);
    }
  }

  lemma NextFollowsOn(s: GuardianState, q: Request, c: Clock)
    requires ValidGuardian(s)
    ensures FollowsOn(s, Next(s, q, c), q)
  {
    if q.ActivateRotation? && q.IsFresh(s, c.wall) && ActivationReaches(s, q.plan, q.capsule) {
      ActivationFollowsOn(s, q);
    }
  }

  lemma LineOn(c: Cluster, h: History, root: CapsuleHash, s: GuardianState, t: GuardianState, q: Request)
    requires FollowsOn(s, t, q) && ReadFreshness.CardOf(s.card, c) && (q.ActivateRotation? ==> Genuine(c, h, q.capsule))
    requires Line(c, h, root, s.predecessor.hash) && Counted(root, s.predecessor.hash)
    ensures Line(c, h, root, t.predecessor.hash) && Counted(root, t.predecessor.hash)
  {
    if t.predecessor != s.predecessor {
      ActivatedIsCertified(c, h, s.card, q.capsule);
    }
  }

  lemma FollowsStep(run: Run, i: nat)
    requires run.Valid() && i < |run.steps|
    ensures FollowsOn(run.states[i], run.states[i + 1], run.steps[i].request)
  {
    AtSucc(run, i);
    NextFollowsOn(run.states[i], run.steps[i].request, run.steps[i].clock);
  }

  /** Whatever a guardian comes to follow descends from where it started. */
  lemma {:induction false} RunFollowsLine(c: Cluster, h: History, run: Run, i: nat)
    requires run.Valid() && i <= |run.steps| && ReadFreshness.CardOf(run.states[0].card, c) && ShownGenuine(c, h, run)
    ensures run.states[i].card == run.states[0].card
    ensures Line(c, h, run.states[0].predecessor.hash, run.states[i].predecessor.hash)
    ensures Counted(run.states[0].predecessor.hash, run.states[i].predecessor.hash)
    decreases i
  {
    if i > 0 {
      var q := run.steps[i - 1].request;
      RunFollowsLine(c, h, run, i - 1);
      FollowsStep(run, i - 1);
      LineOn(c, h, run.states[0].predecessor.hash, run.states[i - 1], run.states[i], q);
    }
  }

  // ---- Agreement -----------------------------------------------------------------

  lemma {:induction false} CountedHasRoot(root: CapsuleHash, hash: CapsuleHash)
    requires Counted(root, hash)
    ensures IsAncestor(root, hash)
    decreases hash
  {
    if hash != root {
      CountedHasRoot(root, hash.body.predecessorHash);
    }
  }

  lemma {:induction false} EpochsCount(root: CapsuleHash, a: CapsuleHash, b: CapsuleHash)
    requires Counted(root, a) && Counted(root, b) && IsAncestor(a, b)
    ensures EpochOf(a) <= EpochOf(b)
    ensures a == b || EpochOf(a) < EpochOf(b) || EpochOf(b) == U64_MAX
    decreases b
  {
    CountedHasRoot(root, a);
    WitnessTheorems.AncestorDepth(root, a);
    WitnessTheorems.AncestorDepth(a, b);
    if a != b {
      EpochsCount(root, a, b.body.predecessorHash);
    }
  }

  /** On one line an epoch number below the last names one capsule. */
  lemma EpochNamesCapsule(root: CapsuleHash, a: CapsuleHash, b: CapsuleHash)
    requires Counted(root, a) && Counted(root, b) && WitnessTheorems.Comparable(a, b)
    requires EpochOf(a) == EpochOf(b) < U64_MAX
    ensures a == b
  {
    if IsAncestor(a, b) {
      EpochsCount(root, a, b);
    } else {
      EpochsCount(root, b, a);
    }
  }

  /** If both hold ACTIVE authority for one epoch number below the last, it is for the same
      configuration under the same capsule. */
  predicate SameAuthority(s: StoreState, t: StoreState) {
    s.active.Some? && t.active.Some?
    && s.active.value.configRef.guardianEpoch == t.active.value.configRef.guardianEpoch < U64_MAX ==>
      s.active.value.configRef == t.active.value.configRef && s.activeHash == t.activeHash
  }

  /** Agreement of guardians: those that started from one capsule and were shown genuine
      certificates follow capsules on one line, and two that hold ACTIVE authority for the
      same epoch number hold it for the same configuration under the same capsule. */
  lemma GuardiansAgree(c: Cluster, steps: seq<WitnessNetwork.Delivery>, run: Run, run': Run, i: nat, j: nat)
    requires WitnessNetwork.WellFormed(c) && WitnessNetwork.Feasible(c, steps)
    requires FewRetract(c, WitnessNetwork.Run(c, steps).history)
    requires run.Valid() && run'.Valid() && i <= |run.steps| && j <= |run'.steps|
    requires ReadFreshness.CardOf(run.states[0].card, c) && ReadFreshness.CardOf(run'.states[0].card, c)
    requires run.states[0].predecessor.hash == run'.states[0].predecessor.hash
    requires ShownGenuine(c, WitnessNetwork.Run(c, steps).history, run)
    requires ShownGenuine(c, WitnessNetwork.Run(c, steps).history, run')
    ensures WitnessTheorems.Comparable(run.states[i].predecessor.hash, run'.states[j].predecessor.hash)
    ensures SameAuthority(run.states[i].desk.store, run'.states[j].desk.store)
  {
    var h := WitnessNetwork.Run(c, steps).history;
    FewRetractUnique(c, steps);
    RunFollowsLine(c, h, run, i);
    RunFollowsLine(c, h, run', j);
    LinesCompare(c, h, run.states[0].predecessor.hash, run.states[i].predecessor.hash, run'.states[j].predecessor.hash);
    StateIsValid(run, i);
    StateIsValid(run', j);
    ActiveEpochsAgree(run.states[0].predecessor.hash, run.states[i], run'.states[j]);
  }

  lemma ActiveEpochsAgree(root: CapsuleHash, s: GuardianState, t: GuardianState)
    requires ValidGuardian(s) && ValidGuardian(t)
    requires Counted(root, s.predecessor.hash) && Counted(root, t.predecessor.hash)
    requires WitnessTheorems.Comparable(s.predecessor.hash, t.predecessor.hash)
    ensures SameAuthority(s.desk.store, t.desk.store)
  {
    if s.desk.store.active.Some? && t.desk.store.active.Some? {
      ActiveStandsOnFollowed(s);
      ActiveStandsOnFollowed(t);
      if EpochOf(s.predecessor.hash) == EpochOf(t.predecessor.hash) < U64_MAX {
        EpochNamesCapsule(root, s.predecessor.hash, t.predecessor.hash);
      }
    }
  }

  lemma ActiveStandsOnFollowed(s: GuardianState)
    requires ValidGuardian(s) && s.desk.store.active.Some?
    ensures s.desk.store.activeHash == Some(s.predecessor.hash)
    ensures s.predecessor.hash == BodyHash(s.predecessor.body)
    ensures s.desk.store.active.value.configRef == s.predecessor.body.configRef
  {
  }

  /** And the same line holds the capsule any correct witness has finalised. */
  lemma GuardianAgreesWithWitness(c: Cluster, steps: seq<WitnessNetwork.Delivery>, run: Run, i: nat, w: nat)
    requires WitnessNetwork.WellFormed(c) && WitnessNetwork.Feasible(c, steps) && w in c.correct
    requires FewRetract(c, WitnessNetwork.Run(c, steps).history)
    requires run.Valid() && i <= |run.steps| && ReadFreshness.CardOf(run.states[0].card, c)
    requires run.states[0].predecessor.hash == c.genesis.hash
    requires ShownGenuine(c, WitnessNetwork.Run(c, steps).history, run)
    ensures w in WitnessNetwork.Run(c, steps).entries
    ensures WitnessTheorems.Comparable(run.states[i].predecessor.hash, WitnessNetwork.Run(c, steps).entries[w].capsule.hash)
  {
    var n := WitnessNetwork.Run(c, steps);
    FewRetractUnique(c, steps);
    WitnessNetwork.RunsAreConsistent(c, steps);
    RunFollowsLine(c, n.history, run, i);
    assert WitnessNetwork.EntrySound(c, n.history, w, n.entries[w]);
    FinalisedIsLine(c, n.history, n.entries[w].capsule.hash);
    LinesCompare(c, n.history, c.genesis.hash, run.states[i].predecessor.hash, n.entries[w].capsule.hash);
  }

  // ---- The owner's veto ----------------------------------------------------------

  /** Once `2f + 1` witnesses, as far as they are correct, vetoed a rotation before acking
      it, no guardian activates it or follows its capsule on genuine certificates, in any
      continuation of the witnesses' run. */
  lemma VetoedIsNeverActivated(c: Cluster, steps: seq<WitnessNetwork.Delivery>, more: seq<WitnessNetwork.Delivery>,
                               vetoers: set<nat>, rotationId: Id32, run: Run, i: nat)
    requires WitnessNetwork.WellFormed(c) && WitnessNetwork.Feasible(c, steps + more)
    requires vetoers <= c.keys.Keys && |vetoers| >= 2 * c.faultBound + 1
    requires forall w :: w in vetoers && w in c.correct ==>
               WitnessTheorems.VetoedFirst(WitnessNetwork.Run(c, steps).history, w, rotationId)
    requires run.Valid() && i < |run.steps| && ReadFreshness.CardOf(run.states[0].card, c)
    requires ShownGenuine(c, WitnessNetwork.Run(c, steps + more).history, run)
    ensures var m := run.moves[i];
            !(m.Stored? && (m.op.Activate? || m.op.ObserveReplacement?) && m.op.rotationId == rotationId)
    ensures run.states[i + 1].predecessor != run.states[i].predecessor ==>
              run.states[i + 1].predecessor.activationQc.Some?
              && run.states[i + 1].predecessor.activationQc.value.rotationId != rotationId
  {
    var h, q := WitnessNetwork.Run(c, steps + more).history, run.steps[i].request;
    RunFollowsLine(c, h, run, i);
    AtSucc(run, i);
    if q.ActivateRotation? && ActivationReaches(run.states[i], q.plan, q.capsule) {
      ReachingIsAssembled(c, h, run.states[i], q.plan, q.capsule);
      WitnessTheorems.OwnerVetoIsFinal(c, steps, more, vetoers, rotationId, q.capsule.activationQc.value);
    }
    ChangeIsReached(run.states[i], q, run.steps[i].clock);
  }

  lemma ReachingIsAssembled(c: Cluster, h: History, s: GuardianState, plan: RotationPlan, capsule: Capsule)
    requires ReadFreshness.CardOf(s.card, c) && ActivationReaches(s, plan, capsule) && Genuine(c, h, capsule)
    ensures capsule.activationQc.Some? && WitnessTheorems.Assembled(c, h, capsule.activationQc.value)
    ensures capsule.activationQc.value.rotationId == plan.context.rotationId
  {
  }

  lemma ChangeIsReached(s: GuardianState, q: Request, c: Clock)
    requires ValidGuardian(s)
    ensures var m := MoveOf(s, q, c);
            m.Stored? && (m.op.Activate? || m.op.ObserveReplacement?) ==>
              q.ActivateRotation? && ActivationReaches(s, q.plan, q.capsule) && m.op.rotationId == q.plan.context.rotationId
    ensures Next(s, q, c).predecessor != s.predecessor ==>
              q.ActivateRotation? && ActivationReaches(s, q.plan, q.capsule) && Next(s, q, c).predecessor == q.capsule
  {
  }
}
