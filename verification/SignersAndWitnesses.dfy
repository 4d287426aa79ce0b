/** Across the two layers: what a signer's change of vote says about the witnesses. */
module SignersAndWitnesses {
  import opened Foundations
  import opened EpochTypes
  import opened EpochSelection
  import WitnessNetwork
  import WitnessTheorems
  import ReadFreshness
  import opened SignerLocks
  import opened SignerHistory

  /** A verifying veto ack under a correct witness's key was signed by it. */
  ghost predicate VetoesBacked(c: WitnessNetwork.Cluster, h: seq<WitnessNetwork.Event>, acks: seq<CancelAck>) {
    forall i :: 0 <= i < |acks| && acks[i].body.witnessId in c.correct && acks[i].body.witnessId in c.keys
                && Verify(c.keys[acks[i].body.witnessId], CancelAckMessage(acks[i].body), acks[i].signature) ==>
      WitnessNetwork.Vetoed(acks[i].body.witnessId, acks[i]) in h
  }

  ghost predicate HasVetoed(h: seq<WitnessNetwork.Event>, w: nat, rotationId: Id32) {
    exists k :: 0 <= k < |h| && h[k].Vetoed? && h[k].actor == w && h[k].veto.body.rotationId == rotationId
  }

  ghost function CorrectVetoers(c: WitnessNetwork.Cluster, h: seq<WitnessNetwork.Event>, rotationId: Id32): set<nat> {
    set w | w in c.correct && HasVetoed(h, w, rotationId)
  }

  /** A veto quorum a signer accepts was recorded by `f + 1` correct witnesses. */
  lemma AcceptedVetoReachedWitnesses(c: WitnessNetwork.Cluster, h: seq<WitnessNetwork.Event>, card: RecoveryCard,
                                     plan: RotationPlan, capsule: Capsule, cancel: OwnerCancelCertificate,
                                     acks: seq<CancelAck>, now: U64)
    requires WitnessNetwork.WellFormed(c) && ReadFreshness.CardOf(card, c)
    requires VetoQuorum(card, plan, capsule, cancel, acks, now) && VetoesBacked(c, h, acks)
    ensures |CorrectVetoers(c, h, plan.context.rotationId)| >= c.faultBound + 1
  {
    var ids := VetoerIds(acks);
    forall w | w in ids * c.correct
      ensures w in CorrectVetoers(c, h, plan.context.rotationId)
    {
      var i :| 0 <= i < |acks| && acks[i].body.witnessId == w;
      assert IsVeto(c.keys, card, plan, cancel, acks[i]);
      assert WitnessNetwork.Vetoed(w, acks[i]) in h;
      var k :| 0 <= k < |h| && h[k] == WitnessNetwork.Vetoed(w, acks[i]);
      assert HasVetoed(h, w, plan.context.rotationId);
    }
    SubsetSize(ids * c.correct, CorrectVetoers(c, h, plan.context.rotationId));
    forall w | w in ids - c.correct
      ensures w in c.keys.Keys - c.correct
    {
      var i :| 0 <= i < |acks| && acks[i].body.witnessId == w;
      assert IsVeto(c.keys, card, plan, cancel, acks[i]);
    }
    SubsetSize(ids - c.correct, c.keys.Keys - c.correct);
    assert ids == (ids * c.correct) + (ids - c.correct);
  }

  lemma NextKeepsCard(s: SignerState, q: SignerRequest, now: U64)
    ensures Next(s, q, now).card == s.card
  {
  }

  lemma {:induction false} RunKeepsCard(start: SignerState, steps: seq<SignerStep>)
    ensures After(start, steps).card == start.card
  {
    if steps != [] {
      RunKeepsCard(start, steps[..|steps| - 1]);
      NextKeepsCard(After(start, steps[..|steps| - 1]), steps[|steps| - 1].request, steps[|steps| - 1].now);
    }
  }

  /** Every owner-cancel finalisation this signer was shown carries genuine witness acks. */
  ghost predicate ShownGenuineVetoes(c: WitnessNetwork.Cluster, h: seq<WitnessNetwork.Event>, steps: seq<SignerStep>) {
    forall k: nat :: k < |steps| && steps[k].request.FinalizeOwnerCancelRequest? ==> VetoesBacked(c, h, steps[k].request.acks)
  }

  /** When a signer casts Activate votes for two children of one predecessor, `f + 1` correct
      witnesses have recorded the owner's veto of the first rotation. */
  lemma RevoteLeavesVetoes(c: WitnessNetwork.Cluster, h: seq<WitnessNetwork.Event>, start: SignerState, steps: seq<SignerStep>,
                           i: nat, j: nat, v: ActivateVoteBody, w: ActivateVoteBody)
    requires WitnessNetwork.WellFormed(c) && ReadFreshness.CardOf(start.card, c) && ShownGenuineVetoes(c, h, steps)
    requires ValidSigner(start) && i < j < |steps|
    requires VotesActivate(start, steps, i, v) && VotesActivate(start, steps, j, w)
    requires v.context.predecessorHash == w.context.predecessorHash && v != w
    ensures |CorrectVetoers(c, h, v.context.rotationId)| >= c.faultBound + 1
  {
    SecondActivateNeedsVeto(start, steps, i, j, v, w);
    var k: nat :| i < k < j && AcceptsVeto(start, steps, k, v.planHash);
    var q, s := steps[k].request, Before(start, steps, k);
    RunKeepsCard(start, steps[..k]);
    VotedPlan(start, steps, i, v);
    AcceptedVetoReachedWitnesses(c, h, s.card, q.plan, s.activeCapsule, q.cancel, q.acks, steps[k].now);
  }

  lemma VotedPlan(start: SignerState, steps: seq<SignerStep>, i: nat, v: ActivateVoteBody)
    requires i < |steps| && VotesActivate(start, steps, i, v)
    ensures v.planHash.Of? && v.planHash.preimage.context == v.context
  {
    AdmittedIsGrounded(Before(start, steps, i), steps[i].request, steps[i].now);
  }

  /** And then any activation quorum for the first rotation, now or in any continuation of
      the witnesses' run, rests on an ack that its witness issued before vetoing it. */
  lemma FirstQuorumRestsOnRetractedAck(c: WitnessNetwork.Cluster, deliveries: seq<WitnessNetwork.Delivery>,
                                       more: seq<WitnessNetwork.Delivery>, rotationId: Id32, qc: ActivationQc)
      returns (w: nat, a: nat, k: nat)
    requires WitnessNetwork.WellFormed(c) && WitnessNetwork.Feasible(c, deliveries + more)
    requires |CorrectVetoers(c, WitnessNetwork.Run(c, deliveries).history, rotationId)| >= c.faultBound + 1
    requires qc.rotationId == rotationId
    requires WitnessTheorems.Assembled(c, WitnessNetwork.Run(c, deliveries + more).history, qc)
    ensures var h := WitnessNetwork.Run(c, deliveries + more).history;
            && w in c.correct && a < k < |h|
            && h[a].Acked? && h[a].actor == w && AckBindsQc(qc, h[a].ack.body)
            && h[k].Vetoed? && h[k].actor == w && h[k].veto.body.rotationId == rotationId
  {
    WitnessTheorems.HistoryGrows(c, deliveries, more);
    WitnessNetwork.RunsAreConsistent(c, deliveries + more);
    w, a, k := RetractedAck(c, WitnessNetwork.Run(c, deliveries).history, WitnessNetwork.Run(c, deliveries + more), rotationId, qc);
  }

  lemma RetractedAck(c: WitnessNetwork.Cluster, g: seq<WitnessNetwork.Event>, n: WitnessNetwork.Net, rotationId: Id32, qc: ActivationQc)
      returns (w: nat, a: nat, k: nat)
    requires WitnessNetwork.WellFormed(c) && g <= n.history && WitnessNetwork.VetoesHold(n)
    requires |CorrectVetoers(c, g, rotationId)| >= c.faultBound + 1
    requires qc.rotationId == rotationId && WitnessTheorems.Assembled(c, n.history, qc)
    ensures w in c.correct && a < k < |n.history|
    ensures n.history[a].Acked? && n.history[a].actor == w && AckBindsQc(qc, n.history[a].ack.body)
    ensures n.history[k].Vetoed? && n.history[k].actor == w && n.history[k].veto.body.rotationId == rotationId
  {
    WitnessTheorems.SignersArePinned(c, qc);
    w := SharedCorrectMember(WitnessIds(qc.acks), CorrectVetoers(c, g, rotationId), c.keys.Keys, {});
    a := WitnessTheorems.SignerAcked(c, n.history, qc, w);
    k :| 0 <= k < |g| && g[k].Vetoed? && g[k].actor == w && g[k].veto.body.rotationId == rotationId;
    assert n.history[k] == g[k];
    assert a != k;
  }
}
