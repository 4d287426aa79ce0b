/** A fresh quorum read never shows a reader an epoch older than one that `f + 1` correct
    witnesses had finalised when the challenge was drawn. */
module ReadFreshness {
  import opened Foundations
  import opened EpochTypes
  import opened WitnessEntry
  import opened WitnessNetwork
  import opened WitnessTheorems
  import opened EpochSelection

  /** The reader's card pins this cluster. */
  predicate CardOf(card: RecoveryCard, c: Cluster) {
    Pins(card.witnesses) == c.keys && card.faultBound == c.faultBound
  }

  /** A verifying response under a correct witness's key was signed by it. */
  ghost predicate Genuine(c: Cluster, h: seq<Event>, es: seq<ReadEnvelope>) {
    forall i :: 0 <= i < |es| && es[i].response.body.witnessId in c.correct && es[i].response.body.witnessId in c.keys
                && Verify(c.keys[es[i].response.body.witnessId], ReadResponseMessage(es[i].response.body), es[i].response.signature) ==>
      exists k :: 0 <= k < |h| && AnsweredWith(h[k], es[i].response)
  }

  ghost predicate AnsweredWith(e: Event, response: ReadResponse) {
    e.Answered? && e.actor == response.body.witnessId && e.envelope.response == response
  }

  /** None of `witnesses` answered this nonce before. */
  ghost predicate Unanswered(h: seq<Event>, witnesses: set<nat>, nonce: Id32) {
    forall k :: 0 <= k < |h| && h[k].Answered? && h[k].actor in witnesses ==>
      h[k].envelope.response.body.clientNonce != nonce
  }

  lemma FeasiblePrefix(c: Cluster, steps: seq<Delivery>, more: seq<Delivery>)
    requires Feasible(c, steps + more)
    ensures Feasible(c, steps)
    decreases |more|
  {
    if more == [] {
      assert steps + more == steps;
    } else {
      assert (steps + more)[..|steps + more| - 1] == steps + more[..|more| - 1];
      FeasiblePrefix(c, steps, more[..|more| - 1]);
    }
  }

  /** After `steps`, witness `w` only ever finalises and reports epochs at least as high. */
  ghost predicate NeverBelow(before: Net, after: Net, w: nat) {
    && w in before.entries && w in after.entries
    && before.history <= after.history
    && before.entries[w].capsule.Epoch() <= after.entries[w].capsule.Epoch()
    && forall k :: |before.history| <= k < |after.history| && after.history[k].Answered? && after.history[k].actor == w ==>
         after.history[k].envelope.response.body.highestGuardianEpoch >= before.entries[w].capsule.Epoch()
  }

  lemma NeverBelowStep(before: Net, n: Net, w: nat, v: nat, t: EntryState, e: Option<Event>)
    requires NeverBelow(before, n, w) && v in n.entries && Moves(v, n.entries[v], t, e)
    ensures NeverBelow(before, Net(n.entries[v := t], Record(n.history, e)), w)
  {
  }

  lemma StepRises(before: Net, n: Net, d: Delivery, w: nat)
    requires d.recipient in n.entries
    requires ValidState(n.entries[d.recipient]) && n.entries[d.recipient].witnessId == d.recipient
    requires NeverBelow(before, n, w)
    ensures NeverBelow(before, Deliver(n, d), w)
  {
    var t, e := DeliveryMoves(n, d);
    NeverBelowStep(before, n, w, d.recipient, t, e);
  }

  lemma {:induction false} FinalisedEpochsRise(c: Cluster, steps: seq<Delivery>, more: seq<Delivery>, w: nat)
    requires WellFormed(c) && Feasible(c, steps + more) && w in c.correct
    ensures NeverBelow(Run(c, steps), Run(c, steps + more), w)
    decreases |more|
  {
    if more == [] {
      assert steps + more == steps;
      RunEntryValid(c, steps, w);
    } else {
      var earlier, d := steps + more[..|more| - 1], more[|more| - 1];
      assert (steps + more)[..|steps + more| - 1] == earlier;
      FinalisedEpochsRise(c, steps, more[..|more| - 1], w);
      RunEntryValid(c, earlier, d.recipient);
      StepRises(Run(c, steps), Run(c, earlier), d, w);
    }
  }

  /** An accepted envelope of a correct witness that had finalised epoch `epoch` before the
      nonce was first used carries at least that epoch. */
  lemma AcceptedIsRecent(c: Cluster, before: Net, after: Net, card: RecoveryCard, challenge: ReadChallenge,
                         es: seq<ReadEnvelope>, i: nat, epoch: U64)
    requires i < |es| && Accepted(card, challenge, es, i) && CardOf(card, c)
    requires es[i].response.body.witnessId in c.correct
    requires NeverBelow(before, after, es[i].response.body.witnessId)
    requires before.entries[es[i].response.body.witnessId].capsule.Epoch() >= epoch
    requires Unanswered(before.history, {es[i].response.body.witnessId}, challenge.clientNonce)
    requires Genuine(c, after.history, es)
    ensures es[i].capsule.Epoch() >= epoch
  {
    var k :| 0 <= k < |after.history| && AnsweredWith(after.history[k], es[i].response);
    if k < |before.history| {
      assert false;
    }
  }

  lemma QuorumMeetsFinalisers(c: Cluster, card: RecoveryCard, challenge: ReadChallenge, es: seq<ReadEnvelope>,
                              finalisers: set<nat>) returns (i: nat)
    requires WellFormed(c) && CardOf(card, c)
    requires finalisers <= c.correct && |finalisers| >= c.faultBound + 1
    requires |WitnessesAt(es, AcceptedIndices(card, challenge, es))| >= 2 * c.faultBound + 1
    ensures i in AcceptedIndices(card, challenge, es) && es[i].response.body.witnessId in finalisers
  {
    var accepted := AcceptedIndices(card, challenge, es);
    var readers := WitnessesAt(es, accepted);
    forall w | w in readers
      ensures w in c.keys.Keys
    {
      var j :| j in accepted && es[j].response.body.witnessId == w;
    }
    var w := SharedCorrectMember(readers, finalisers, c.keys.Keys, {});
    i :| i in accepted && es[i].response.body.witnessId == w;
  }

  ghost predicate FinalisedBy(n: Net, witnesses: set<nat>, epoch: U64) {
    forall w :: w in witnesses && w in n.entries ==> n.entries[w].capsule.Epoch() >= epoch
  }

  lemma FreshReadsAreRecent(c: Cluster, before: Net, after: Net, card: RecoveryCard, challenge: ReadChallenge,
                            es: seq<ReadEnvelope>, finalisers: set<nat>, epoch: U64, i: nat, t: nat)
    requires CardOf(card, c) && finalisers <= c.correct
    requires i in AcceptedIndices(card, challenge, es) && es[i].response.body.witnessId in finalisers
    requires NeverBelow(before, after, es[i].response.body.witnessId)
    requires FinalisedBy(before, finalisers, epoch) && Unanswered(before.history, finalisers, challenge.clientNonce)
    requires Genuine(c, after.history, es)
    requires Top(es, AcceptedIndices(card, challenge, es), t)
    ensures es[t].capsule.Epoch() >= epoch
  {
    AcceptedIsRecent(c, before, after, card, challenge, es, i, epoch);
  }

  /** No rollback on read: whatever a reader selects for a nonce that was fresh when
      `f + 1` correct witnesses had finalised `epoch` is of that epoch or a later one. */
  lemma NoRollbackOnRead(c: Cluster, card: RecoveryCard, steps: seq<Delivery>, more: seq<Delivery>,
                         finalisers: set<nat>, epoch: U64, challenge: ReadChallenge, es: seq<ReadEnvelope>, t: nat)
    requires WellFormed(c) && CardOf(card, c) && Feasible(c, steps + more)
    requires finalisers <= c.correct && |finalisers| >= c.faultBound + 1
    requires FinalisedBy(Run(c, steps), finalisers, epoch)
    requires Unanswered(Run(c, steps).history, finalisers, challenge.clientNonce)
    requires Genuine(c, Run(c, steps + more).history, es)
    requires Decidable(card, challenge, es) && Top(es, AcceptedIndices(card, challenge, es), t)
    ensures es[t].capsule.Epoch() >= epoch
  {
    var i := QuorumMeetsFinalisers(c, card, challenge, es, finalisers);
    FinalisedEpochsRise(c, steps, more, es[i].response.body.witnessId);
    FreshReadsAreRecent(c, Run(c, steps), Run(c, steps + more), card, challenge, es, finalisers, epoch, i, t);
  }

  /** A certifying QC has at least `f + 1` correct signers; they are the ones the
      coordinator asks to finalise. */
  lemma QcHasCorrectSigners(c: Cluster, qc: ActivationQc)
    requires WellFormed(c) && CertifyingQc(c, qc)
    ensures |WitnessIds(qc.acks) * c.correct| >= c.faultBound + 1
  {
    SignersArePinned(c, qc);
    var signers := WitnessIds(qc.acks);
    assert signers - c.correct <= c.keys.Keys - c.correct;
    SubsetSize(signers - c.correct, c.keys.Keys - c.correct);
    assert signers == (signers * c.correct) + (signers - c.correct);
  }
}
