/** The policy a capsule may not change: witnesses refuse a child that changes it, so on
    genuine certificates nobody ever follows one. */
module ImmutablePolicy {
  import opened Foundations
  import opened EpochTypes
  import opened EpochSelection
  import opened WitnessEntry
  import opened WitnessAgreement
  import WitnessNetwork
  import WitnessEvidence
  import WitnessTheorems
  import ReadFreshness
  import GuardianTheorems
  import opened GuardiansAndWitnesses

  /** `child` is a capsule with the authorities of the capsule `parent`. */
  ghost predicate Keeps(parent: CapsuleHash, child: CapsuleHash) {
    parent.BodyHash? && child.BodyHash? && WitnessEvidence.SameAuthorities(parent.body, child.body)
  }

  lemma KeepsTransitively(a: CapsuleHash, b: CapsuleHash, c: CapsuleHash)
    requires Keeps(a, b) && Keeps(b, c)
    ensures Keeps(a, c)
  {
  }

  /** Whatever a correct witness acks keeps the policy of its finalised capsule, a repeated
      ack of the pending child included. */
  lemma AckKeepsPolicy(w: nat, s: EntryState, r: WitnessNetwork.Request)
    requires ValidState(s)
    ensures var e := WitnessNetwork.Emitted(w, s, r);
            e.Some? && e.value.Acked? ==> Keeps(e.value.ack.body.predecessorHash, e.value.ack.body.successorHash)
  {
  }

  ghost predicate AcksKeepPolicy(h: History) {
    forall i :: 0 <= i < |h| && h[i].Acked? ==> Keeps(h[i].ack.body.predecessorHash, h[i].ack.body.successorHash)
  }

  lemma {:induction false} RunKeepsPolicy(c: Cluster, steps: seq<WitnessNetwork.Delivery>)
    requires WitnessNetwork.WellFormed(c) && WitnessNetwork.Feasible(c, steps)
    ensures AcksKeepPolicy(WitnessNetwork.Run(c, steps).history)
    decreases |steps|
  {
    if steps != [] {
      var before, d := steps[..|steps| - 1], steps[|steps| - 1];
      RunKeepsPolicy(c, before);
      WitnessNetwork.RunEntryValid(c, before, d.recipient);
      AckKeepsPolicy(d.recipient, WitnessNetwork.Run(c, before).entries[d.recipient], d.request);
    }
  }

  /** A quorum certificate exists only for a child that keeps the policy. */
  lemma CertifiedKeepsPolicy(c: Cluster, h: History, child: CapsuleHash, parent: CapsuleHash)
    requires WitnessNetwork.WellFormed(c) && AcksKeepPolicy(h) && Certifies(c, h, child, parent)
    ensures Keeps(parent, child)
  {
    var qc :| WitnessTheorems.Assembled(c, h, qc) && qc.successorHash == child && qc.predecessorHash == parent;
    ReadFreshness.QcHasCorrectSigners(c, qc);
    var w :| w in WitnessIds(qc.acks) * c.correct;
    var i := WitnessTheorems.SignerAcked(c, h, qc, w);
  }

  lemma {:induction false} LineKeepsPolicy(c: Cluster, h: History, root: CapsuleHash, hash: CapsuleHash)
    requires WitnessNetwork.WellFormed(c) && AcksKeepPolicy(h) && root.BodyHash? && Line(c, h, root, hash)
    ensures Keeps(root, hash)
    decreases hash
  {
    if hash != root {
      LineKeepsPolicy(c, h, root, hash.body.predecessorHash);
      CertifiedKeepsPolicy(c, h, hash, hash.body.predecessorHash);
      KeepsTransitively(root, hash.body.predecessorHash, hash);
    }
  }

  /** Every capsule a guardian comes to follow on genuine certificates has the signer set,
      the owner key, the request lifetime and the suite of the one it started from, and no
      shorter delay, although the guardian itself compares neither lifetime nor delay. */
  lemma GuardianPolicyIsImmutable(c: Cluster, steps: seq<WitnessNetwork.Delivery>, run: GuardianTheorems.Run, i: nat)
    requires WitnessNetwork.WellFormed(c) && WitnessNetwork.Feasible(c, steps)
    requires run.Valid() && i <= |run.steps| && ReadFreshness.CardOf(run.states[0].card, c)
    requires ShownGenuine(c, WitnessNetwork.Run(c, steps).history, run)
    ensures WitnessEvidence.SameAuthorities(run.states[0].predecessor.body, run.states[i].predecessor.body)
  {
    var h := WitnessNetwork.Run(c, steps).history;
    RunKeepsPolicy(c, steps);
    RunFollowsLine(c, h, run, i);
    GuardianTheorems.StateIsValid(run, 0);
    GuardianTheorems.StateIsValid(run, i);
    LineKeepsPolicy(c, h, run.states[0].predecessor.hash, run.states[i].predecessor.hash);
  }

  /** And so has every capsule a correct witness finalises, from the genesis capsule on. */
  lemma WitnessPolicyIsImmutable(c: Cluster, steps: seq<WitnessNetwork.Delivery>, w: nat)
    requires WitnessNetwork.WellFormed(c) && WitnessNetwork.Feasible(c, steps) && w in c.correct
    ensures w in WitnessNetwork.Run(c, steps).entries
    ensures WitnessEvidence.SameAuthorities(c.genesis.body, WitnessNetwork.Run(c, steps).entries[w].capsule.body)
  {
    WitnessEvidence.RunIsRooted(c, steps, w);
  }
}
