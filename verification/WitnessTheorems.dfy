/** What every run of the witness cluster guarantees: forks leave evidence, certified
    children are unique while nobody retracts, and an owner's quorum of vetoes is final. */
module WitnessTheorems {
  import opened Foundations
  import opened EpochTypes
  import opened WitnessEntry
  import opened WitnessNetwork
  import WitnessEvidence

  /** Witness `w` acked what `first` certifies, vetoed that rotation and plan, and then acked what
      `second` certifies, at positions `i < k < j` of the history. */
  ghost predicate Retracts(h: seq<Event>, w: nat, i: nat, k: nat, j: nat, first: ActivationQc, second: ActivationQc) {
    && i < k < j < |h|
    && h[i].Acked? && h[i].actor == w && AckBindsQc(first, h[i].ack.body)
    && h[k].Vetoed? && h[k].actor == w && VetoesAck(h[k].veto.body, h[i].ack.body)
    && h[j].Acked? && h[j].actor == w && AckBindsQc(second, h[j].ack.body)
  }

  /** A QC that exists in the world of this history. */
  ghost predicate Assembled(c: Cluster, h: seq<Event>, qc: ActivationQc) {
    CertifyingQc(c, qc) && Backed(c, h, qc)
  }

  lemma SignersArePinned(c: Cluster, qc: ActivationQc)
    requires CertifyingQc(c, qc)
    ensures WitnessIds(qc.acks) <= c.keys.Keys && |WitnessIds(qc.acks)| >= 2 * c.faultBound + 1
  {
  }

  /** A correct witness among a QC's signers issued an ack that binds the QC. */
  lemma SignerAcked(c: Cluster, h: seq<Event>, qc: ActivationQc, w: nat) returns (i: nat)
    requires Assembled(c, h, qc) && w in c.correct && w in WitnessIds(qc.acks)
    ensures i < |h| && h[i].Acked? && h[i].actor == w && AckBindsQc(qc, h[i].ack.body)
  {
    var a :| 0 <= a < |qc.acks| && qc.acks[a].body.witnessId == w;
    assert Acked(w, qc.acks[a]) in h;
    i :| 0 <= i < |h| && h[i] == Acked(w, qc.acks[a]);
  }

  lemma CorrectSignerOfBoth(c: Cluster, p: ActivationQc, q: ActivationQc) returns (w: nat)
    requires WellFormed(c) && CertifyingQc(c, p) && CertifyingQc(c, q)
    ensures w in c.correct && w in WitnessIds(p.acks) && w in WitnessIds(q.acks)
  {
    SignersArePinned(c, p);
    SignersArePinned(c, q);
    w := SharedCorrectMember(WitnessIds(p.acks), WitnessIds(q.acks), c.keys.Keys, c.keys.Keys - c.correct);
  }

  function Interval(lo: nat, hi: nat): set<nat> {
    if lo < hi then Interval(lo, hi - 1) + {hi - 1} else {}
  }

  lemma {:induction false} IntervalHolds(lo: nat, hi: nat)
    ensures forall x: nat {:trigger x in Interval(lo, hi)} :: x in Interval(lo, hi) <==> lo <= x < hi
    ensures lo <= hi ==> |Interval(lo, hi)| == hi - lo
    decreases hi
  {
    if lo < hi {
      IntervalHolds(lo, hi - 1);
    }
  }

  predicate ShareCorrect(a: set<nat>, b: set<nat>, faulty: set<nat>) {
    (a * b) - faulty != {}
  }

  predicate IsQuorum(q: set<nat>, n: nat, f: nat) {
    q <= Interval(0, n) && |q| >= 2 * f + 1
  }

  /** Any two quorums of `2f + 1` out of `n` share a correct witness, whichever `f` are
      faulty. */
  ghost predicate QuorumsMeet(n: nat, f: nat) {
    forall a: set<nat>, b: set<nat>, faulty: set<nat> {:trigger ShareCorrect(a, b, faulty)} ::
      IsQuorum(a, n, f) && IsQuorum(b, n, f) && |faulty| <= f ==> ShareCorrect(a, b, faulty)
  }

  /** The card check admits every `n >= 3f + 1`, but quorums meet exactly at the minimum. */
  lemma QuorumsMeetOnlyAtMinimum(n: nat, f: nat)
    requires n >= 3 * f + 1
    ensures QuorumsMeet(n, f) <==> n == 3 * f + 1
  {
    if n == 3 * f + 1 {
      forall a: set<nat>, b: set<nat>, faulty: set<nat> | IsQuorum(a, n, f) && IsQuorum(b, n, f) && |faulty| <= f
        ensures ShareCorrect(a, b, faulty)
      {
        IntervalHolds(0, n);
        var w := SharedCorrectMember(a, b, Interval(0, n), faulty);
        assert w in (a * b) - faulty;
      }
    } else {
      var a, b := DistantQuorums(n, f);
      assert !ShareCorrect(a, b, a * b);
    }
  }

  lemma DistantQuorums(n: nat, f: nat) returns (a: set<nat>, b: set<nat>)
    requires n > 3 * f + 1
    ensures IsQuorum(a, n, f) && IsQuorum(b, n, f) && |a * b| <= f
  {
    a, b := Interval(0, 2 * f + 1), Interval(n - 2 * f - 1, n);
    IntervalHolds(0, n);
    IntervalHolds(0, 2 * f + 1);
    IntervalHolds(n - 2 * f - 1, n);
    SmallOverlap(n, f, a, b);
  }

  lemma SmallOverlap(n: nat, f: nat, a: set<nat>, b: set<nat>)
    requires n > 3 * f + 1 && a == Interval(0, 2 * f + 1) && b == Interval(n - 2 * f - 1, n)
    ensures |a * b| <= f
  {
    IntervalHolds(0, 2 * f + 1);
    IntervalHolds(n - 2 * f - 1, n);
    if n - 2 * f - 1 <= 2 * f + 1 {
      IntervalHolds(n - 2 * f - 1, 2 * f + 1);
      assert a * b == Interval(n - 2 * f - 1, 2 * f + 1);
    } else {
      assert a * b == {};
    }
  }

  lemma ForkEvidence(c: Cluster, n: Net, p: ActivationQc, q: ActivationQc)
    requires WellFormed(c) && Consistent(c, n)
    requires Assembled(c, n.history, p) && Assembled(c, n.history, q)
    requires p.predecessorHash == q.predecessorHash && p.successorHash != q.successorHash
    ensures exists w, i, k, j ::
              w in c.correct && (Retracts(n.history, w, i, k, j, p, q) || Retracts(n.history, w, i, k, j, q, p))
  {
    var w := CorrectSignerOfBoth(c, p, q);
    var a := SignerAcked(c, n.history, p, w);
    var b := SignerAcked(c, n.history, q, w);
    if a < b {
      SeparatedSiblings(n.history, w, a, b, p, q);
    } else {
      SeparatedSiblings(n.history, w, b, a, q, p);
    }
  }

  /** The witness was delivered the owner's own signature on what this veto records. */
  ghost predicate OwnerAsked(c: Cluster, steps: seq<Delivery>, w: nat, veto: CancelAckBody) {
    exists d: nat :: d < |steps| && steps[d].recipient == w && WitnessEvidence.OwnerSigned(c, steps[d], veto)
  }

  lemma EveryVetoWasAsked(c: Cluster, steps: seq<Delivery>)
    requires WellFormed(c) && Feasible(c, steps)
    ensures forall k :: 0 <= k < |Run(c, steps).history| && Run(c, steps).history[k].Vetoed? ==>
              OwnerAsked(c, steps, Run(c, steps).history[k].actor, Run(c, steps).history[k].veto.body)
  {
    forall k: nat | k < |Run(c, steps).history| && Run(c, steps).history[k].Vetoed?
      ensures OwnerAsked(c, steps, Run(c, steps).history[k].actor, Run(c, steps).history[k].veto.body)
    {
      var d := WitnessEvidence.VetoIsOwnerSigned(c, steps, k);
    }
  }

  /** Fork accountability: quorum certificates for two different children of one capsule
      exist only if some correct witness acked one of them, accepted a cancellation of that
      rotation and plan that carries the owner's signature, and acked the other afterwards. */
  lemma ForkAccountability(c: Cluster, steps: seq<Delivery>, p: ActivationQc, q: ActivationQc)
    requires WellFormed(c) && Feasible(c, steps)
    requires Assembled(c, Run(c, steps).history, p) && Assembled(c, Run(c, steps).history, q)
    requires p.predecessorHash == q.predecessorHash && p.successorHash != q.successorHash
    ensures exists w: nat, i: nat, k: nat, j: nat ::
              && w in c.correct
              && (Retracts(Run(c, steps).history, w, i, k, j, p, q) || Retracts(Run(c, steps).history, w, i, k, j, q, p))
              && OwnerAsked(c, steps, w, Run(c, steps).history[k].veto.body)
  {
    RunsAreConsistent(c, steps);
    EveryVetoWasAsked(c, steps);
    ForkEvidence(c, Run(c, steps), p, q);
  }

  /** No quorum certificate without the signers: some correct witness was delivered the very
      Activate certificate it names, signed by a threshold of the pinned signers for this
      child out of the capsule that witness had finalised. */
  lemma QcRestsOnSigners(c: Cluster, steps: seq<Delivery>, qc: ActivationQc) returns (j: nat)
    requires WellFormed(c) && Feasible(c, steps) && Assembled(c, Run(c, steps).history, qc)
    ensures j < |steps| && steps[j].recipient in c.correct && steps[j].request.ActivateRequest?
    ensures var child, certificate := steps[j].request.activation.capsule, steps[j].request.activation.certificate;
            && qc.certificateHash == Of(certificate)
            && qc.successorHash == BodyHash(child.body) && qc.predecessorHash == child.body.predecessorHash
            && qc.rotationId == certificate.context.rotationId
            && WitnessEvidence.DirectChild(c, WitnessEvidence.Server(c, steps, j).capsule, child)
            && WitnessEvidence.ThresholdSigned(c, certificate, child.body)
  {
    var w := CorrectSignerOfBoth(c, qc, qc);
    var k := SignerAcked(c, Run(c, steps).history, qc, w);
    var first: nat;
    j, first := WitnessEvidence.AckRestsOnSigners(c, steps, k);
  }

  lemma SeparatedSiblings(h: seq<Event>, w: nat, i: nat, j: nat, first: ActivationQc, second: ActivationQc)
    requires SiblingsSeparated(h) && i < j < |h|
    requires h[i].Acked? && h[i].actor == w && AckBindsQc(first, h[i].ack.body)
    requires h[j].Acked? && h[j].actor == w && AckBindsQc(second, h[j].ack.body)
    requires first.predecessorHash == second.predecessorHash && first.successorHash != second.successorHash
    ensures exists k :: Retracts(h, w, i, k, j, first, second)
  {
    assert Siblings(h[i].ack, h[j].ack);
    var k :| i < k < j && h[k].Vetoed? && h[k].actor == w && VetoesAck(h[k].veto.body, h[i].ack.body);
    assert Retracts(h, w, i, k, j, first, second);
  }

  /** The exception is real: a witness that would ack either of two children acks the
      first, refuses the second while the first is pending, and once the owner has cancelled
      the first it issues for the second the very ack it would have issued at the start. */
  lemma CancelReopensSlot(s: EntryState, first: ActivationRequest, second: ActivationRequest,
                          certificate: OwnerCancelCertificate, now: U64)
    requires ValidState(s) && s.pendingCapsule.None?
    requires ActivateReply(s, first).Some? && ActivateReply(s, second).Some?
    requires first.capsule.hash != second.capsule.hash
    requires first.certificate.context.rotationId != second.certificate.context.rotationId
    requires AuthenticCancel(s, certificate, now)
    requires certificate.body.context.rotationId == first.certificate.context.rotationId
    requires certificate.body.planHash == first.certificate.planHash
    ensures var acked := ActivateNext(s, first);
            var reopened := CancelNext(acked, certificate, now);
            && ActivateReply(acked, second).None?
            && ActivateReply(reopened, second) == ActivateReply(s, second)
            && Siblings(ActivateReply(s, first).value, ActivateReply(reopened, second).value)
  {
    CancelUndoesActivate(s, first, certificate, now);
  }

  /** Nobody correct cancels a rotation it has acked. Cancellations that arrive before
      the ack are allowed: they only refuse it. */
  ghost predicate NoRetraction(c: Cluster, h: seq<Event>) {
    forall i, k :: 0 <= i < k < |h| && h[i].Acked? && h[k].Vetoed? && h[i].actor == h[k].actor && h[i].actor in c.correct ==>
      !VetoesAck(h[k].veto.body, h[i].ack.body)
  }

  /** One child per predecessor: without retractions, certified children are unique. */
  lemma OneChildPerPredecessor(c: Cluster, steps: seq<Delivery>, p: ActivationQc, q: ActivationQc)
    requires WellFormed(c) && Feasible(c, steps) && NoRetraction(c, Run(c, steps).history)
    requires Assembled(c, Run(c, steps).history, p) && Assembled(c, Run(c, steps).history, q)
    requires p.predecessorHash == q.predecessorHash
    ensures p.successorHash == q.successorHash
  {
    RunsAreConsistent(c, steps);
    SiblingsNeedRetraction(c, Run(c, steps), p, q);
  }

  lemma RetractionShows(c: Cluster, h: seq<Event>, w: nat, i: nat, k: nat, j: nat, first: ActivationQc, second: ActivationQc)
    requires w in c.correct && Retracts(h, w, i, k, j, first, second)
    ensures !NoRetraction(c, h)
  {
  }

  lemma ForkShowsRetraction(c: Cluster, n: Net, p: ActivationQc, q: ActivationQc)
    requires WellFormed(c) && Consistent(c, n)
    requires Assembled(c, n.history, p) && Assembled(c, n.history, q)
    requires p.predecessorHash == q.predecessorHash && p.successorHash != q.successorHash
    ensures !NoRetraction(c, n.history)
  {
    ForkEvidence(c, n, p, q);
    var w, i, k, j :| w in c.correct && (Retracts(n.history, w, i, k, j, p, q) || Retracts(n.history, w, i, k, j, q, p));
    if Retracts(n.history, w, i, k, j, p, q) {
      RetractionShows(c, n.history, w, i, k, j, p, q);
    } else {
      RetractionShows(c, n.history, w, i, k, j, q, p);
    }
  }

  lemma SiblingsNeedRetraction(c: Cluster, n: Net, p: ActivationQc, q: ActivationQc)
    requires WellFormed(c) && Consistent(c, n) && NoRetraction(c, n.history)
    requires Assembled(c, n.history, p) && Assembled(c, n.history, q)
    requires p.predecessorHash == q.predecessorHash
    ensures p.successorHash == q.successorHash
  {
    if p.successorHash != q.successorHash {
      ForkShowsRetraction(c, n, p, q);
    }
  }

  // ---- Ancestors -----------------------------------------------------------------

  lemma {:induction false} AncestorDepth(a: CapsuleHash, d: CapsuleHash)
    requires IsAncestor(a, d)
    ensures Depth(a) <= Depth(d) && (Depth(a) == Depth(d) ==> a == d)
    decreases d
  {
    if a != d {
      AncestorDepth(a, d.body.predecessorHash);
    }
  }

  ghost predicate Comparable(a: CapsuleHash, b: CapsuleHash) {
    IsAncestor(a, b) || IsAncestor(b, a)
  }

  // ---- Owner veto ----------------------------------------------------------------

  /** `w` accepted the owner's cancellation of the rotation and had not acked it before. */
  ghost predicate VetoedFirst(h: seq<Event>, w: nat, rotationId: Id32) {
    exists k ::
      && 0 <= k < |h| && h[k].Vetoed? && h[k].actor == w && h[k].veto.body.rotationId == rotationId
      && forall i :: 0 <= i < k && h[i].Acked? && h[i].actor == w ==> h[i].ack.body.context.rotationId != rotationId
  }

  lemma {:induction false} HistoryGrows(c: Cluster, steps: seq<Delivery>, more: seq<Delivery>)
    ensures Run(c, steps).history <= Run(c, steps + more).history
    decreases |more|
  {
    if more == [] {
      assert steps + more == steps;
    } else {
      assert (steps + more)[..|steps + more| - 1] == steps + more[..|more| - 1];
      HistoryGrows(c, steps, more[..|more| - 1]);
    }
  }

  lemma VetoedRotationNotAcked(g: seq<Event>, n: Net, w: nat, rotationId: Id32, j: nat)
    requires VetoedFirst(g, w, rotationId) && g <= n.history && VetoesHold(n)
    requires j < |n.history| && n.history[j].Acked? && n.history[j].actor == w
    ensures n.history[j].ack.body.context.rotationId != rotationId
  {
    var k :| 0 <= k < |g| && g[k].Vetoed? && g[k].actor == w && g[k].veto.body.rotationId == rotationId
             && forall i :: 0 <= i < k && g[i].Acked? && g[i].actor == w ==> g[i].ack.body.context.rotationId != rotationId;
    assert n.history[k] == g[k];
    if j < k {
      assert n.history[j] == g[j];
    }
  }

  lemma VetoQuorumBlocks(c: Cluster, g: seq<Event>, n: Net, vetoers: set<nat>, rotationId: Id32, qc: ActivationQc)
    requires WellFormed(c) && g <= n.history && VetoesHold(n)
    requires vetoers <= c.keys.Keys && |vetoers| >= 2 * c.faultBound + 1
    requires forall w :: w in vetoers && w in c.correct ==> VetoedFirst(g, w, rotationId)
    requires Assembled(c, n.history, qc)
    ensures qc.rotationId != rotationId
  {
    SignersArePinned(c, qc);
    var w := SharedCorrectMember(WitnessIds(qc.acks), vetoers, c.keys.Keys, c.keys.Keys - c.correct);
    var j := SignerAcked(c, n.history, qc, w);
    VetoedRotationNotAcked(g, n, w, rotationId, j);
  }

  /** Owner veto: once `2f + 1` pinned witnesses, as far as they are correct, vetoed a
      rotation before acking it, no later moment of any continuation has a QC for it. */
  lemma OwnerVetoIsFinal(c: Cluster, steps: seq<Delivery>, more: seq<Delivery>, vetoers: set<nat>, rotationId: Id32,
                         qc: ActivationQc)
    requires WellFormed(c) && Feasible(c, steps + more)
    requires vetoers <= c.keys.Keys && |vetoers| >= 2 * c.faultBound + 1
    requires forall w :: w in vetoers && w in c.correct ==> VetoedFirst(Run(c, steps).history, w, rotationId)
    requires Assembled(c, Run(c, steps + more).history, qc)
    ensures qc.rotationId != rotationId
  {
    HistoryGrows(c, steps, more);
    RunsAreConsistent(c, steps + more);
    VetoQuorumBlocks(c, Run(c, steps).history, Run(c, steps + more), vetoers, rotationId, qc);
  }
}
