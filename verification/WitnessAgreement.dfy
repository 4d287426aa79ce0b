/** One line of certified capsules: what few enough retractions mean for the chains that
    correct witnesses finalise. */
module WitnessAgreement {
  import opened Foundations
  import opened EpochTypes
  import opened WitnessNetwork
  import opened WitnessTheorems
  import opened WitnessForks

  /** Too few correct witnesses retracted an ack for a fork. */
  ghost predicate FewRetract(c: Cluster, h: seq<Event>) {
    |Retractors(c, h)| + |Faulty(c)| <= c.faultBound
  }

  ghost predicate Certifies(c: Cluster, h: seq<Event>, child: CapsuleHash, parent: CapsuleHash) {
    exists qc :: Assembled(c, h, qc) && qc.successorHash == child && qc.predecessorHash == parent
  }

  ghost predicate UniqueChildren(c: Cluster, h: seq<Event>) {
    forall a, b, parent :: Certifies(c, h, a, parent) && Certifies(c, h, b, parent) ==> a == b
  }

  lemma FewRetractUnique(c: Cluster, steps: seq<Delivery>)
    requires WellFormed(c) && Feasible(c, steps)
    requires FewRetract(c, Run(c, steps).history)
    ensures UniqueChildren(c, Run(c, steps).history)
  {
    var h := Run(c, steps).history;
    forall a, b, parent | Certifies(c, h, a, parent) && Certifies(c, h, b, parent)
      ensures a == b
    {
      var p :| Assembled(c, h, p) && p.successorHash == a && p.predecessorHash == parent;
      var q :| Assembled(c, h, q) && q.successorHash == b && q.predecessorHash == parent;
      if a != b {
        ForkNeedsRetractors(c, steps, p, q);
      }
    }
  }

  lemma NoRetractionIsFew(c: Cluster, h: seq<Event>)
    requires WellFormed(c) && NoRetraction(c, h)
    ensures FewRetract(c, h)
  {
    assert Retractors(c, h) == {};
  }

  /** `hash` comes from `root` by certified steps. */
  ghost predicate Line(c: Cluster, h: seq<Event>, root: CapsuleHash, hash: CapsuleHash)
    decreases hash
  {
    hash == root
    || (hash.BodyHash? && Certifies(c, h, hash, hash.body.predecessorHash) && Line(c, h, root, hash.body.predecessorHash))
  }

  lemma {:induction false} LineHasRoot(c: Cluster, h: seq<Event>, root: CapsuleHash, hash: CapsuleHash)
    requires Line(c, h, root, hash)
    ensures IsAncestor(root, hash)
    decreases hash
  {
    if hash != root {
      LineHasRoot(c, h, root, hash.body.predecessorHash);
    }
  }

  lemma {:induction false} LowerIsAncestor(c: Cluster, h: seq<Event>, root: CapsuleHash, a: CapsuleHash, b: CapsuleHash)
    requires UniqueChildren(c, h) && Line(c, h, root, a) && Line(c, h, root, b)
    requires Depth(a) <= Depth(b)
    ensures IsAncestor(a, b)
    decreases Depth(a) + Depth(b)
  {
    LineHasRoot(c, h, root, a);
    LineHasRoot(c, h, root, b);
    if a == root || b == root {
      AncestorDepth(root, a);
    } else if Depth(a) < Depth(b) {
      LowerIsAncestor(c, h, root, a, b.body.predecessorHash);
    } else {
      LowerIsAncestor(c, h, root, a.body.predecessorHash, b.body.predecessorHash);
      AncestorDepth(a.body.predecessorHash, b.body.predecessorHash);
    }
  }

  /** Unique certified children make one line of everything that descends from one capsule. */
  lemma LinesCompare(c: Cluster, h: seq<Event>, root: CapsuleHash, a: CapsuleHash, b: CapsuleHash)
    requires UniqueChildren(c, h) && Line(c, h, root, a) && Line(c, h, root, b)
    ensures Comparable(a, b)
  {
    if Depth(a) <= Depth(b) {
      LowerIsAncestor(c, h, root, a, b);
    } else {
      LowerIsAncestor(c, h, root, b, a);
    }
  }

  lemma {:induction false} FinalisedIsLine(c: Cluster, h: seq<Event>, hash: CapsuleHash)
    requires FinalityCertified(c, h) && Certified(c, h, hash)
    ensures Line(c, h, c.genesis.hash, hash)
    decreases hash
  {
    if hash != c.genesis.hash {
      FinalisedIsCertified(c, h, hash);
      FinalisedIsLine(c, h, hash.body.predecessorHash);
    }
  }

  lemma FinalisedIsCertified(c: Cluster, h: seq<Event>, hash: CapsuleHash)
    requires FinalityCertified(c, h) && hash.BodyHash? && Linked(h, hash)
    ensures Certifies(c, h, hash, hash.body.predecessorHash)
  {
    var i :| 0 <= i < |h| && h[i].Finalized?
             && h[i].qc.successorHash == hash && h[i].qc.predecessorHash == hash.body.predecessorHash;
    assert Assembled(c, h, h[i].qc);
  }

  /** Agreement: unless `f + 1` witnesses are faulty or have retracted an ack, the finalised
      chains of any two correct witnesses are prefixes of one another, at every moment of
      every run. */
  lemma Agreement(c: Cluster, steps: seq<Delivery>, v: nat, w: nat)
    requires WellFormed(c) && Feasible(c, steps) && v in c.correct && w in c.correct
    requires FewRetract(c, Run(c, steps).history)
    ensures v in Run(c, steps).entries && w in Run(c, steps).entries
    ensures Comparable(Run(c, steps).entries[v].capsule.hash, Run(c, steps).entries[w].capsule.hash)
  {
    var n := Run(c, steps);
    FewRetractUnique(c, steps);
    RunsAreConsistent(c, steps);
    assert EntrySound(c, n.history, v, n.entries[v]) && EntrySound(c, n.history, w, n.entries[w]);
    FinalisedIsLine(c, n.history, n.entries[v].capsule.hash);
    FinalisedIsLine(c, n.history, n.entries[w].capsule.hash);
    LinesCompare(c, n.history, c.genesis.hash, n.entries[v].capsule.hash, n.entries[w].capsule.hash);
  }
}
