/** When two certificates for siblings can exist: how many correct witnesses have to
    retract an ack, and a run in which exactly that many do. */
module WitnessForks {
  import opened Foundations
  import opened EpochTypes
  import opened WitnessEntry
  import opened WitnessNetwork
  import opened WitnessTheorems

  /** The witness acked a rotation and accepted its cancellation afterwards. */
  ghost predicate Retracted(h: seq<Event>, w: nat) {
    exists i, k :: 0 <= i < k < |h| && h[i].Acked? && h[k].Vetoed? && h[i].actor == h[k].actor == w
                   && VetoesAck(h[k].veto.body, h[i].ack.body)
  }

  ghost function Retractors(c: Cluster, h: seq<Event>): set<nat> {
    set w | w in c.correct && Retracted(h, w)
  }

  function Faulty(c: Cluster): set<nat> {
    c.keys.Keys - c.correct
  }

  ghost predicate Fork(c: Cluster, h: seq<Event>, p: ActivationQc, q: ActivationQc) {
    && Assembled(c, h, p) && Assembled(c, h, q)
    && p.predecessorHash == q.predecessorHash && p.successorHash != q.successorHash
  }

  // ---- A fork needs this many ----------------------------------------------------

  lemma SharedSignerRetracts(c: Cluster, h: seq<Event>, p: ActivationQc, q: ActivationQc, w: nat)
    requires SiblingsSeparated(h) && Fork(c, h, p, q)
    requires w in WitnessIds(p.acks) && w in WitnessIds(q.acks) && w in c.correct
    ensures Retracted(h, w)
  {
    var a := SignerAcked(c, h, p, w);
    var b := SignerAcked(c, h, q, w);
    if a < b {
      AckerRetracts(h, w, a, b, p, q);
    } else {
      AckerRetracts(h, w, b, a, q, p);
    }
  }

  lemma AckerRetracts(h: seq<Event>, w: nat, i: nat, j: nat, first: ActivationQc, second: ActivationQc)
    requires SiblingsSeparated(h) && i < j < |h|
    requires h[i].Acked? && h[i].actor == w && AckBindsQc(first, h[i].ack.body)
    requires h[j].Acked? && h[j].actor == w && AckBindsQc(second, h[j].ack.body)
    requires first.predecessorHash == second.predecessorHash && first.successorHash != second.successorHash
    ensures Retracted(h, w)
  {
    SeparatedSiblings(h, w, i, j, first, second);
    var k :| Retracts(h, w, i, k, j, first, second);
  }

  /** The witness acked a rotation, and then accepted a cancellation of it that carries the
      owner's signature. */
  ghost predicate RetractedForOwner(c: Cluster, steps: seq<Delivery>, w: nat) {
    exists i, k :: 0 <= i < k < |Run(c, steps).history| && RetractsForOwner(c, steps, w, i, k)
  }

  ghost predicate RetractsForOwner(c: Cluster, steps: seq<Delivery>, w: nat, i: nat, k: nat)
    requires i < k < |Run(c, steps).history|
  {
    var h := Run(c, steps).history;
    && h[i].Acked? && h[k].Vetoed? && h[i].actor == h[k].actor == w
    && VetoesAck(h[k].veto.body, h[i].ack.body)
    && OwnerAsked(c, steps, w, h[k].veto.body)
  }

  lemma RetractorsAnswerOwner(c: Cluster, steps: seq<Delivery>, w: nat)
    requires WellFormed(c) && Feasible(c, steps) && w in Retractors(c, Run(c, steps).history)
    ensures RetractedForOwner(c, steps, w)
  {
    var h := Run(c, steps).history;
    EveryVetoWasAsked(c, steps);
    var i, k :| 0 <= i < k < |h| && h[i].Acked? && h[k].Vetoed? && h[i].actor == h[k].actor == w
                && VetoesAck(h[k].veto.body, h[i].ack.body);
    assert RetractsForOwner(c, steps, w, i, k);
  }

  /** Certificates for two children of one capsule need `f + 1` witnesses that are faulty
      or have retracted an ack, each of these on the owner's signature. */
  lemma ForkNeedsRetractors(c: Cluster, steps: seq<Delivery>, p: ActivationQc, q: ActivationQc)
    requires WellFormed(c) && Feasible(c, steps) && Fork(c, Run(c, steps).history, p, q)
    ensures |Retractors(c, Run(c, steps).history)| + |Faulty(c)| >= c.faultBound + 1
    ensures forall w :: w in Retractors(c, Run(c, steps).history) ==> RetractedForOwner(c, steps, w)
  {
    var h := Run(c, steps).history;
    RunsAreConsistent(c, steps);
    forall w | w in Retractors(c, h)
      ensures RetractedForOwner(c, steps, w)
    {
      RetractorsAnswerOwner(c, steps, w);
    }
    forall w | w in WitnessIds(p.acks) && w in WitnessIds(q.acks) && w in c.correct
      ensures Retracted(h, w)
    {
      SharedSignerRetracts(c, h, p, q, w);
    }
    SignersArePinned(c, p);
    SignersArePinned(c, q);
    CountShared(WitnessIds(p.acks), WitnessIds(q.acks), c, Retractors(c, h));
  }

  lemma CountShared(a: set<nat>, b: set<nat>, c: Cluster, retractors: set<nat>)
    requires |c.keys| == 3 * c.faultBound + 1 && a <= c.keys.Keys && b <= c.keys.Keys
    requires |a| >= 2 * c.faultBound + 1 && |b| >= 2 * c.faultBound + 1
    requires (a * b) * c.correct <= retractors
    ensures |retractors| + |Faulty(c)| >= c.faultBound + 1
  {
    OverlapSize(a, b, c.keys.Keys);
    SubsetSize((a * b) * c.correct, retractors);
    SubsetSize((a * b) - c.correct, Faulty(c));
    assert a * b == (a * b) * c.correct + ((a * b) - c.correct);
  }

  // ---- The same request to several witnesses -------------------------------------

  function Broadcast(ids: seq<nat>, r: Request): seq<Delivery> {
    seq(|ids|, i requires 0 <= i < |ids| => Delivery(ids[i], r))
  }

  predicate Distinct(ids: seq<nat>) {
    forall i, j :: 0 <= i < j < |ids| ==> ids[i] != ids[j]
  }

  /** What serving one request does to some witnesses, and what each adds to the history. */
  datatype Effect = Effect(after: map<nat, EntryState>, says: map<nat, Option<Event>>)

  function Plus(x: Effect, w: nat, t: EntryState, e: Option<Event>): Effect {
    Effect(x.after[w := t], x.says[w := e])
  }

  function EffectOf(n: Net, ids: seq<nat>, r: Request): (x: Effect)
    requires forall i :: 0 <= i < |ids| ==> ids[i] in n.entries
    ensures x.after.Keys == x.says.Keys && forall w :: w in x.says <==> w in ids
  {
    if ids == [] then Effect(map[], map[])
    else
      var w := ids[|ids| - 1];
      assert ids == ids[..|ids| - 1] + [w];
      Plus(EffectOf(n, ids[..|ids| - 1], r), w, Serve(n.entries[w], r), Emitted(w, n.entries[w], r))
  }

  lemma {:induction false} EffectAt(n: Net, ids: seq<nat>, r: Request, w: nat)
    requires forall i :: 0 <= i < |ids| ==> ids[i] in n.entries
    requires w in ids
    ensures EffectOf(n, ids, r).after[w] == Serve(n.entries[w], r)
    ensures EffectOf(n, ids, r).says[w] == Emitted(w, n.entries[w], r)
    decreases |ids|
  {
    if w != ids[|ids| - 1] {
      EffectAt(n, ids[..|ids| - 1], r, w);
    }
  }

  /** The witnesses of the effect have served once, and nobody else has anything. */
  ghost predicate Served(n: Net, m: Net, x: Effect) {
    && m.entries.Keys == n.entries.Keys
    && (forall w :: w in n.entries ==> m.entries[w] == if w in x.after then x.after[w] else n.entries[w])
    && (forall e :: e in n.history ==> e in m.history)
    && (forall w :: w in x.says && x.says[w].Some? ==> x.says[w].value in m.history)
    && (forall e :: e in m.history ==> e in n.history || Said(x, e))
  }

  ghost predicate Said(x: Effect, e: Event) {
    e.actor in x.says && x.says[e.actor] == Some(e)
  }

  lemma ServedMore(n: Net, m: Net, x: Effect, w: nat, t: EntryState, e: Option<Event>)
    requires Served(n, m, x) && w in n.entries && w !in x.after && w !in x.says
    requires e.Some? ==> e.value.actor == w
    ensures Served(n, Net(m.entries[w := t], Record(m.history, e)), Plus(x, w, t, e))
  {
    var h, y := Record(m.history, e), Plus(x, w, t, e);
    assert forall i :: 0 <= i < |m.history| ==> h[i] == m.history[i];
    if e.Some? {
      assert h[|m.history|] == e.value;
    }
    forall d | d in h
      ensures d in n.history || Said(y, d)
    {
      if d in m.history && d !in n.history {
        assert Said(x, d);
      }
    }
  }

  lemma EmittedActor(w: nat, s: EntryState, r: Request)
    ensures Emitted(w, s, r).Some? ==> Emitted(w, s, r).value.actor == w
  {
  }

  lemma ServedLast(n: Net, m: Net, ids: seq<nat>, r: Request)
    requires ids != [] && Distinct(ids) && forall i :: 0 <= i < |ids| ==> ids[i] in n.entries
    requires Served(n, m, EffectOf(n, ids[..|ids| - 1], r))
    ensures Served(n, Deliver(m, Delivery(ids[|ids| - 1], r)), EffectOf(n, ids, r))
  {
    var w, x := ids[|ids| - 1], EffectOf(n, ids[..|ids| - 1], r);
    EmittedActor(w, n.entries[w], r);
    ServedMore(n, m, x, w, Serve(n.entries[w], r), Emitted(w, n.entries[w], r));
    LastDelivered(n, m, x, w, r);
  }

  lemma LastDelivered(n: Net, m: Net, x: Effect, w: nat, r: Request)
    requires Served(n, m, x) && w in n.entries && w !in x.after
    ensures Deliver(m, Delivery(w, r))
            == Net(m.entries[w := Serve(n.entries[w], r)], Record(m.history, Emitted(w, n.entries[w], r)))
  {
  }

  lemma {:induction false} RunKeys(c: Cluster, steps: seq<Delivery>)
    requires c.correct <= c.keys.Keys
    ensures Run(c, steps).entries.Keys == c.correct
    decreases |steps|
  {
    if steps != [] {
      RunKeys(c, steps[..|steps| - 1]);
    }
  }

  lemma {:induction false} BroadcastFeasible(c: Cluster, steps: seq<Delivery>, ids: seq<nat>, r: Request)
    requires Feasible(c, steps) && !r.FinalizeRequest?
    requires forall i :: 0 <= i < |ids| ==> ids[i] in c.correct
    ensures Feasible(c, steps + Broadcast(ids, r))
    decreases |ids|
  {
    var all := steps + Broadcast(ids, r);
    if ids == [] {
      assert all == steps;
    } else {
      var k := |ids| - 1;
      BroadcastFeasible(c, steps, ids[..k], r);
      assert all[..|all| - 1] == steps + Broadcast(ids[..k], r);
    }
  }

  lemma {:induction false} Broadcasts(c: Cluster, steps: seq<Delivery>, ids: seq<nat>, r: Request)
    requires c.correct <= c.keys.Keys && Distinct(ids) && forall i :: 0 <= i < |ids| ==> ids[i] in c.correct
    ensures Run(c, steps).entries.Keys == c.correct
    ensures Served(Run(c, steps), Run(c, steps + Broadcast(ids, r)), EffectOf(Run(c, steps), ids, r))
    decreases |ids|
  {
    RunKeys(c, steps);
    if ids == [] {
      assert steps + Broadcast(ids, r) == steps;
    } else {
      var k := |ids| - 1;
      Broadcasts(c, steps, ids[..k], r);
      RunBroadcast(c, steps, ids, r);
      ServedLast(Run(c, steps), Run(c, steps + Broadcast(ids[..k], r)), ids, r);
    }
  }

  lemma RunBroadcast(c: Cluster, steps: seq<Delivery>, ids: seq<nat>, r: Request)
    requires ids != []
    ensures var k := |ids| - 1;
            Run(c, steps + Broadcast(ids, r)) == Deliver(Run(c, steps + Broadcast(ids[..k], r)), Delivery(ids[k], r))
  {
    var all := steps + Broadcast(ids, r);
    assert all[..|all| - 1] == steps + Broadcast(ids[..|ids| - 1], r);
  }

  /** The broadcast, witness by witness. */
  lemma BroadcastAt(c: Cluster, steps: seq<Delivery>, ids: seq<nat>, r: Request, w: nat)
    requires c.correct <= c.keys.Keys && Distinct(ids) && forall i :: 0 <= i < |ids| ==> ids[i] in c.correct
    requires w in c.correct
    ensures var n, m := Run(c, steps), Run(c, steps + Broadcast(ids, r));
            && w in n.entries && w in m.entries
            && (w !in ids ==> m.entries[w] == n.entries[w])
            && (w in ids ==>
                  && m.entries[w] == Serve(n.entries[w], r)
                  && (Emitted(w, n.entries[w], r).Some? ==> Emitted(w, n.entries[w], r).value in m.history))
  {
    Broadcasts(c, steps, ids, r);
    if w in ids {
      EffectAt(Run(c, steps), ids, r, w);
    }
  }

  lemma BroadcastAdds(c: Cluster, steps: seq<Delivery>, ids: seq<nat>, r: Request, e: Event)
    requires c.correct <= c.keys.Keys && Distinct(ids) && forall i :: 0 <= i < |ids| ==> ids[i] in c.correct
    ensures e in Run(c, steps).history ==> e in Run(c, steps + Broadcast(ids, r)).history
    ensures e in Run(c, steps + Broadcast(ids, r)).history ==> e in Run(c, steps).history || (e.actor in ids && Answers(r, e))
  {
    Broadcasts(c, steps, ids, r);
    var n := Run(c, steps);
    if e in Run(c, steps + Broadcast(ids, r)).history && e !in n.history {
      assert Said(EffectOf(n, ids, r), e);
      EffectAt(n, ids, r, e.actor);
      EmittedAnswers(e.actor, n.entries[e.actor], r);
    }
  }

  predicate Answers(r: Request, e: Event) {
    && (r.ActivateRequest? ==> e.Acked?)
    && (r.CancelRequest? ==> e.Vetoed?)
  }

  lemma EmittedAnswers(w: nat, s: EntryState, r: Request)
    ensures Emitted(w, s, r).Some? ==> Answers(r, Emitted(w, s, r).value)
  {
  }

  // ---- Choosing witnesses --------------------------------------------------------

  lemma {:induction false} SubsetOfSize(s: set<nat>, k: nat) returns (t: set<nat>)
    requires k <= |s|
    ensures t <= s && |t| == k
    decreases k
  {
    if k == 0 {
      t := {};
    } else {
      var u := SubsetOfSize(s, k - 1);
      assert s - u != {} by {
        assert s == u + (s - u);
      }
      var x :| x in s - u;
      t := u + {x};
    }
  }

  lemma {:induction false} InOrder(s: set<nat>) returns (ids: seq<nat>)
    ensures Distinct(ids) && |ids| == |s| && forall x :: x in ids <==> x in s
    decreases |s|
  {
    if s == {} {
      ids := [];
    } else {
      var x :| x in s;
      var rest := InOrder(s - {x});
      ids := rest + [x];
    }
  }

  // ---- The run -------------------------------------------------------------------

  function NewWitness(c: Cluster, w: nat): EntryState
    requires w in c.keys
  {
    NewEntry(w, c.keys[w], c.signerKeys, c.keys, c.faultBound, c.genesis)
  }

  /** Two certified children of the genesis capsule, and the owner's cancellation of the
      first one's rotation. */
  ghost predicate ForkInputs(c: Cluster, a: ActivationRequest, b: ActivationRequest,
                             cancel: OwnerCancelCertificate, now: U64) {
    && a.capsule.hash != b.capsule.hash
    && a.certificate.context.rotationId != b.certificate.context.rotationId
    && cancel.body.context.rotationId == a.certificate.context.rotationId
    && cancel.body.planHash == a.certificate.planHash
    && (forall w :: w in c.correct && w in c.keys ==>
          && ActivateReply(NewWitness(c, w), a).Some?
          && ActivateReply(NewWitness(c, w), b).Some?
          && AuthenticCancel(NewWitness(c, w), cancel, now))
  }

  predicate SmallIds(c: Cluster) {
    && (forall w :: w in c.keys ==> 0 < w <= MAX_ROTATION_ACTORS)
    && |c.keys| <= MAX_ROTATION_ACTORS
  }

  function QcBy(c: Cluster, certificate: ActivateCertificate, ids: seq<nat>): ActivationQc
    requires forall i :: 0 <= i < |ids| ==> ids[i] in c.keys
  {
    ActivationQc(
      PROTOCOL_VERSION_V3,
      certificate.context.configRef.configId,
      certificate.context.rotationId,
      c.genesis.Epoch(),
      c.genesis.hash,
      certificate.successor.guardianEpoch,
      certificate.successorHash,
      Of(certificate),
      c.faultBound,
      seq(|ids|, i requires 0 <= i < |ids| => Acknowledge(NewWitness(c, ids[i]), certificate)))
  }

  lemma QcCertifies(c: Cluster, a: ActivationRequest, ids: seq<nat>, w: nat)
    requires SmallIds(c) && Distinct(ids) && forall i :: 0 <= i < |ids| ==> ids[i] in c.keys
    requires |ids| == 2 * c.faultBound + 1 <= |c.keys|
    requires w in c.keys && ActivateReply(NewWitness(c, w), a).Some?
    ensures CertifyingQc(c, QcBy(c, a.certificate, ids))
  {
    var qc := QcBy(c, a.certificate, ids);
    assert Succeeds(NewWitness(c, w), a) && Presentable(NewWitness(c, w), a);
    QuorumSigned(c, a.certificate, ids);
  }

  lemma QuorumSigned(c: Cluster, certificate: ActivateCertificate, ids: seq<nat>)
    requires Distinct(ids) && forall i :: 0 <= i < |ids| ==> ids[i] in c.keys
    requires |ids| == 2 * c.faultBound + 1
    ensures WitnessQuorum(c.keys, c.faultBound, QcBy(c, certificate, ids).acks)
  {
    var acks := QcBy(c, certificate, ids).acks;
    DistinctCount(acks);
  }

  lemma {:induction false} DistinctCount(acks: seq<ActivationAck>)
    requires DistinctWitnesses(acks)
    ensures |WitnessIds(acks)| == |acks|
    decreases |acks|
  {
    if acks != [] {
      var k := |acks| - 1;
      DistinctCount(acks[..k]);
      assert WitnessIds(acks) == WitnessIds(acks[..k]) + {acks[k].body.witnessId};
    }
  }

  lemma NewWitnessIsValid(c: Cluster, w: nat)
    requires WellFormed(c) && w in c.correct
    ensures ValidState(NewWitness(c, w)) && NewWitness(c, w).pendingCapsule.None?
  {
    assert AcceptableGenesis(w, c.keys[w], c.signerKeys, c.keys, c.faultBound, c.genesis);
  }

  /** Some witnesses ack the first child. */
  lemma FirstAcks(c: Cluster, first: seq<nat>, a: ActivationRequest, w: nat)
    requires WellFormed(c) && Distinct(first) && forall i :: 0 <= i < |first| ==> first[i] in c.correct
    requires w in c.correct && ActivateReply(NewWitness(c, w), a).Some?
    ensures var n := Run(c, Broadcast(first, ActivateRequest(a)));
            && w in n.entries
            && n.entries[w] == (if w in first then ActivateNext(NewWitness(c, w), a) else NewWitness(c, w))
            && (w in first ==> Acked(w, Acknowledge(NewWitness(c, w), a.certificate)) in n.history)
  {
    var none: seq<Delivery> := [];
    assert none + Broadcast(first, ActivateRequest(a)) == Broadcast(first, ActivateRequest(a));
    BroadcastAt(c, none, first, ActivateRequest(a), w);
  }

  /** Some of those accept the owner's cancellation, which leaves them free again. */
  lemma ThenVeto(c: Cluster, first: seq<nat>, mid: seq<nat>, a: ActivationRequest, b: ActivationRequest,
                 cancel: OwnerCancelCertificate, now: U64, w: nat)
    requires WellFormed(c) && ForkInputs(c, a, b, cancel, now)
    requires Distinct(first) && forall i :: 0 <= i < |first| ==> first[i] in c.correct
    requires Distinct(mid) && forall i :: 0 <= i < |mid| ==> mid[i] in first
    requires w in c.correct && (w in first ==> w in mid)
    ensures var n := Run(c, Broadcast(first, ActivateRequest(a)) + Broadcast(mid, CancelRequest(cancel, now)));
            w in n.entries && ActivateReply(n.entries[w], b) == Some(Acknowledge(NewWitness(c, w), b.certificate))
  {
    NewWitnessIsValid(c, w);
    FirstAcks(c, first, a, w);
    BroadcastAt(c, Broadcast(first, ActivateRequest(a)), mid, CancelRequest(cancel, now), w);
    if w in mid {
      CancelReopensSlot(NewWitness(c, w), a, b, cancel, now);
    }
  }

  function ForkSteps(first: seq<nat>, mid: seq<nat>, last: seq<nat>, a: ActivationRequest, b: ActivationRequest,
                     cancel: OwnerCancelCertificate, now: U64): seq<Delivery> {
    Broadcast(first, ActivateRequest(a)) + Broadcast(mid, CancelRequest(cancel, now)) + Broadcast(last, ActivateRequest(b))
  }

  /** The roles in the run: who acks the first child, who vetoes it then, who acks the
      second. */
  ghost predicate Roles(c: Cluster, first: seq<nat>, mid: seq<nat>, last: seq<nat>) {
    && Distinct(first) && Distinct(mid) && Distinct(last)
    && (forall i :: 0 <= i < |first| ==> first[i] in c.correct)
    && (forall i :: 0 <= i < |mid| ==> mid[i] in first && mid[i] in c.correct)
    && (forall i :: 0 <= i < |last| ==> last[i] in c.correct)
    && (forall w :: w in first && w in last ==> w in mid)
  }

  lemma ForkStepsFeasible(c: Cluster, first: seq<nat>, mid: seq<nat>, last: seq<nat>, a: ActivationRequest,
                          b: ActivationRequest, cancel: OwnerCancelCertificate, now: U64)
    requires Roles(c, first, mid, last)
    ensures Feasible(c, ForkSteps(first, mid, last, a, b, cancel, now))
  {
    var none: seq<Delivery> := [];
    assert none + Broadcast(first, ActivateRequest(a)) == Broadcast(first, ActivateRequest(a));
    BroadcastFeasible(c, none, first, ActivateRequest(a));
    BroadcastFeasible(c, Broadcast(first, ActivateRequest(a)), mid, CancelRequest(cancel, now));
    BroadcastFeasible(c, Broadcast(first, ActivateRequest(a)) + Broadcast(mid, CancelRequest(cancel, now)), last, ActivateRequest(b));
  }

  /** Both children end up acked by their witnesses. */
  lemma BothAcked(c: Cluster, first: seq<nat>, mid: seq<nat>, last: seq<nat>, a: ActivationRequest,
                  b: ActivationRequest, cancel: OwnerCancelCertificate, now: U64, w: nat)
    requires WellFormed(c) && ForkInputs(c, a, b, cancel, now) && Roles(c, first, mid, last) && w in c.correct
    ensures var h := Run(c, ForkSteps(first, mid, last, a, b, cancel, now)).history;
            && (w in first ==> Acked(w, Acknowledge(NewWitness(c, w), a.certificate)) in h)
            && (w in last ==> Acked(w, Acknowledge(NewWitness(c, w), b.certificate)) in h)
  {
    var one := Broadcast(first, ActivateRequest(a));
    var two := one + Broadcast(mid, CancelRequest(cancel, now));
    var ack := Acked(w, Acknowledge(NewWitness(c, w), a.certificate));
    FirstAcks(c, first, a, w);
    BroadcastAdds(c, one, mid, CancelRequest(cancel, now), ack);
    BroadcastAdds(c, two, last, ActivateRequest(b), ack);
    if w in last {
      ThenVeto(c, first, mid, a, b, cancel, now, w);
      BroadcastAt(c, two, last, ActivateRequest(b), w);
    }
  }

  /** Only the chosen witnesses veto. */
  lemma OnlyMidVetoes(c: Cluster, first: seq<nat>, mid: seq<nat>, last: seq<nat>, a: ActivationRequest,
                      b: ActivationRequest, cancel: OwnerCancelCertificate, now: U64, e: Event)
    requires c.correct <= c.keys.Keys && Roles(c, first, mid, last)
    requires e in Run(c, ForkSteps(first, mid, last, a, b, cancel, now)).history && e.Vetoed?
    ensures e.actor in mid
  {
    var none: seq<Delivery> := [];
    var one := Broadcast(first, ActivateRequest(a));
    var two := one + Broadcast(mid, CancelRequest(cancel, now));
    assert none + one == one;
    BroadcastAdds(c, none, first, ActivateRequest(a), e);
    BroadcastAdds(c, one, mid, CancelRequest(cancel, now), e);
    BroadcastAdds(c, two, last, ActivateRequest(b), e);
  }

  lemma QcBacked(c: Cluster, h: seq<Event>, certificate: ActivateCertificate, ids: seq<nat>)
    requires forall i :: 0 <= i < |ids| ==> ids[i] in c.keys
    requires forall w :: w in ids && w in c.correct && w in c.keys ==> Acked(w, Acknowledge(NewWitness(c, w), certificate)) in h
    ensures Backed(c, h, QcBy(c, certificate, ids))
  {
  }

  /** A fork in which no correct witness outside `retractors` gives up an ack. */
  ghost predicate ForksWithin(c: Cluster, retractors: set<nat>, steps: seq<Delivery>, p: ActivationQc, q: ActivationQc) {
    && Feasible(c, steps)
    && Fork(c, Run(c, steps).history, p, q)
    && Retractors(c, Run(c, steps).history) <= retractors
  }

  /** Disjoint camps of `f` correct witnesses each, and as many retractors as make a
      quorum of either camp with them and the faulty ones. */
  lemma Camps(f: nat, correct: set<nat>, faulty: set<nat>, retractors: set<nat>)
    returns (left: set<nat>, mid: set<nat>, right: set<nat>)
    requires correct !! faulty && |correct| + |faulty| == 3 * f + 1 && |faulty| <= f
    requires retractors <= correct && |retractors| + |faulty| >= f + 1
    ensures mid <= retractors && left <= correct && right <= correct
    ensures left !! right && left !! mid && right !! mid
    ensures |left + mid + faulty| == 2 * f + 1 == |right + mid + faulty|
  {
    mid := SubsetOfSize(retractors, f + 1 - |faulty|);
    var others := correct - mid;
    assert correct == others + mid;
    left := SubsetOfSize(others, f);
    right := others - left;
    assert others == left + right;
    JoinedSize(left, mid, faulty);
    JoinedSize(right, mid, faulty);
  }

  lemma JoinedSize(a: set<nat>, b: set<nat>, c: set<nat>)
    requires a !! b && a !! c && b !! c
    ensures |a + b + c| == |a| + |b| + |c|
  {
  }

  lemma RolesOf(c: Cluster, left: set<nat>, mid: set<nat>, right: set<nat>)
    returns (first: seq<nat>, vetoers: seq<nat>, last: seq<nat>)
    requires left <= c.correct && mid <= c.correct && right <= c.correct && left !! right
    ensures Roles(c, first, vetoers, last)
    ensures (forall w :: w in first <==> w in left + mid) && (forall w :: w in vetoers <==> w in mid)
    ensures forall w :: w in last <==> w in right + mid
  {
    first := InOrder(left + mid);
    vetoers := InOrder(mid);
    last := InOrder(right + mid);
    assert forall i :: 0 <= i < |first| ==> first[i] in first;
    assert forall i :: 0 <= i < |vetoers| ==> vetoers[i] in vetoers;
    assert forall i :: 0 <= i < |last| ==> last[i] in last;
  }

  lemma QcFor(c: Cluster, h: seq<Event>, r: ActivationRequest, signers: set<nat>, w: nat) returns (qc: ActivationQc)
    requires WellFormed(c) && SmallIds(c) && signers <= c.keys.Keys && |signers| == 2 * c.faultBound + 1
    requires w in c.correct && ActivateReply(NewWitness(c, w), r).Some?
    requires forall v :: v in signers && v in c.correct ==> Acked(v, Acknowledge(NewWitness(c, v), r.certificate)) in h
    ensures Assembled(c, h, qc) && qc.predecessorHash == c.genesis.hash && qc.successorHash == r.capsule.hash
  {
    var ids := InOrder(signers);
    qc := QcBy(c, r.certificate, ids);
    QcCertifies(c, r, ids, w);
    QcBacked(c, h, r.certificate, ids);
  }

  lemma CampsFork(c: Cluster, a: ActivationRequest, b: ActivationRequest, cancel: OwnerCancelCertificate, now: U64,
                  first: seq<nat>, mid: seq<nat>, last: seq<nat>, left: set<nat>, right: set<nat>)
    returns (p: ActivationQc, q: ActivationQc)
    requires WellFormed(c) && SmallIds(c) && ForkInputs(c, a, b, cancel, now) && Roles(c, first, mid, last)
    requires left <= c.keys.Keys && right <= c.keys.Keys && |left| == 2 * c.faultBound + 1 == |right|
    requires forall w :: w in left && w in c.correct ==> w in first
    requires forall w :: w in right && w in c.correct ==> w in last
    ensures Fork(c, Run(c, ForkSteps(first, mid, last, a, b, cancel, now)).history, p, q)
  {
    var h := Run(c, ForkSteps(first, mid, last, a, b, cancel, now)).history;
    forall w | w in c.correct
      ensures w in first ==> Acked(w, Acknowledge(NewWitness(c, w), a.certificate)) in h
      ensures w in last ==> Acked(w, Acknowledge(NewWitness(c, w), b.certificate)) in h
    {
      BothAcked(c, first, mid, last, a, b, cancel, now, w);
    }
    var w := SomeCorrect(c);
    p := QcFor(c, h, a, left, w);
    q := QcFor(c, h, b, right, w);
  }

  lemma RetractorsAreMid(c: Cluster, first: seq<nat>, mid: seq<nat>, last: seq<nat>, a: ActivationRequest,
                         b: ActivationRequest, cancel: OwnerCancelCertificate, now: U64)
    requires c.correct <= c.keys.Keys && Roles(c, first, mid, last)
    ensures forall w :: w in Retractors(c, Run(c, ForkSteps(first, mid, last, a, b, cancel, now)).history) ==> w in mid
  {
    var h := Run(c, ForkSteps(first, mid, last, a, b, cancel, now)).history;
    forall w | w in Retractors(c, h)
      ensures w in mid
    {
      var k :| 0 <= k < |h| && h[k].Vetoed? && h[k].actor == w;
      OnlyMidVetoes(c, first, mid, last, a, b, cancel, now, h[k]);
    }
  }

  /** With that many witnesses faulty or willing, the owner's cancellation leads to a fork. */
  lemma ForkReachable(c: Cluster, a: ActivationRequest, b: ActivationRequest, cancel: OwnerCancelCertificate, now: U64,
                      retractors: set<nat>) returns (steps: seq<Delivery>, p: ActivationQc, q: ActivationQc)
    requires WellFormed(c) && SmallIds(c) && ForkInputs(c, a, b, cancel, now)
    requires retractors <= c.correct && |retractors| + |Faulty(c)| >= c.faultBound + 1
    ensures ForksWithin(c, retractors, steps, p, q)
  {
    CorrectAndFaulty(c);
    var left, mid, right := Camps(c.faultBound, c.correct, Faulty(c), retractors);
    var first, vetoers, last := RolesOf(c, left, mid, right);
    steps := ForkSteps(first, vetoers, last, a, b, cancel, now);
    ForkStepsFeasible(c, first, vetoers, last, a, b, cancel, now);
    RetractorsAreMid(c, first, vetoers, last, a, b, cancel, now);
    p, q := CampsFork(c, a, b, cancel, now, first, vetoers, last, left + mid + Faulty(c), right + mid + Faulty(c));
  }

  lemma CorrectAndFaulty(c: Cluster)
    requires WellFormed(c)
    ensures |c.correct| + |Faulty(c)| == 3 * c.faultBound + 1
  {
    assert c.keys.Keys == c.correct + Faulty(c);
  }

  lemma SomeCorrect(c: Cluster) returns (w: nat)
    requires WellFormed(c)
    ensures w in c.correct
  {
    assert c.correct == {} ==> Faulty(c) == c.keys.Keys;
    w :| w in c.correct;
  }

  /** Exactly how much retraction a fork takes: certificates for two children of one
      capsule can come about with retractions by these witnesses alone if and only if,
      together with the faulty ones, they are `f + 1`. */
  lemma ForkIffEnoughRetract(c: Cluster, a: ActivationRequest, b: ActivationRequest, cancel: OwnerCancelCertificate,
                             now: U64, retractors: set<nat>)
    requires WellFormed(c) && SmallIds(c) && ForkInputs(c, a, b, cancel, now) && retractors <= c.correct
    ensures (exists steps, p, q :: ForksWithin(c, retractors, steps, p, q))
            <==> |retractors| + |Faulty(c)| >= c.faultBound + 1
  {
    if |retractors| + |Faulty(c)| >= c.faultBound + 1 {
      var steps, p, q := ForkReachable(c, a, b, cancel, now, retractors);
    }
    if steps, p, q :| ForksWithin(c, retractors, steps, p, q) {
      ForkNeedsRetractors(c, steps, p, q);
      SubsetSize(Retractors(c, Run(c, steps).history), retractors);
    }
  }

  // ---- Such clusters exist -------------------------------------------------------

  const OWNER: Key := 900
  const SIGNER: Key := 100

  function SampleBody(epoch: U64, binding: Id32, predecessorHash: CapsuleHash): CapsuleBody {
    CapsuleBody(PROTOCOL_VERSION_V3, ConfigRef(7, 1, 1, epoch, binding), predecessorHash, 1, 1, 3, 2, 0, 1000,
                map[1 := SIGNER], OWNER, 1, 0, binding)
  }

  function CapsuleOf(body: CapsuleBody): Capsule {
    Capsule(body, BodyHash(body), None, None)
  }

  function SampleGenesis(): Capsule {
    CapsuleOf(SampleBody(1, 0, ZERO_HASH))
  }

  function SampleContext(rotationId: Id32): RotationContext {
    RotationContext(PROTOCOL_VERSION_V3, SampleGenesis().body.configRef, rotationId, SampleGenesis().hash,
                    seq(XWING_PUBLIC_KEY_LEN, i => 0), rotationId, 0, 1000)
  }

  /** The certified child that a rotation leads to. */
  function SampleChild(rotationId: Id32): ActivationRequest {
    var child := CapsuleOf(SampleBody(2, rotationId, SampleGenesis().hash));
    var body := ActivateVoteBody(SampleContext(rotationId), Raw(rotationId), 0, child.hash, 1, SIGNER);
    ActivationRequest(child,
      ActivateCertificate(SampleContext(rotationId), Raw(rotationId), 0, child.body.configRef, child.hash,
                          [ActivateVote(body, Signature(SIGNER, ActivateVoteMessage(body)))]))
  }

  function SampleCancel(rotationId: Id32): OwnerCancelCertificate {
    var body := OwnerCancelBody(SampleContext(rotationId), Raw(rotationId), 0, seq(XWING_PUBLIC_KEY_LEN, i => 0), OWNER);
    OwnerCancelCertificate(body, Signature(OWNER, OwnerCancelMessage(body)))
  }

  function SampleCluster(correct: set<nat>): Cluster {
    Cluster(map[1 := 1, 2 := 2, 3 := 3, 4 := 4], 1, correct, map[1 := SIGNER], SampleGenesis())
  }

  lemma SampleAccepts(c: Cluster, w: nat, rotationId: Id32)
    requires c == SampleCluster({1, 2, 3}) && w in c.keys && rotationId != 0
    ensures ActivateReply(NewWitness(c, w), SampleChild(rotationId)).Some?
    ensures AuthenticCancel(NewWitness(c, w), SampleCancel(rotationId), 5)
  {
    var s, r := NewWitness(c, w), SampleChild(rotationId);
    assert Presentable(s, r);
    assert Succeeds(s, r);
  }

  lemma SampleGenesisFits(keys: map<nat, Key>, w: nat)
    requires keys == map[1 := 1, 2 := 2, 3 := 3, 4 := 4] && w in keys
    ensures |keys| == 4 && AcceptableGenesis(w, keys[w], map[1 := SIGNER], keys, 1, SampleGenesis())
  {
    assert keys.Keys == {1, 2, 3, 4};
  }

  lemma SampleIsWellFormed()
    ensures WellFormed(SampleCluster({1, 2, 3})) && SmallIds(SampleCluster({1, 2, 3}))
    ensures Faulty(SampleCluster({1, 2, 3})) == {4}
  {
    var c := SampleCluster({1, 2, 3});
    assert c.keys.Keys == {1, 2, 3, 4};
    assert Faulty(c) == {4};
    forall w | w in c.correct
      ensures AcceptableGenesis(w, c.keys[w], c.signerKeys, c.keys, c.faultBound, c.genesis)
    {
      SampleGenesisFits(c.keys, w);
    }
  }

  lemma SampleInputs()
    ensures ForkInputs(SampleCluster({1, 2, 3}), SampleChild(11), SampleChild(12), SampleCancel(11), 5)
  {
    var c := SampleCluster({1, 2, 3});
    forall w | w in c.correct && w in c.keys
      ensures ActivateReply(NewWitness(c, w), SampleChild(11)).Some? && ActivateReply(NewWitness(c, w), SampleChild(12)).Some?
      ensures AuthenticCancel(NewWitness(c, w), SampleCancel(11), 5)
    {
      SampleAccepts(c, w, 11);
      SampleAccepts(c, w, 12);
    }
  }

  /** Four witnesses, one of them faulty: a single correct witness that accepts the owner's
      cancellation after its ack is enough for two certified children. */
  lemma OneRetractorForks() returns (c: Cluster, steps: seq<Delivery>, p: ActivationQc, q: ActivationQc)
    ensures WellFormed(c) && |Faulty(c)| == 1 && c.faultBound == 1
    ensures ForksWithin(c, {1}, steps, p, q)
  {
    c := SampleCluster({1, 2, 3});
    SampleIsWellFormed();
    SampleInputs();
    steps, p, q := ForkReachable(c, SampleChild(11), SampleChild(12), SampleCancel(11), 5, {1});
  }
}
