/** Runs of a witness cluster. `3f + 1` witnesses are pinned, at most `f` of them are
    faulty; correct witnesses serve any requests in any order. Faulty witnesses, the
    coordinator, the signers and the owner may send whatever they can sign: the only
    restriction on a request is that a correct witness's ack cannot be forged. */
module WitnessNetwork {
  import opened Foundations
  import opened EpochTypes
  import opened WitnessEntry

  datatype Cluster = Cluster(
    keys: map<nat, Key>,
    faultBound: nat,
    correct: set<nat>,
    signerKeys: map<nat, Key>,
    genesis: Capsule)

  ghost predicate WellFormed(c: Cluster) {
    && |c.keys| == 3 * c.faultBound + 1
    && c.correct <= c.keys.Keys
    && |c.keys.Keys - c.correct| <= c.faultBound
    && (forall w :: w in c.correct ==>
          AcceptableGenesis(w, c.keys[w], c.signerKeys, c.keys, c.faultBound, c.genesis))
  }

  datatype Request =
    | ActivateRequest(activation: ActivationRequest)
    | CancelRequest(certificate: OwnerCancelCertificate, cancelledAt: U64)
    | FinalizeRequest(qc: ActivationQc)
    | ReadRequest(challenge: ReadChallenge, readAt: U64)

  /** One line of the history: what a correct witness signed or stored. */
  datatype Event =
    | Acked(actor: nat, ack: ActivationAck)
    | Vetoed(actor: nat, veto: CancelAck)
    | Finalized(actor: nat, qc: ActivationQc)
    | Answered(actor: nat, envelope: ReadEnvelope)

  datatype Delivery = Delivery(recipient: nat, request: Request)

  datatype Net = Net(entries: map<nat, EntryState>, history: seq<Event>)

  function Serve(s: EntryState, r: Request): EntryState {
    match r
    case ActivateRequest(activation) => ActivateNext(s, activation)
    case CancelRequest(certificate, now) => CancelNext(s, certificate, now)
    case FinalizeRequest(qc) => FinalizeNext(s, qc)
    case ReadRequest(challenge, now) => ReadNext(s, challenge, now)
  }

  function Emitted(w: nat, s: EntryState, r: Request): Option<Event> {
    match r
    case ActivateRequest(activation) =>
      var reply := ActivateReply(s, activation);
      if reply.Some? then Some(Acked(w, reply.value)) else None
    case CancelRequest(certificate, now) =>
      var reply := CancelReply(s, certificate, now);
      if reply.Some? then Some(Vetoed(w, reply.value)) else None
    case FinalizeRequest(qc) =>
      if Finalizes(s, qc) then Some(Finalized(w, qc)) else None
    case ReadRequest(challenge, now) =>
      var reply := ReadReply(s, challenge, now);
      if reply.Some? then Some(Answered(w, reply.value)) else None
  }

  function Record(h: seq<Event>, e: Option<Event>): seq<Event> {
    if e.Some? then h + [e.value] else h
  }

  function Deliver(n: Net, d: Delivery): Net {
    if d.recipient !in n.entries then n
    else
      var s := n.entries[d.recipient];
      Net(n.entries[d.recipient := Serve(s, d.request)], Record(n.history, Emitted(d.recipient, s, d.request)))
  }

  function Start(c: Cluster): Net {
    Net(map w | w in c.correct && w in c.keys :: NewEntry(w, c.keys[w], c.signerKeys, c.keys, c.faultBound, c.genesis), [])
  }

  function Run(c: Cluster, steps: seq<Delivery>): Net {
    if steps == [] then Start(c) else Deliver(Run(c, steps[..|steps| - 1]), steps[|steps| - 1])
  }

  /** Unforgeability: a verifying ack under a correct witness's key was issued by it. */
  ghost predicate Backed(c: Cluster, h: seq<Event>, qc: ActivationQc) {
    forall i :: 0 <= i < |qc.acks| && qc.acks[i].body.witnessId in c.correct && PinnedAck(c.keys, qc.acks[i]) ==>
      Acked(qc.acks[i].body.witnessId, qc.acks[i]) in h
  }

  ghost predicate Possible(c: Cluster, h: seq<Event>, d: Delivery) {
    && d.recipient in c.correct
    && (d.request.FinalizeRequest? ==> Backed(c, h, d.request.qc))
  }

  /** Every delivery of the run can happen in the state the earlier ones lead to. */
  ghost predicate Feasible(c: Cluster, steps: seq<Delivery>) {
    steps != [] ==>
      var before := steps[..|steps| - 1];
      Feasible(c, before) && Possible(c, Run(c, before).history, steps[|steps| - 1])
  }

  /** A QC any verifier accepts: well formed, with a quorum of pinned signatures. */
  predicate CertifyingQc(c: Cluster, qc: ActivationQc) {
    QcEncodes(qc) && WitnessQuorum(c.keys, c.faultBound, qc.acks)
  }

  // ---- The invariant of a run ----------------------------------------------------

  /** The veto is for the rotation and the plan of the ack. */
  predicate VetoesAck(veto: CancelAckBody, ack: ActivationAckBody) {
    veto.rotationId == ack.context.rotationId && veto.planHash == ack.planHash
  }

  ghost predicate VetoedBetween(h: seq<Event>, w: nat, ack: ActivationAckBody, i: int, j: int) {
    exists k :: 0 <= i < k < j <= |h| && h[k].Vetoed? && h[k].actor == w && VetoesAck(h[k].veto.body, ack)
  }

  /** Why an issued ack is no longer a live promise, unless it still is one. */
  ghost predicate Explained(h: seq<Event>, i: nat, s: EntryState)
    requires i < |h| && h[i].Acked?
  {
    var ack := h[i].ack;
    || s.pendingAck == Some(ack)
    || Depth(ack.body.predecessorHash) < Depth(s.capsule.hash)
    || VetoedBetween(h, h[i].actor, ack.body, i, |h|)
  }

  ghost predicate AcksExplained(n: Net) {
    forall i :: 0 <= i < |n.history| && n.history[i].Acked? ==>
      && n.history[i].actor in n.entries
      && n.history[i].ack.body.witnessId == n.history[i].actor
      && Explained(n.history, i, n.entries[n.history[i].actor])
  }

  ghost predicate Siblings(a: ActivationAck, b: ActivationAck) {
    a.body.predecessorHash == b.body.predecessorHash && a.body.successorHash != b.body.successorHash
  }

  /** A witness acks a sibling only after vetoing what it acked before. */
  ghost predicate SiblingsSeparated(h: seq<Event>) {
    forall i, j :: 0 <= i < j < |h| && h[i].Acked? && h[j].Acked?
                   && h[i].actor == h[j].actor && Siblings(h[i].ack, h[j].ack) ==>
      VetoedBetween(h, h[i].actor, h[i].ack.body, i, j)
  }

  /** A veto is recorded for ever, and no ack for its rotation follows it. */
  ghost predicate VetoesHold(n: Net) {
    && (forall i :: 0 <= i < |n.history| && n.history[i].Vetoed? ==>
          && n.history[i].actor in n.entries
          && n.history[i].veto.body.rotationId in n.entries[n.history[i].actor].cancellations)
    && (forall i, j :: 0 <= i < j < |n.history| && n.history[i].Vetoed? && n.history[j].Acked?
                       && n.history[i].actor == n.history[j].actor ==>
          n.history[i].veto.body.rotationId != n.history[j].ack.body.context.rotationId)
  }

  ghost predicate FinalityCertified(c: Cluster, h: seq<Event>) {
    forall i :: 0 <= i < |h| && h[i].Finalized? ==> CertifyingQc(c, h[i].qc) && Backed(c, h, h[i].qc)
  }

  /** A finalised QC in the history links `child` to its predecessor. */
  ghost predicate Linked(h: seq<Event>, child: CapsuleHash)
    requires child.BodyHash?
  {
    exists i :: 0 <= i < |h| && h[i].Finalized?
                && h[i].qc.successorHash == child && h[i].qc.predecessorHash == child.body.predecessorHash
  }

  /** Every link from `hash` back to the genesis capsule was finalised by someone. */
  ghost predicate Certified(c: Cluster, h: seq<Event>, hash: CapsuleHash)
    decreases hash
  {
    hash == c.genesis.hash
    || (hash.BodyHash? && Linked(h, hash) && Certified(c, h, hash.body.predecessorHash))
  }

  ghost predicate Identified(c: Cluster, w: nat, s: EntryState) {
    && w in c.keys
    && s.witnessId == w && s.witnessKey == c.keys[w]
    && s.witnessKeys == c.keys && s.faultBound == c.faultBound
  }

  ghost predicate EntrySound(c: Cluster, h: seq<Event>, w: nat, s: EntryState) {
    ValidState(s) && Identified(c, w, s) && Certified(c, h, s.capsule.hash)
  }

  ghost predicate Consistent(c: Cluster, n: Net) {
    && n.entries.Keys == c.correct
    && (forall w :: w in c.correct ==> EntrySound(c, n.history, w, n.entries[w]))
    && AcksExplained(n)
    && SiblingsSeparated(n.history)
    && VetoesHold(n)
    && FinalityCertified(c, n.history)
  }

  // ---- One witness's step --------------------------------------------------------

  /** Everything the run argument needs to know about one request: `s` is the entry
      before, `t` the entry after, `e` the event it adds to the history. */
  ghost predicate Moves(w: nat, s: EntryState, t: EntryState, e: Option<Event>) {
    && Depth(s.capsule.hash) <= Depth(t.capsule.hash)
    && s.capsule.Epoch() <= t.capsule.Epoch()
    && s.cancellations.Keys <= t.cancellations.Keys
    && (s.pendingAck.Some? && t.pendingAck != s.pendingAck ==>
          || Depth(s.pendingAck.value.body.predecessorHash) < Depth(t.capsule.hash)
          || (e.Some? && e.value.Vetoed? && e.value.actor == w && VetoesAck(e.value.veto.body, s.pendingAck.value.body)))
    && (s.pendingAck.Some? ==> s.pendingAck.value.body.predecessorHash == s.capsule.hash)
    && (e.Some? ==> e.value.actor == w)
    && (e.Some? && e.value.Acked? ==> AckMove(w, s, t, e.value.ack))
    && (e.Some? && e.value.Vetoed? ==> e.value.veto.body.rotationId in t.cancellations)
    && (e.Some? && e.value.Answered? ==> e.value.envelope.response.body.highestGuardianEpoch == s.capsule.Epoch())
    && if e.Some? && e.value.Finalized? then FinalMove(s, t, e.value.qc) else t.capsule == s.capsule
  }

  /** A returned ack is the pending ack afterwards, names the finalised capsule as
      predecessor, and belongs to a rotation that is not vetoed. */
  ghost predicate AckMove(w: nat, s: EntryState, t: EntryState, ack: ActivationAck) {
    && t.pendingAck == Some(ack)
    && ack.body.witnessId == w
    && ack.body.predecessorHash == s.capsule.hash
    && ack.body.context.rotationId !in s.cancellations
    && (s.pendingAck.Some? ==> s.pendingAck == Some(ack))
  }

  ghost predicate FinalMove(s: EntryState, t: EntryState, qc: ActivationQc) {
    && t.capsule.hash.BodyHash?
    && qc.successorHash == t.capsule.hash
    && qc.predecessorHash == t.capsule.hash.body.predecessorHash == s.capsule.hash
    && QcEncodes(qc) && WitnessQuorum(s.witnessKeys, s.faultBound, qc.acks)
  }

  ghost predicate SameIdentity(s: EntryState, t: EntryState) {
    && t.witnessId == s.witnessId && t.witnessKey == s.witnessKey
    && t.witnessKeys == s.witnessKeys && t.faultBound == s.faultBound
  }

  lemma ServeMoves(s: EntryState, r: Request)
    requires ValidState(s)
    ensures ValidState(Serve(s, r)) && SameIdentity(s, Serve(s, r))
    ensures Moves(s.witnessId, s, Serve(s, r), Emitted(s.witnessId, s, r))
  {
    match r
    case ActivateRequest(activation) => ActivateMoves(s, activation);
    case CancelRequest(certificate, now) => CancelMoves(s, certificate, now);
    case FinalizeRequest(qc) => FinalizeMoves(s, qc);
    case ReadRequest(challenge, now) => ReadMoves(s, challenge, now);
  }

  lemma ReadMoves(s: EntryState, challenge: ReadChallenge, now: U64)
    requires ValidState(s)
    ensures var r := ReadRequest(challenge, now);
            && ValidState(Serve(s, r)) && SameIdentity(s, Serve(s, r))
            && Moves(s.witnessId, s, Serve(s, r), Emitted(s.witnessId, s, r))
  {
    ReadKeepsValid(s, challenge, now);
  }

  lemma ActivateMoves(s: EntryState, activation: ActivationRequest)
    requires ValidState(s)
    ensures var r := ActivateRequest(activation);
            && ValidState(Serve(s, r)) && SameIdentity(s, Serve(s, r))
            && Moves(s.witnessId, s, Serve(s, r), Emitted(s.witnessId, s, r))
  {
    ActivateKeepsValid(s, activation);
  }

  lemma CancelMoves(s: EntryState, certificate: OwnerCancelCertificate, now: U64)
    requires ValidState(s)
    ensures var r := CancelRequest(certificate, now);
            && ValidState(Serve(s, r)) && SameIdentity(s, Serve(s, r))
            && Moves(s.witnessId, s, Serve(s, r), Emitted(s.witnessId, s, r))
  {
    CancelKeepsValid(s, certificate, now);
  }

  lemma FinalizeMoves(s: EntryState, qc: ActivationQc)
    requires ValidState(s)
    ensures var r := FinalizeRequest(qc);
            && ValidState(Serve(s, r)) && SameIdentity(s, Serve(s, r))
            && Moves(s.witnessId, s, Serve(s, r), Emitted(s.witnessId, s, r))
  {
    FinalizeKeepsValid(s, qc);
  }

  // ---- The invariant, step by step -----------------------------------------------

  lemma VetoedBetweenGrows(h: seq<Event>, e: Option<Event>, w: nat, ack: ActivationAckBody, i: int, j: int, j': int)
    requires VetoedBetween(h, w, ack, i, j) && j <= j' <= |Record(h, e)|
    ensures VetoedBetween(Record(h, e), w, ack, i, j')
  {
    var k :| 0 <= i < k < j <= |h| && h[k].Vetoed? && h[k].actor == w && VetoesAck(h[k].veto.body, ack);
    assert Record(h, e)[k] == h[k];
  }

  lemma {:induction false} CertifiedGrows(c: Cluster, h: seq<Event>, e: Option<Event>, hash: CapsuleHash)
    requires Certified(c, h, hash)
    ensures Certified(c, Record(h, e), hash)
    decreases hash
  {
    if hash != c.genesis.hash {
      var i :| 0 <= i < |h| && h[i].Finalized?
               && h[i].qc.successorHash == hash && h[i].qc.predecessorHash == hash.body.predecessorHash;
      assert Record(h, e)[i] == h[i];
      CertifiedGrows(c, h, e, hash.body.predecessorHash);
    }
  }

  lemma AcksExplainedStep(n: Net, w: nat, t: EntryState, e: Option<Event>)
    requires w in n.entries && Moves(w, n.entries[w], t, e)
    requires AcksExplained(n)
    ensures AcksExplained(Net(n.entries[w := t], Record(n.history, e)))
  {
    var s, h := n.entries[w], Record(n.history, e);
    forall i | 0 <= i < |h| && h[i].Acked?
      ensures h[i].actor in n.entries && h[i].ack.body.witnessId == h[i].actor
      ensures Explained(h, i, n.entries[w := t][h[i].actor])
    {
      if i < |n.history| {
        assert h[i] == n.history[i] && Explained(n.history, i, n.entries[h[i].actor]);
        var ack := h[i].ack.body;
        if VetoedBetween(n.history, h[i].actor, ack, i, |n.history|) {
          VetoedBetweenGrows(n.history, e, h[i].actor, ack, i, |n.history|, |h|);
        } else if e.Some? && e.value.Vetoed? && e.value.actor == h[i].actor && VetoesAck(e.value.veto.body, ack) {
          assert h[|n.history|] == e.value;
          assert VetoedBetween(h, h[i].actor, ack, i, |h|);
        }
      }
    }
  }

  lemma SiblingsSeparatedStep(n: Net, w: nat, t: EntryState, e: Option<Event>)
    requires w in n.entries && Moves(w, n.entries[w], t, e)
    requires AcksExplained(n) && SiblingsSeparated(n.history)
    ensures SiblingsSeparated(Record(n.history, e))
  {
    var s, h := n.entries[w], Record(n.history, e);
    forall i, j | 0 <= i < j < |h| && h[i].Acked? && h[j].Acked?
                  && h[i].actor == h[j].actor && Siblings(h[i].ack, h[j].ack)
      ensures VetoedBetween(h, h[i].actor, h[i].ack.body, i, j)
    {
      assert h[i] == n.history[i];
      if j == |n.history| {
        assert Explained(n.history, i, s);
      } else {
        assert h[j] == n.history[j];
      }
      VetoedBetweenGrows(n.history, e, h[i].actor, h[i].ack.body, i, j, j);
    }
  }

  lemma VetoesHoldStep(n: Net, w: nat, t: EntryState, e: Option<Event>)
    requires w in n.entries && Moves(w, n.entries[w], t, e)
    requires VetoesHold(n)
    ensures VetoesHold(Net(n.entries[w := t], Record(n.history, e)))
  {
    var h := Record(n.history, e);
    assert forall i :: 0 <= i < |n.history| ==> h[i] == n.history[i];
  }

  lemma FinalityStep(c: Cluster, n: Net, w: nat, t: EntryState, e: Option<Event>)
    requires w in n.entries && Moves(w, n.entries[w], t, e)
    requires w in c.keys && Identified(c, w, n.entries[w])
    requires FinalityCertified(c, n.history)
    requires e.Some? && e.value.Finalized? ==> Backed(c, n.history, e.value.qc)
    ensures FinalityCertified(c, Record(n.history, e))
  {
    var h := Record(n.history, e);
    forall i | 0 <= i < |h| && h[i].Finalized?
      ensures CertifyingQc(c, h[i].qc) && Backed(c, h, h[i].qc)
    {
      if i < |n.history| {
        assert h[i] == n.history[i];
      }
    }
  }

  lemma CertifiedStep(c: Cluster, n: Net, w: nat, t: EntryState, e: Option<Event>)
    requires w in n.entries && Moves(w, n.entries[w], t, e)
    requires Certified(c, n.history, n.entries[w].capsule.hash)
    ensures Certified(c, Record(n.history, e), t.capsule.hash)
  {
    var h := Record(n.history, e);
    CertifiedGrows(c, n.history, e, n.entries[w].capsule.hash);
    if e.Some? && e.value.Finalized? {
      assert h[|n.history|] == e.value;
      assert Linked(h, t.capsule.hash);
    }
  }

  lemma EntriesStaySound(c: Cluster, n: Net, w: nat, t: EntryState, e: Option<Event>)
    requires Consistent(c, n) && w in c.correct
    requires EntrySound(c, Record(n.history, e), w, t)
    ensures forall v :: v in c.correct ==> v in n.entries && EntrySound(c, Record(n.history, e), v, n.entries[w := t][v])
  {
    forall v | v in c.correct
      ensures v in n.entries && EntrySound(c, Record(n.history, e), v, n.entries[w := t][v])
    {
      assert EntrySound(c, n.history, v, n.entries[v]);
      CertifiedGrows(c, n.history, e, n.entries[v].capsule.hash);
    }
  }

  lemma MoveKeepsConsistent(c: Cluster, n: Net, w: nat, t: EntryState, e: Option<Event>)
    requires Consistent(c, n) && w in c.correct
    requires ValidState(t) && SameIdentity(n.entries[w], t) && Moves(w, n.entries[w], t, e)
    requires e.Some? && e.value.Finalized? ==> Backed(c, n.history, e.value.qc)
    ensures Consistent(c, Net(n.entries[w := t], Record(n.history, e)))
  {
    var h := Record(n.history, e);
    assert EntrySound(c, n.history, w, n.entries[w]);
    AcksExplainedStep(n, w, t, e);
    SiblingsSeparatedStep(n, w, t, e);
    VetoesHoldStep(n, w, t, e);
    FinalityStep(c, n, w, t, e);
    CertifiedStep(c, n, w, t, e);
    EntriesStaySound(c, n, w, t, e);
  }

  lemma DeliveryMoves(n: Net, d: Delivery) returns (t: EntryState, e: Option<Event>)
    requires d.recipient in n.entries
    requires ValidState(n.entries[d.recipient]) && n.entries[d.recipient].witnessId == d.recipient
    ensures ValidState(t) && SameIdentity(n.entries[d.recipient], t) && Moves(d.recipient, n.entries[d.recipient], t, e)
    ensures e.Some? && e.value.Finalized? ==> d.request == FinalizeRequest(e.value.qc)
    ensures Deliver(n, d) == Net(n.entries[d.recipient := t], Record(n.history, e))
  {
    var s := n.entries[d.recipient];
    t, e := Serve(s, d.request), Emitted(d.recipient, s, d.request);
    ServeMoves(s, d.request);
  }

  lemma StepKeepsConsistent(c: Cluster, n: Net, d: Delivery)
    requires Consistent(c, n) && Possible(c, n.history, d)
    ensures Consistent(c, Deliver(n, d))
  {
    assert EntrySound(c, n.history, d.recipient, n.entries[d.recipient]);
    var t, e := DeliveryMoves(n, d);
    MoveKeepsConsistent(c, n, d.recipient, t, e);
  }

  lemma StartIsConsistent(c: Cluster)
    requires WellFormed(c)
    ensures Consistent(c, Start(c))
  {
    forall w | w in c.correct
      ensures EntrySound(c, [], w, Start(c).entries[w])
    {
      assert AcceptableGenesis(w, c.keys[w], c.signerKeys, c.keys, c.faultBound, c.genesis);
    }
  }

  /** The invariant holds in every reachable state. */
  lemma {:induction false} RunsAreConsistent(c: Cluster, steps: seq<Delivery>)
    requires WellFormed(c) && Feasible(c, steps)
    ensures Consistent(c, Run(c, steps))
    decreases |steps|
  {
    if steps == [] {
      StartIsConsistent(c);
    } else {
      RunsAreConsistent(c, steps[..|steps| - 1]);
      StepKeepsConsistent(c, Run(c, steps[..|steps| - 1]), steps[|steps| - 1]);
    }
  }

  lemma RunEntryValid(c: Cluster, steps: seq<Delivery>, w: nat)
    requires WellFormed(c) && Feasible(c, steps) && w in c.correct
    ensures w in Run(c, steps).entries
    ensures ValidState(Run(c, steps).entries[w]) && Run(c, steps).entries[w].witnessId == w
  {
    RunsAreConsistent(c, steps);
    assert EntrySound(c, Run(c, steps).history, w, Run(c, steps).entries[w]);
  }
}
