/** Version-2 recoveries over whole runs: what rebuilding the machine preserves, and why
    enough cancellation acks beat the recovery threshold. */
module HardCancel {
  import opened Foundations
  import opened GuardianMachineV2
  import opened GuardianMailbox

  /** A run of one mailbox, beside one machine kept alive and fed every Begin and Cancel
      the mailbox accepts. */
  datatype Run = Run(states: seq<MailboxState>, machines: seq<MachineState>, ops: seq<MailOp>)
  {
    ghost predicate Follows(i: nat)
      requires |states| == |machines| == |ops| + 1
    {
      i < |ops| ==>
        && ValidMailbox(states[i])
        && states[i + 1] == Next(states[i], ops[i])
        && machines[i + 1] == Fed(machines[i], ops[i], states[i].policy, Admitted(states[i], ops[i]))
    }

    ghost predicate Valid() {
      && |states| == |machines| == |ops| + 1
      && states[0] == MailboxState(states[0].policy, map[], map[], map[], {})
      && machines[0] == NewMachine(states[0].policy.configId, states[0].policy.version)
      && forall i: nat {:trigger Follows(i)} :: Follows(i)
    }
  }

  /** The kept machine after one request; `accepted` is the mailbox's verdict. */
  function Fed(m: MachineState, op: MailOp, p: Policy, accepted: bool): MachineState {
    match op
    case BeginOp(q, _, wall, now, _) =>
      if accepted && BeginRefusal(m, q, Of(q), wall, true).None? then Begun(m, q, Of(q), now, p.minimumDelay) else m
    case CancelOp(q, _, _) =>
      if accepted && CancelRefusal(m, q.id, Of(q), true).None? then Stop(m, q.id, Of(q)) else m
    case ReleaseOp(_, _, _, _, _) => m
  }

  lemma {:induction false} RunFrom(p: Policy, ops: seq<MailOp>) returns (run: Run)
    ensures run.Valid() && run.ops == ops && run.states[0].policy == p && ValidMailbox(run.states[|ops|])
    decreases |ops|
  {
    if ops == [] {
      run := Run([MailboxState(p, map[], map[], map[], {})], [NewMachine(p.configId, p.version)], []);
    } else {
      var n := |ops| - 1;
      var shorter := RunFrom(p, ops[..n]);
      var s, m := shorter.states[n], shorter.machines[n];
      NextKeepsValid(s, ops[n]);
      run := Run(shorter.states + [Next(s, ops[n])], shorter.machines + [Fed(m, ops[n], s.policy, Admitted(s, ops[n]))], ops);
      forall i: nat
        ensures run.Follows(i)
      {
        assert shorter.Follows(i);
      }
    }
  }

  lemma Succ(run: Run, i: nat)
    requires run.Valid() && i < |run.ops|
    ensures ValidMailbox(run.states[i]) && ValidMailbox(run.states[i + 1])
    ensures run.states[i + 1] == Next(run.states[i], run.ops[i])
    ensures run.machines[i + 1] == Fed(run.machines[i], run.ops[i], run.states[i].policy, Admitted(run.states[i], run.ops[i]))
  {
    assert run.Follows(i);
    NextKeepsValid(run.states[i], run.ops[i]);
  }

  // ---- Rebuilding is keeping alive -----------------------------------------------

  /** What ties the mailbox to the kept machine in every run, whatever ids are used: the
      machine lags behind only where it refused a Begin because the id was cancelled, or a
      Cancel because it had begun another request under the id. */
  ghost predicate Tracks(s: MailboxState, m: MachineState) {
    && m.configId == s.policy.configId && m.version == s.policy.version
    && m.seenNonces <= s.nonces && m.seen <= s.pending.Keys
    && (forall k :: k in m.pending ==> k in s.pending && SameBegin(s.pending[k], m.pending[k]))
    && (forall k :: k in s.pending && k !in m.cancelled ==> k in m.pending)
    && (forall k :: k in m.cancelled ==> k in s.cancelled && m.cancelled[k] == s.cancelled[k])
    && (forall k :: k in s.cancelled && k !in m.cancelled ==> k in m.pending && m.pending[k].digest != s.cancelled[k])
  }

  predicate SameBegin(a: Accepted, p: MachinePending) {
    p.digest == a.digest && p.notBefore == a.notBefore && p.expiry == a.request.expiry
  }

  lemma BeginTracks(s: MailboxState, m: MachineState, op: MailOp)
    requires Tracks(s, m) && op.BeginOp? && Admitted(s, op)
    ensures Tracks(Next(s, op), Fed(m, op, s.policy, true))
  {
  }

  lemma CancelTracks(s: MailboxState, m: MachineState, op: MailOp)
    requires Tracks(s, m) && op.CancelOp? && Admitted(s, op)
    ensures Tracks(Next(s, op), Fed(m, op, s.policy, true))
  {
  }

  lemma StepTracks(s: MailboxState, m: MachineState, op: MailOp)
    requires Tracks(s, m)
    ensures Tracks(Next(s, op), Fed(m, op, s.policy, Admitted(s, op)))
  {
    if Admitted(s, op) {
      match op
      case BeginOp(_, _, _, _, _) => BeginTracks(s, m, op);
      case CancelOp(_, _, _) => CancelTracks(s, m, op);
      case ReleaseOp(_, _, _, _, _) =>
    }
  }

  lemma {:induction false} RunTracks(run: Run, j: nat)
    requires run.Valid() && j <= |run.ops|
    ensures Tracks(run.states[j], run.machines[j])
    decreases j
  {
    if j > 0 {
      RunTracks(run, j - 1);
      Succ(run, j - 1);
      StepTracks(run.states[j - 1], run.machines[j - 1], run.ops[j - 1]);
    }
  }

  /** A Release that passes the mailbox's checks, on the boot that accepted the Begin. */
  predicate Presented(s: MailboxState, op: MailOp) {
    && op.ReleaseOp? && Current(s.policy, op.q, op.wall) && op.q.suite == DEFAULT_SUITE && op.valid
    && (op.q.id in s.pending ==> s.pending[op.q.id].boot == op.boot)
  }

  function KeptVerdict(m: MachineState, op: MailOp): Option<CoreError>
    requires op.ReleaseOp?
  {
    ReleaseRefusal(m, op.q.id, Of(op.q), op.wall, op.now, true)
  }

  lemma VerdictsByState(s: MailboxState, m: MachineState, op: MailOp)
    requires ValidMailbox(s) && Tracks(s, m) && Presented(s, op)
    ensures KeptVerdict(m, op).None? ==> Admitted(s, op)
    ensures Admitted(s, op) ==> (KeptVerdict(m, op).Some? <==> op.q.id in m.cancelled)
    ensures Admitted(s, op) && op.q.id in m.cancelled ==> KeptVerdict(m, op) == Some(RequestMismatch)
  {
  }

  // ---- Where the two part --------------------------------------------------------

  /** What is on record stays on record. */
  ghost predicate Keeps(s: MailboxState, t: MailboxState) {
    && s.pending.Keys <= t.pending.Keys && (forall k :: k in s.pending ==> t.pending[k] == s.pending[k])
    && s.cancelled.Keys <= t.cancelled.Keys && (forall k :: k in s.cancelled ==> t.cancelled[k] == s.cancelled[k])
  }

  lemma {:induction false} RunKeeps(run: Run, i: nat, j: nat)
    requires run.Valid() && i <= j <= |run.ops|
    ensures Keeps(run.states[i], run.states[j]) && run.machines[i].cancelled.Keys <= run.machines[j].cancelled.Keys
    decreases j
  {
    if i < j {
      RunKeeps(run, i, j - 1);
      Succ(run, j - 1);
      StepKeeps(run.states[j - 1], run.machines[j - 1], run.ops[j - 1]);
    }
  }

  lemma StepKeeps(s: MailboxState, m: MachineState, op: MailOp)
    ensures Keeps(s, Next(s, op)) && m.cancelled.Keys <= Fed(m, op, s.policy, Admitted(s, op)).cancelled.Keys
  {
  }

  ghost predicate BeginsAt(run: Run, i: nat, id: Id32)
    requires run.Valid() && i < |run.ops|
  {
    run.ops[i].BeginOp? && run.ops[i].q.id == id && Admitted(run.states[i], run.ops[i])
  }

  ghost predicate CancelsIdAt(run: Run, i: nat, id: Id32)
    requires run.Valid() && i < |run.ops|
  {
    run.ops[i].CancelOp? && run.ops[i].q.id == id && Admitted(run.states[i], run.ops[i])
  }

  /** Before step `j` a cancellation under the id was accepted, and after that a Begin. */
  ghost predicate CancelledBeforeBegin(run: Run, j: nat, id: Id32)
    requires run.Valid() && j <= |run.ops|
  {
    exists i: nat, b: nat :: i < b < j && CancelsIdAt(run, i, id) && BeginsAt(run, b, id)
  }

  lemma {:induction false} BeginOrigin(run: Run, i: nat, j: nat, id: Id32) returns (b: nat)
    requires run.Valid() && i <= j <= |run.ops| && id !in run.states[i].pending && id in run.states[j].pending
    ensures i <= b < j && BeginsAt(run, b, id)
    decreases j
  {
    Succ(run, j - 1);
    if id in run.states[j - 1].pending {
      b := BeginOrigin(run, i, j - 1, id);
    } else {
      b := j - 1;
    }
  }

  lemma {:induction false} CancelOrigin(run: Run, j: nat, id: Id32) returns (i: nat)
    requires run.Valid() && j <= |run.ops| && id in run.machines[j].cancelled
    ensures i < j && CancelsIdAt(run, i, id)
    ensures id !in run.machines[i].cancelled && CancelRefusal(run.machines[i], id, Of(run.ops[i].q), true).None?
    ensures id in run.states[i + 1].cancelled && run.states[i + 1].cancelled[id] == Of(run.ops[i].q)
    decreases j
  {
    Succ(run, j - 1);
    if id in run.machines[j - 1].cancelled {
      i := CancelOrigin(run, j - 1, id);
    } else {
      i := j - 1;
    }
  }

  lemma KeptCancelPrecedesBegin(run: Run, j: nat)
    requires run.Valid() && j < |run.ops| && run.ops[j].ReleaseOp? && Admitted(run.states[j], run.ops[j])
    requires run.ops[j].q.id in run.machines[j].cancelled
    ensures CancelledBeforeBegin(run, j, run.ops[j].q.id)
  {
    var id := run.ops[j].q.id;
    var i := CancelOrigin(run, j, id);
    Succ(run, i);
    RunTracks(run, i);
    RunKeeps(run, i, j);
    RunKeeps(run, i + 1, j);
    assert run.states[j].cancelled[id] == Of(run.ops[i].q);
    assert id !in run.states[i].pending;
    var b := BeginOrigin(run, i, j, id);
    assert b != i;
    assert CancelsIdAt(run, i, id) && BeginsAt(run, b, id);
  }

  lemma CancelBeforeBeginIsKept(run: Run, j: nat, id: Id32)
    requires run.Valid() && j <= |run.ops| && CancelledBeforeBegin(run, j, id)
    ensures id in run.machines[j].cancelled
  {
    var i: nat, b: nat :| i < b < j && CancelsIdAt(run, i, id) && BeginsAt(run, b, id);
    Succ(run, i);
    RunTracks(run, i);
    RunKeeps(run, i, b);
    assert id !in run.states[i].pending.Keys;
    assert id in run.machines[i + 1].cancelled.Keys;
    RunKeeps(run, i + 1, j);
  }

  /** Exactly when rebuilding differs from keeping alive, in every run: the kept machine
      never accepts a release the mailbox refuses, and the mailbox accepts one that the kept
      machine refuses precisely when it accepts it and, earlier, it had accepted a
      cancellation under the same id before the Begin. */
  lemma RebuildDiffersIff(run: Run, j: nat)
    requires run.Valid() && j < |run.ops| && Presented(run.states[j], run.ops[j])
    ensures KeptVerdict(run.machines[j], run.ops[j]).None? ==> Admitted(run.states[j], run.ops[j])
    ensures Admitted(run.states[j], run.ops[j]) ==>
              (KeptVerdict(run.machines[j], run.ops[j]).Some? <==> CancelledBeforeBegin(run, j, run.ops[j].q.id))
    ensures Admitted(run.states[j], run.ops[j]) && CancelledBeforeBegin(run, j, run.ops[j].q.id) ==>
              KeptVerdict(run.machines[j], run.ops[j]) == Some(RequestMismatch)
  {
    RunTracks(run, j);
    Succ(run, j);
    VerdictsByState(run.states[j], run.machines[j], run.ops[j]);
    if Admitted(run.states[j], run.ops[j]) {
      if run.ops[j].q.id in run.machines[j].cancelled {
        KeptCancelPrecedesBegin(run, j);
      }
      if CancelledBeforeBegin(run, j, run.ops[j].q.id) {
        CancelBeforeBeginIsKept(run, j, run.ops[j].q.id);
      }
    }
  }

  /** In particular, as long as the id was used for this one request only, a machine rebuilt
      from the stored Begin judges its release as the machine kept alive all along would. */
  lemma RebuildEqualsKeepAlive(run: Run, j: nat)
    requires run.Valid() && j < |run.ops| && Presented(run.states[j], run.ops[j])
    requires forall i: nat :: i < j && run.ops[i].q.id == run.ops[j].q.id ==> run.ops[i].q == run.ops[j].q
    ensures Admitted(run.states[j], run.ops[j]) <==> KeptVerdict(run.machines[j], run.ops[j]).None?
  {
    RebuildDiffersIff(run, j);
    if CancelledBeforeBegin(run, j, run.ops[j].q.id) {
      var i: nat, b: nat :| i < b < j && CancelsIdAt(run, i, run.ops[j].q.id) && BeginsAt(run, b, run.ops[j].q.id);
      Succ(run, i);
      RunKeeps(run, i + 1, j);
    }
  }

  /** Both sides of the condition occur. The owner cancels one request, another one under
      the same id is begun, and its release is served although a kept machine refuses it. */
  lemma TwoDigestsDoPart(p: Policy, boot: string) returns (run: Run)
    requires p.minimumDelay < U64_MAX - 10
    ensures run.Valid() && |run.ops| == 3 && forall i :: 0 <= i < 3 ==> Admitted(run.states[i], run.ops[i])
    ensures Presented(run.states[2], run.ops[2]) && KeptVerdict(run.machines[2], run.ops[2]).Some?
  {
    var q := SampleRequest(p);
    var ops := [CancelOp(q.(nonce := 2), true, 1), BeginOp(q, true, 1, 0, boot), ReleaseOp(q, true, 2, p.minimumDelay, boot)];
    run := RunFrom(p, ops);
    assert run.Follows(0) && run.Follows(1);
  }

  /** With the Begin before the other request's cancellation the two agree. */
  lemma TwoDigestsNeedNotPart(p: Policy, boot: string) returns (run: Run)
    requires p.minimumDelay < U64_MAX - 10
    ensures run.Valid() && |run.ops| == 3 && forall i :: 0 <= i < 3 ==> Admitted(run.states[i], run.ops[i])
    ensures run.ops[1].CancelOp? && run.ops[1].q.id == run.ops[2].q.id && run.ops[1].q != run.ops[2].q
    ensures Presented(run.states[2], run.ops[2]) && KeptVerdict(run.machines[2], run.ops[2]).None?
  {
    var q := SampleRequest(p);
    var ops := [BeginOp(q, true, 1, 0, boot), CancelOp(q.(nonce := 2), true, 1), ReleaseOp(q, true, 2, p.minimumDelay, boot)];
    run := RunFrom(p, ops);
    assert run.Follows(0) && run.Follows(1);
  }

  function SampleRequest(p: Policy): RequestV2 {
    RequestV2(PROTOCOL_VERSION_V2, DEFAULT_SUITE, p.configId, p.version, 1, seq(XWING_PUBLIC_KEY_LEN, i => 0), 0, 1, 9)
  }

  // ---- Hard cancel ---------------------------------------------------------------

  ghost predicate Cancels(run: Run, q: RequestV2) {
    run.Valid() && exists i: nat :: i < |run.ops| && CancelsAt(run, i, q)
  }

  ghost predicate CancelsAt(run: Run, i: nat, q: RequestV2)
    requires run.Valid() && i < |run.ops|
  {
    run.ops[i].CancelOp? && run.ops[i].q == q && Admitted(run.states[i], run.ops[i])
  }

  ghost predicate Releases(run: Run, q: RequestV2) {
    run.Valid() && exists i: nat :: i < |run.ops| && ReleasesAt(run, i, q)
  }

  ghost predicate ReleasesAt(run: Run, i: nat, q: RequestV2)
    requires run.Valid() && i < |run.ops|
  {
    run.ops[i].ReleaseOp? && run.ops[i].q == q && Admitted(run.states[i], run.ops[i])
  }

  predicate Delivered(s: MailboxState, q: RequestV2) {
    q.id in s.released && s.released[q.id] == Of(q)
  }

  lemma NextKeepsOutcome(s: MailboxState, op: MailOp, q: RequestV2)
    requires ValidMailbox(s)
    ensures Tombstoned(s, q) ==> Tombstoned(Next(s, op), q)
    ensures Delivered(s, q) ==> Delivered(Next(s, op), q)
  {
  }

  lemma {:induction false} OutcomeStays(run: Run, i: nat, j: nat, q: RequestV2)
    requires run.Valid() && i <= j <= |run.ops|
    ensures Tombstoned(run.states[i], q) ==> Tombstoned(run.states[j], q)
    ensures Delivered(run.states[i], q) ==> Delivered(run.states[j], q)
    decreases j
  {
    if i < j {
      OutcomeStays(run, i, j - 1, q);
      Succ(run, j - 1);
      NextKeepsOutcome(run.states[j - 1], run.ops[j - 1], q);
    }
  }

  /** A guardian that acknowledges the cancellation of a request never released it before
      and never will after. */
  lemma CancelOrRelease(run: Run, q: RequestV2)
    requires Cancels(run, q)
    ensures !Releases(run, q)
  {
    var i: nat :| i < |run.ops| && CancelsAt(run, i, q);
    forall j: nat | j < |run.ops|
      ensures !ReleasesAt(run, j, q)
    {
      if i < j {
        Succ(run, i);
        OutcomeStays(run, i + 1, j, q);
      } else if j < i && ReleasesAt(run, j, q) {
        Succ(run, j);
        OutcomeStays(run, j + 1, i, q);
      }
    }
  }

  // ---- What a release rests on ---------------------------------------------------

  /** The request is for the mailbox's configuration and in date. */
  predicate InDate(p: Policy, q: RequestV2, wall: U64) {
    && q.protocolVersion == PROTOCOL_VERSION_V2 && q.configId == p.configId && q.configVersion == p.version
    && |q.recipientKey| == XWING_PUBLIC_KEY_LEN
    && q.requestedAt <= wall < q.expiry
  }

  ghost predicate BeginsWith(run: Run, b: nat, a: Accepted)
    requires run.Valid() && b < |run.ops|
  {
    run.ops[b] == BeginOp(a.request, true, a.wall, a.started, a.boot) && Admitted(run.states[b], run.ops[b])
    && InDate(run.states[b].policy, a.request, a.wall)
  }

  lemma PendingStep(s: MailboxState, op: MailOp, id: Id32)
    requires id in Next(s, op).pending && id !in s.pending
    ensures Admitted(s, op) && op.BeginOp? && op.valid && op.q.id == id && InDate(s.policy, op.q, op.wall)
    ensures var a := Next(s, op).pending[id]; op == BeginOp(a.request, true, a.wall, a.started, a.boot)
  {
  }

  lemma {:induction false} PendingOrigin(run: Run, j: nat, id: Id32) returns (b: nat)
    requires run.Valid() && j <= |run.ops| && id in run.states[j].pending
    ensures b < j && BeginsWith(run, b, run.states[j].pending[id])
    decreases j
  {
    Succ(run, j - 1);
    if id in run.states[j - 1].pending {
      b := PendingOrigin(run, j - 1, id);
      StepKeeps(run.states[j - 1], run.machines[j - 1], run.ops[j - 1]);
    } else {
      PendingStep(run.states[j - 1], run.ops[j - 1], id);
      b := j - 1;
    }
  }

  lemma {:induction false} PolicyStays(run: Run, j: nat)
    requires run.Valid() && j <= |run.ops|
    ensures run.states[j].policy == run.states[0].policy
    decreases j
  {
    if j > 0 {
      PolicyStays(run, j - 1);
      Succ(run, j - 1);
    }
  }

  /** A mailbox releases a request only after the Begin of that very request, on the same
      boot, with a valid certificate both times and the policy's delay in between; it is in
      date and was not cancelled before. */
  lemma ReleaseIsEarned(run: Run, j: nat, q: RequestV2) returns (b: nat)
    requires run.Valid() && j < |run.ops| && ReleasesAt(run, j, q)
    ensures b < j && run.ops[b].BeginOp? && run.ops[b].q == q && run.ops[b].valid && run.ops[j].valid
    ensures Admitted(run.states[b], run.ops[b])
    ensures run.ops[b].boot == run.ops[j].boot && q.suite == DEFAULT_SUITE
    ensures run.ops[j].now >= SatAdd(run.ops[b].now, run.states[0].policy.minimumDelay)
    ensures InDate(run.states[0].policy, q, run.ops[b].wall) && InDate(run.states[0].policy, q, run.ops[j].wall)
    ensures forall k: nat :: k < j ==> !CancelsAt(run, k, q)
  {
    Succ(run, j);
    PolicyStays(run, j);
    b := PendingOrigin(run, j, q.id);
    PolicyStays(run, b);
    var a := run.states[j].pending[q.id];
    assert Rebuildable(run.states[j].policy, q.id, a);
    forall k: nat | k < j
      ensures !CancelsAt(run, k, q)
    {
      if CancelsAt(run, k, q) {
        assert Releases(run, q);
        CancelOrRelease(run, q);
      }
    }
  }

  /** A cancellation counts on a valid certificate for a request in date. */
  lemma CancelIsTheOwners(run: Run, i: nat, q: RequestV2)
    requires run.Valid() && i < |run.ops| && CancelsAt(run, i, q)
    ensures run.ops[i] == CancelOp(q, true, run.ops[i].wall) && q.suite == DEFAULT_SUITE
    ensures InDate(run.states[0].policy, q, run.ops[i].wall)
  {
    PolicyStays(run, i);
  }

  lemma NonceStep(s: MailboxState, op: MailOp)
    ensures s.nonces <= Next(s, op).nonces
    ensures op.BeginOp? && Admitted(s, op) ==> op.q.nonce !in s.nonces && op.q.nonce in Next(s, op).nonces
  {
  }

  lemma {:induction false} NoncesStay(run: Run, i: nat, j: nat)
    requires run.Valid() && i <= j <= |run.ops|
    ensures run.states[i].nonces <= run.states[j].nonces
    decreases j
  {
    if i < j {
      NoncesStay(run, i, j - 1);
      Succ(run, j - 1);
      NonceStep(run.states[j - 1], run.ops[j - 1]);
    }
  }

  /** No id and no nonce begins twice. */
  lemma BeginsOnce(run: Run, i: nat, j: nat)
    requires run.Valid() && i < j < |run.ops| && run.ops[i].BeginOp? && run.ops[j].BeginOp?
    requires Admitted(run.states[i], run.ops[i]) && Admitted(run.states[j], run.ops[j])
    ensures run.ops[i].q.id != run.ops[j].q.id && run.ops[i].q.nonce != run.ops[j].q.nonce
  {
    Succ(run, i);
    NonceStep(run.states[i], run.ops[i]);
    NonceStep(run.states[j], run.ops[j]);
    NoncesStay(run, i + 1, j);
    RunKeeps(run, i + 1, j);
    assert run.ops[i].q.id in run.states[i + 1].pending.Keys;
  }

  // ---- The owner's count ---------------------------------------------------------

  function RequiredCancelAcks(total: nat, threshold: nat): (r: Option<nat>)
    ensures r.Some? <==> 0 < threshold <= total
    ensures r.Some? ==> threshold + r.value == total + 1
  {
    if threshold == 0 || threshold > total then None else Some(total - threshold + 1)
  }

  /** What one route answered: the guardian index of a valid ack, or nothing usable. */
  function AckedIndices(answers: seq<Option<nat>>): set<nat> {
    set i | 0 <= i < |answers| && answers[i].Some? :: answers[i].value
  }

  method HardCancelRequest(answers: seq<Option<nat>>, total: nat, threshold: nat) returns (done: bool)
    ensures done <==> 0 < threshold <= total && |AckedIndices(answers)| + threshold > total
  {
    var acknowledgements: set<nat> := {};
    for i := 0 to |answers|
      invariant acknowledgements == AckedIndices(answers[..i])
    {
      assert answers[..i + 1] == answers[..i] + [answers[i]];
      if answers[i].Some? {
        acknowledgements := acknowledgements + {answers[i].value};
      }
    }
    assert answers[..|answers|] == answers;
    var required := RequiredCancelAcks(total, threshold);
    return required.Some? && |acknowledgements| >= required.value;
  }

  /** Guardians by index with their whole runs, past and future; the rest are faulty. */
  ghost predicate AcksAreBacked(runs: map<nat, Run>, answers: seq<Option<nat>>, q: RequestV2) {
    forall g :: g in AckedIndices(answers) && g in runs ==> Cancels(runs[g], q)
  }

  ghost function Releasers(runs: map<nat, Run>, q: RequestV2): set<nat> {
    set g | g in runs && Releases(runs[g], q)
  }

  lemma SplitSize<T>(whole: set<T>, part: set<T>, other: set<T>)
    requires part <= whole && other <= whole && part !! other
    ensures |part| + |other| <= |whole|
  {
    assert |part + other| == |part| + |other|;
    SubsetSize(part + other, whole);
  }

  /** A completed hard cancel beats the recovery quorum: with `k` of its acks from faulty
      guardians, fewer than `threshold + k` honest guardians have released or ever will
      release that exact request; with none, fewer than the threshold. */
  lemma HardCancelIsFinal(runs: map<nat, Run>, guardians: set<nat>, answers: seq<Option<nat>>, threshold: nat, q: RequestV2)
    requires runs.Keys <= guardians && AckedIndices(answers) <= guardians
    requires AcksAreBacked(runs, answers, q)
    requires 0 < threshold <= |guardians| && |AckedIndices(answers)| + threshold > |guardians|
    ensures |Releasers(runs, q)| < threshold + |AckedIndices(answers) - runs.Keys|
    ensures AckedIndices(answers) <= runs.Keys ==> |Releasers(runs, q)| < threshold
  {
    forall g | g in AckedIndices(answers) * runs.Keys
      ensures g !in Releasers(runs, q)
    {
      CancelOrRelease(runs[g], q);
    }
    AckersOutnumber(AckedIndices(answers), Releasers(runs, q), runs.Keys, guardians, threshold);
  }

  lemma AckersOutnumber(acked: set<nat>, released: set<nat>, honest: set<nat>, guardians: set<nat>, threshold: nat)
    requires acked <= guardians && released <= guardians && acked * honest !! released
    requires |acked| + threshold > |guardians|
    ensures |released| < threshold + |acked - honest|
    ensures acked <= honest ==> |released| < threshold
  {
    SplitSize(guardians, acked * honest, released);
    assert acked == acked * honest + (acked - honest);
    if acked <= honest {
      assert acked - honest == {};
    }
  }
}
