/** Exactly when a draining epoch can still retire. */
module GuardianRetirement {
  import opened Foundations
  import opened EpochTypes
  import opened EpochSelection
  import opened RotationPlans
  import opened GuardianEpochs
  import opened GuardianRecoveries
  import opened GuardianEntry
  import opened GuardianRuns
  import opened GuardianTheorems
  import opened GuardianRotations

  // ---- What holds of every entry grown from a new store ----------------------------

  /** A recovery that was begun and is vetoed is marked cancelled. */
  ghost predicate VetoesMark(d: Desk) {
    forall k :: k in d.recoveries && k in d.vetoes ==> d.recoveries[k].cancelled
  }

  /** Draining epochs were left by observed activations, the latest of them last. */
  ghost predicate Covered(store: StoreState) {
    forall e: U64 :: e in store.draining ==>
      && store.activationQc.Some?
      && e <= store.activationQc.value.predecessorEpoch <= store.expected.guardianEpoch
  }

  ghost predicate Behind(store: StoreState) {
    forall e: U64 :: e in store.draining ==> e < store.expected.guardianEpoch
  }

  ghost predicate Sound(s: GuardianState) {
    && ValidGuardian(s) && DrainComplete(s.desk) && VetoesMark(s.desk)
    && Covered(s.desk.store)
    && (Behind(s.desk.store) || Replaced(s))
  }

  lemma NewEntryIsSound(s: GuardianState, active: GuardianRecord, hash: CapsuleHash, predecessor: ConfigRef)
    requires s.predecessor.hash == BodyHash(s.predecessor.body) && Linked(s) && s.sessions == map[]
    requires s.desk.recoveries == map[] && s.desk.vetoes == map[]
    requires s.desk.store == NewStore(active, hash) || s.desk.store == NewCandidate(predecessor, hash)
    ensures Sound(s)
  {
    NewStoreIsValid(active, hash, predecessor);
  }

  lemma MoveMarks(d: Desk, m: Move, c: Clock)
    requires ValidStore(d.store) && Grounded(d, m, c) && VetoesMark(d)
    ensures VetoesMark(DeskAfter(d, m, c))
  {
  }

  predicate ChangesEpoch(m: Move) {
    m.Stored? && (m.op.Activate? || m.op.ObserveReplacement?)
  }

  lemma OpCovers(s: StoreState, op: StoreOp)
    requires ValidStore(s) && Refusal(s, op).None? && Covered(s)
    ensures Covered(Applied(s, op))
  {
    if op.Activate? || op.ObserveReplacement? {
      forall e: U64 | e in s.draining
        ensures e <= s.expected.guardianEpoch
      {
        assert DrainsAt(s, e, s.draining[e]);
      }
    }
  }

  lemma MoveCovers(d: Desk, m: Move, c: Clock)
    requires ValidStore(d.store) && Grounded(d, m, c) && Covered(d.store)
    ensures Covered(DeskAfter(d, m, c).store)
  {
    match m
    case Stored(op) => OpCovers(d.store, op);
    case _ =>
  }

  lemma MoveStaysBehind(d: Desk, m: Move, c: Clock)
    requires ValidStore(d.store) && Grounded(d, m, c) && EpochLeft(d.store) && Behind(d.store)
    requires !(m.Stored? && m.op.ObserveReplacement?)
    ensures Behind(DeskAfter(d, m, c).store)
  {
  }

  lemma ObserveReplaces(s: GuardianState, q: Request, c: Clock)
    requires ValidGuardian(s) && MoveOf(s, q, c).Stored? && MoveOf(s, q, c).op.ObserveReplacement?
    ensures Replaced(Next(s, q, c))
  {
    ObservingReplaces(s, q.plan, q.capsule, q.deadline);
  }

  lemma NextKeepsSound(s: GuardianState, q: Request, c: Clock)
    requires Sound(s) && EpochLeft(s.desk.store)
    ensures Sound(Next(s, q, c))
  {
    var m := MoveOf(s, q, c);
    NextKeepsValid(s, q, c);
    NextDesk(s, q, c);
    if m.Stored? {
      DropsOnlyAtLastEpoch(s.desk, m.op);
    }
    MoveKeepsComplete(s.desk, m, c);
    MoveMarks(s.desk, m, c);
    MoveCovers(s.desk, m, c);
    if Replaced(s) {
      NextKeepsReplaced(s, q, c);
    } else if m.Stored? && m.op.ObserveReplacement? {
      ObserveReplaces(s, q, c);
    } else {
      MoveStaysBehind(s.desk, m, c);
    }
  }

  lemma SoundStep(run: Run, i: nat)
    requires run.Valid() && i < |run.steps| && Sound(run.states[i]) && EpochLeft(run.states[i].desk.store)
    ensures Sound(run.states[i + 1])
  {
    AtSucc(run, i);
    NextKeepsSound(run.states[i], run.steps[i].request, run.steps[i].clock);
  }

  /** Every entry a run reaches below the last epoch is sound. */
  lemma {:induction false} EveryRunIsSound(run: Run, j: nat)
    requires run.Valid() && Sound(run.states[0]) && j <= |run.steps| && EpochLeft(run.states[j].desk.store)
    ensures Sound(run.states[j])
    decreases j
  {
    if j > 0 {
      EpochRises(run, j - 1, j);
      EveryRunIsSound(run, j - 1);
      SoundStep(run, j - 1);
    }
  }

  // ---- What a release needs ------------------------------------------------------

  /** At this clock the guardian would serve the recovery: the boot that accepted it, the
      delay run, the request unexpired and admitted by the capsule the guardian follows,
      its maximal lifetime included. */
  predicate Meets(c: Clock, r: Recovery, capsule: Capsule) {
    && c.boot == r.bootId
    && r.notBefore <= c.now
    && RequestValid(r.request, capsule, r.request.configRef, c.wall)
  }

  lemma DeliveryMeets(s: GuardianState, r: Request, c: Clock, q: RecoveryRequest)
    requires ValidGuardian(s) && DrainComplete(s.desk) && MoveOf(s, r, c) == Delivered(q)
    ensures q.requestId in s.desk.recoveries && s.desk.recoveries[q.requestId].Live()
    ensures Meets(c, s.desk.recoveries[q.requestId], s.predecessor)
  {
    assert Tracked(s.desk.store, q.requestId, s.desk.recoveries[q.requestId]);
  }

  function ReleaseOf(r: Recovery): Request {
    ReleaseRecovery(r.request, r.request, true)
  }

  lemma MeetingDelivers(s: GuardianState, c: Clock, e: U64, k: Id32)
    requires Sound(s) && e in s.desk.store.draining && k in s.desk.store.draining[e].pending
    requires k in s.desk.recoveries ==> !s.desk.recoveries[k].cancelled && Meets(c, s.desk.recoveries[k], s.predecessor)
    ensures k in s.desk.recoveries && s.desk.recoveries[k].request.requestId == k
    ensures s.desk.recoveries[k].request.configRef.guardianEpoch == e
    ensures MoveOf(s, ReleaseOf(s.desk.recoveries[k]), c) == Delivered(s.desk.recoveries[k].request)
  {
    assert Owed(s.desk.recoveries, s.desk.store.draining[e], k);
    assert DrainsAt(s.desk.store, e, s.desk.store.draining[e]);
    assert Tracked(s.desk.store, k, s.desk.recoveries[k]);
  }

  // ---- Retiring is possible ------------------------------------------------------

  ghost predicate UsesClocks(run: Run, clocks: iset<Clock>) {
    forall i :: 0 <= i < |run.steps| ==> run.steps[i].clock in clocks
  }

  /** Some continuation served at these clocks retires the epoch. */
  ghost predicate Retirable(s: GuardianState, e: U64, clocks: iset<Clock>) {
    exists run: Run, j: nat ::
      run.Valid() && run.states[0] == s && UsesClocks(run, clocks) && j < |run.steps| && RetiresAt(run, j, e)
  }

  /** The epoch is the one the latest activation left, and every recovery it waits for is
      uncancelled and can be served at one of the clocks. */
  ghost predicate Emptiable(s: GuardianState, e: U64, clocks: iset<Clock>) {
    && e in s.desk.store.draining
    && s.desk.store.activationQc.Some? && e == s.desk.store.activationQc.value.predecessorEpoch
    && (forall k :: k in s.desk.store.draining[e].pending ==> Serviceable(s, k, clocks))
  }

  ghost predicate Serviceable(s: GuardianState, k: Id32, clocks: iset<Clock>) {
    && k in s.desk.recoveries && !s.desk.recoveries[k].cancelled
    && exists c :: c in clocks && Meets(c, s.desk.recoveries[k], s.predecessor)
  }

  /** A clock at which some retirement notice is fresh. */
  ghost predicate CanBeNotified(clocks: iset<Clock>) {
    exists c :: c in clocks && c.wall < U64_MAX
  }

  lemma FollowsLater(run: Run, rest: Run, i: nat)
    requires |run.states| == |run.steps| + 1 && |run.moves| == |run.steps|
    requires rest.Valid() && |run.steps| == |rest.steps| + 1
    requires run.states[1..] == rest.states && run.steps[1..] == rest.steps && run.moves[1..] == rest.moves
    ensures run.Follows(i + 1)
  {
    assert rest.Follows(i);
    if i < |rest.steps| {
      assert run.states[i + 1] == rest.states[i] && run.states[i + 2] == rest.states[i + 1];
      assert run.steps[i + 1] == rest.steps[i] && run.moves[i + 1] == rest.moves[i];
    }
  }

  lemma Prepended(s: GuardianState, step: RunStep, rest: Run) returns (run: Run)
    requires ValidGuardian(s) && rest.Valid() && rest.states[0] == Next(s, step.request, step.clock)
    ensures run.Valid() && run.states[0] == s && |run.steps| == |rest.steps| + 1
    ensures run.steps == [step] + rest.steps && run.moves == [MoveOf(s, step.request, step.clock)] + rest.moves
  {
    run := Run([s] + rest.states, [step] + rest.steps, [MoveOf(s, step.request, step.clock)] + rest.moves);
    forall i: nat
      ensures run.Follows(i)
    {
      if i > 0 {
        FollowsLater(run, rest, i - 1);
      }
    }
  }

  function NoticeFor(s: GuardianState, e: U64): RetirementNotice
    requires s.desk.store.activationQc.Some?
  {
    RetirementNotice(
      RotationContext(PROTOCOL_VERSION_V3, s.predecessor.body.configRef, 0, s.predecessor.hash,
                      seq(XWING_PUBLIC_KEY_LEN, i => 0), 0, 0, U64_MAX),
      Of(s.desk.store.activationQc.value), e, 0)
  }

  /** The guardian does not hold the deadline against its own clock: once nothing is pending
      a notice that claims a late enough time retires the epoch, whatever the clock says. */
  lemma RetireNow(s: GuardianState, e: U64, c: Clock)
    requires ValidGuardian(s) && c.wall < U64_MAX
    requires e in s.desk.store.draining && s.desk.store.draining[e].pending == {}
    requires s.desk.store.activationQc.Some? && e == s.desk.store.activationQc.value.predecessorEpoch
    ensures MoveOf(s, RetireEpoch(NoticeFor(s, e), U64_MAX), c) == Stored(Retire(e, U64_MAX))
  {
  }

  lemma RunOfOne(s: GuardianState, step: RunStep) returns (run: Run)
    requires ValidGuardian(s)
    ensures run.Valid() && run.states[0] == s && run.steps == [step]
    ensures run.moves == [MoveOf(s, step.request, step.clock)]
  {
    run := Run([s, Next(s, step.request, step.clock)], [step], [MoveOf(s, step.request, step.clock)]);
    forall i: nat
      ensures run.Follows(i)
    {
      if i == 0 {
      }
    }
  }

  lemma ServingOne(s: GuardianState, e: U64, k: Id32, c: Clock, clocks: iset<Clock>)
    requires Sound(s) && EpochLeft(s.desk.store) && Emptiable(s, e, clocks)
    requires k in s.desk.store.draining[e].pending && Meets(c, s.desk.recoveries[k], s.predecessor)
    ensures var s' := Next(s, ReleaseOf(s.desk.recoveries[k]), c);
            && Sound(s') && EpochLeft(s'.desk.store) && Emptiable(s', e, clocks)
            && s'.desk.store.draining[e].pending == s.desk.store.draining[e].pending - {k}
  {
    var q := ReleaseOf(s.desk.recoveries[k]);
    assert Serviceable(s, k, clocks);
    MeetingDelivers(s, c, e, k);
    NextKeepsSound(s, q, c);
    NextDesk(s, q, c);
    var s' := Next(s, q, c);
    forall i | i in s'.desk.store.draining[e].pending
      ensures Serviceable(s', i, clocks)
    {
      assert Serviceable(s, i, clocks);
    }
  }

  lemma RetireRun(s: GuardianState, e: U64, clocks: iset<Clock>) returns (run: Run)
    requires ValidGuardian(s) && CanBeNotified(clocks)
    requires e in s.desk.store.draining && s.desk.store.draining[e].pending == {}
    requires s.desk.store.activationQc.Some? && e == s.desk.store.activationQc.value.predecessorEpoch
    ensures run.Valid() && run.states[0] == s && UsesClocks(run, clocks) && |run.steps| == 1 && RetiresAt(run, 0, e)
  {
    var c :| c in clocks && c.wall < U64_MAX;
    RetireNow(s, e, c);
    run := RunOfOne(s, RunStep(RetireEpoch(NoticeFor(s, e), U64_MAX), c));
  }

  lemma RetiresLater(run: Run, rest: Run, step: RunStep, m: Move, i: nat, e: U64, clocks: iset<Clock>)
    requires run.Valid() && rest.Valid() && run.steps == [step] + rest.steps && run.moves == [m] + rest.moves
    requires step.clock in clocks && UsesClocks(rest, clocks) && i < |rest.steps| && RetiresAt(rest, i, e)
    ensures UsesClocks(run, clocks) && i + 1 < |run.steps| && RetiresAt(run, i + 1, e)
  {
    assert run.moves[i + 1] == rest.moves[i];
  }

  /** A release that brings the epoch one recovery closer to empty. */
  ghost predicate Closer(s: GuardianState, t: GuardianState, e: U64, clocks: iset<Clock>) {
    && Sound(t) && EpochLeft(t.desk.store) && Emptiable(t, e, clocks)
    && e in s.desk.store.draining && |t.desk.store.draining[e].pending| < |s.desk.store.draining[e].pending|
  }

  lemma SomeService(s: GuardianState, e: U64, clocks: iset<Clock>) returns (step: RunStep)
    requires Sound(s) && EpochLeft(s.desk.store) && Emptiable(s, e, clocks) && s.desk.store.draining[e].pending != {}
    ensures step.clock in clocks && Closer(s, Next(s, step.request, step.clock), e, clocks)
  {
    var k :| k in s.desk.store.draining[e].pending;
    assert Serviceable(s, k, clocks);
    var c :| c in clocks && Meets(c, s.desk.recoveries[k], s.predecessor);
    ServingOne(s, e, k, c, clocks);
    step := RunStep(ReleaseOf(s.desk.recoveries[k]), c);
  }

  lemma {:induction false} EmptiableRetires(s: GuardianState, e: U64, clocks: iset<Clock>) returns (run: Run, j: nat)
    requires Sound(s) && EpochLeft(s.desk.store) && Emptiable(s, e, clocks) && CanBeNotified(clocks)
    ensures run.Valid() && run.states[0] == s && UsesClocks(run, clocks) && j < |run.steps| && RetiresAt(run, j, e)
    decreases |s.desk.store.draining[e].pending|, 1
  {
    if s.desk.store.draining[e].pending == {} {
      run := RetireRun(s, e, clocks);
      j := 0;
    } else {
      var step := SomeService(s, e, clocks);
      run, j := ServedFirst(s, step, e, clocks);
    }
  }

  lemma {:induction false} ServedFirst(s: GuardianState, step: RunStep, e: U64, clocks: iset<Clock>) returns (run: Run, j: nat)
    requires ValidGuardian(s) && e in s.desk.store.draining && step.clock in clocks && CanBeNotified(clocks)
    requires Closer(s, Next(s, step.request, step.clock), e, clocks)
    ensures run.Valid() && run.states[0] == s && UsesClocks(run, clocks) && j < |run.steps| && RetiresAt(run, j, e)
    decreases |s.desk.store.draining[e].pending|, 0
  {
    var rest, i := EmptiableRetires(Next(s, step.request, step.clock), e, clocks);
    run := Prepended(s, step, rest);
    j := i + 1;
    RetiresLater(run, rest, step, MoveOf(s, step.request, step.clock), i, e, clocks);
  }

  // ---- Retiring needs it ---------------------------------------------------------

  /** On the way from `s0` to a retirement of `e`: nothing changed the epoch, and what is no
      longer pending could be served at one of the clocks. */
  ghost predicate Underway(s0: GuardianState, s: GuardianState, e: U64, clocks: iset<Clock>) {
    && Sound(s0) && Sound(s) && EpochLeft(s.desk.store)
    && s.predecessor == s0.predecessor && s.desk.store.activationQc == s0.desk.store.activationQc
    && e in s0.desk.store.draining && e in s.desk.store.draining
    && Extends(s0.desk, s.desk)
    && (forall k :: k in s0.desk.store.draining[e].pending ==> k in s.desk.store.draining[e].pending || Serviceable(s0, k, clocks))
  }

  lemma StaysFollowed(s: GuardianState, q: Request, c: Clock)
    requires ValidGuardian(s) && !ChangesEpoch(MoveOf(s, q, c))
    ensures Next(s, q, c).predecessor == s.predecessor
  {
  }

  lemma QuietMove(d: Desk, m: Move, c: Clock, e: U64)
    requires ValidStore(d.store) && Grounded(d, m, c) && !ChangesEpoch(m) && e in d.store.draining
    requires !(m.Stored? && m.op.Retire? && m.op.epoch == e)
    ensures var d' := DeskAfter(d, m, c);
            && d'.store.activationQc == d.store.activationQc && d'.store.expected == d.store.expected
            && e in d'.store.draining
            && (forall k :: k in d.store.draining[e].pending ==>
                  k in d'.store.draining[e].pending || (m.Delivered? && m.q.requestId == k))
  {
  }

  lemma UnderwayStep(run: Run, i: nat, e: U64, clocks: iset<Clock>)
    requires run.Valid() && i < |run.steps| && run.steps[i].clock in clocks
    requires Underway(run.states[0], run.states[i], e, clocks)
    requires !ChangesEpoch(run.moves[i]) && !RetiresAt(run, i, e)
    ensures Underway(run.states[0], run.states[i + 1], e, clocks)
  {
    var s0, s, c := run.states[0], run.states[i], run.steps[i].clock;
    AtSucc(run, i);
    DeskSucc(run, i);
    NextKeepsSound(s, run.steps[i].request, c);
    StaysFollowed(s, run.steps[i].request, c);
    QuietMove(s.desk, run.moves[i], c, e);
    ExtendsStep(run, i);
    ExtendsTransitively(s0.desk, s.desk, run.states[i + 1].desk);
    forall k | k in s0.desk.store.draining[e].pending
      ensures k in run.states[i + 1].desk.store.draining[e].pending || Serviceable(s0, k, clocks)
    {
      if k in s.desk.store.draining[e].pending && k !in run.states[i + 1].desk.store.draining[e].pending {
        assert Owed(s0.desk.recoveries, s0.desk.store.draining[e], k);
        ServedIsServiceable(run, i, e, k, clocks);
      }
    }
  }

  lemma ServedIsServiceable(run: Run, i: nat, e: U64, k: Id32, clocks: iset<Clock>)
    requires run.Valid() && i < |run.steps| && run.steps[i].clock in clocks
    requires Underway(run.states[0], run.states[i], e, clocks)
    requires k in run.states[0].desk.store.draining[e].pending && k in run.states[0].desk.recoveries
    requires run.moves[i].Delivered? && run.moves[i].q.requestId == k
    ensures Serviceable(run.states[0], k, clocks)
  {
    AtSucc(run, i);
    DeliveryMeets(run.states[i], run.steps[i].request, run.steps[i].clock, run.moves[i].q);
    assert Continues(run.states[0].desk.recoveries[k], run.states[i].desk.recoveries[k]);
    assert Meets(run.steps[i].clock, run.states[0].desk.recoveries[k], run.states[0].predecessor);
  }

  /** An accepted change of epoch passes over everything that drains already. */
  lemma ChangePassesOver(run: Run, i: nat, e: U64)
    requires run.Valid() && i < |run.steps| && Sound(run.states[i]) && EpochLeft(run.states[i].desk.store)
    requires ChangesEpoch(run.moves[i]) && e in run.states[i].desk.store.draining
    ensures PassedOver(run.states[i + 1].desk, e)
  {
    AtSucc(run, i);
    DeskSucc(run, i);
    var s, q := run.states[i], run.steps[i].request;
    if Replaced(s) {
      ReplacedRefusesChange(s, q.plan, q.capsule, q.deadline);
    } else {
      LaterActivationPassesOver(s.desk, run.moves[i], run.steps[i].clock, e);
    }
  }

  /** So an epoch still draining at an activation never retires afterwards. */
  lemma ActivationEndsRetirement(run: Run, i: nat, j: nat, e: U64)
    requires run.Valid() && i < j < |run.steps| && Sound(run.states[i]) && EpochLeft(run.states[i].desk.store)
    requires ChangesEpoch(run.moves[i]) && e in run.states[i].desk.store.draining
    ensures !RetiresAt(run, j, e)
  {
    ChangePassesOver(run, i, e);
    PassedOverNeverRetires(run, i + 1, j, e);
  }

  lemma {:induction false} UnderwayUntil(run: Run, i: nat, j: nat, e: U64, clocks: iset<Clock>)
    requires run.Valid() && i <= j < |run.steps| && UsesClocks(run, clocks)
    requires Underway(run.states[0], run.states[0], e, clocks)
    requires RetiresAt(run, j, e) && forall k: nat :: k < j ==> !RetiresAt(run, k, e)
    ensures Underway(run.states[0], run.states[i], e, clocks)
    decreases i
  {
    if i > 0 {
      UnderwayUntil(run, i - 1, j, e, clocks);
      UnderwayOn(run, i - 1, j, e, clocks);
    }
  }

  lemma UnderwayOn(run: Run, i: nat, j: nat, e: U64, clocks: iset<Clock>)
    requires run.Valid() && i < j < |run.steps| && run.steps[i].clock in clocks
    requires Underway(run.states[0], run.states[i], e, clocks)
    requires RetiresAt(run, j, e) && !RetiresAt(run, i, e)
    ensures Underway(run.states[0], run.states[i + 1], e, clocks)
  {
    if ChangesEpoch(run.moves[i]) {
      ActivationEndsRetirement(run, i, j, e);
    } else {
      UnderwayStep(run, i, e, clocks);
    }
  }

  lemma {:induction false} FirstRetirement(run: Run, j: nat, e: U64) returns (i: nat)
    requires run.Valid() && j < |run.steps| && RetiresAt(run, j, e)
    ensures i <= j && RetiresAt(run, i, e) && forall k: nat :: k < i ==> !RetiresAt(run, k, e)
    decreases j
  {
    if k: nat :| k < j && RetiresAt(run, k, e) {
      i := FirstRetirement(run, k, e);
    } else {
      i := j;
    }
  }

  lemma RetirementWasNotified(run: Run, j: nat, e: U64, clocks: iset<Clock>)
    requires run.Valid() && j < |run.steps| && UsesClocks(run, clocks) && RetiresAt(run, j, e)
    ensures CanBeNotified(clocks)
    ensures e in run.states[j].desk.store.draining && run.states[j].desk.store.draining[e].pending == {}
    ensures run.states[j].desk.store.activationQc.Some? && e == run.states[j].desk.store.activationQc.value.predecessorEpoch
  {
    AtSucc(run, j);
    DeskSucc(run, j);
    var c := run.steps[j].clock;
    assert c in clocks && c.wall < U64_MAX;
  }

  lemma RetirementNeedsEmptiable(run: Run, j: nat, e: U64, clocks: iset<Clock>)
    requires run.Valid() && j < |run.steps| && UsesClocks(run, clocks) && RetiresAt(run, j, e)
    requires Sound(run.states[0]) && EpochLeft(run.states[0].desk.store) && e in run.states[0].desk.store.draining
    ensures Emptiable(run.states[0], e, clocks) && CanBeNotified(clocks)
  {
    var s0 := run.states[0];
    var first := FirstRetirement(run, j, e);
    RunExtends(run, 0, 0);
    UnderwayUntil(run, first, first, e, clocks);
    RetirementWasNotified(run, first, e, clocks);
  }

  /** From a sound entry below the last epoch, a draining epoch can still retire at the given
      clocks exactly when it is the one the latest activation left, none of the recoveries
      it waits for is cancelled, each of them can be served at some clock by the boot that
      accepted it and under the capsule now followed, and a notice can reach the guardian. */
  lemma RetirableIff(s: GuardianState, e: U64, clocks: iset<Clock>)
    requires Sound(s) && EpochLeft(s.desk.store) && e in s.desk.store.draining
    ensures Retirable(s, e, clocks) <==> Emptiable(s, e, clocks) && CanBeNotified(clocks)
  {
    if Emptiable(s, e, clocks) && CanBeNotified(clocks) {
      var run, j := EmptiableRetires(s, e, clocks);
    }
    if Retirable(s, e, clocks) {
      var run: Run, j: nat :|
        run.Valid() && run.states[0] == s && UsesClocks(run, clocks) && j < |run.steps| && RetiresAt(run, j, e);
      RetirementNeedsEmptiable(run, j, e, clocks);
    }
  }

  /** The capsule now followed still admits the request at some time. */
  predicate StillAdmitted(q: RecoveryRequest, capsule: Capsule) {
    RequestValid(q, capsule, q.configRef, q.requestedAt)
  }

  lemma ServiceableEver(s: GuardianState, k: Id32, clocks: iset<Clock>)
    requires forall c: Clock :: c in clocks
    ensures Serviceable(s, k, clocks) <==>
              k in s.desk.recoveries && !s.desk.recoveries[k].cancelled
              && StillAdmitted(s.desk.recoveries[k].request, s.predecessor)
  {
    if k in s.desk.recoveries && StillAdmitted(s.desk.recoveries[k].request, s.predecessor) {
      var r := s.desk.recoveries[k];
      assert Meets(Clock(r.request.requestedAt, U64_MAX, r.bootId, false), r, s.predecessor);
    }
  }

  /** Without a restriction on the clocks: the entry alone decides whether the epoch can
      still retire. */
  lemma RetirableEverIff(s: GuardianState, e: U64, clocks: iset<Clock>)
    requires Sound(s) && EpochLeft(s.desk.store) && e in s.desk.store.draining && forall c: Clock :: c in clocks
    ensures Retirable(s, e, clocks) <==>
              && s.desk.store.activationQc.Some? && e == s.desk.store.activationQc.value.predecessorEpoch
              && forall k :: k in s.desk.store.draining[e].pending ==>
                   k in s.desk.recoveries && !s.desk.recoveries[k].cancelled
                   && StillAdmitted(s.desk.recoveries[k].request, s.predecessor)
  {
    RetirableIff(s, e, clocks);
    assert Clock(0, 0, "", false) in clocks;
    forall k
      ensures Serviceable(s, k, clocks) <==>
                k in s.desk.recoveries && !s.desk.recoveries[k].cancelled
                && StillAdmitted(s.desk.recoveries[k].request, s.predecessor)
    {
      ServiceableEver(s, k, clocks);
    }
  }

  // ---- The causes, one by one ----------------------------------------------------

  lemma UnservedStrands(s: GuardianState, e: U64, k: Id32, clocks: iset<Clock>)
    requires Sound(s) && EpochLeft(s.desk.store) && e in s.desk.store.draining
    requires k in s.desk.store.draining[e].pending && !Serviceable(s, k, clocks)
    ensures !Retirable(s, e, clocks)
  {
    RetirableIff(s, e, clocks);
  }

  /** After a reboot nothing that was begun before it can be released, so an epoch that
      still waits for it never retires, although the recovery is live. */
  lemma RebootStrands(s: GuardianState, e: U64, k: Id32, clocks: iset<Clock>)
    requires Sound(s) && EpochLeft(s.desk.store) && e in s.desk.store.draining
    requires k in s.desk.store.draining[e].pending && k in s.desk.recoveries
    requires forall c :: c in clocks ==> c.boot != s.desk.recoveries[k].bootId
    ensures !Retirable(s, e, clocks)
  {
    UnservedStrands(s, e, k, clocks);
  }

  /** The same once the request has expired, as long as the wall clock stays past it. */
  lemma ExpiryStrands(s: GuardianState, e: U64, k: Id32, clocks: iset<Clock>)
    requires Sound(s) && EpochLeft(s.desk.store) && e in s.desk.store.draining
    requires k in s.desk.store.draining[e].pending && k in s.desk.recoveries
    requires forall c :: c in clocks ==> c.wall >= s.desk.recoveries[k].request.expiry
    ensures !Retirable(s, e, clocks)
  {
    UnservedStrands(s, e, k, clocks);
  }

  /** And, at whatever clocks, when the capsule now followed admits shorter lifetimes than
      the request has. The guardian accepts such a capsule, but correct witnesses certify
      none: on genuine certificates `ImmutablePolicy` rules the case out. */
  lemma ShorterLifetimeStrands(s: GuardianState, e: U64, k: Id32, clocks: iset<Clock>)
    requires Sound(s) && EpochLeft(s.desk.store) && e in s.desk.store.draining
    requires k in s.desk.store.draining[e].pending && k in s.desk.recoveries
    requires var q := s.desk.recoveries[k].request;
             q.expiry > SatAdd(q.requestedAt, s.predecessor.body.maxRequestLifetime)
    ensures !Retirable(s, e, clocks)
  {
    UnservedStrands(s, e, k, clocks);
  }
}
