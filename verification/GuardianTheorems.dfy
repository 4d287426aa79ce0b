/** What holds over every run of a guardian: drains lose nothing, and no epoch retires while
    a recovery of it is owed. */
module GuardianTheorems {
  import opened Foundations
  import opened EpochTypes
  import opened EpochSelection
  import opened RotationPlans
  import opened GuardianEpochs
  import opened GuardianRecoveries
  import opened GuardianEntry
  import opened GuardianRuns

  datatype RunStep = RunStep(request: Request, clock: Clock)

  /** A run: the requests served, the entry before the first and after each of them, and
      what each did to the recovery desk. */
  datatype Run = Run(states: seq<GuardianState>, steps: seq<RunStep>, moves: seq<Move>)
  {
    ghost predicate Follows(i: nat)
      requires |states| == |steps| + 1 && |moves| == |steps|
    {
      i < |steps| ==>
        && ValidGuardian(states[i])
        && states[i + 1] == Next(states[i], steps[i].request, steps[i].clock)
        && moves[i] == MoveOf(states[i], steps[i].request, steps[i].clock)
    }

    ghost predicate Valid() {
      && |states| == |steps| + 1 && |moves| == |steps|
      && ValidGuardian(states[0])
      && forall i: nat {:trigger Follows(i)} :: Follows(i)
    }
  }

  /** Every valid entry and every sequence of requests has its run. */
  lemma {:induction false} RunFrom(start: GuardianState, steps: seq<RunStep>) returns (run: Run)
    requires ValidGuardian(start)
    ensures run.Valid() && run.states[0] == start && run.steps == steps
    ensures ValidGuardian(run.states[|steps|])
    decreases |steps|
  {
    if steps == [] {
      run := Run([start], [], []);
    } else {
      var n := |steps| - 1;
      var shorter := RunFrom(start, steps[..n]);
      var last := shorter.states[n];
      NextKeepsValid(last, steps[n].request, steps[n].clock);
      run := Run(shorter.states + [Next(last, steps[n].request, steps[n].clock)], steps,
                 shorter.moves + [MoveOf(last, steps[n].request, steps[n].clock)]);
      forall i: nat
        ensures run.Follows(i)
      {
        assert shorter.Follows(i);
      }
    }
  }

  lemma AtSucc(run: Run, i: nat)
    requires run.Valid() && i < |run.steps|
    ensures ValidGuardian(run.states[i]) && ValidGuardian(run.states[i + 1])
    ensures run.states[i + 1] == Next(run.states[i], run.steps[i].request, run.steps[i].clock)
    ensures run.moves[i] == MoveOf(run.states[i], run.steps[i].request, run.steps[i].clock)
  {
    assert run.Follows(i);
    NextKeepsValid(run.states[i], run.steps[i].request, run.steps[i].clock);
  }

  lemma StateIsValid(run: Run, i: nat)
    requires run.Valid() && i <= |run.steps|
    ensures ValidGuardian(run.states[i])
  {
    if i > 0 {
      AtSucc(run, i - 1);
    }
  }

  lemma DeskSucc(run: Run, i: nat)
    requires run.Valid() && i < |run.steps|
    ensures ValidStore(run.states[i].desk.store)
    ensures Grounded(run.states[i].desk, run.moves[i], run.steps[i].clock)
    ensures run.states[i + 1].desk == DeskAfter(run.states[i].desk, run.moves[i], run.steps[i].clock)
  {
    AtSucc(run, i);
    NextDesk(run.states[i], run.steps[i].request, run.steps[i].clock);
  }

  // ---- Drains lose nothing -------------------------------------------------------

  lemma MoveKeepsComplete(d: Desk, m: Move, c: Clock)
    requires ValidDesk(d) && Grounded(d, m, c)
    requires m.Stored? && (m.op.Activate? || m.op.ObserveReplacement?) ==> !Drops(d, m.op)
    ensures DrainComplete(DeskAfter(d, m, c))
  {
    match m
    case Idle =>
    case Began(q) => BeginKeeps(d, q, c.wall, c.now, c.boot, c.demo);
    case Vetoed(q) => CancelKeeps(d, q);
    case Delivered(q) => ReleaseKeeps(d, q);
    case Stored(op) =>
      if op.Activate? || op.ObserveReplacement? {
        EpochChangeKeeps(d, op);
      } else {
        OtherOpKeeps(d, op);
      }
  }

  lemma MoveRaisesEpoch(d: Desk, m: Move, c: Clock)
    requires ValidStore(d.store) && Grounded(d, m, c)
    ensures d.store.expected.guardianEpoch <= DeskAfter(d, m, c).store.expected.guardianEpoch
  {
  }

  lemma {:induction false} EpochRises(run: Run, i: nat, j: nat)
    requires run.Valid() && i <= j <= |run.steps|
    ensures run.states[i].desk.store.expected.guardianEpoch <= run.states[j].desk.store.expected.guardianEpoch
    decreases j
  {
    if i < j {
      EpochRises(run, i, j - 1);
      DeskSucc(run, j - 1);
      MoveRaisesEpoch(run.states[j - 1].desk, run.moves[j - 1], run.steps[j - 1].clock);
    }
  }

  /** Drain completeness holds throughout every run that does not use up the 64-bit epoch
      counter. */
  lemma {:induction false} EveryRunDrainsCompletely(run: Run, j: nat)
    requires run.Valid() && DrainComplete(run.states[0].desk) && j <= |run.steps|
    requires EpochLeft(run.states[j].desk.store)
    ensures DrainComplete(run.states[j].desk)
    decreases j
  {
    if j == 0 {
    } else {
      EpochRises(run, j - 1, j);
      EveryRunDrainsCompletely(run, j - 1);
      DeskSucc(run, j - 1);
      var d, m := run.states[j - 1].desk, run.moves[j - 1];
      if m.Stored? {
        DropsOnlyAtLastEpoch(d, m.op);
      }
      MoveKeepsComplete(d, m, run.steps[j - 1].clock);
    }
  }

  ghost predicate RetiresAt(run: Run, i: nat, e: U64)
    requires run.Valid() && i < |run.steps|
  {
    run.moves[i].Stored? && run.moves[i].op.Retire? && run.moves[i].op.epoch == e
  }

  /** Whenever an epoch retires in such a run, every recovery that began under its
      configuration has been released or cancelled. */
  lemma RetirementIsComplete(run: Run, i: nat, e: U64, k: Id32)
    requires run.Valid() && DrainComplete(run.states[0].desk) && i < |run.steps|
    requires EpochLeft(run.states[i].desk.store) && RetiresAt(run, i, e)
    ensures var d := run.states[i].desk;
            && e in d.store.draining
            && (k in d.recoveries && d.recoveries[k].request.configRef == d.store.draining[e].record.configRef ==>
                  d.recoveries[k].released || d.recoveries[k].cancelled)
  {
    EveryRunDrainsCompletely(run, i);
    DeskSucc(run, i);
    var d := run.states[i].desk;
    RetirementOwesNothing(d, e, run.moves[i].op.now);
    assert DrainsAt(d.store, e, d.store.draining[e]);
  }

  /** What became of a draining epoch: it still waits for no more than it did, or it is
      gone and its number is past. */
  predicate Fades(was: DrainingGuardian, d: Desk, e: U64) {
    if e in d.store.draining then
      var now := d.store.draining[e];
      now.pending <= was.pending && now == was.(pending := now.pending)
    else
      e < d.store.expected.guardianEpoch || (e == d.store.expected.guardianEpoch && d.store.active.None?)
  }

  lemma MoveFades(was: DrainingGuardian, d: Desk, m: Move, c: Clock, e: U64)
    requires ValidStore(d.store) && Grounded(d, m, c) && EpochLeft(d.store) && Fades(was, d, e)
    ensures Fades(was, DeskAfter(d, m, c), e)
  {
    if e in d.store.draining {
      assert DrainsAt(d.store, e, d.store.draining[e]);
    }
  }

  /** Pending sets never grow after the activation that made them, and nothing else about
      a draining record changes; once gone it does not come back. */
  lemma {:induction false} PendingOnlyShrinks(run: Run, i: nat, j: nat, e: U64)
    requires run.Valid() && i <= j <= |run.steps| && EpochLeft(run.states[j].desk.store)
    requires e in run.states[i].desk.store.draining
    ensures Fades(run.states[i].desk.store.draining[e], run.states[j].desk, e)
    decreases j
  {
    if i < j {
      EpochRises(run, j - 1, j);
      PendingOnlyShrinks(run, i, j - 1, e);
      DeskSucc(run, j - 1);
      MoveFades(run.states[i].desk.store.draining[e], run.states[j - 1].desk, run.moves[j - 1], run.steps[j - 1].clock, e);
    }
  }

  // ---- Recoveries only progress --------------------------------------------------

  /** What never changes about an accepted recovery, and what only ever turns on. */
  ghost predicate Extends(d: Desk, d': Desk) {
    && d.vetoes.Keys <= d'.vetoes.Keys
    && d.recoveries.Keys <= d'.recoveries.Keys
    && (forall k :: k in d.recoveries ==> Continues(d.recoveries[k], d'.recoveries[k]))
  }

  predicate Continues(r: Recovery, r': Recovery) {
    && r' == r.(cancelled := r'.cancelled, released := r'.released)
    && (r.cancelled ==> r'.cancelled) && (r.released ==> r'.released)
  }

  lemma MoveExtends(d: Desk, m: Move, c: Clock)
    requires ValidStore(d.store) && Grounded(d, m, c)
    ensures Extends(d, DeskAfter(d, m, c))
  {
  }

  lemma ExtendsTransitively(a: Desk, b: Desk, c: Desk)
    requires Extends(a, b) && Extends(b, c)
    ensures Extends(a, c)
  {
    forall k | k in a.recoveries
      ensures k in c.recoveries && Continues(a.recoveries[k], c.recoveries[k])
    {
      assert k in b.recoveries && k in c.recoveries;
      assert Continues(a.recoveries[k], b.recoveries[k]) && Continues(b.recoveries[k], c.recoveries[k]);
    }
  }

  lemma ExtendsStep(run: Run, i: nat)
    requires run.Valid() && i < |run.steps|
    ensures Extends(run.states[i].desk, run.states[i + 1].desk)
  {
    DeskSucc(run, i);
    MoveExtends(run.states[i].desk, run.moves[i], run.steps[i].clock);
  }

  lemma {:induction false} RunExtends(run: Run, i: nat, j: nat)
    requires run.Valid() && i <= j <= |run.steps|
    ensures Extends(run.states[i].desk, run.states[j].desk)
    decreases j
  {
    if i < j {
      RunExtends(run, i, j - 1);
      ExtendsStep(run, j - 1);
      ExtendsTransitively(run.states[i].desk, run.states[j - 1].desk, run.states[j].desk);
    }
  }

  // ---- Stranded epochs -----------------------------------------------------------

  lemma MoveKeepsStranded(d: Desk, m: Move, c: Clock, e: U64, k: Id32)
    requires ValidDesk(d) && EpochLeft(d.store) && Grounded(d, m, c) && Stranded(d, e, k)
    ensures Stranded(DeskAfter(d, m, c), e, k)
  {
    match m
    case Idle =>
    case Began(q) => StrandedStays(d, e, k, q, c.wall, c.now, c.boot, c.demo, FinishRequest(e, k));
    case Vetoed(q) => StrandedStays(d, e, k, q, c.wall, c.now, c.boot, c.demo, FinishRequest(e, k));
    case Delivered(q) => StrandedStays(d, e, k, q, c.wall, c.now, c.boot, c.demo, FinishRequest(e, k));
    case Stored(op) =>
      if d.recoveries != map[] {
        StrandedStays(d, e, k, d.recoveries[k].request, c.wall, c.now, c.boot, c.demo, op);
      }
  }

  lemma {:induction false} StrandedThroughout(run: Run, i: nat, j: nat, e: U64, k: Id32)
    requires run.Valid() && DrainComplete(run.states[0].desk) && i <= j <= |run.steps|
    requires EpochLeft(run.states[j].desk.store)
    requires Stranded(run.states[i].desk, e, k)
    ensures Stranded(run.states[j].desk, e, k)
    decreases j
  {
    if i < j {
      EpochRises(run, j - 1, j);
      StrandedThroughout(run, i, j - 1, e, k);
      EveryRunDrainsCompletely(run, j - 1);
      DeskSucc(run, j - 1);
      MoveKeepsStranded(run.states[j - 1].desk, run.moves[j - 1], run.steps[j - 1].clock, e, k);
    }
  }

  /** A recovery cancelled while its epoch drains keeps that epoch from ever retiring. */
  lemma CancelledDrainNeverRetires(run: Run, i: nat, j: nat, e: U64, k: Id32)
    requires run.Valid() && DrainComplete(run.states[0].desk) && i <= j < |run.steps|
    requires EpochLeft(run.states[j].desk.store)
    requires Stranded(run.states[i].desk, e, k)
    ensures !RetiresAt(run, j, e)
  {
    StrandedThroughout(run, i, j, e, k);
    DeskSucc(run, j);
    StrandedIsNotRetired(run.states[j].desk, run.moves[j], run.steps[j].clock, e, k);
  }

  lemma StrandedIsNotRetired(d: Desk, m: Move, c: Clock, e: U64, k: Id32)
    requires Grounded(d, m, c) && Stranded(d, e, k)
    ensures !(m.Stored? && m.op.Retire? && m.op.epoch == e)
  {
  }

  /** An epoch still draining when the guardian observes a later activation: retirement
      speaks of the latest activation only, so it has been passed over. */
  predicate PassedOver(d: Desk, e: U64) {
    && e in d.store.draining
    && d.store.activationQc.Some?
    && e < d.store.activationQc.value.predecessorEpoch <= d.store.expected.guardianEpoch
  }

  lemma LaterActivationPassesOver(d: Desk, m: Move, c: Clock, e: U64)
    requires ValidStore(d.store) && Grounded(d, m, c)
    requires m.Stored? && (m.op.Activate? || m.op.ObserveReplacement?)
    requires e in d.store.draining && e < d.store.expected.guardianEpoch
    ensures PassedOver(DeskAfter(d, m, c), e)
  {
  }

  lemma MoveKeepsPassedOver(d: Desk, m: Move, c: Clock, e: U64)
    requires ValidStore(d.store) && Grounded(d, m, c) && PassedOver(d, e)
    ensures PassedOver(DeskAfter(d, m, c), e)
    ensures !(m.Stored? && m.op.Retire? && m.op.epoch == e)
  {
  }

  lemma PassedOverStep(run: Run, i: nat, e: U64)
    requires run.Valid() && i < |run.steps| && PassedOver(run.states[i].desk, e)
    ensures PassedOver(run.states[i + 1].desk, e) && !RetiresAt(run, i, e)
  {
    DeskSucc(run, i);
    MoveKeepsPassedOver(run.states[i].desk, run.moves[i], run.steps[i].clock, e);
  }

  /** An epoch that was passed over never retires, however empty it becomes. */
  lemma {:induction false} PassedOverNeverRetires(run: Run, i: nat, j: nat, e: U64)
    requires run.Valid() && i <= j < |run.steps| && PassedOver(run.states[i].desk, e)
    ensures PassedOver(run.states[j].desk, e) && !RetiresAt(run, j, e)
    decreases j
  {
    if i < j {
      PassedOverNeverRetires(run, i, j - 1, e);
      PassedOverStep(run, j - 1, e);
    }
    PassedOverStep(run, j, e);
  }
}
