/** Rotations in every run of a guardian: a finished one stays finished, a replaced guardian
    stays out, and a failed activation wedges its session. */
module GuardianRotations {
  import opened Foundations
  import opened EpochTypes
  import opened EpochSelection
  import opened RotationPlans
  import opened GuardianEpochs
  import opened GuardianRecoveries
  import opened GuardianEntry
  import opened GuardianRuns
  import opened GuardianTheorems

  // ---- Finished rotations --------------------------------------------------------

  /** The move prepares, activates or observes the rotation. */
  predicate Advances(m: Move, r: Id32) {
    m.Stored? && (m.op.Prepare? || m.op.Activate? || m.op.ObserveReplacement?) && m.op.rotationId == r
  }

  lemma FinishedIsNotAdvanced(s: GuardianState, q: Request, c: Clock, r: Id32)
    requires ValidGuardian(s) && r in s.desk.store.tombstones
    ensures !Advances(MoveOf(s, q, c), r)
  {
  }

  lemma MoveKeepsTombstones(d: Desk, m: Move, c: Clock)
    requires ValidStore(d.store) && Grounded(d, m, c)
    ensures d.store.tombstones.Keys <= DeskAfter(d, m, c).store.tombstones.Keys
  {
  }

  lemma {:induction false} TombstonesStay(run: Run, i: nat, j: nat)
    requires run.Valid() && i <= j <= |run.steps|
    ensures run.states[i].desk.store.tombstones.Keys <= run.states[j].desk.store.tombstones.Keys
    decreases j
  {
    if i < j {
      TombstonesStay(run, i, j - 1);
      DeskSucc(run, j - 1);
      MoveKeepsTombstones(run.states[j - 1].desk, run.moves[j - 1], run.steps[j - 1].clock);
    }
  }

  lemma ClosingMoveTombstones(d: Desk, m: Move, c: Clock)
    requires ValidStore(d.store) && Grounded(d, m, c) && m.Stored?
    requires m.op.Abort? || m.op.Activate? || m.op.ObserveReplacement?
    ensures m.op.rotationId in DeskAfter(d, m, c).store.tombstones.Keys
  {
  }

  /** A rotation this guardian cancelled, aborted, activated or saw activated is never
      prepared, activated or observed again. */
  lemma RotationEndsOnce(run: Run, i: nat, j: nat)
    requires run.Valid() && i < j < |run.steps|
    requires run.moves[i].Stored?
    requires var op := run.moves[i].op; op.Abort? || op.Activate? || op.ObserveReplacement?
    ensures !Advances(run.moves[j], run.moves[i].op.rotationId)
  {
    DeskSucc(run, i);
    ClosingMoveTombstones(run.states[i].desk, run.moves[i], run.steps[i].clock);
    TombstonesStay(run, i + 1, j);
    assert run.moves[i].op.rotationId in run.states[j].desk.store.tombstones.Keys;
    AtSucc(run, j);
    FinishedIsNotAdvanced(run.states[j], run.steps[j].request, run.steps[j].clock, run.moves[i].op.rotationId);
  }

  // ---- Replaced guardians --------------------------------------------------------

  /** Everything that could give the guardian authority again, unchanged. */
  predicate SameStanding(s: GuardianState, s': GuardianState) {
    && s'.predecessor == s.predecessor
    && s'.desk.store.expected == s.desk.store.expected
    && s'.desk.store.expectedHash == s.desk.store.expectedHash
    && s'.desk.store.active == s.desk.store.active
  }

  lemma ReplacedRefusesChange(s: GuardianState, plan: RotationPlan, capsule: Capsule, deadline: U64)
    requires ValidGuardian(s) && Replaced(s) && ActivationReaches(s, plan, capsule)
    ensures Refusal(s.desk.store, EpochChange(s, plan, capsule, deadline)).Some?
  {
    ActivationFacts(s, plan, capsule);
  }

  lemma NextKeepsReplaced(s: GuardianState, q: Request, c: Clock)
    requires ValidGuardian(s) && Replaced(s)
    ensures SameStanding(s, Next(s, q, c)) && Replaced(Next(s, q, c))
  {
    if q.ActivateRotation? && q.IsFresh(s, c.wall) && ActivationReaches(s, q.plan, q.capsule) {
      ReplacedRefusesChange(s, q.plan, q.capsule, q.deadline);
    }
  }

  lemma ReplacedStep(run: Run, i: nat)
    requires run.Valid() && i < |run.steps| && Replaced(run.states[i])
    ensures Replaced(run.states[i + 1]) && SameStanding(run.states[i], run.states[i + 1])
  {
    AtSucc(run, i);
    NextKeepsReplaced(run.states[i], run.steps[i].request, run.steps[i].clock);
  }

  /** A guardian that was rotated out never acts for any epoch again: it follows the
      capsule that replaced it for ever, while its store expects a successor of the one
      before, and no activation satisfies both. */
  lemma {:induction false} ReplacedForGood(run: Run, i: nat, j: nat)
    requires run.Valid() && i <= j <= |run.steps| && Replaced(run.states[i])
    ensures Replaced(run.states[j]) && SameStanding(run.states[i], run.states[j])
    decreases j
  {
    if i < j {
      ReplacedForGood(run, i, j - 1);
      ReplacedStep(run, j - 1);
    }
  }

  /** Being rotated out is exactly accepting an activation without being in its new roster. */
  lemma ObservingReplaces(s: GuardianState, plan: RotationPlan, capsule: Capsule, deadline: U64)
    requires ValidGuardian(s) && ActivationReaches(s, plan, capsule)
    requires Refusal(s.desk.store, EpochChange(s, plan, capsule, deadline)).None?
    ensures Replaced(ActivationNext(s, plan, capsule, deadline)) <==> !Routed(s, plan.newRoster)
    ensures Linked(ActivationNext(s, plan, capsule, deadline)) <==> Routed(s, plan.newRoster)
  {
    ActivationFacts(s, plan, capsule);
    CertifiedSuccessorDiffers(capsule, s.predecessor);
  }

  // ---- Wedged sessions -----------------------------------------------------------

  /** The session's machine says Active although the store never activated. */
  predicate Wedged(s: GuardianState, r: Id32) {
    r in s.sessions && s.sessions[r].machine.stage == RotationStage.Active && !s.sessions[r].cancelled
  }

  /** An activation that the store refuses has already moved the session's machine. */
  lemma RefusedActivationWedges(s: GuardianState, plan: RotationPlan, capsule: Capsule, deadline: U64)
    requires ValidGuardian(s) && ActivationReaches(s, plan, capsule)
    ensures Wedged(ActivationNext(s, plan, capsule, deadline), plan.context.rotationId) <==>
            Refusal(s.desk.store, EpochChange(s, plan, capsule, deadline)).Some?
    ensures Wedged(ActivationNext(s, plan, capsule, deadline), plan.context.rotationId) ==>
            ActivationNext(s, plan, capsule, deadline).sessions[plan.context.rotationId].machine.drainDeadline == Some(deadline)
  {
  }

  lemma ReleasingKeepsWedged(s: GuardianState, plan: RotationPlan, r: Id32, now: U64)
    requires Wedged(s, r)
    ensures Wedged(ReleaseRotationNext(s, plan, now), r)
  {
  }

  lemma EndingOtherKeepsWedged(s: GuardianState, plan: RotationPlan, r: Id32)
    requires ValidGuardian(s) && Wedged(s, r) && plan.context.rotationId != r
    ensures Wedged(CancelRotationNext(s, plan), r)
    ensures plan.context.rotationId in s.sessions && GivenUp(s.sessions[plan.context.rotationId].machine).Some? ==>
              Wedged(AbortRotationNext(s, plan), r)
  {
  }

  lemma ActivatingOtherKeepsWedged(s: GuardianState, plan: RotationPlan, capsule: Capsule, deadline: U64, r: Id32)
    requires ValidGuardian(s) && Wedged(s, r) && plan.context.rotationId != r && capsule.activationQc.Some?
    requires plan.context.rotationId in s.sessions && MachineReady(s.sessions[plan.context.rotationId])
    ensures Wedged(ActivationNext(s, plan, capsule, deadline), r)
  {
  }

  predicate EndsRotation(q: Request) {
    q.CancelRotation? || q.AbortRotation? || q.ActivateRotation?
  }

  lemma WedgedIgnores(s: GuardianState, q: Request, c: Clock)
    requires ValidGuardian(s) && EndsRotation(q) && Wedged(s, q.plan.context.rotationId)
    ensures Next(s, q, c) == s
  {
  }

  lemma NextKeepsWedged(s: GuardianState, q: Request, c: Clock, r: Id32)
    requires ValidGuardian(s) && Wedged(s, r)
    ensures Wedged(Next(s, q, c), r)
  {
    if EndsRotation(q) {
      if q.plan.context.rotationId == r {
        WedgedIgnores(s, q, c);
      } else if q.ActivateRotation? {
        if ActivationReaches(s, q.plan, q.capsule) {
          ActivatingOtherKeepsWedged(s, q.plan, q.capsule, q.deadline, r);
        }
      } else {
        EndingOtherKeepsWedged(s, q.plan, r);
      }
    } else if q.ReleaseRotation? {
      ReleasingKeepsWedged(s, q.plan, r, c.now);
    }
  }

  lemma WedgedRefuses(s: GuardianState, plan: RotationPlan, capsule: Capsule, cancel: OwnerCancelCertificate,
                      abort: AbortCertificate, wall: U64)
    requires ValidGuardian(s) && Wedged(s, plan.context.rotationId)
    ensures !ActivationReaches(s, plan, capsule)
    ensures !CancelRotationReaches(s, plan, cancel, wall)
    ensures !AbortRotationReaches(s, plan, abort, wall)
  {
  }

  lemma WedgedStep(run: Run, i: nat, r: Id32)
    requires run.Valid() && i < |run.steps| && Wedged(run.states[i], r)
    ensures Wedged(run.states[i + 1], r)
  {
    AtSucc(run, i);
    NextKeepsWedged(run.states[i], run.steps[i].request, run.steps[i].clock, r);
  }

  /** A wedged session stays: no later request activates, cancels or aborts its rotation.
      The refused activation itself is not saved: until another request on the store is, a
      restart from the older file undoes it. */
  lemma {:induction false} WedgedForGood(run: Run, i: nat, j: nat, r: Id32)
    requires run.Valid() && i <= j <= |run.steps| && Wedged(run.states[i], r)
    ensures Wedged(run.states[j], r)
    decreases j
  {
    if i < j {
      WedgedForGood(run, i, j - 1, r);
      WedgedStep(run, j - 1, r);
    }
  }

  // ---- Outcomes ------------------------------------------------------------------

  /** The rotation is over, with this plan and this outcome. */
  predicate Ended(store: StoreState, r: Id32, plan: PlanHash, outcome: RotationStage) {
    r in store.tombstones && store.tombstones[r].planHash == plan && store.tombstones[r].outcome == outcome
  }

  lemma EndingMove(s: GuardianState, q: Request, c: Clock, r: Id32, plan: PlanHash, outcome: RotationStage)
    requires ValidGuardian(s) && Ended(s.desk.store, r, plan, outcome)
    ensures var m := MoveOf(s, q, c);
            m.Stored? && (m.op.Abort? || m.op.Activate? || m.op.ObserveReplacement?) && m.op.rotationId == r ==>
              m.op.Abort? && m.op.planHash == plan && outcome == Aborted
  {
  }

  lemma MoveKeepsOutcome(d: Desk, m: Move, c: Clock, r: Id32, plan: PlanHash, outcome: RotationStage)
    requires ValidStore(d.store) && Grounded(d, m, c) && Ended(d.store, r, plan, outcome)
    requires m.Stored? && (m.op.Abort? || m.op.Activate? || m.op.ObserveReplacement?) && m.op.rotationId == r ==>
               m.op.Abort? && m.op.planHash == plan && outcome == Aborted
    ensures Ended(DeskAfter(d, m, c).store, r, plan, outcome)
  {
  }

  lemma OutcomeStep(run: Run, i: nat, r: Id32, plan: PlanHash, outcome: RotationStage)
    requires run.Valid() && i < |run.steps| && Ended(run.states[i].desk.store, r, plan, outcome)
    ensures Ended(run.states[i + 1].desk.store, r, plan, outcome)
  {
    AtSucc(run, i);
    DeskSucc(run, i);
    EndingMove(run.states[i], run.steps[i].request, run.steps[i].clock, r, plan, outcome);
    MoveKeepsOutcome(run.states[i].desk, run.moves[i], run.steps[i].clock, r, plan, outcome);
  }

  /** The store alone would let an abort overwrite the tombstone of an activated rotation; no
      request to the guardian gets that far. How a rotation ended stays as it was. */
  lemma {:induction false} OutcomeIsFinal(run: Run, i: nat, j: nat, r: Id32, plan: PlanHash, outcome: RotationStage)
    requires run.Valid() && i <= j <= |run.steps| && Ended(run.states[i].desk.store, r, plan, outcome)
    ensures Ended(run.states[j].desk.store, r, plan, outcome)
    decreases j
  {
    if i < j {
      OutcomeIsFinal(run, i, j - 1, r, plan, outcome);
      OutcomeStep(run, j - 1, r, plan, outcome);
    }
  }

  // ---- Cancelled sessions --------------------------------------------------------

  /** The owner's cancellation has closed the session, or the rotation is over. */
  predicate ShutOut(s: GuardianState, r: Id32) {
    r in s.desk.store.tombstones || (r in s.sessions && s.sessions[r].cancelled)
  }

  lemma CancelShutsOut(s: GuardianState, plan: RotationPlan)
    requires ValidGuardian(s) && Cancellable(s, plan) && (plan.context.rotationId in s.sessions || ShutOut(s, plan.context.rotationId))
    ensures ShutOut(CancelRotationNext(s, plan), plan.context.rotationId)
  {
  }

  lemma EndingOtherKeepsShutOut(s: GuardianState, plan: RotationPlan, r: Id32)
    requires ValidGuardian(s) && ShutOut(s, r) && plan.context.rotationId != r
    ensures ShutOut(CancelRotationNext(s, plan), r)
    ensures plan.context.rotationId in s.sessions && GivenUp(s.sessions[plan.context.rotationId].machine).Some? ==>
              ShutOut(AbortRotationNext(s, plan), r)
  {
  }

  lemma ActivatingOtherKeepsShutOut(s: GuardianState, plan: RotationPlan, capsule: Capsule, deadline: U64, r: Id32)
    requires ValidGuardian(s) && ShutOut(s, r) && plan.context.rotationId != r && capsule.activationQc.Some?
    requires plan.context.rotationId in s.sessions && MachineReady(s.sessions[plan.context.rotationId])
    ensures ShutOut(ActivationNext(s, plan, capsule, deadline), r)
  {
  }

  lemma ShutOutHasNoSession(s: GuardianState, plan: RotationPlan)
    requires ValidGuardian(s) && ShutOut(s, plan.context.rotationId)
    ensures !HasSession(s, plan)
  {
  }

  lemma NextKeepsShutOut(s: GuardianState, q: Request, c: Clock, r: Id32)
    requires ValidGuardian(s) && ShutOut(s, r)
    ensures ShutOut(Next(s, q, c), r)
  {
    if q.IsFresh(s, c.wall) {
      match q
      case CancelRotation(plan, cancel) =>
        if CancelRotationReaches(s, plan, cancel, c.wall) {
          if plan.context.rotationId == r {
            CancelShutsOut(s, plan);
          } else {
            EndingOtherKeepsShutOut(s, plan, r);
          }
        }
      case AbortRotation(plan, abort) =>
        if AbortRotationReaches(s, plan, abort, c.wall) {
          if plan.context.rotationId == r {
            ShutOutHasNoSession(s, plan);
          } else {
            EndingOtherKeepsShutOut(s, plan, r);
          }
        }
      case ActivateRotation(plan, capsule, deadline) =>
        if ActivationReaches(s, plan, capsule) {
          if plan.context.rotationId == r {
            ShutOutHasNoSession(s, plan);
          } else {
            ActivatingOtherKeepsShutOut(s, plan, capsule, deadline, r);
          }
        }
      case ReleaseRotation(plan) =>
        if plan.context.rotationId == r {
          ShutOutHasNoSession(s, plan);
        }
      case _ =>
    }
  }

  lemma ShutOutIsNotAdvanced(s: GuardianState, q: Request, c: Clock, r: Id32)
    requires ValidGuardian(s) && ShutOut(s, r)
    ensures !Advances(MoveOf(s, q, c), r)
  {
    if q.PrepareCommit? && q.plan.context.rotationId == r {
      ShutOutHasNoSession(s, q.plan);
    } else if q.ActivateRotation? && q.plan.context.rotationId == r {
      ShutOutHasNoSession(s, q.plan);
    }
  }

  lemma ShutOutStep(run: Run, i: nat, r: Id32)
    requires run.Valid() && i < |run.steps| && ShutOut(run.states[i], r)
    ensures ShutOut(run.states[i + 1], r) && !Advances(run.moves[i], r)
  {
    AtSucc(run, i);
    NextKeepsShutOut(run.states[i], run.steps[i].request, run.steps[i].clock, r);
    ShutOutIsNotAdvanced(run.states[i], run.steps[i].request, run.steps[i].clock, r);
  }

  lemma {:induction false} ShutOutForGood(run: Run, i: nat, j: nat, r: Id32)
    requires run.Valid() && i <= j <= |run.steps| && ShutOut(run.states[i], r)
    ensures ShutOut(run.states[j], r)
    decreases j
  {
    if i < j {
      ShutOutForGood(run, i, j - 1, r);
      ShutOutStep(run, j - 1, r);
    }
  }

  /** An owner's cancellation that reaches an open session ends the rotation for this
      guardian, whether or not the store accepts it: the rotation is never prepared,
      activated or observed here afterwards. */
  lemma CancellationIsFinal(run: Run, i: nat, j: nat)
    requires run.Valid() && i < j < |run.steps| && run.steps[i].request.CancelRotation?
    requires var q, s, wall := run.steps[i].request, run.states[i], run.steps[i].clock.wall;
             && GuardianEntry.Fresh(s, q.plan.context, wall) && CancelRotationReaches(s, q.plan, q.cancel, wall)
             && q.plan.context.rotationId in s.sessions
    ensures !Advances(run.moves[j], run.steps[i].request.plan.context.rotationId)
  {
    var r := run.steps[i].request.plan.context.rotationId;
    AtSucc(run, i);
    CancelShutsOut(run.states[i], run.steps[i].request.plan);
    ShutOutForGood(run, i + 1, j, r);
    ShutOutStep(run, j, r);
  }
}
