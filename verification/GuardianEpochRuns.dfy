/** Whole runs of one guardian's epoch store. */
module GuardianEpochRuns {
  import opened Foundations
  import opened EpochTypes
  import opened GuardianEpochs

  /** A run: the mutations asked for, and the store before the first and after each. */
  datatype Run = Run(states: seq<StoreState>, ops: seq<StoreOp>)
  {
    ghost predicate Follows(i: nat)
      requires |states| == |ops| + 1
    {
      i < |ops| ==> ValidStore(states[i]) && states[i + 1] == Step(states[i], ops[i])
    }

    ghost predicate Valid() {
      && |states| == |ops| + 1
      && ValidStore(states[0])
      && forall i: nat {:trigger Follows(i)} :: Follows(i)
    }

    predicate Accepted(i: nat)
      requires i < |ops| <= |states|
    {
      Refusal(states[i], ops[i]).None?
    }
  }

  /** Every valid store and every sequence of mutations has its run. */
  lemma {:induction false} RunFrom(start: StoreState, ops: seq<StoreOp>) returns (run: Run)
    requires ValidStore(start)
    ensures run.Valid() && run.states[0] == start && run.ops == ops && ValidStore(run.states[|ops|])
    decreases |ops|
  {
    if ops == [] {
      run := Run([start], []);
    } else {
      var n := |ops| - 1;
      var shorter := RunFrom(start, ops[..n]);
      StepKeepsValid(shorter.states[n], ops[n]);
      run := Run(shorter.states + [Step(shorter.states[n], ops[n])], ops);
      forall i: nat
        ensures run.Follows(i)
      {
        assert shorter.Follows(i);
      }
    }
  }

  lemma AfterSucc(run: Run, i: nat)
    requires run.Valid() && i < |run.ops|
    ensures ValidStore(run.states[i]) && ValidStore(run.states[i + 1])
    ensures run.states[i + 1] == Step(run.states[i], run.ops[i])
  {
    assert run.Follows(i);
    StepKeepsValid(run.states[i], run.ops[i]);
  }

  // ---- Epochs --------------------------------------------------------------------

  /** How many of the first `n` mutations were accepted activations. */
  function Activations(run: Run, n: nat): nat
    requires n <= |run.ops| <= |run.states|
  {
    if n == 0 then 0
    else Activations(run, n - 1) + (if run.ops[n - 1].Activate? && run.Accepted(n - 1) then 1 else 0)
  }

  lemma StepEpoch(s: StoreState, op: StoreOp)
    requires ValidStore(s)
    ensures var accepted := op.Activate? && Refusal(s, op).None?;
            Step(s, op).expected.guardianEpoch == if accepted then SatAdd(s.expected.guardianEpoch, 1) else s.expected.guardianEpoch
  {
  }

  /** The expected epoch is the starting epoch plus the number of accepted activations,
      capped at the largest 64-bit value; nothing else moves it. */
  lemma {:induction false} EpochCountsActivations(run: Run, n: nat)
    requires run.Valid() && n <= |run.ops|
    ensures var sum := run.states[0].expected.guardianEpoch + Activations(run, n);
            run.states[n].expected.guardianEpoch == if sum <= U64_MAX then sum else U64_MAX
    decreases n
  {
    if n > 0 {
      EpochCountsActivations(run, n - 1);
      AfterSucc(run, n - 1);
      StepEpoch(run.states[n - 1], run.ops[n - 1]);
    }
  }

  // ---- Finished rotations --------------------------------------------------------

  lemma StepKeepsTombstones(s: StoreState, op: StoreOp)
    requires ValidStore(s)
    ensures s.tombstones.Keys <= Step(s, op).tombstones.Keys
  {
  }

  lemma {:induction false} TombstonesStay(run: Run, i: nat, j: nat)
    requires run.Valid() && i <= j <= |run.ops|
    ensures run.states[i].tombstones.Keys <= run.states[j].tombstones.Keys
    decreases j
  {
    if i < j {
      TombstonesStay(run, i, j - 1);
      AfterSucc(run, j - 1);
      StepKeepsTombstones(run.states[j - 1], run.ops[j - 1]);
    }
  }

  predicate Concerns(op: StoreOp, r: Id32) {
    (op.Prepare? || op.Activate?) && op.rotationId == r
  }

  lemma TombstonedIsRefused(s: StoreState, op: StoreOp, r: Id32)
    requires ValidStore(s) && r in s.tombstones && Concerns(op, r)
    ensures Refusal(s, op).Some?
  {
  }

  /** Once a rotation is tombstoned, whether it was activated, aborted or observed, it is
      never prepared or activated again. */
  lemma FinishedForGood(run: Run, i: nat, j: nat, r: Id32)
    requires run.Valid() && i <= j < |run.ops|
    requires r in run.states[i].tombstones && Concerns(run.ops[j], r)
    ensures !run.Accepted(j)
  {
    TombstonesStay(run, i, j);
    assert r in run.states[i].tombstones.Keys;
    AfterSucc(run, j);
    TombstonedIsRefused(run.states[j], run.ops[j], r);
  }

  /** No rotation is activated twice in any run, whatever happens in between. */
  lemma ActivatesOnce(run: Run, i: nat, j: nat)
    requires run.Valid() && i < |run.ops| && j < |run.ops|
    requires run.Accepted(i) && run.Accepted(j)
    requires run.ops[i].Activate? && run.ops[j].Activate? && run.ops[i].rotationId == run.ops[j].rotationId
    ensures i == j
  {
    if i != j {
      var first, second := if i < j then i else j, if i < j then j else i;
      AfterSucc(run, first);
      FinishedForGood(run, first + 1, second, run.ops[first].rotationId);
    }
  }

  /** Only the set of tombstoned rotations is monotone: Abort overwrites the tombstone of
      a finished rotation exactly when nothing is prepared and the rotation is not the one
      of the latest activation certificate. */
  lemma AbortRewritesTombstone(s: StoreState, r: Id32, h: PlanHash)
    requires ValidStore(s) && r in s.tombstones
    ensures Refusal(s, Abort(r, h)).None? <==>
            s.prepared.None? && !(s.activationQc.Some? && s.activationQc.value.rotationId == r)
    ensures Refusal(s, Abort(r, h)).None? ==>
              Applied(s, Abort(r, h)).tombstones[r] == RotationTombstone(r, h, s.expectedHash, Aborted)
  {
  }

  // ---- Durable generations -------------------------------------------------------

  lemma StepRaisesGeneration(s: StoreState, op: StoreOp)
    requires ValidStore(s)
    ensures s.nextGeneration <= Step(s, op).nextGeneration
  {
  }

  lemma {:induction false} GenerationsRise(run: Run, i: nat, j: nat)
    requires run.Valid() && i <= j <= |run.ops|
    ensures run.states[i].nextGeneration <= run.states[j].nextGeneration
    decreases j
  {
    if i < j {
      GenerationsRise(run, i, j - 1);
      AfterSucc(run, j - 1);
      StepRaisesGeneration(run.states[j - 1], run.ops[j - 1]);
    }
  }

  /** Two accepted Prepares are acknowledged under different, rising generations, until
      the 64-bit counter is exhausted. */
  lemma PreparesAreDistinguished(run: Run, i: nat, j: nat)
    requires run.Valid() && i < j < |run.ops|
    requires run.ops[i].Prepare? && run.ops[j].Prepare? && run.Accepted(i) && run.Accepted(j)
    ensures var g, h := run.states[i + 1].prepared, run.states[j + 1].prepared;
            g.Some? && h.Some? && (g.value.generation < h.value.generation || h.value.generation == U64_MAX)
  {
    AfterSucc(run, i);
    AfterSucc(run, j);
    GenerationsRise(run, i + 1, j);
  }

  // ---- Where records come from ---------------------------------------------------

  /** The record at another stage of its life: what it authorises has not changed. */
  predicate SameRecord(r: GuardianRecord, r': GuardianRecord) {
    && r'.configRef == r.configRef && r'.predecessorHash == r.predecessorHash
    && r'.minimumRecoveryDelay == r.minimumRecoveryDelay && r'.material == r.material
  }

  ghost predicate Holds(s: StoreState, r: GuardianRecord) {
    || s.active == Some(r)
    || (s.prepared.Some? && s.prepared.value.record == r)
    || exists e: U64 :: e in s.draining && s.draining[e].record == r
  }

  /** Every record after a mutation was held before it, or is the one just prepared. */
  lemma RecordsStayOrArePrepared(s: StoreState, op: StoreOp, r': GuardianRecord)
    requires ValidStore(s) && Refusal(s, op).None? && Holds(Applied(s, op), r')
    ensures (op.Prepare? && SameRecord(op.record, r')) || exists r :: Holds(s, r) && SameRecord(r, r')
  {
    var t := Applied(s, op);
    if t.active == Some(r') {
      assert op.Activate? ==> Holds(s, s.prepared.value.record);
      assert !op.Activate? ==> Holds(s, r');
    } else if t.prepared.Some? && t.prepared.value.record == r' {
      assert !op.Prepare? ==> Holds(s, r');
    } else {
      var e: U64 :| e in t.draining && t.draining[e].record == r';
      if e in s.draining && s.draining[e].record == r' {
        assert Holds(s, r');
      } else {
        assert Holds(s, s.active.value);
      }
    }
  }

  ghost predicate HeldAtStart(run: Run, r: GuardianRecord)
    requires |run.states| > 0
  {
    exists r0 :: Holds(run.states[0], r0) && SameRecord(r0, r)
  }

  /** Whatever a guardian holds in any run, it was provisioned with or prepared. */
  lemma {:induction false} RecordHasSource(run: Run, t: nat, r: GuardianRecord)
    requires run.Valid() && t <= |run.ops| && Holds(run.states[t], r)
    ensures || HeldAtStart(run, r)
            || exists i: nat :: i < t && run.Accepted(i) && run.ops[i].Prepare? && SameRecord(run.ops[i].record, r)
    decreases t
  {
    if t == 0 {
      assert SameRecord(r, r);
    } else {
      AfterSucc(run, t - 1);
      if run.Accepted(t - 1) {
        RecordsStayOrArePrepared(run.states[t - 1], run.ops[t - 1], r);
        if !(run.ops[t - 1].Prepare? && SameRecord(run.ops[t - 1].record, r)) {
          var r0 :| Holds(run.states[t - 1], r0) && SameRecord(r0, r);
          RecordHasSource(run, t - 1, r0);
        }
      } else {
        RecordHasSource(run, t - 1, r);
      }
    }
  }

  lemma StepPreparedOrigin(s: StoreState, op: StoreOp)
    requires ValidStore(s) && Step(s, op).prepared.Some?
    ensures || (Refusal(s, op).None? && op.Prepare?)
            || (s.prepared.Some? && Step(s, op).prepared == s.prepared)
  {
  }

  lemma {:induction false} PreparedOrigin(run: Run, t: nat) returns (i: nat)
    requires run.Valid() && t <= |run.ops| && run.states[0].prepared.None? && run.states[t].prepared.Some?
    ensures i < t && run.Accepted(i) && run.ops[i].Prepare?
    ensures var p := run.states[t].prepared.value;
            p.rotationId == run.ops[i].rotationId && p.planHash == run.ops[i].planHash
            && p.record == run.ops[i].record.(stage := PreparedEpoch)
    decreases t
  {
    AfterSucc(run, t - 1);
    StepPreparedOrigin(run.states[t - 1], run.ops[t - 1]);
    if run.Accepted(t - 1) && run.ops[t - 1].Prepare? {
      i := t - 1;
    } else {
      i := PreparedOrigin(run, t - 1);
    }
  }

  /** The certificate is of this rotation and leaves the capsule the store expects to be left. */
  predicate Follows(qc: ActivationQc, rotationId: Id32, s: StoreState) {
    && qc.rotationId == rotationId
    && qc.predecessorEpoch == s.expected.guardianEpoch && qc.predecessorHash == s.expectedHash
  }

  /** What a guardian does when it is replaced: on a certificate that leaves its capsule for
      the next epoch, with nothing prepared, it lets its active record drain and keeps no
      other. */
  lemma ReplacementDrains(s: StoreState, op: StoreOp)
    requires ValidStore(s) && op.ObserveReplacement? && Refusal(s, op).None?
    ensures s.prepared.None? && s.active.Some?
    ensures Follows(op.qc, op.rotationId, s) && op.qc.successorEpoch == SatAdd(s.expected.guardianEpoch, 1)
    ensures var t, e := Applied(s, op), s.expected.guardianEpoch;
            && t.active.None? && t.prepared.None? && t.journal.None? && t.expected == s.expected
            && op.rotationId in t.tombstones
            && t.tombstones[op.rotationId] == RotationTombstone(op.rotationId, op.planHash, s.expectedHash, Draining)
            && e in t.draining && t.draining[e].deadline == op.deadline
            && t.draining[e].record == s.active.value.(stage := DrainingEpoch, drainDeadline := Some(op.deadline), activationQcHash := Some(op.qcHash))
  {
  }

  /** A store without an active record takes over no pending recovery. */
  lemma NewcomerOwesNothing(s: StoreState, op: StoreOp)
    requires ValidStore(s) && op.Activate? && Refusal(s, op).None? && s.active.None?
    ensures op.pendingIds == {} && Applied(s, op).draining == s.draining
  {
  }

  /** An activation puts into force the very record that was prepared for its rotation: only
      its stage and the certificate it names differ. And it lets the record that was in force
      drain, unchanged but for its stage and its deadline. */
  lemma ActivatedWasPrepared(run: Run, j: nat) returns (i: nat)
    requires run.Valid() && run.states[0].prepared.None?
    requires j < |run.ops| && run.Accepted(j) && run.ops[j].Activate?
    ensures i < j && run.Accepted(i) && run.ops[i].Prepare?
    ensures run.ops[i].rotationId == run.ops[j].rotationId && run.ops[i].planHash == run.ops[j].planHash
    ensures Follows(run.ops[j].qc, run.ops[j].rotationId, run.states[j])
    ensures run.ops[j].qc.successorEpoch == run.ops[i].record.configRef.guardianEpoch
    ensures run.states[j + 1].active == Some(run.ops[i].record.(stage := ActiveEpoch, activationQcHash := Some(run.ops[j].qcHash)))
    ensures run.ops[j].rotationId in run.states[j + 1].tombstones
    ensures run.states[j + 1].tombstones[run.ops[j].rotationId]
            == RotationTombstone(run.ops[j].rotationId, run.ops[j].planHash, run.states[j].expectedHash, Active)
    ensures run.states[j].active.Some? ==>
              var e, was := run.states[j].expected.guardianEpoch, run.states[j].active.value;
              && e in run.states[j + 1].draining
              && run.states[j + 1].draining[e].record == was.(stage := DrainingEpoch, drainDeadline := Some(run.ops[j].deadline))
              && run.states[j + 1].draining[e].deadline == run.ops[j].deadline
  {
    i := PreparedOrigin(run, j);
    AfterSucc(run, j);
  }

  // ---- Draining and retirement ---------------------------------------------------

  /** Below the last epoch, an accepted activation, the guardian's own or the one that
      replaces it, keeps every draining record as it was and adds exactly the record that was
      active, with the pending requests it was given. */
  lemma ActivationOnlyAdds(s: StoreState, op: StoreOp)
    requires ValidStore(s) && (op.Activate? || op.ObserveReplacement?) && Refusal(s, op).None?
    ensures s.expected.guardianEpoch < U64_MAX ==>
              && (forall e: U64 :: e in s.draining ==> e in Applied(s, op).draining && Applied(s, op).draining[e] == s.draining[e])
              && Applied(s, op).draining.Keys == s.draining.Keys + (if s.active.Some? then {s.expected.guardianEpoch} else {})
    ensures s.active.Some? ==>
              && s.expected.guardianEpoch in Applied(s, op).draining
              && var d := Applied(s, op).draining[s.expected.guardianEpoch];
              d.record.configRef == s.expected && d.capsuleHash == s.expectedHash && d.pending == op.pendingIds
  {
    forall e: U64 | e in s.draining
      ensures DrainsAt(s, e, s.draining[e])
    {
    }
  }

  /** At the last epoch the counter stands still, and activating loses the record that was
      draining there: exactly then. */
  lemma ActivationLosesDraining(s: StoreState, op: StoreOp)
    requires ValidStore(s) && op.Activate? && Refusal(s, op).None?
    ensures (exists e: U64 :: e in s.draining && Applied(s, op).draining[e] != s.draining[e]) ==>
              s.expected.guardianEpoch == U64_MAX && s.active.Some? && U64_MAX in s.draining
    ensures s.expected.guardianEpoch == U64_MAX && s.active.Some? && U64_MAX in s.draining
              && s.draining[U64_MAX] != Drained(s, op.deadline, None, op.pendingIds) ==>
              Applied(s, op).draining[U64_MAX] != s.draining[U64_MAX]
  {
    forall e: U64 | e in s.draining
      ensures DrainsAt(s, e, s.draining[e])
    {
    }
  }

  /** Mutation `i` made epoch `e` drain until this deadline. */
  ghost predicate Drains(run: Run, i: nat, e: U64, deadline: U64)
    requires run.Valid() && i < |run.ops|
  {
    && run.Accepted(i) && (run.ops[i].Activate? || run.ops[i].ObserveReplacement?)
    && run.states[i].active.Some? && run.states[i].active.value.configRef.guardianEpoch == e
    && run.ops[i].deadline == deadline
  }

  lemma StepDrainingOrigin(s: StoreState, op: StoreOp, e: U64)
    requires ValidStore(s) && e in Step(s, op).draining
    ensures || (e in s.draining && Step(s, op).draining[e].deadline == s.draining[e].deadline)
            || (&& Refusal(s, op).None? && (op.Activate? || op.ObserveReplacement?)
                && s.active.Some? && s.active.value.configRef.guardianEpoch == e
                && Step(s, op).draining[e].deadline == op.deadline)
  {
  }

  lemma {:induction false} DrainingOrigin(run: Run, t: nat, e: U64) returns (i: nat)
    requires run.Valid() && run.states[0].draining == map[] && t <= |run.ops| && e in run.states[t].draining
    ensures i < t && Drains(run, i, e, run.states[t].draining[e].deadline)
    decreases t
  {
    AfterSucc(run, t - 1);
    StepDrainingOrigin(run.states[t - 1], run.ops[t - 1], e);
    if e in run.states[t - 1].draining && run.states[t].draining[e].deadline == run.states[t - 1].draining[e].deadline {
      i := DrainingOrigin(run, t - 1, e);
    } else {
      i := t - 1;
    }
  }

  /** An epoch retires no earlier than the deadline of the activation that made it drain, and
      with nothing pending. */
  lemma RetiresAfterItsDeadline(run: Run, j: nat) returns (i: nat)
    requires run.Valid() && run.states[0].draining == map[] && j < |run.ops| && run.Accepted(j) && run.ops[j].Retire?
    ensures i < j && (run.ops[i].Activate? || run.ops[i].ObserveReplacement?)
    ensures Drains(run, i, run.ops[j].epoch, run.ops[i].deadline) && run.ops[i].deadline <= run.ops[j].now
    ensures run.ops[j].epoch in run.states[j].draining && run.states[j].draining[run.ops[j].epoch].pending == {}
  {
    AfterSucc(run, j);
    i := DrainingOrigin(run, j, run.ops[j].epoch);
  }

  /** Nothing can make this epoch drain again. */
  predicate Past(s: StoreState, e: U64) {
    e < s.expected.guardianEpoch || (e == s.expected.guardianEpoch && s.active.None?)
  }

  lemma StepKeepsPast(s: StoreState, op: StoreOp, e: U64)
    requires ValidStore(s) && Past(s, e) && e < U64_MAX
    ensures Past(Step(s, op), e)
    ensures e in Step(s, op).draining ==>
              && e in s.draining
              && Step(s, op).draining[e].pending
                 == if op.FinishRequest? && op.epoch == e then s.draining[e].pending - {op.requestId} else s.draining[e].pending
  {
  }

  ghost predicate Finished(run: Run, i: nat, t: nat, e: U64, k: Id32)
    requires run.Valid() && t <= |run.ops|
  {
    exists m: nat :: i < m < t && run.ops[m] == FinishRequest(e, k)
  }

  lemma DrainingBegins(s: StoreState, op: StoreOp)
    requires ValidStore(s) && Refusal(s, op).None? && (op.Activate? || op.ObserveReplacement?) && s.active.Some?
    requires s.expected.guardianEpoch < U64_MAX
    ensures Past(Applied(s, op), s.expected.guardianEpoch) && s.expected.guardianEpoch in Applied(s, op).draining
    ensures Applied(s, op).draining[s.expected.guardianEpoch].pending == op.pendingIds
  {
  }

  lemma {:induction false} DrainsAndPast(run: Run, i: nat, t: nat, e: U64)
    requires run.Valid() && i < t <= |run.ops| && e < U64_MAX
    requires (run.ops[i].Activate? || run.ops[i].ObserveReplacement?) && Drains(run, i, e, run.ops[i].deadline)
    ensures Past(run.states[t], e)
    decreases t
  {
    AfterSucc(run, t - 1);
    if t == i + 1 {
      DrainingBegins(run.states[i], run.ops[i]);
    } else {
      DrainsAndPast(run, i, t - 1, e);
      StepKeepsPast(run.states[t - 1], run.ops[t - 1], e);
    }
  }

  /** While an epoch drains it waits for exactly those recoveries that were pending at the
      activation out of it and have not been finished since. */
  lemma {:induction false} PendingIsUnfinished(run: Run, i: nat, t: nat, e: U64, k: Id32)
    requires run.Valid() && i < t <= |run.ops| && e < U64_MAX
    requires (run.ops[i].Activate? || run.ops[i].ObserveReplacement?) && Drains(run, i, e, run.ops[i].deadline)
    requires e in run.states[t].draining
    ensures k in run.states[t].draining[e].pending <==> k in run.ops[i].pendingIds && !Finished(run, i, t, e, k)
    decreases t
  {
    AfterSucc(run, t - 1);
    if t == i + 1 {
      DrainingBegins(run.states[i], run.ops[i]);
    } else {
      DrainsAndPast(run, i, t - 1, e);
      StepKeepsPast(run.states[t - 1], run.ops[t - 1], e);
      PendingIsUnfinished(run, i, t - 1, e, k);
      FinishedStep(run, i, t, e, k);
    }
  }

  lemma FinishedStep(run: Run, i: nat, t: nat, e: U64, k: Id32)
    requires run.Valid() && i + 1 < t <= |run.ops|
    ensures Finished(run, i, t, e, k) <==> Finished(run, i, t - 1, e, k) || run.ops[t - 1] == FinishRequest(e, k)
  {
  }

  /** The epoch is past and no record of it is kept. */
  predicate Gone(s: StoreState, e: U64) {
    && e !in s.draining
    && (e < s.expected.guardianEpoch || (e == s.expected.guardianEpoch && s.active.None?))
  }

  lemma StepKeepsGone(s: StoreState, op: StoreOp, e: U64)
    requires ValidStore(s) && Gone(s, e) && e < U64_MAX
    ensures Gone(Step(s, op), e)
  {
  }

  lemma {:induction false} GoneStays(run: Run, i: nat, j: nat, e: U64)
    requires run.Valid() && i <= j <= |run.ops| && e < U64_MAX && Gone(run.states[i], e)
    ensures Gone(run.states[j], e)
    decreases j
  {
    if i < j {
      GoneStays(run, i, j - 1, e);
      AfterSucc(run, j - 1);
      StepKeepsGone(run.states[j - 1], run.ops[j - 1], e);
    }
  }

  /** An epoch retires at most once: what is retired never drains again. */
  lemma RetiresOnce(run: Run, i: nat, j: nat, e: U64)
    requires run.Valid() && i < j < |run.ops| && e < U64_MAX
    requires run.ops[i].Retire? && run.ops[i].epoch == e && run.Accepted(i)
    ensures e !in run.states[j].draining
    ensures run.ops[j].Retire? && run.ops[j].epoch == e ==> !run.Accepted(j)
  {
    var s := run.states[i];
    AfterSucc(run, i);
    assert DrainsAt(s, e, s.draining[e]);
    GoneStays(run, i + 1, j, e);
  }
}
