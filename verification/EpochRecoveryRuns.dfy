/** Whole runs of the recovery machine. */
module EpochRecoveryRuns {
  import opened Foundations
  import opened EpochTypes
  import opened EpochRecovery

  datatype Run = Run(states: seq<RecoveryState>, ops: seq<Op>)
  {
    ghost predicate Follows(i: nat)
      requires |states| == |ops| + 1
    {
      i < |ops| ==> ValidRecovery(states[i]) && states[i + 1] == Next(states[i], ops[i])
    }

    ghost predicate Valid() {
      && |states| == |ops| + 1
      && states[0] == Start(states[0].active)
      && forall i: nat {:trigger Follows(i)} :: Follows(i)
    }

    predicate Accepted(i: nat)
      requires i < |ops| <= |states|
    {
      Refusal(states[i], ops[i]).None?
    }
  }

  /** Every sequence of operations on a new machine has its run. */
  lemma {:induction false} RunFrom(active: ConfigRef, ops: seq<Op>) returns (run: Run)
    ensures run.Valid() && run.states[0] == Start(active) && run.ops == ops && ValidRecovery(run.states[|ops|])
    decreases |ops|
  {
    if ops == [] {
      run := Run([Start(active)], []);
    } else {
      var n := |ops| - 1;
      var shorter := RunFrom(active, ops[..n]);
      NextKeepsValid(shorter.states[n], ops[n]);
      run := Run(shorter.states + [Next(shorter.states[n], ops[n])], ops);
      forall i: nat
        ensures run.Follows(i)
      {
        assert shorter.Follows(i);
      }
    }
  }

  lemma Succ(run: Run, i: nat)
    requires run.Valid() && i < |run.ops|
    ensures ValidRecovery(run.states[i]) && ValidRecovery(run.states[i + 1])
    ensures run.states[i + 1] == Next(run.states[i], run.ops[i])
  {
    assert run.Follows(i);
    NextKeepsValid(run.states[i], run.ops[i]);
  }

  // ---- What never changes --------------------------------------------------------

  predicate SameRequest(p: PendingRecovery, p': PendingRecovery) {
    p' == p.(stage := p'.stage)
  }

  /** Pending requests keep everything but their stage; cancellations and used ids stay;
      the active epoch does not fall. */
  ghost predicate Grows(s: RecoveryState, s': RecoveryState) {
    && s.pending.Keys <= s'.pending.Keys
    && (forall k :: k in s.pending ==> SameRequest(s.pending[k], s'.pending[k]))
    && s.cancelled.Keys <= s'.cancelled.Keys
    && (forall k :: k in s.cancelled ==> s'.cancelled[k] == s.cancelled[k])
    && s.seenIds <= s'.seenIds && s.seenNonces <= s'.seenNonces
    && s.active.guardianEpoch <= s'.active.guardianEpoch
  }

  lemma NextGrows(s: RecoveryState, op: Op)
    requires ValidRecovery(s)
    ensures Grows(s, Next(s, op))
  {
  }

  lemma GrowsOn(a: RecoveryState, b: RecoveryState, c: RecoveryState)
    requires Grows(a, b) && Grows(b, c)
    ensures Grows(a, c)
  {
    forall k | k in a.pending
      ensures k in c.pending && SameRequest(a.pending[k], c.pending[k])
    {
      assert k in b.pending && SameRequest(a.pending[k], b.pending[k]) && SameRequest(b.pending[k], c.pending[k]);
    }
  }

  /** Through any operations, activations of successors included, a recorded request keeps
      its earliest release time, its expiry and its configuration. */
  lemma {:induction false} RunGrows(run: Run, i: nat, j: nat)
    requires run.Valid() && i <= j <= |run.ops|
    ensures Grows(run.states[i], run.states[j])
    decreases j
  {
    if i < j {
      RunGrows(run, i, j - 1);
      Succ(run, j - 1);
      NextGrows(run.states[j - 1], run.ops[j - 1]);
      GrowsOn(run.states[i], run.states[j - 1], run.states[j]);
    }
  }

  // ---- Releases are earned -------------------------------------------------------

  /** Step `i` accepted the Begin that put `p` on record. */
  ghost predicate Opens(run: Run, i: nat, id: Id32, p: PendingRecovery)
    requires run.Valid() && i < |run.ops|
  {
    && run.Accepted(i) && run.ops[i].Begin?
    && var q := run.ops[i].request;
    && q.id == id && run.ops[i].digest == p.digest && q.expiry == p.expiry
    && q.configRef == p.configRef == run.states[i].active
    && p.notBefore == SatAdd(run.ops[i].now, run.ops[i].delay)
  }

  lemma OriginStep(s: RecoveryState, op: Op, id: Id32)
    requires id in Next(s, op).pending && id !in s.pending
    ensures Refusal(s, op).None? && op.Begin? && op.request.id == id
    ensures Next(s, op).pending[id] ==
            PendingRecovery(s.active, op.digest, op.request.nonce, SatAdd(op.now, op.delay), op.request.expiry, RecoveryStage.DelayPending)
  {
  }

  lemma {:induction false} Origin(run: Run, t: nat, id: Id32)
    requires run.Valid() && t <= |run.ops| && id in run.states[t].pending
    ensures exists i: nat :: i < t && Opens(run, i, id, run.states[t].pending[id])
    decreases t
  {
    var p := run.states[t].pending[id];
    Succ(run, t - 1);
    if id in run.states[t - 1].pending {
      Origin(run, t - 1, id);
      NextGrows(run.states[t - 1], run.ops[t - 1]);
      var i: nat :| i < t - 1 && Opens(run, i, id, run.states[t - 1].pending[id]);
      assert SameRequest(run.states[t - 1].pending[id], p);
      assert Opens(run, i, id, p);
    } else {
      OriginStep(run.states[t - 1], run.ops[t - 1], id);
      assert Opens(run, t - 1, id, p);
    }
  }

  lemma CancelStays(run: Run, k: nat, j: nat)
    requires run.Valid() && k < j <= |run.ops| && run.ops[k].Cancel? && run.Accepted(k)
    ensures run.ops[k].id in run.states[j].cancelled
  {
    Succ(run, k);
    RunGrows(run, k + 1, j);
    assert run.ops[k].id in run.states[k + 1].cancelled.Keys;
  }

  /** The earlier Begin, on valid evidence and in date, that this Authorize completes. */
  ghost predicate Completes(run: Run, i: nat, j: nat)
    requires run.Valid() && i < j < |run.ops| && run.ops[i].Begin? && run.ops[j].Authorize?
  {
    var q, begin, release := run.ops[i].request, run.ops[i], run.ops[j];
    && run.Accepted(i) && begin.valid && release.valid
    && q.id == release.id && begin.digest == release.digest
    && q.configRef == release.configRef == run.states[i].active
    && q.requestedAt <= begin.wall < q.expiry && release.wall < q.expiry
    && SatAdd(begin.now, begin.delay) <= release.now
  }

  /** Every authorised release was preceded by an accepted Begin of the same id, digest and
      configuration while that configuration was active, at least the saturated delay
      earlier, both on valid evidence and in date; the configuration is still active or its
      epoch draining; and no Cancel of that id was accepted before. */
  lemma ReleaseIsEarned(run: Run, j: nat)
    requires run.Valid() && j < |run.ops| && run.ops[j].Authorize? && run.Accepted(j)
    ensures exists i: nat :: i < j && run.ops[i].Begin? && Completes(run, i, j)
    ensures run.states[j].active == run.ops[j].configRef || run.ops[j].configRef.guardianEpoch in run.states[j].draining
    ensures forall k: nat :: k < j && run.ops[k].Cancel? && run.ops[k].id == run.ops[j].id ==> !run.Accepted(k)
  {
    var id := run.ops[j].id;
    Origin(run, j, id);
    var i: nat :| i < j && Opens(run, i, id, run.states[j].pending[id]);
    assert Completes(run, i, j);
    forall k: nat | k < j && run.ops[k].Cancel? && run.ops[k].id == id
      ensures !run.Accepted(k)
    {
      if run.Accepted(k) {
        CancelStays(run, k, j);
      }
    }
  }

  /** No nonce begins two recoveries. */
  lemma NonceBeginsOnce(run: Run, i: nat, j: nat)
    requires run.Valid() && i < j < |run.ops| && run.ops[i].Begin? && run.ops[j].Begin?
    requires run.Accepted(i) && run.Accepted(j)
    ensures run.ops[i].request.nonce != run.ops[j].request.nonce
  {
    Succ(run, i);
    RunGrows(run, i + 1, j);
    assert run.ops[i].request.nonce in run.states[i + 1].seenNonces;
  }

  /** A cancellation is accepted on valid evidence, and then the id stands for one digest. */
  lemma CancelsOneDigest(run: Run, i: nat, j: nat)
    requires run.Valid() && i < j < |run.ops| && run.ops[i].Cancel? && run.ops[j].Cancel?
    requires run.Accepted(i) && run.Accepted(j) && run.ops[i].id == run.ops[j].id
    ensures run.ops[i].digest == run.ops[j].digest && run.ops[i].valid && run.ops[j].valid
  {
    Succ(run, i);
    RunGrows(run, i + 1, j);
  }

  // ---- Stages are earned ---------------------------------------------------------

  /** Some attempt to release the request before `t` met this answer. */
  ghost predicate Attempted(run: Run, t: nat, id: Id32, answer: Option<RotationError>)
    requires run.Valid() && t <= |run.ops|
  {
    exists i: nat :: i < t && run.ops[i].Authorize? && run.ops[i].id == id && Refusal(run.states[i], run.ops[i]) == answer
  }

  /** How a stage is reached in one step. */
  lemma StageStep(s: RecoveryState, op: Op, id: Id32)
    requires ValidRecovery(s) && id in Next(s, op).pending
    requires id in s.pending ==> (s.pending[id].stage == Cancelled <==> id in s.cancelled)
    ensures Next(s, op).pending[id].stage == Cancelled <==> id in Next(s, op).cancelled
    ensures Next(s, op).pending[id].stage == Releasing ==>
              || (id in s.pending && s.pending[id].stage == Releasing)
              || (op.Authorize? && op.id == id && Refusal(s, op).None?)
    ensures Next(s, op).pending[id].stage == Expired ==>
              || (id in s.pending && s.pending[id].stage == Expired)
              || (op.Authorize? && op.id == id && Refusal(s, op) == Some(RequestExpired))
  {
  }

  /** A request on record is Cancelled exactly when its id is, Releasing only after an
      authorised release, and Expired only after a release that came too late. */
  lemma {:induction false} StageIsEarned(run: Run, t: nat, id: Id32)
    requires run.Valid() && t <= |run.ops| && id in run.states[t].pending
    ensures run.states[t].pending[id].stage == Cancelled <==> id in run.states[t].cancelled
    ensures run.states[t].pending[id].stage == Releasing ==> Attempted(run, t, id, None)
    ensures run.states[t].pending[id].stage == Expired ==> Attempted(run, t, id, Some(RequestExpired))
    decreases t
  {
    Succ(run, t - 1);
    if id in run.states[t - 1].pending {
      StageIsEarned(run, t - 1, id);
    }
    StageStep(run.states[t - 1], run.ops[t - 1], id);
  }

  // ---- Epoch numbers name configurations -----------------------------------------

  lemma ActiveStep(s: RecoveryState, op: Op)
    ensures Next(s, op).active == s.active || Next(s, op).active.guardianEpoch == SatAdd(s.active.guardianEpoch, 1)
  {
  }

  lemma {:induction false} SameEpochSameRef(run: Run, i: nat, j: nat)
    requires run.Valid() && i <= j <= |run.ops|
    requires run.states[i].active.guardianEpoch == run.states[j].active.guardianEpoch < U64_MAX
    ensures run.states[i].active == run.states[j].active
    decreases j
  {
    if i < j {
      RunGrows(run, i, j - 1);
      Succ(run, j - 1);
      ActiveStep(run.states[j - 1], run.ops[j - 1]);
      SameEpochSameRef(run, i, j - 1);
    }
  }

  lemma ActiveKeepsLine(s: RecoveryState, op: Op)
    ensures var a, b := s.active, Next(s, op).active;
            b.configId == a.configId && b.payloadGeneration == a.payloadGeneration && b.authorizationEpoch == a.authorizationEpoch
    ensures Next(s, op).active != s.active ==> op.Activate? && op.valid && Next(s, op).active == op.successor
  {
  }

  /** The machine stays with its configuration, and every other configuration it ever makes
      active is the successor of an activation on valid evidence. */
  lemma {:induction false} ActiveIsCertified(run: Run, t: nat)
    requires run.Valid() && t <= |run.ops|
    ensures var a, b := run.states[0].active, run.states[t].active;
            b.configId == a.configId && b.payloadGeneration == a.payloadGeneration && b.authorizationEpoch == a.authorizationEpoch
    ensures run.states[t].active != run.states[0].active ==>
              exists i: nat :: i < t && run.ops[i].Activate? && run.ops[i].valid && run.ops[i].successor == run.states[t].active
    decreases t
  {
    if t > 0 {
      ActiveIsCertified(run, t - 1);
      Succ(run, t - 1);
      ActiveKeepsLine(run.states[t - 1], run.ops[t - 1]);
    }
  }

  /** Every pending request's configuration was active once, and below the last epoch no
      other configuration of that epoch ever was: so looking an epoch up by its number is
      looking it up by its exact configuration. */
  lemma EpochNumberNamesConfiguration(run: Run, t: nat, id: Id32, j: nat)
    requires run.Valid() && t <= |run.ops| && j <= |run.ops| && id in run.states[t].pending
    requires run.states[t].pending[id].configRef.guardianEpoch < U64_MAX
    ensures exists i: nat :: i < t && run.states[i].active == run.states[t].pending[id].configRef
    ensures run.states[j].active.guardianEpoch == run.states[t].pending[id].configRef.guardianEpoch ==>
              run.states[j].active == run.states[t].pending[id].configRef
  {
    Origin(run, t, id);
    var i: nat :| i < t && Opens(run, i, id, run.states[t].pending[id]);
    if run.states[j].active.guardianEpoch == run.states[i].active.guardianEpoch {
      if i <= j {
        SameEpochSameRef(run, i, j);
      } else {
        SameEpochSameRef(run, j, i);
      }
    }
  }

  // ---- Retirement ----------------------------------------------------------------

  predicate Gone(s: RecoveryState, e: U64) {
    e !in s.draining && e < s.active.guardianEpoch
  }

  lemma NextKeepsGone(s: RecoveryState, op: Op, e: U64)
    requires Gone(s, e)
    ensures Gone(Next(s, op), e)
    ensures op.Authorize? && op.configRef.guardianEpoch == e ==> Refusal(s, op).Some?
    ensures op.Begin? && op.request.configRef.guardianEpoch == e ==> Refusal(s, op).Some?
  {
  }

  lemma {:induction false} GoneStays(run: Run, i: nat, j: nat, e: U64)
    requires run.Valid() && i <= j <= |run.ops| && Gone(run.states[i], e)
    ensures Gone(run.states[j], e)
    decreases j
  {
    if i < j {
      GoneStays(run, i, j - 1, e);
      Succ(run, j - 1);
      NextKeepsGone(run.states[j - 1], run.ops[j - 1], e);
    }
  }

  /** Step `i` accepted the activation that made epoch `e` drain until this deadline. */
  ghost predicate Drains(run: Run, i: nat, e: U64, deadline: U64)
    requires run.Valid() && i < |run.ops|
  {
    && run.Accepted(i) && run.ops[i].Activate? && run.ops[i].valid
    && run.states[i].active.guardianEpoch == e && run.ops[i].deadline == deadline
  }

  lemma DrainingStep(s: RecoveryState, op: Op, e: U64)
    requires e in Next(s, op).draining
    ensures || (e in s.draining && Next(s, op).draining[e] == s.draining[e])
            || (&& Refusal(s, op).None? && op.Activate? && op.valid && s.active.guardianEpoch == e
                && Next(s, op).draining[e] == op.deadline)
  {
  }

  lemma {:induction false} DrainingOrigin(run: Run, t: nat, e: U64) returns (i: nat)
    requires run.Valid() && t <= |run.ops| && e in run.states[t].draining
    ensures i < t && Drains(run, i, e, run.states[t].draining[e])
    decreases t
  {
    Succ(run, t - 1);
    DrainingStep(run.states[t - 1], run.ops[t - 1], e);
    if e in run.states[t - 1].draining && run.states[t].draining[e] == run.states[t - 1].draining[e] {
      i := DrainingOrigin(run, t - 1, e);
    } else {
      i := t - 1;
    }
  }

  /** An epoch retires no earlier than the deadline that the activation out of it recorded. */
  lemma RetiresAfterItsDeadline(run: Run, j: nat) returns (i: nat)
    requires run.Valid() && j < |run.ops| && run.ops[j].Retire? && run.Accepted(j)
    ensures i < j && run.ops[i].Activate? && Drains(run, i, run.ops[j].epoch, run.ops[i].deadline)
    ensures run.ops[i].deadline <= run.ops[j].now
  {
    i := DrainingOrigin(run, j, run.ops[j].epoch);
  }

  /** When an epoch retires every request of it is cancelled or expired, and nothing begins
      or releases for it afterwards. */
  lemma RetirementIsFinal(run: Run, i: nat, j: nat, e: U64, k: Id32)
    requires run.Valid() && i < j < |run.ops| && e < U64_MAX
    requires run.ops[i].Retire? && run.ops[i].epoch == e && run.Accepted(i)
    ensures k in run.states[i + 1].pending && run.states[i + 1].pending[k].configRef.guardianEpoch == e ==>
              run.states[i + 1].pending[k].stage == Cancelled || run.states[i + 1].pending[k].stage == Expired
    ensures run.ops[j].Authorize? && run.ops[j].configRef.guardianEpoch == e ==> !run.Accepted(j)
    ensures run.ops[j].Begin? && run.ops[j].request.configRef.guardianEpoch == e ==> !run.Accepted(j)
  {
    Succ(run, i);
    assert Gone(run.states[i + 1], e);
    GoneStays(run, i + 1, j, e);
    NextKeepsGone(run.states[j], run.ops[j], e);
    if k in run.states[i].pending && run.states[i].pending[k].configRef.guardianEpoch == e {
      assert !Unfinished(run.states[i].pending[k], e);
    }
  }

  /** At the last epoch the counter stands still: the retired number is also the active
      one, so a recovery begins and is released for it after its retirement. */
  lemma LastEpochRetirementIsNotFinal(a: ConfigRef, b: ConfigRef, digest: Digest) returns (run: Run)
    requires a.guardianEpoch == U64_MAX && b.IsDirectSuccessorOf(a)
    ensures run.Valid() && |run.ops| == 4 && forall i :: 0 <= i < 4 ==> run.Accepted(i)
    ensures run.ops[1].Retire? && run.ops[1].epoch == U64_MAX
    ensures run.ops[3].Authorize? && run.ops[3].configRef.guardianEpoch == U64_MAX
  {
    var q := Request(b, 1, 0, 2, 10);
    var ops := [Activate(b, 0, true), Retire(U64_MAX, 0), Begin(q, digest, 1, 0, 5, true), Authorize(1, digest, b, 6, 5, true)];
    var s0 := Start(a);
    var s1 := Next(s0, ops[0]);
    var s2 := Next(s1, ops[1]);
    var s3 := Next(s2, ops[2]);
    run := Run([s0, s1, s2, s3, Next(s3, ops[3])], ops);
    NextKeepsValid(s0, ops[0]);
    NextKeepsValid(s1, ops[1]);
    NextKeepsValid(s2, ops[2]);
    forall i: nat
      ensures run.Follows(i)
    {
      if i == 0 {
      } else if i == 1 {
      } else if i == 2 {
      } else if i == 3 {
      }
    }
  }

  // ---- Identifiers and expiry ----------------------------------------------------

  /** A Begin uses up its request id exactly when it gets as far as the replay test, and
      then no later Begin of that id is accepted: not even if this one was refused for a
      nonce somebody else had used. */
  lemma BeginBurnsId(run: Run, i: nat, j: nat)
    requires run.Valid() && i < j < |run.ops| && run.ops[i].Begin? && run.ops[j].Begin?
    requires run.Accepted(i) || Refusal(run.states[i], run.ops[i]) == Some(Replayed)
    requires run.ops[i].request.id == run.ops[j].request.id
    ensures !run.Accepted(j)
  {
    Succ(run, i);
    RunGrows(run, i + 1, j);
    assert run.ops[i].request.id in run.states[j].seenIds;
  }

  /** Expiry is final exactly as long as the wall clock does not run back below it. */
  lemma ExpiryFollowsWallClock(run: Run, i: nat, j: nat)
    requires run.Valid() && i < j < |run.ops| && run.ops[i].Authorize? && run.ops[j].Authorize?
    requires Refusal(run.states[i], run.ops[i]) == Some(RequestExpired)
    requires run.ops[j].id == run.ops[i].id
    ensures run.ops[i].wall <= run.ops[j].wall ==> !run.Accepted(j)
    ensures var p := run.states[i].pending[run.ops[i].id];
            run.Accepted(j) ==> run.ops[j].wall < p.expiry <= run.ops[i].wall
  {
    RunGrows(run, i, j);
    assert SameRequest(run.states[i].pending[run.ops[i].id], run.states[j].pending[run.ops[i].id]);
  }

  /** An expired request is released after all once the wall clock is behind its expiry. */
  lemma ExpiredMayRevive(s: RecoveryState, op: Op)
    requires op.Authorize? && op.valid && op.id in s.pending && op.id !in s.cancelled
    requires s.pending[op.id].stage == Expired
    requires s.pending[op.id].digest == op.digest && s.pending[op.id].configRef == op.configRef
    requires op.configRef == s.active || op.configRef.guardianEpoch in s.draining
    ensures Refusal(s, op).None? <==> op.wall < s.pending[op.id].expiry && s.pending[op.id].notBefore <= op.now
    ensures Refusal(s, op).None? ==> Next(s, op).pending[op.id].stage == Releasing
  {
  }
}
