/** Whole runs of one rotation signer, and of a signer set. */
module SignerHistory {
  import opened Foundations
  import opened EpochTypes
  import opened EpochSelection
  import opened RotationPlans
  import opened SignerLocks
  import WitnessEntry

  datatype SignerStep = SignerStep(request: SignerRequest, now: U64)

  /** The entry after serving `steps` in order, refused ones without effect. */
  ghost function After(start: SignerState, steps: seq<SignerStep>): SignerState
  {
    if steps == [] then start
    else
      var last := steps[|steps| - 1];
      Next(After(start, steps[..|steps| - 1]), last.request, last.now)
  }

  ghost function Before(start: SignerState, steps: seq<SignerStep>, i: nat): SignerState
    requires i <= |steps|
  {
    After(start, steps[..i])
  }

  ghost predicate Served(start: SignerState, steps: seq<SignerStep>, i: nat)
    requires i < |steps|
  {
    Admitted(Before(start, steps, i), steps[i].request, steps[i].now)
  }

  /** At step `i` the signer signed the Activate vote `v`. */
  ghost predicate VotesActivate(start: SignerState, steps: seq<SignerStep>, i: nat, v: ActivateVoteBody)
    requires i < |steps|
  {
    && Served(start, steps, i)
    && steps[i].request.ActivateRequest?
    && var q := steps[i].request;
    v == ActivationVote(Before(start, steps, i), q.plan, q.ready, q.successor)
  }

  /** At step `i` the signer accepted a witness-backed owner veto of the plan hashed `h`. */
  ghost predicate AcceptsVeto(start: SignerState, steps: seq<SignerStep>, i: nat, h: PlanHash)
    requires i < |steps|
  {
    && Served(start, steps, i)
    && steps[i].request.FinalizeOwnerCancelRequest?
    && var q, s := steps[i].request, Before(start, steps, i);
    && Of(q.plan) == h
    && VetoQuorum(s.card, q.plan, s.activeCapsule, q.cancel, q.acks, steps[i].now)
  }

  // ---- Steps ---------------------------------------------------------------------

  lemma NextKeepsValid(s: SignerState, q: SignerRequest, now: U64)
    requires ValidSigner(s)
    ensures ValidSigner(Next(s, q, now))
  {
    if Admitted(s, q, now) {
      AdmittedIsGrounded(s, q, now);
      GroundedKeepsValid(s, q);
    }
  }

  lemma {:induction false} RunKeepsValid(start: SignerState, steps: seq<SignerStep>)
    requires ValidSigner(start)
    ensures ValidSigner(After(start, steps))
  {
    if steps != [] {
      var last := steps[|steps| - 1];
      RunKeepsValid(start, steps[..|steps| - 1]);
      NextKeepsValid(After(start, steps[..|steps| - 1]), last.request, last.now);
    }
  }

  lemma BeforeSucc(start: SignerState, steps: seq<SignerStep>, i: nat)
    requires i < |steps|
    ensures Before(start, steps, i + 1) == Next(Before(start, steps, i), steps[i].request, steps[i].now)
  {
    assert steps[..i + 1][..i] == steps[..i];
  }

  /** The signer cast this Activate vote and has not given its rotation up. */
  ghost predicate Committed(s: SignerState, v: ActivateVoteBody) {
    var r := v.context.rotationId;
    && v.planHash.Of? && v.planHash.preimage.context == v.context
    && r in s.activateVotes && s.activateVotes[r] == Of(v)
    && r in s.beginVotes && s.beginVotes[r] == v.planHash
    && r !in s.cancelled
  }

  lemma GivingUpOtherPlan(s: SignerState, plan: RotationPlan, t: Tombstone, v: ActivateVoteBody)
    requires Committed(s, v) && Began(s, plan) && Of(plan) != v.planHash
    ensures Committed(GiveUp(s, plan, t), v)
  {
  }

  lemma BeginKeepsCommitment(s: SignerState, plan: RotationPlan, v: ActivateVoteBody)
    requires Committed(s, v) && Records(s.beginVotes, plan.context.rotationId, Of(plan))
    ensures Committed(BeginNext(s, plan), v)
  {
  }

  lemma ActivateKeepsCommitment(s: SignerState, plan: RotationPlan, ready: ReadyCertificate, successor: Capsule, v: ActivateVoteBody)
    requires Committed(s, v)
    requires Records(s.activateVotes, plan.context.rotationId, Of(ActivationVote(s, plan, ready, successor)))
    ensures Committed(ActivateNext(s, plan, ready, successor), v)
  {
  }

  lemma VotingKeepsCommitment(s: SignerState, q: SignerRequest, v: ActivateVoteBody)
    requires Grounded(s, q) && Committed(s, v)
    requires !q.FinalizeAbortRequest? && !q.FinalizeOwnerCancelRequest?
    ensures Committed(Effect(s, q), v)
  {
    if q.BeginRequest? {
      BeginKeepsCommitment(s, q.plan, v);
    } else if q.ActivateRequest? {
      ActivateKeepsCommitment(s, q.plan, q.ready, q.successor, v);
    }
  }

  /** A commitment ends in one way only: the owner's veto of that very plan. */
  lemma CommitmentEndsByVeto(s: SignerState, q: SignerRequest, v: ActivateVoteBody)
    requires Grounded(s, q) && Committed(s, v)
    ensures Committed(Effect(s, q), v) || (q.FinalizeOwnerCancelRequest? && Of(q.plan) == v.planHash)
  {
    if q.FinalizeAbortRequest? {
      GivingUpOtherPlan(s, q.plan, ByAbort(Of(q.abort)), v);
    } else if q.FinalizeOwnerCancelRequest? {
      if !AlreadyCancelled(s, q.plan, q.cancel) && Of(q.plan) != v.planHash {
        GivingUpOtherPlan(s, q.plan, ByOwner(Of(q.cancel.body)), v);
      }
    } else {
      VotingKeepsCommitment(s, q, v);
    }
  }

  lemma VoteCommits(s: SignerState, q: SignerRequest, now: U64)
    requires ValidSigner(s) && q.ActivateRequest? && Admitted(s, q, now)
    ensures Committed(Effect(s, q), ActivationVote(s, q.plan, q.ready, q.successor))
  {
    AdmittedIsGrounded(s, q, now);
  }

  lemma VetoIsAccepted(start: SignerState, steps: seq<SignerStep>, i: nat)
    requires i < |steps| && Served(start, steps, i) && steps[i].request.FinalizeOwnerCancelRequest?
    ensures AcceptsVeto(start, steps, i, Of(steps[i].request.plan))
  {
  }

  lemma {:induction false} CommittedUntilVeto(start: SignerState, steps: seq<SignerStep>, i: nat, j: nat, v: ActivateVoteBody)
    requires ValidSigner(start) && i <= j <= |steps| && Committed(Before(start, steps, i), v)
    requires forall k: nat :: i <= k < j ==> !AcceptsVeto(start, steps, k, v.planHash)
    ensures Committed(Before(start, steps, j), v)
    decreases j
  {
    if i < j {
      CommittedUntilVeto(start, steps, i, j - 1, v);
      var s, q := Before(start, steps, j - 1), steps[j - 1].request;
      BeforeSucc(start, steps, j - 1);
      if Admitted(s, q, steps[j - 1].now) {
        RunKeepsValid(start, steps[..j - 1]);
        AdmittedIsGrounded(s, q, steps[j - 1].now);
        CommitmentEndsByVeto(s, q, v);
        if q.FinalizeOwnerCancelRequest? && Of(q.plan) == v.planHash {
          VetoIsAccepted(start, steps, j - 1);
        }
      }
    }
  }

  lemma OneCommitmentPerPredecessor(s: SignerState, v: ActivateVoteBody, q: SignerRequest)
    requires ValidSigner(s) && Committed(s, v) && q.ActivateRequest? && Grounded(s, q)
    requires q.plan.context.predecessorHash == v.context.predecessorHash
    ensures ActivationVote(s, q.plan, q.ready, q.successor) == v
  {
    assert Under(s.locks, s.beginVotes[v.context.rotationId]);
    assert Under(s.locks, s.beginVotes[q.plan.context.rotationId]);
  }

  /** A signer casts two different Activate votes out of one predecessor only if, between
      them, it accepted an owner veto of the first plan that `2f + 1` witnesses recorded. */
  lemma SecondActivateNeedsVeto(start: SignerState, steps: seq<SignerStep>, i: nat, j: nat, v: ActivateVoteBody, w: ActivateVoteBody)
    requires ValidSigner(start) && i < j < |steps|
    requires VotesActivate(start, steps, i, v) && VotesActivate(start, steps, j, w)
    requires v.context.predecessorHash == w.context.predecessorHash && v != w
    ensures exists k: nat :: i < k < j && AcceptsVeto(start, steps, k, v.planHash)
  {
    if forall k: nat :: i < k < j ==> !AcceptsVeto(start, steps, k, v.planHash) {
      BeforeSucc(start, steps, i);
      RunKeepsValid(start, steps[..i]);
      VoteCommits(Before(start, steps, i), steps[i].request, steps[i].now);
      CommittedUntilVeto(start, steps, i + 1, j, v);
      RunKeepsValid(start, steps[..j]);
      AdmittedIsGrounded(Before(start, steps, j), steps[j].request, steps[j].now);
      OneCommitmentPerPredecessor(Before(start, steps, j), v, steps[j].request);
    }
  }

  // ---- Votes come in order -------------------------------------------------------

  ghost predicate NoVotesYet(s: SignerState) {
    s.locks == map[] && s.intents == map[] && s.intentVotes == map[] && s.beginVotes == map[]
    && s.releaseVotes == map[] && s.activateVotes == map[] && s.cancelled == map[]
  }

  ghost predicate Begins(start: SignerState, steps: seq<SignerStep>, i: nat, h: PlanHash)
    requires i < |steps|
  {
    Served(start, steps, i) && steps[i].request.BeginRequest? && Of(steps[i].request.plan) == h
  }

  ghost predicate Releases(start: SignerState, steps: seq<SignerStep>, i: nat, h: PlanHash)
    requires i < |steps|
  {
    Served(start, steps, i) && steps[i].request.ReleaseRequest? && Of(steps[i].request.plan) == h
  }

  lemma BeginVoteOrigin(s: SignerState, q: SignerRequest, now: U64, r: Id32, h: PlanHash)
    requires r in Next(s, q, now).beginVotes && Next(s, q, now).beginVotes[r] == h
    ensures (r in s.beginVotes && s.beginVotes[r] == h) || (Admitted(s, q, now) && q.BeginRequest? && Of(q.plan) == h)
  {
    if Admitted(s, q, now) {
      AdmittedIsGrounded(s, q, now);
    }
  }

  lemma ReleaseVoteOrigin(s: SignerState, q: SignerRequest, now: U64, r: Id32, h: PlanHash)
    requires ValidSigner(s)
    requires r in Next(s, q, now).releaseVotes && r in Next(s, q, now).beginVotes && Next(s, q, now).beginVotes[r] == h
    ensures || (r in s.releaseVotes && r in s.beginVotes && s.beginVotes[r] == h)
            || (Admitted(s, q, now) && q.ReleaseRequest? && Of(q.plan) == h)
  {
    if Admitted(s, q, now) {
      AdmittedIsGrounded(s, q, now);
    }
  }

  lemma {:induction false} BeginVoteHasOrigin(start: SignerState, steps: seq<SignerStep>, t: nat, r: Id32, h: PlanHash)
    requires NoVotesYet(start) && t <= |steps|
    requires r in Before(start, steps, t).beginVotes && Before(start, steps, t).beginVotes[r] == h
    ensures exists i: nat :: i < t && Begins(start, steps, i, h)
    decreases t
  {
    if t > 0 {
      BeforeSucc(start, steps, t - 1);
      var s, q := Before(start, steps, t - 1), steps[t - 1].request;
      BeginVoteOrigin(s, q, steps[t - 1].now, r, h);
      if r in s.beginVotes && s.beginVotes[r] == h {
        BeginVoteHasOrigin(start, steps, t - 1, r, h);
      } else {
        assert Begins(start, steps, t - 1, h);
      }
    }
  }

  lemma {:induction false} ReleaseVoteHasOrigin(start: SignerState, steps: seq<SignerStep>, t: nat, r: Id32, h: PlanHash)
    requires NoVotesYet(start) && ValidSigner(start) && t <= |steps| && r in Before(start, steps, t).releaseVotes
    requires r in Before(start, steps, t).beginVotes && Before(start, steps, t).beginVotes[r] == h
    ensures exists i: nat :: i < t && Releases(start, steps, i, h)
    decreases t
  {
    if t > 0 {
      BeforeSucc(start, steps, t - 1);
      var s, q := Before(start, steps, t - 1), steps[t - 1].request;
      RunKeepsValid(start, steps[..t - 1]);
      ReleaseVoteOrigin(s, q, steps[t - 1].now, r, h);
      if r in s.releaseVotes && r in s.beginVotes && s.beginVotes[r] == h {
        ReleaseVoteHasOrigin(start, steps, t - 1, r, h);
      } else {
        assert Releases(start, steps, t - 1, h);
      }
    }
  }

  /** The vote's plan left this capsule, and by `now` both the plan's delay and the
      capsule's own had passed since it was issued. */
  ghost predicate Waited(active: Capsule, plan: RotationPlan, now: U64) {
    && active.hash == plan.context.predecessorHash
    && now >= SatAdd(plan.context.issuedAt, plan.minimumDelaySecs)
    && now >= SatAdd(plan.context.issuedAt, active.body.minimumRecoveryDelay)
  }

  lemma ReleaseWaits(start: SignerState, steps: seq<SignerStep>, i: nat, h: PlanHash)
    requires i < |steps| && Releases(start, steps, i, h)
    ensures h.Of? && h.preimage.context.rotationId in Before(start, steps, i).beginVotes
    ensures Before(start, steps, i).beginVotes[h.preimage.context.rotationId] == h
    ensures Waited(Before(start, steps, i).activeCapsule, h.preimage, steps[i].now)
  {
  }

  /** Every Activate vote of a signer that started empty was preceded by its own Release
      vote and, before that, its own Begin vote, for the same plan; and the Release came
      no earlier than the plan's minimum delay, and the delay of the capsule the plan leaves,
      after it was issued. */
  lemma ActivateFollowsDelay(start: SignerState, steps: seq<SignerStep>, j: nat, v: ActivateVoteBody)
    requires NoVotesYet(start) && j < |steps| && VotesActivate(start, steps, j, v)
    ensures v.planHash.Of? && v.planHash.preimage.context == v.context
    ensures exists i: nat, k: nat ::
              && i < k < j
              && Begins(start, steps, i, v.planHash) && Releases(start, steps, k, v.planHash)
              && Waited(Before(start, steps, k).activeCapsule, v.planHash.preimage, steps[k].now)
  {
    var s, q := Before(start, steps, j), steps[j].request;
    AdmittedIsGrounded(s, q, steps[j].now);
    var r := q.plan.context.rotationId;
    ReleaseVoteHasOrigin(start, steps, j, r, v.planHash);
    var k: nat :| k < j && Releases(start, steps, k, v.planHash);
    ReleaseWaits(start, steps, k, v.planHash);
    BeginVoteHasOrigin(start, steps, k, r, v.planHash);
  }

  ghost predicate Hashed(capsule: Capsule) {
    capsule.hash == BodyHash(capsule.body)
  }

  /** Every Intent comes with a capsule under its own hash, as one selected from reads is. */
  ghost predicate IntentsHashed(steps: seq<SignerStep>) {
    forall i :: 0 <= i < |steps| && steps[i].request.IntentRequest? && steps[i].request.selected.Some? ==>
      Hashed(steps[i].request.selected.value)
  }

  lemma SelectedIsHashed(card: RecoveryCard, challenge: ReadChallenge, es: seq<WitnessEntry.ReadEnvelope>, selected: Capsule)
    requires ReadSelects(card, challenge, es, selected)
    ensures Hashed(selected)
  {
    var t: nat :| Top(es, AcceptedIndices(card, challenge, es), t) && selected == es[t].capsule;
    assert Accepted(card, challenge, es, t);
  }

  lemma NextKeepsHashed(s: SignerState, q: SignerRequest, now: U64)
    requires Hashed(s.activeCapsule) && (q.IntentRequest? && q.selected.Some? ==> Hashed(q.selected.value))
    ensures Hashed(Next(s, q, now).activeCapsule)
  {
  }

  lemma {:induction false} RunKeepsHashed(start: SignerState, steps: seq<SignerStep>, i: nat)
    requires Hashed(start.activeCapsule) && IntentsHashed(steps) && i <= |steps|
    ensures Hashed(Before(start, steps, i).activeCapsule)
    decreases i
  {
    if i > 0 {
      RunKeepsHashed(start, steps, i - 1);
      BeforeSucc(start, steps, i - 1);
      NextKeepsHashed(Before(start, steps, i - 1), steps[i - 1].request, steps[i - 1].now);
    }
  }

  /** So a signer that follows what it reads never helps to leave a capsule sooner than that
      capsule allows: between the issue of the rotation and the Release before an Activate
      vote lies the recovery delay that the predecessor hash in the vote commits to. */
  lemma ActivateWaitsCapsuleDelay(start: SignerState, steps: seq<SignerStep>, j: nat, v: ActivateVoteBody) returns (k: nat)
    requires NoVotesYet(start) && j < |steps| && VotesActivate(start, steps, j, v)
    requires Hashed(start.activeCapsule) && IntentsHashed(steps)
    ensures k < j && Releases(start, steps, k, v.planHash)
    ensures v.context.predecessorHash.BodyHash?
    ensures steps[k].now >= SatAdd(v.context.issuedAt, v.context.predecessorHash.body.minimumRecoveryDelay)
  {
    ActivateFollowsDelay(start, steps, j, v);
    var i: nat, k': nat :|
      && i < k' < j
      && Begins(start, steps, i, v.planHash) && Releases(start, steps, k', v.planHash)
      && Waited(Before(start, steps, k').activeCapsule, v.planHash.preimage, steps[k'].now);
    k := k';
    RunKeepsHashed(start, steps, k);
  }

  // ---- A set of signers ----------------------------------------------------------

  datatype History = History(start: SignerState, steps: seq<SignerStep>)

  ghost predicate Casts(h: History, v: ActivateVoteBody) {
    exists i: nat :: i < |h.steps| && VotesActivate(h.start, h.steps, i, v)
  }

  ghost predicate AcceptedVeto(h: History, plan: PlanHash) {
    exists i: nat :: i < |h.steps| && AcceptsVeto(h.start, h.steps, i, plan)
  }

  function Voters(c: ActivateCertificate): set<nat> {
    set i | 0 <= i < |c.votes| :: c.votes[i].body.signerId
  }

  /** Votes of correct signers in a certificate were cast by them. */
  ghost predicate BackedBySigners(histories: map<nat, History>, c: ActivateCertificate) {
    && ActivateCertificateEncodes(c)
    && (forall i :: 0 <= i < |c.votes| && c.votes[i].body.signerId in histories ==>
          Casts(histories[c.votes[i].body.signerId], c.votes[i].body))
  }

  lemma CertificateVote(histories: map<nat, History>, c: ActivateCertificate, signer: nat) returns (v: ActivateVoteBody)
    requires BackedBySigners(histories, c) && signer in Voters(c) && signer in histories
    ensures Casts(histories[signer], v)
    ensures v.context.predecessorHash == c.context.predecessorHash
    ensures v.planHash == c.planHash && v.successorHash == c.successorHash
  {
    var i :| 0 <= i < |c.votes| && c.votes[i].body.signerId == signer;
    v := c.votes[i].body;
  }

  /** Two Activate certificates for different children of one predecessor can exist only
      if a correct signer accepted a witness-backed owner veto of one of the two plans,
      whenever the two voter sets overlap in more than the faulty signers. */
  lemma ForkedCertificatesNeedVeto(histories: map<nat, History>, signers: set<nat>, faulty: set<nat>,
                                   c: ActivateCertificate, d: ActivateCertificate)
    requires signers - faulty <= histories.Keys
    requires forall s :: s in histories ==> ValidSigner(histories[s].start)
    requires BackedBySigners(histories, c) && BackedBySigners(histories, d)
    requires Voters(c) <= signers && Voters(d) <= signers
    requires |Voters(c)| + |Voters(d)| > |signers| + |faulty|
    requires c.context.predecessorHash == d.context.predecessorHash && c.successorHash != d.successorHash
    ensures exists s :: s in signers - faulty && (AcceptedVeto(histories[s], c.planHash) || AcceptedVeto(histories[s], d.planHash))
  {
    var s := SharedCorrectMember(Voters(c), Voters(d), signers, faulty);
    assert s in signers - faulty;
    var v := CertificateVote(histories, c, s);
    var w := CertificateVote(histories, d, s);
    var h := histories[s];
    var i: nat :| i < |h.steps| && VotesActivate(h.start, h.steps, i, v);
    var j: nat :| j < |h.steps| && VotesActivate(h.start, h.steps, j, w);
    if i < j {
      SecondActivateNeedsVeto(h.start, h.steps, i, j, v, w);
    } else {
      assert i != j;
      SecondActivateNeedsVeto(h.start, h.steps, j, i, w, v);
    }
  }
}
