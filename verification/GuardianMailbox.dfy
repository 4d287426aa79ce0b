/** The version-2 guardian mailbox: a durable entry from which a fresh machine is rebuilt
    for every release. */
module GuardianMailbox {
  import opened Foundations
  import opened GuardianMachineV2

  datatype Policy = Policy(configId: Id32, version: U64, minimumDelay: U64)

  datatype Accepted = Accepted(request: RequestV2, digest: Digest, wall: U64, started: U64, notBefore: U64, boot: string)

  datatype MailboxState = MailboxState(
    policy: Policy,
    pending: map<Id32, Accepted>,
    cancelled: map<Id32, Digest>,
    released: map<Id32, Digest>,
    nonces: set<Id32>)

  /** A request; `valid` is the verdict on the certificate that comes with it. */
  datatype MailOp =
    | BeginOp(q: RequestV2, valid: bool, wall: U64, now: U64, boot: string)
    | CancelOp(q: RequestV2, valid: bool, wall: U64)
    | ReleaseOp(q: RequestV2, valid: bool, wall: U64, now: U64, boot: string)

  predicate Current(p: Policy, q: RequestV2, wall: U64) {
    && q.protocolVersion == PROTOCOL_VERSION_V2
    && q.configId == p.configId && q.configVersion == p.version
    && |q.recipientKey| == XWING_PUBLIC_KEY_LEN
    && q.requestedAt <= wall < q.expiry
  }

  predicate Tombstoned(s: MailboxState, q: RequestV2) {
    q.id in s.cancelled && s.cancelled[q.id] == Of(q)
  }

  predicate Admitted(s: MailboxState, op: MailOp) {
    match op
    case BeginOp(q, valid, wall, _, _) =>
      Current(s.policy, q, wall) && valid && !Tombstoned(s, q) && q.id !in s.pending && q.nonce !in s.nonces
    case CancelOp(q, valid, wall) =>
      && Current(s.policy, q, wall) && q.suite == DEFAULT_SUITE && valid
      && !(q.id in s.released && s.released[q.id] == Of(q))
      && (q.id in s.cancelled ==> s.cancelled[q.id] == Of(q))
    case ReleaseOp(q, valid, wall, now, boot) =>
      && !Tombstoned(s, q)
      && Current(s.policy, q, wall) && q.suite == DEFAULT_SUITE && valid
      && q.id in s.pending
      && var a := s.pending[q.id];
      && a.boot == boot
      && a.digest == Of(q) && wall < a.request.expiry && a.notBefore <= now
  }

  function Next(s: MailboxState, op: MailOp): MailboxState {
    if !Admitted(s, op) then s
    else
      match op
      case BeginOp(q, _, wall, now, boot) =>
        s.(nonces := s.nonces + {q.nonce},
           pending := s.pending[q.id := Accepted(q, Of(q), wall, now, SatAdd(now, s.policy.minimumDelay), boot)])
      case CancelOp(q, _, _) => s.(cancelled := s.cancelled[q.id := Of(q)])
      case ReleaseOp(q, _, _, _, _) => s.(released := s.released[q.id := Of(q)])
  }

  /** A recorded Begin passed the machine's own tests when it was accepted, so a machine
      rebuilt from it accepts it again. */
  ghost predicate Rebuildable(p: Policy, k: Id32, a: Accepted) {
    && a.request.id == k && a.digest == Of(a.request)
    && a.notBefore == SatAdd(a.started, p.minimumDelay)
    && a.request.protocolVersion == PROTOCOL_VERSION_V2
    && a.request.configId == p.configId && a.request.configVersion == p.version
    && a.request.requestedAt <= a.wall < a.request.expiry
  }

  ghost predicate ValidMailbox(s: MailboxState) {
    && (forall k :: k in s.pending ==> Rebuildable(s.policy, k, s.pending[k]))
    && (forall k :: k in s.released ==> k in s.pending && s.pending[k].digest == s.released[k])
    && (forall k :: k in s.released && k in s.cancelled ==> s.cancelled[k] != s.released[k])
  }

  lemma NextKeepsValid(s: MailboxState, op: MailOp)
    requires ValidMailbox(s)
    ensures ValidMailbox(Next(s, op))
  {
    forall k | k in Next(s, op).pending
      ensures Rebuildable(s.policy, k, Next(s, op).pending[k])
    {
      if k in s.pending {
        assert Rebuildable(s.policy, k, s.pending[k]);
      }
    }
  }

  class GuardianEntry {
    const policy: Policy
    var pending: map<Id32, Accepted>
    var cancelled: map<Id32, Digest>
    var released: map<Id32, Digest>
    var nonces: set<Id32>

    ghost function State(): MailboxState
      reads this
    {
      MailboxState(policy, pending, cancelled, released, nonces)
    }

    ghost predicate Valid()
      reads this
    {
      ValidMailbox(State())
    }

    constructor (policy: Policy)
      ensures Valid() && State() == MailboxState(policy, map[], map[], map[], {})
    {
      this.policy := policy;
      pending, cancelled, released, nonces := map[], map[], map[], {};
    }

    method Begin(q: RequestV2, valid: bool, wall: U64, now: U64, boot: string) returns (notBefore: Option<U64>)
      requires Valid()
      modifies this
      ensures Valid() && State() == Next(old(State()), BeginOp(q, valid, wall, now, boot))
      ensures notBefore == if Admitted(old(State()), BeginOp(q, valid, wall, now, boot)) then Some(SatAdd(now, policy.minimumDelay)) else None
    {
      NextKeepsValid(State(), BeginOp(q, valid, wall, now, boot));
      if !Current(policy, q, wall) || !valid {
        return None;
      }
      if q.id in cancelled && cancelled[q.id] == Of(q) {
        return None;
      }
      if q.id in pending {
        return None;
      }
      var newNonce := q.nonce !in nonces;
      nonces := nonces + {q.nonce};
      if !newNonce {
        return None;
      }
      var machine := new GuardianMachine(policy.configId, policy.version);
      var begun := machine.BeginAt(q, Of(q), wall, now, policy.minimumDelay, true);
      if begun.Err? {
        assert false;
        return None;
      }
      pending := pending[q.id := Accepted(q, Of(q), wall, now, begun.value, boot)];
      return Some(begun.value);
    }

    method Cancel(q: RequestV2, valid: bool, wall: U64) returns (ok: bool)
      requires Valid()
      modifies this
      ensures Valid() && State() == Next(old(State()), CancelOp(q, valid, wall))
      ensures ok <==> Admitted(old(State()), CancelOp(q, valid, wall))
    {
      NextKeepsValid(State(), CancelOp(q, valid, wall));
      if !Current(policy, q, wall) || q.suite != DEFAULT_SUITE || !valid {
        return false;
      }
      if q.id in released && released[q.id] == Of(q) {
        return false;
      }
      if q.id in cancelled && cancelled[q.id] != Of(q) {
        return false;
      }
      cancelled := cancelled[q.id := Of(q)];
      return true;
    }

    /** Rebuilds a machine from the recorded Begin and asks it. */
    method Release(q: RequestV2, valid: bool, wall: U64, now: U64, boot: string) returns (ok: bool)
      requires Valid()
      modifies this
      ensures Valid() && State() == Next(old(State()), ReleaseOp(q, valid, wall, now, boot))
      ensures ok <==> Admitted(old(State()), ReleaseOp(q, valid, wall, now, boot))
    {
      NextKeepsValid(State(), ReleaseOp(q, valid, wall, now, boot));
      if q.id in cancelled && cancelled[q.id] == Of(q) {
        return false;
      }
      if !Current(policy, q, wall) || q.suite != DEFAULT_SUITE || !valid || q.id !in pending {
        return false;
      }
      var recorded := pending[q.id];
      if recorded.boot != boot {
        return false;
      }
      assert Rebuildable(policy, q.id, recorded);
      var machine := new GuardianMachine(policy.configId, policy.version);
      var begun := machine.BeginAt(recorded.request, recorded.digest, recorded.wall, recorded.started, policy.minimumDelay, true);
      if begun.Err? {
        assert false;
        return false;
      }
      var authorized := machine.AuthorizeReleaseAt(q.id, Of(q), wall, now, true);
      if authorized.Err? {
        return false;
      }
      released := released[q.id := Of(q)];
      return true;
    }
  }
}
