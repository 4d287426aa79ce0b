/** The version-2 guardian machine: one delay, one cancellation and one release per
    request, kept in memory. */
module GuardianMachineV2 {
  import opened Foundations

  const PROTOCOL_VERSION_V2: nat := 2
  const DEFAULT_SUITE: nat := 0

  datatype RequestV2 = RequestV2(
    protocolVersion: nat,
    suite: nat,
    configId: Id32,
    configVersion: U64,
    id: Id32,
    recipientKey: KeyBytes,
    requestedAt: U64,
    nonce: Id32,
    expiry: U64)

  type Digest = Hash<RequestV2>

  datatype CoreError =
    StaleConfiguration | Replayed | UnknownRequest | DelayNotElapsed | Expired | Cancelled | FailClosed | RequestMismatch | InvalidRequest

  datatype MachineStage = Waiting | Releasing | Stopped | TooLate

  datatype MachinePending = MachinePending(digest: Digest, started: U64, notBefore: U64, expiry: U64, stage: MachineStage)

  datatype MachineState = MachineState(
    configId: Id32,
    version: U64,
    seen: set<Id32>,
    seenNonces: set<Id32>,
    pending: map<Id32, MachinePending>,
    cancelled: map<Id32, Digest>)

  function NewMachine(configId: Id32, version: U64): MachineState {
    MachineState(configId, version, {}, {}, map[], map[])
  }

  function CancelVerdict(m: MachineState, id: Id32, digest: Digest): Option<CoreError> {
    if id !in m.cancelled then None
    else if m.cancelled[id] == digest then Some(Cancelled) else Some(RequestMismatch)
  }

  function BeginRefusal(m: MachineState, q: RequestV2, digest: Digest, wall: U64, valid: bool): Option<CoreError> {
    if q.protocolVersion != PROTOCOL_VERSION_V2 || q.configId != m.configId || q.configVersion != m.version then Some(StaleConfiguration)
    else if !valid then Some(FailClosed)
    else if q.requestedAt > wall then Some(InvalidRequest)
    else if wall >= q.expiry then Some(Expired)
    else if CancelVerdict(m, q.id, digest).Some? then CancelVerdict(m, q.id, digest)
    else if q.id in m.seen || q.nonce in m.seenNonces then Some(Replayed)
    else None
  }

  function Begun(m: MachineState, q: RequestV2, digest: Digest, now: U64, delay: U64): MachineState {
    m.(seen := m.seen + {q.id},
       seenNonces := m.seenNonces + {q.nonce},
       pending := m.pending[q.id := MachinePending(digest, now, SatAdd(now, delay), q.expiry, Waiting)])
  }

  function CancelRefusal(m: MachineState, id: Id32, digest: Digest, valid: bool): Option<CoreError> {
    if !valid then Some(FailClosed)
    else if id in m.cancelled then (if m.cancelled[id] == digest then None else Some(RequestMismatch))
    else if id in m.pending && m.pending[id].digest != digest then Some(RequestMismatch)
    else None
  }

  function Stop(m: MachineState, id: Id32, digest: Digest): MachineState {
    if id in m.cancelled then m
    else
      m.(cancelled := m.cancelled[id := digest],
         pending := if id in m.pending then m.pending[id := m.pending[id].(stage := Stopped)] else m.pending)
  }

  function ReleaseRefusal(m: MachineState, id: Id32, digest: Digest, wall: U64, now: U64, valid: bool): Option<CoreError> {
    if CancelVerdict(m, id, digest).Some? then CancelVerdict(m, id, digest)
    else if !valid then Some(FailClosed)
    else if id !in m.pending then Some(UnknownRequest)
    else if m.pending[id].digest != digest then Some(RequestMismatch)
    else if wall >= m.pending[id].expiry then Some(Expired)
    else if now < m.pending[id].notBefore then Some(DelayNotElapsed)
    else None
  }

  function Judged(m: MachineState, id: Id32, refusal: Option<CoreError>): MachineState {
    if refusal.None? && id in m.pending then m.(pending := m.pending[id := m.pending[id].(stage := Releasing)])
    else if refusal == Some(Expired) && id in m.pending then m.(pending := m.pending[id := m.pending[id].(stage := TooLate)])
    else m
  }

  class GuardianMachine {
    const configId: Id32
    const version: U64
    var seen: set<Id32>
    var seenNonces: set<Id32>
    var pending: map<Id32, MachinePending>
    var cancelled: map<Id32, Digest>

    ghost function State(): MachineState
      reads this
    {
      MachineState(configId, version, seen, seenNonces, pending, cancelled)
    }

    constructor (configId: Id32, version: U64)
      ensures State() == NewMachine(configId, version)
    {
      this.configId, this.version := configId, version;
      seen, seenNonces, pending, cancelled := {}, {}, map[], map[];
    }

    method BeginAt(q: RequestV2, digest: Digest, wall: U64, now: U64, delay: U64, valid: bool)
      returns (r: Result<U64, CoreError>)
      modifies this
      ensures var refusal := BeginRefusal(old(State()), q, digest, wall, valid);
              && r == (if refusal.Some? then Err(refusal.value) else Ok(SatAdd(now, delay)))
              && State() == (if refusal.Some? then old(State()) else Begun(old(State()), q, digest, now, delay))
    {
      if q.protocolVersion != PROTOCOL_VERSION_V2 || q.configId != configId || q.configVersion != version {
        return Err(StaleConfiguration);
      }
      if !valid {
        return Err(FailClosed);
      }
      if q.requestedAt > wall {
        return Err(InvalidRequest);
      }
      if wall >= q.expiry {
        return Err(Expired);
      }
      if q.id in cancelled {
        return if cancelled[q.id] == digest then Err(Cancelled) else Err(RequestMismatch);
      }
      if q.id in seen || q.nonce in seenNonces {
        return Err(Replayed);
      }
      seen, seenNonces := seen + {q.id}, seenNonces + {q.nonce};
      var notBefore := SatAdd(now, delay);
      pending := pending[q.id := MachinePending(digest, now, notBefore, q.expiry, Waiting)];
      return Ok(notBefore);
    }

    method Cancel(id: Id32, digest: Digest, valid: bool) returns (r: Result<(), CoreError>)
      modifies this
      ensures var refusal := CancelRefusal(old(State()), id, digest, valid);
              && r == (if refusal.Some? then Err(refusal.value) else Ok(()))
              && State() == (if refusal.Some? then old(State()) else Stop(old(State()), id, digest))
    {
      if !valid {
        return Err(FailClosed);
      }
      if id in cancelled {
        return if cancelled[id] == digest then Ok(()) else Err(RequestMismatch);
      }
      if id in pending {
        if pending[id].digest != digest {
          return Err(RequestMismatch);
        }
        pending := pending[id := pending[id].(stage := Stopped)];
      }
      cancelled := cancelled[id := digest];
      return Ok(());
    }

    method AuthorizeReleaseAt(id: Id32, digest: Digest, wall: U64, now: U64, valid: bool) returns (r: Result<(), CoreError>)
      modifies this
      ensures var refusal := ReleaseRefusal(old(State()), id, digest, wall, now, valid);
              && r == (if refusal.Some? then Err(refusal.value) else Ok(()))
              && State() == Judged(old(State()), id, refusal)
    {
      if id in cancelled {
        return if cancelled[id] == digest then Err(Cancelled) else Err(RequestMismatch);
      }
      if !valid {
        return Err(FailClosed);
      }
      if id !in pending {
        return Err(UnknownRequest);
      }
      if pending[id].digest != digest {
        return Err(RequestMismatch);
      }
      if wall >= pending[id].expiry {
        pending := pending[id := pending[id].(stage := TooLate)];
        return Err(Expired);
      }
      if now < pending[id].notBefore {
        return Err(DelayNotElapsed);
      }
      pending := pending[id := pending[id].(stage := Releasing)];
      return Ok(());
    }
  }
}
