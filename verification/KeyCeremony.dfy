/** Key ceremonies as transactions on the key tables: two operators replace the slots, rotate the Root
    Key or rotate the Content Key (backend/src/e2ee/e2ee.service.ts). */
module KeyCeremony {
  import opened Options

  type Id = nat

  /** Milliseconds. */
  type Time = int

  const RECOVERY_LIFETIME: Time := 1_800_000
  const CONFIRMATION_LIFETIME: Time := 30_000

  datatype Kind = Shared | Recovery | Content | Malformed

  /** A sealed key: the validated header and the ciphertext. */
  datatype Envelope = Envelope(kind: Kind, organization: Id, primaryKey: Id, wrappedKey: Id, ciphertext: nat)

  datatype Operation = LostPassphrase | ChangePassphrase | ReplaceRecoverySecret | RotateRootKey | RotateRootAndContentKey

  datatype Reason = PassphraseLost | TeamMemberLeft | RoutineAccessChange | RecoverySecretLost | RoutineCustodyChange
    | PlannedRootRotation | PassphraseDisclosed | RecoverySecretDisclosed | EncryptionKeyDisclosed

  datatype Historical = Historical(ockId: Id, ockEpoch: int, wrapper: Envelope)

  datatype Candidate = Candidate(
    operation: Operation, reason: Reason, expectedGeneration: int, orkId: Id, ockId: Id, ockEpoch: int,
    shared: Envelope, recovery: Envelope, content: Envelope, custodyCopies: int, historical: seq<Historical>)

  /** A collision-free digest is the thing it was taken of. */
  datatype Fingerprint = OfSlot(slot: Envelope) | OfCandidate(candidate: Candidate) | NotADigest

  datatype KeyState = KeyState(
    organization: Id, generation: int, orkId: Id, ockId: Id, ockEpoch: int,
    shared: Envelope, recovery: Envelope, content: Envelope, custodyBy: Id, custodyAt: Time)

  datatype CeremonyState = Pending | Ready | Activated | Aborted

  datatype Operator = Operator(id: Id, sessionVersion: int, sessionId: Id)

  datatype Ceremony = Ceremony(
    state: CeremonyState, initiator: Operator, approver: Option<Operator>,
    initiatorConfirmedAt: Option<Time>, approverConfirmedAt: Option<Time>,
    candidate: Candidate, fingerprint: Fingerprint, expiresAt: Time, activatedGeneration: Option<int>)

  /** A row of e2ee_content_key_wrappers; the table is unique in the pair of Root and Content Key. */
  datatype Row = Row(epoch: int, wrapper: Envelope)

  type Wrappers = map<(Id, Id), Row>

  datatype UserRow = UserRow(keyOperator: bool, archived: bool, sessionVersion: int)

  datatype Tables = Tables(
    keys: KeyState, ceremonies: map<Id, Ceremony>, wrappers: Wrappers, users: map<Id, UserRow>)

  /** The signed-in user and application session of a request. */
  datatype Caller = Caller(operator: Operator, keyOperator: bool)

  datatype Error = Forbidden | Concurrent | KeyStateStale | CandidateInvalid | EnvelopeInvalid | ContextInvalid
    | HistoricalWrappersRequired | NotFound | Expired | StateInvalid | DistinctOperatorRequired | OperatorIneligible
    | CandidateMismatch | ConfirmationRequired | CompareAndSwapLost

  datatype Outcome = Done(tables: Tables) | Failed(error: Error)

  // ---------- the key set ----------

  /** The rows wrapped by one Root Key. */
  function RowsUnder(wrappers: Wrappers, orkId: Id): map<Id, Row> {
    map pair | pair in wrappers && pair.0 == orkId :: pair.1 := wrappers[pair]
  }

  /** What a client is given to read with: the rows of the current Root Key and the current wrapper. */
  function WrapperSet(keys: KeyState, wrappers: Wrappers): map<Id, Row> {
    RowsUnder(wrappers, keys.orkId)[keys.ockId := Row(keys.ockEpoch, keys.content)]
  }

  // ---------- candidates ----------

  predicate Approved(operation: Operation, reason: Reason) {
    match operation
    case LostPassphrase => reason.PassphraseLost?
    case ChangePassphrase => reason.TeamMemberLeft? || reason.RoutineAccessChange?
    case ReplaceRecoverySecret => reason.RecoverySecretLost? || reason.RoutineCustodyChange?
    case RotateRootKey => reason.PlannedRootRotation?
    case RotateRootAndContentKey =>
      reason.PassphraseDisclosed? || reason.RecoverySecretDisclosed? || reason.EncryptionKeyDisclosed?
  }

  predicate ContextMatches(candidate: Candidate, keys: KeyState) {
    && candidate.shared.organization == candidate.recovery.organization == candidate.content.organization ==
        keys.organization
    && candidate.shared.wrappedKey == candidate.orkId
    && candidate.recovery.wrappedKey == candidate.orkId
    && candidate.content.primaryKey == candidate.orkId
    && candidate.content.wrappedKey == candidate.ockId
  }

  predicate MatchesOperation(candidate: Candidate, keys: KeyState) {
    var sameRoot := candidate.orkId == keys.orkId;
    var sameContent := candidate.ockId == keys.ockId && candidate.ockEpoch == keys.ockEpoch;
    var sameShared := candidate.shared == keys.shared;
    var sameRecovery := candidate.recovery == keys.recovery;
    var sameWrapper := candidate.content == keys.content;
    match candidate.operation
    case LostPassphrase =>
      sameRoot && sameContent && !sameShared && sameRecovery && sameWrapper && candidate.custodyCopies == 0
    case ChangePassphrase =>
      sameRoot && sameContent && !sameShared && sameRecovery && sameWrapper && candidate.custodyCopies == 0
    case ReplaceRecoverySecret =>
      sameRoot && sameContent && sameShared && !sameRecovery && sameWrapper && candidate.custodyCopies == 2
    case RotateRootKey =>
      !sameRoot && sameContent && !sameShared && !sameRecovery && !sameWrapper && candidate.custodyCopies == 0
    case RotateRootAndContentKey =>
      !sameRoot && !sameContent && candidate.ockEpoch == keys.ockEpoch + 1 && !sameShared && !sameRecovery
          && !sameWrapper
      && (exists i | 0 <= i < |candidate.historical| :: candidate.historical[i].ockId == keys.ockId)
      && candidate.custodyCopies == 2
  }

  /** The first historical wrapper that does not fit. */
  function HistoricalRefusal(historical: seq<Historical>, candidate: Candidate, keys: KeyState): Option<Error> {
    if historical == [] then None
    else
      var entry := historical[0];
      if !entry.wrapper.kind.Content? then Some(EnvelopeInvalid)
      else if entry.wrapper.organization != keys.organization || entry.wrapper.primaryKey != candidate.orkId
              || entry.wrapper.wrappedKey != entry.ockId || entry.ockId == candidate.ockId
      then Some(ContextInvalid)
      else HistoricalRefusal(historical[1..], candidate, keys)
  }

  /** The keys a new Root Key must wrap, with their epochs. */
  function RequiredHistorical(keys: KeyState, wrappers: Wrappers, ockId: Id): map<Id, int> {
    var retained := map pair | pair in wrappers && pair.0 == keys.orkId && pair.1 != ockId ::
        pair.1 := wrappers[pair].epoch;
    if keys.ockId != ockId then retained[keys.ockId := keys.ockEpoch] else retained
  }

  /** Building a map keeps the last entry of each key. */
  function SuppliedHistorical(historical: seq<Historical>): map<Id, int> {
    if historical == [] then map[]
    else
      var last := historical[|historical| - 1];
      SuppliedHistorical(historical[..|historical| - 1])[last.ockId := last.ockEpoch]
  }

  function CandidateRefusal(candidate: Candidate, keys: KeyState, wrappers: Wrappers): Option<Error> {
    if !Approved(candidate.operation, candidate.reason) then Some(CandidateInvalid)
    else if !candidate.shared.kind.Shared? || !candidate.recovery.kind.Recovery?
        || !candidate.content.kind.Content? then
      Some(EnvelopeInvalid)
    else if !ContextMatches(candidate, keys) then Some(ContextInvalid)
    else if !MatchesOperation(candidate, keys) then Some(CandidateInvalid)
    else if HistoricalRefusal(candidate.historical, candidate, keys).Some? then
      HistoricalRefusal(candidate.historical, candidate, keys)
    else if candidate.orkId == keys.orkId then None
    else
      var required := RequiredHistorical(keys, wrappers, candidate.ockId);
      var supplied := SuppliedHistorical(candidate.historical);
      if |required| != |supplied| || exists ockId | ockId in required ::
           ockId !in supplied || supplied[ockId] != required[ockId]
      then Some(HistoricalWrappersRequired)
      else None
  }

  // ---------- ceremonies ----------

  predicate IsOpen(ceremony: Ceremony) {
    ceremony.state.Pending? || ceremony.state.Ready?
  }

  function OpenIds(ceremonies: map<Id, Ceremony>): set<Id> {
    set id | id in ceremonies && IsOpen(ceremonies[id])
  }

  /** A new ceremony aborts the open one, which has expired. */
  function WithOpenAborted(ceremonies: map<Id, Ceremony>): map<Id, Ceremony> {
    map id | id in ceremonies :: if IsOpen(ceremonies[id]) then ceremonies[id].(state := Aborted) else ceremonies[id]
  }

  function NewCeremony(caller: Caller, candidate: Candidate, fingerprint: Fingerprint, now: Time): Ceremony {
    Ceremony(Pending, caller.operator, None, Some(now), None, candidate, fingerprint, now + RECOVERY_LIFETIME, None)
  }

  /** A lost passphrase changes the shared slot and keeps everything else. */
  function RecoveryCandidate(keys: KeyState, shared: Envelope): Candidate {
    Candidate(LostPassphrase, PassphraseLost, keys.generation, keys.orkId, keys.ockId, keys.ockEpoch,
              shared, keys.recovery, keys.content, 0, [])
  }

  function RecoveryRefusal(keys: KeyState, expectedGeneration: int, shared: Envelope,
                           fingerprint: Fingerprint): Option<Error>
  {
    if keys.generation != expectedGeneration then Some(KeyStateStale)
    else if fingerprint.NotADigest? then Some(CandidateInvalid)
    else if !shared.kind.Shared? then Some(EnvelopeInvalid)
    else if shared.organization != keys.organization || shared.wrappedKey != keys.orkId then Some(ContextInvalid)
    else if fingerprint != OfSlot(shared) then Some(CandidateInvalid)
    else None
  }

  /** Another ceremony is open and has not expired. */
  predicate Blocked(ceremonies: map<Id, Ceremony>, now: Time) {
    exists id | id in ceremonies :: IsOpen(ceremonies[id]) && ceremonies[id].expiresAt > now
  }

  function StartRecovery(tables: Tables, caller: Caller, id: Id, expectedGeneration: int, shared: Envelope,
                         fingerprint: Fingerprint, now: Time): Outcome
  {
    if !caller.keyOperator then Failed(Forbidden)
    else if Blocked(tables.ceremonies, now) then Failed(Concurrent)
    else if RecoveryRefusal(tables.keys, expectedGeneration, shared, fingerprint).Some? then
      Failed(RecoveryRefusal(tables.keys, expectedGeneration, shared, fingerprint).value)
    else
      var ceremony := NewCeremony(caller, RecoveryCandidate(tables.keys, shared), fingerprint, now);
      Done(tables.(ceremonies := WithOpenAborted(tables.ceremonies)[id := ceremony]))
  }

  function StartKeyCeremony(tables: Tables, caller: Caller, id: Id, candidate: Candidate, now: Time): Outcome {
    if !caller.keyOperator then Failed(Forbidden)
    else if Blocked(tables.ceremonies, now) then Failed(Concurrent)
    else if tables.keys.generation != candidate.expectedGeneration then Failed(KeyStateStale)
    else if CandidateRefusal(candidate, tables.keys, tables.wrappers).Some? then
      Failed(CandidateRefusal(candidate, tables.keys, tables.wrappers).value)
    else
      var ceremony := NewCeremony(caller, candidate, OfCandidate(candidate), now);
      Done(tables.(ceremonies := WithOpenAborted(tables.ceremonies)[id := ceremony]))
  }

  /** Unarchived, still a key operator and in the session version recorded with the ceremony. */
  predicate Eligible(users: map<Id, UserRow>, operator: Operator) {
    && operator.id in users && users[operator.id].keyOperator && !users[operator.id].archived
    && users[operator.id].sessionVersion == operator.sessionVersion
  }

  /** The recorded operators are distinct people; both must be eligible. */
  predicate OperatorsEligible(users: map<Id, UserRow>, ceremony: Ceremony) {
    && Eligible(users, ceremony.initiator)
    && (ceremony.approver.Some? ==>
          Eligible(users, ceremony.approver.value) && ceremony.approver.value.id != ceremony.initiator.id)
  }

  /** An ineligible operator fails the request; the abort written before the failure is rolled back with it. */
  function Approve(tables: Tables, caller: Caller, id: Id, fingerprint: Fingerprint, now: Time): Outcome {
    if !caller.keyOperator then Failed(Forbidden)
    else if id !in tables.ceremonies then Failed(NotFound)
    else
      var ceremony := tables.ceremonies[id];
      if ceremony.expiresAt <= now then Failed(Expired)
      else if !ceremony.state.Pending? then Failed(StateInvalid)
      else if ceremony.initiator.id == caller.operator.id then Failed(DistinctOperatorRequired)
      else if !OperatorsEligible(tables.users, ceremony) then Failed(OperatorIneligible)
      else if fingerprint.NotADigest? then Failed(CandidateInvalid)
      else if fingerprint != ceremony.fingerprint then Failed(CandidateMismatch)
      else Done(tables.(ceremonies := tables.ceremonies[id := ceremony.(
        state := Ready, approver := Some(caller.operator), approverConfirmedAt := Some(now))]))
  }

  predicate IsSession(operator: Operator, caller: Caller) {
    operator.id == caller.operator.id && operator.sessionId == caller.operator.sessionId
  }

  predicate IsParticipant(ceremony: Ceremony, caller: Caller) {
    IsSession(ceremony.initiator, caller) || (ceremony.approver.Some? && IsSession(ceremony.approver.value, caller))
  }

  predicate RecentlyConfirmed(confirmedAt: Option<Time>, now: Time) {
    confirmedAt.Some? && confirmedAt.value >= now - CONFIRMATION_LIFETIME
  }

  /** A conflicting insert replaces the wrapper and keeps the epoch of the row. */
  function Upsert(wrappers: Wrappers, orkId: Id, ockId: Id, epoch: int, wrapper: Envelope): Wrappers {
    var pair := (orkId, ockId);
    wrappers[pair := Row(if pair in wrappers then wrappers[pair].epoch else epoch, wrapper)]
  }

  function UpsertAll(wrappers: Wrappers, orkId: Id, historical: seq<Historical>): Wrappers {
    if historical == [] then wrappers
    else
      var last := historical[|historical| - 1];
      Upsert(UpsertAll(wrappers, orkId, historical[..|historical| - 1]), orkId, last.ockId, last.ockEpoch, last.wrapper)
  }

  function ActivatedKeys(keys: KeyState, ceremony: Ceremony, now: Time): KeyState {
    var candidate := ceremony.candidate;
    var acknowledged := candidate.custodyCopies == 2;
    KeyState(keys.organization, keys.generation + 1, candidate.orkId, candidate.ockId, candidate.ockEpoch,
             candidate.shared, candidate.recovery, candidate.content,
             if acknowledged then ceremony.initiator.id
             else keys.custodyBy, if acknowledged then now else keys.custodyAt)
  }

  function ActivatedWrappers(keys: KeyState, wrappers: Wrappers, candidate: Candidate): Wrappers {
    if candidate.orkId != keys.orkId || candidate.ockId != keys.ockId then
      UpsertAll(Upsert(wrappers, candidate.orkId, candidate.ockId, candidate.ockEpoch, candidate.content),
                candidate.orkId, candidate.historical)
    else wrappers
  }

  /** Everyone has to sign in again. */
  function SessionsEnded(users: map<Id, UserRow>): map<Id, UserRow> {
    map id | id in users :: users[id].(sessionVersion := users[id].sessionVersion + 1)
  }

  predicate IsRepeat(ceremony: Ceremony) {
    ceremony.state.Activated? && ceremony.activatedGeneration.Some? && ceremony.activatedGeneration.value != 0
  }

  function ActivationRefusal(tables: Tables, caller: Caller, ceremony: Ceremony, now: Time): Option<Error> {
    if ceremony.expiresAt <= now then Some(Expired)
    else if !ceremony.state.Ready? || ceremony.approver.None? then Some(StateInvalid)
    else if !IsParticipant(ceremony, caller) then Some(Forbidden)
    else if !OperatorsEligible(tables.users, ceremony) then Some(OperatorIneligible)
    else if !RecentlyConfirmed(ceremony.initiatorConfirmedAt, now)
        || !RecentlyConfirmed(ceremony.approverConfirmedAt, now) then
      Some(ConfirmationRequired)
    else if tables.keys.generation != ceremony.candidate.expectedGeneration then Some(CompareAndSwapLost)
    else None
  }

  function ActivatedTables(tables: Tables, id: Id, now: Time): Tables
    requires id in tables.ceremonies
  {
    var ceremony := tables.ceremonies[id];
    Tables(ActivatedKeys(tables.keys, ceremony, now),
           tables.ceremonies[id := ceremony.(state := Activated,
                                             activatedGeneration := Some(tables.keys.generation + 1))],
           ActivatedWrappers(tables.keys, tables.wrappers, ceremony.candidate),
           SessionsEnded(tables.users))
  }

  /** The generation reported to the caller. */
  datatype Activation = Reported(tables: Tables, generation: int) | Refused(error: Error)

  function Activate(tables: Tables, caller: Caller, id: Id, now: Time): Activation {
    if !caller.keyOperator then Refused(Forbidden)
    else if id !in tables.ceremonies then Refused(NotFound)
    else
      var ceremony := tables.ceremonies[id];
      if IsRepeat(ceremony) then
        if IsParticipant(ceremony, caller) then Reported(tables, ceremony.activatedGeneration.value)
        else Refused(Forbidden)
      else if ActivationRefusal(tables, caller, ceremony, now).Some? then
        Refused(ActivationRefusal(tables, caller, ceremony, now).value)
      else Reported(ActivatedTables(tables, id, now), tables.keys.generation + 1)
  }

  function Abort(tables: Tables, caller: Caller, id: Id): Outcome {
    if !caller.keyOperator then Failed(Forbidden)
    else if id !in tables.ceremonies then Failed(NotFound)
    else
      var ceremony := tables.ceremonies[id];
      if !IsOpen(ceremony) then Done(tables)
      else if !IsParticipant(ceremony, caller) then Failed(Forbidden)
      else Done(tables.(ceremonies := tables.ceremonies[id := ceremony.(state := Aborted)]))
  }

  function ConfirmPresence(tables: Tables, caller: Caller, id: Id, now: Time): Outcome {
    if !caller.keyOperator then Failed(Forbidden)
    else if id !in tables.ceremonies then Failed(NotFound)
    else
      var ceremony := tables.ceremonies[id];
      if ceremony.expiresAt <= now then Failed(Expired)
      else if !IsOpen(ceremony) then Done(tables)
      else if IsSession(ceremony.initiator, caller) then
        Done(tables.(ceremonies := tables.ceremonies[id := ceremony.(initiatorConfirmedAt := Some(now))]))
      else if ceremony.state.Ready? && ceremony.approver.Some? && IsSession(ceremony.approver.value, caller) then
        Done(tables.(ceremonies := tables.ceremonies[id := ceremony.(approverConfirmedAt := Some(now))]))
      else Failed(Forbidden)
  }
}
