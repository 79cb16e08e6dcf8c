/** Barriers over the connected clients of a Meeting document, as atomic steps
    (backend/src/meetings/meeting-compaction-coordinator.ts). The sequence read of a completion is two
    steps, its start and its end, because other steps run in between. */
module CompactionBarriers {
  import opened Options

  type Id = nat

  datatype Intention = Compaction | Completion

  datatype Phase = Draining | Confirming | Ready | Finalizing | Committing

  /** The pending timeout: abort after five seconds, fail after thirty, or none. */
  datatype Timer = AbortTimer | FailTimer | NoTimer

  datatype Barrier = Barrier(
    intention: Intention, cancelled: bool, id: Id, meetingId: Id, compactorConnection: Option<Id>, compactorUser: Id,
    participants: set<Id>, drained: set<Id>, confirmed: set<Id>, phase: Phase, serverSequence: Option<nat>,
    timer: Timer)

  datatype ReleaseOutcome = Compacted | Completed | Aborted

  datatype Release = Release(barrierId: Id, intention: Intention, participants: set<Id>, outcome: ReleaseOutcome)

  /** reading holds the sequence reads that have started and not ended, released the emitted release events. */
  datatype State = State(
    barriers: map<Id, Barrier>, connections: map<Id, set<Id>>,
    collaborationWriters: map<Id, nat>, externalWriters: map<Id, nat>,
    reading: multiset<(Id, Id)>, released: seq<Release>)

  datatype BarrierInfo = BarrierInfo(intention: Intention, barrierId: Id, participants: set<Id>)

  function Info(barrier: Barrier): BarrierInfo {
    BarrierInfo(barrier.intention, barrier.id, barrier.participants)
  }

  function Count(writers: map<Id, nat>, meetingId: Id): nat {
    if meetingId in writers then writers[meetingId] else 0
  }

  function OneMore(writers: map<Id, nat>, meetingId: Id): map<Id, nat> {
    writers[meetingId := Count(writers, meetingId) + 1]
  }

  function OneLess(writers: map<Id, nat>, meetingId: Id): map<Id, nat> {
    if Count(writers, meetingId) <= 1 then writers - {meetingId} else writers[meetingId := writers[meetingId] - 1]
  }

  function ConnectionsOf(state: State, documentId: Id): set<Id> {
    if documentId in state.connections then state.connections[documentId] else {}
  }

  /** The document whose barrier has the given id. */
  ghost function WithId(barriers: map<Id, Barrier>, barrierId: Id): (found: Option<Id>)
    ensures found.Some? ==> found.value in barriers && barriers[found.value].id == barrierId
    ensures found.None? ==> forall d | d in barriers :: barriers[d].id != barrierId
  {
    if exists d :: d in barriers && barriers[d].id == barrierId then
      (var d :| d in barriers && barriers[d].id == barrierId; Some(d))
    else None
  }

  /** The document whose barrier belongs to the given meeting. */
  ghost function OfMeeting(barriers: map<Id, Barrier>, meetingId: Id): (found: Option<Id>)
    ensures found.Some? ==> found.value in barriers && barriers[found.value].meetingId == meetingId
    ensures found.None? ==> forall d | d in barriers :: barriers[d].meetingId != meetingId
  {
    if exists d :: d in barriers && barriers[d].meetingId == meetingId then
      (var d :| d in barriers && barriers[d].meetingId == meetingId; Some(d))
    else None
  }

  predicate IsLocked(barrier: Barrier) {
    barrier.phase.Finalizing? || barrier.phase.Committing?
  }

  /** No write begins or ends. */
  predicate SameWriters(state: State, after: State) {
    after.externalWriters == state.externalWriters && after.collaborationWriters == state.collaborationWriters
  }

  function Released(state: State, documentId: Id, outcome: ReleaseOutcome): (result: State)
    requires documentId in state.barriers
    ensures SameWriters(state, result)
  {
    var barrier := state.barriers[documentId];
    state.(barriers := state.barriers - {documentId},
           released := state.released + [Release(barrier.id, barrier.intention, barrier.participants, outcome)])
  }

  function Replaced(state: State, documentId: Id, barrier: Barrier): (result: State)
    ensures SameWriters(state, result)
  {
    state.(barriers := state.barriers[documentId := barrier])
  }

  // ---------- compaction ----------

  function Open(state: State, meetingId: Id, documentId: Id, compactor: Option<Id>, user: Id, participants: set<Id>,
                id: Id)
    : (result: (State, Option<BarrierInfo>))
    ensures SameWriters(state, result.0)
  {
    if Count(state.externalWriters, meetingId) > 0 then (state, None)
    else if documentId in state.barriers then (state, Some(Info(state.barriers[documentId])))
    else
      var barrier := Barrier(Compaction, false, id, meetingId, compactor, user, participants, {}, {}, Draining, None,
                             AbortTimer);
      (Replaced(state, documentId, barrier), Some(Info(barrier)))
  }

  function Joined(state: State, documentId: Id, participant: Id): (result: State)
    ensures SameWriters(state, result)
  {
    state.(connections := state.connections[documentId := ConnectionsOf(state, documentId) + {participant}])
  }

  /** A new participant starts the drain round again, unless the barrier is past it. */
  function WithParticipant(barrier: Barrier, participant: Id): Barrier {
    var joined := barrier.(participants := barrier.participants + {participant}, confirmed := {});
    if barrier.phase.Committing? then joined else joined.(phase := Draining, serverSequence := None)
  }

  function Join(state: State, documentId: Id, participant: Id): (result: (State, Option<BarrierInfo>))
    ensures SameWriters(state, result.0)
  {
    var joined := Joined(state, documentId, participant);
    if documentId !in state.barriers then (joined, None)
    else
      var barrier := state.barriers[documentId];
      var info := BarrierInfo(barrier.intention, barrier.id, {participant});
      if barrier.intention.Completion? && IsLocked(barrier) then (joined, Some(info))
      else (Replaced(joined, documentId, WithParticipant(barrier, participant)), Some(info))
  }

  function Acknowledge(state: State, documentId: Id, barrierId: Id, participant: Id): (result: (State, bool))
    ensures SameWriters(state, result.0)
  {
    if documentId !in state.barriers || state.barriers[documentId].id != barrierId
       || participant !in state.barriers[documentId].participants || !state.barriers[documentId].phase.Draining?
    then (state, false)
    else
      var barrier := state.barriers[documentId];
      var drained := barrier.drained + {participant};
      (Replaced(state, documentId, barrier.(drained := drained)), |drained| == |barrier.participants|)
  }

  /** The barrier is reported to its compactor with the sequence it covers. */
  function MakeReady(state: State, documentId: Id, barrierId: Id, serverSequence: nat): (result: (State, bool))
    ensures SameWriters(state, result.0)
  {
    if documentId !in state.barriers || state.barriers[documentId].id != barrierId
       || !state.barriers[documentId].phase.Draining?
       || |state.barriers[documentId].drained| != |state.barriers[documentId].participants|
    then (state, false)
    else (Replaced(state, documentId,
                   state.barriers[documentId].(phase := Ready, serverSequence := Some(serverSequence))), true)
  }

  /** None stands for the conflict that is thrown. */
  ghost function Claim(state: State, meetingId: Id, barrierId: Id, user: Id): (result: (State, Option<nat>))
    ensures SameWriters(state, result.0)
  {
    var found := WithId(state.barriers, barrierId);
    if found.None? then (state, None)
    else
      var barrier := state.barriers[found.value];
      if barrier.meetingId != meetingId || barrier.compactorUser != user || !barrier.intention.Compaction?
         || !barrier.phase.Ready? || barrier.serverSequence.None?
      then (state, None)
      else (Replaced(state, found.value, barrier.(phase := Committing, timer := NoTimer)), barrier.serverSequence)
  }

  ghost predicate ClaimHolds(state: State, meetingId: Id, barrierId: Id) {
    var found := WithId(state.barriers, barrierId);
    found.Some? && (var barrier := state.barriers[found.value];
                    barrier.meetingId == meetingId && barrier.phase.Committing? && !barrier.cancelled)
  }

  ghost function Complete(state: State, meetingId: Id, barrierId: Id): (result: State)
    ensures SameWriters(state, result)
  {
    var found := WithId(state.barriers, barrierId);
    if found.None? || state.barriers[found.value].meetingId != meetingId then state
    else Released(state, found.value, if state.barriers[found.value].intention.Completion? then Completed
                                      else Compacted)
  }

  ghost function Fail(state: State, meetingId: Id, barrierId: Id): (result: State)
    ensures SameWriters(state, result)
  {
    var found := WithId(state.barriers, barrierId);
    if found.None? || state.barriers[found.value].meetingId != meetingId then state
    else Released(state, found.value, Aborted)
  }

  function Abort(state: State, documentId: Id, barrierId: Option<Id>): (result: State)
    ensures SameWriters(state, result)
  {
    if documentId !in state.barriers || (barrierId.Some? && state.barriers[documentId].id != barrierId.value) then state
    else
      var barrier := state.barriers[documentId];
      if barrier.phase.Committing? then
        if barrier.intention.Completion? then Replaced(state, documentId, barrier.(cancelled := true)) else state
      else Released(state, documentId, Aborted)
  }

  ghost function AbortMeeting(state: State, meetingId: Id): (result: State)
    ensures SameWriters(state, result)
  {
    var found := OfMeeting(state.barriers, meetingId);
    if found.None? || state.barriers[found.value].phase.Committing? then state
    else Released(state, found.value, Aborted)
  }

  function Left(state: State, documentId: Id, participant: Id): (result: State)
    ensures SameWriters(state, result)
  {
    if documentId !in state.connections then state
    else
      var left := state.connections[documentId] - {participant};
      state.(connections := if left == {} then state.connections - {documentId}
                            else state.connections[documentId := left])
  }

  function Disconnect(state: State, documentId: Id, participant: Id): (result: State)
    ensures SameWriters(state, result)
  {
    var left := Left(state, documentId, participant);
    if documentId in state.barriers && participant in state.barriers[documentId].participants
    then Abort(left, documentId, Some(state.barriers[documentId].id))
    else left
  }

  // ---------- writers ----------

  /** A write by a drained client ends the barrier; a locked barrier refuses it. */
  function PrepareUpdate(state: State, documentId: Id, participant: Id): (result: (State, bool))
    ensures SameWriters(state, result.0)
  {
    if documentId !in state.barriers then (state, true)
    else
      var barrier := state.barriers[documentId];
      if IsLocked(barrier) then (state, false)
      else if participant in barrier.drained then (Released(state, documentId, Aborted), true)
      else (state, true)
  }

  ghost function BeginExternal(state: State, meetingId: Id): (State, bool) {
    var found := OfMeeting(state.barriers, meetingId);
    if found.Some? && IsLocked(state.barriers[found.value]) then (state, false)
    else
      var free := if found.Some? then Released(state, found.value, Aborted) else state;
      (free.(externalWriters := OneMore(free.externalWriters, meetingId)), true)
  }

  function EndExternal(state: State, meetingId: Id): State {
    state.(externalWriters := OneLess(state.externalWriters, meetingId))
  }

  ghost function BeginCollaboration(state: State, meetingId: Id): (State, bool) {
    var found := OfMeeting(state.barriers, meetingId);
    if found.Some? && IsLocked(state.barriers[found.value]) then (state, false)
    else (state.(collaborationWriters := OneMore(state.collaborationWriters, meetingId)), true)
  }

  function EndCollaboration(state: State, meetingId: Id): State {
    state.(collaborationWriters := OneLess(state.collaborationWriters, meetingId))
  }

  // ---------- completion ----------

  /** Starts reading the sequence once everybody has drained. */
  function StartRead(state: State, documentId: Id): (result: State)
    requires documentId in state.barriers
    ensures SameWriters(state, result)
  {
    var barrier := state.barriers[documentId];
    if !barrier.intention.Completion? || !barrier.phase.Draining?
        || |barrier.drained| != |barrier.participants| then state
    else Replaced(state, documentId,
                  barrier.(phase := Confirming)).(reading := state.reading + multiset{(documentId, barrier.id)})
  }

  /** Everybody has confirmed the sequence: the completion may be submitted within thirty seconds. */
  function ClaimCompletion(state: State, documentId: Id): (result: State)
    requires documentId in state.barriers
    ensures SameWriters(state, result)
  {
    var barrier := state.barriers[documentId];
    if !barrier.intention.Completion? || !barrier.phase.Confirming? || barrier.serverSequence.None?
       || |barrier.confirmed| != |barrier.participants|
    then state
    else Replaced(state, documentId, barrier.(phase := Finalizing, timer := FailTimer))
  }

  /** False stands for the conflict that is thrown. */
  function BeginCompletion(state: State, meetingId: Id, documentId: Id, user: Id, id: Id): (result: (State, bool))
    ensures SameWriters(state, result.0)
  {
    if documentId in state.barriers || Count(state.externalWriters, meetingId) > 0 then (state, false)
    else
      var begun := Open(state, meetingId, documentId, None, user, ConnectionsOf(state, documentId), id).0;
      var barrier := begun.barriers[documentId].(intention := Completion);
      (StartRead(Replaced(begun, documentId, barrier), documentId), true)
  }

  function CompletionDrained(state: State, documentId: Id, barrierId: Id, participant: Id): (result: State)
    ensures SameWriters(state, result)
  {
    if documentId !in state.barriers || !state.barriers[documentId].intention.Completion? then state
    else
      var (drained, all) := Acknowledge(state, documentId, barrierId, participant);
      if all then StartRead(drained, documentId) else drained
  }

  /** The read ends. It may belong to an earlier drain round: only the barrier and its phase are checked. */
  function ReadResolves(state: State, documentId: Id, barrierId: Id, sequence: nat): (result: State)
    ensures SameWriters(state, result)
  {
    var ended := state.(reading := state.reading - multiset{(documentId, barrierId)});
    if documentId !in state.barriers || state.barriers[documentId].id != barrierId
       || !state.barriers[documentId].phase.Confirming?
    then ended
    else
      var barrier := state.barriers[documentId];
      if Count(state.collaborationWriters, barrier.meetingId) > 0 then Abort(ended, documentId, Some(barrierId))
      else ClaimCompletion(Replaced(ended, documentId, barrier.(serverSequence := Some(sequence))), documentId)
  }

  function ReadFails(state: State, documentId: Id, barrierId: Id): (result: State)
    ensures SameWriters(state, result)
  {
    Abort(state.(reading := state.reading - multiset{(documentId, barrierId)}), documentId, Some(barrierId))
  }

  function ConfirmCompletion(state: State, documentId: Id, barrierId: Id, participant: Id,
                             sequence: nat): (result: State)
    ensures SameWriters(state, result)
  {
    if documentId !in state.barriers || !state.barriers[documentId].intention.Completion?
       || state.barriers[documentId].id != barrierId || !state.barriers[documentId].phase.Confirming?
       || state.barriers[documentId].serverSequence != Some(sequence)
       || participant !in state.barriers[documentId].participants
    then state
    else
      var barrier := state.barriers[documentId];
      ClaimCompletion(Replaced(state, documentId, barrier.(confirmed := barrier.confirmed + {participant})), documentId)
  }

  /** None stands for the conflict that is thrown. */
  ghost function ClaimSubmission(state: State, meetingId: Id, barrierId: Id, user: Id,
                                 sequence: nat): (result: (State, Option<Id>))
    ensures SameWriters(state, result.0)
  {
    var found := WithId(state.barriers, barrierId);
    if found.None? then (state, None)
    else
      var barrier := state.barriers[found.value];
      if !barrier.intention.Completion? || !barrier.phase.Finalizing? || barrier.meetingId != meetingId
         || barrier.compactorUser != user || barrier.serverSequence != Some(sequence)
      then (state, None)
      else (Replaced(state, found.value, barrier.(phase := Committing)), found)
  }

  ghost function CancelCompletion(state: State, meetingId: Id, barrierId: Id, user: Id): (result: State)
    ensures SameWriters(state, result)
  {
    var found := WithId(state.barriers, barrierId);
    if found.None? then state
    else
      var barrier := state.barriers[found.value];
      if barrier.intention.Completion? && barrier.meetingId == meetingId && barrier.compactorUser == user
      then Abort(state, found.value, Some(barrierId)) else state
  }

  ghost function TimerFires(state: State, documentId: Id): (result: State)
    ensures SameWriters(state, result)
  {
    if documentId !in state.barriers then state
    else
      var barrier := state.barriers[documentId];
      match barrier.timer
      case AbortTimer => Abort(state, documentId, Some(barrier.id))
      case FailTimer => Fail(state, barrier.meetingId, barrier.id)
      case NoTimer => state
  }
}
