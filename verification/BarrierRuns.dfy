/** Every interleaving of joins, disconnects, drained clients, late reads, writers and timers
    (backend/src/meetings/meeting-compaction-coordinator.ts, meeting-collaboration-relay.service.ts). */
module BarrierRuns {
  import opened Options
  import opened CompactionBarriers

  // ---------- steps ----------

  datatype Event =
    | Opening(meetingId: Id, documentId: Id, connection: Id, user: Id, participants: set<Id>, id: Id)
    | Joining(documentId: Id, participant: Id)
    | Acknowledging(documentId: Id, barrierId: Id, participant: Id)
    | Readying(documentId: Id, barrierId: Id, sequence: nat)
    | Claiming(meetingId: Id, barrierId: Id, user: Id)
    | Completing(meetingId: Id, barrierId: Id)
    | Failing(meetingId: Id, barrierId: Id)
    | Aborting(documentId: Id, aborted: Option<Id>)
    | AbortingMeeting(meetingId: Id)
    | Disconnecting(documentId: Id, participant: Id)
    | Preparing(documentId: Id, participant: Id)
    | Writing(documentId: Id, participant: Id)
    | WriteEnds(meetingId: Id)
    | ExternalBegins(meetingId: Id)
    | ExternalEnds(meetingId: Id)
    | CompletionBegins(meetingId: Id, documentId: Id, user: Id, id: Id)
    | Drains(documentId: Id, barrierId: Id, participant: Id)
    | ReadEnds(documentId: Id, barrierId: Id, sequence: nat)
    | ReadErrs(documentId: Id, barrierId: Id)
    | Confirms(documentId: Id, barrierId: Id, participant: Id, sequence: nat)
    | Submitting(meetingId: Id, barrierId: Id, user: Id, sequence: nat)
    | Cancelling(meetingId: Id, barrierId: Id, user: Id)
    | Firing(documentId: Id)

  /** What only completions know. */
  predicate OfCompletion(event: Event) {
    event.CompletionBegins? || event.Drains? || event.ReadEnds? || event.ReadErrs? || event.Confirms? || event.Submitting?
    || event.Cancelling?
  }

  /** The coordinator with the writes of each meeting that have begun and not ended. */
  datatype World = World(state: State, writing: multiset<Id>, external: multiset<Id>)

  /** The one meeting of each document. */
  type Homes = map<Id, Id>

  predicate Injective(homes: Homes) {
    forall left, right | left in homes && right in homes && homes[left] == homes[right] :: left == right
  }

  predicate FreshBarrier(state: State, id: Id) {
    && (forall d | d in state.barriers :: state.barriers[d].id != id)
    && (forall i | 0 <= i < |state.released| :: state.released[i].barrierId != id)
  }

  /** Ids are fresh, callers know the meeting of their document, and what ends has begun. */
  predicate Legal(homes: Homes, world: World, event: Event) {
    match event
    case Opening(meetingId, documentId, _, _, _, id) =>
      documentId in homes && homes[documentId] == meetingId && FreshBarrier(world.state, id)
    case CompletionBegins(meetingId, documentId, _, id) =>
      documentId in homes && homes[documentId] == meetingId && FreshBarrier(world.state, id)
    case Writing(documentId, _) => documentId in homes
    case WriteEnds(meetingId) => meetingId in world.writing
    case ExternalEnds(meetingId) => meetingId in world.external
    case ReadEnds(documentId, barrierId, _) => (documentId, barrierId) in world.state.reading
    case ReadErrs(documentId, barrierId) => (documentId, barrierId) in world.state.reading
    case _ => true
  }

  /** A frame with an update: the barrier is prepared and the write begins without a pause in between. */
  ghost function WriteStep(homes: Homes, world: World, documentId: Id, participant: Id): World
    requires documentId in homes
  {
    var (prepared, ready) := PrepareUpdate(world.state, documentId, participant);
    if !ready then world.(state := prepared)
    else
      var (begun, accepted) := BeginCollaboration(prepared, homes[documentId]);
      World(begun, if accepted then world.writing + multiset{homes[documentId]} else world.writing, world.external)
  }

  ghost function Step(homes: Homes, world: World, event: Event): World
    requires Legal(homes, world, event)
  {
    var s := world.state;
    match event
    case Opening(m, d, connection, user, participants, id) =>
      world.(state := Open(s, m, d, Some(connection), user, participants, id).0)
    case Joining(d, participant) => world.(state := Join(s, d, participant).0)
    case Acknowledging(d, id, participant) => world.(state := Acknowledge(s, d, id, participant).0)
    case Readying(d, id, sequence) => world.(state := MakeReady(s, d, id, sequence).0)
    case Claiming(m, id, user) => world.(state := Claim(s, m, id, user).0)
    case Completing(m, id) => world.(state := Complete(s, m, id))
    case Failing(m, id) => world.(state := Fail(s, m, id))
    case Aborting(d, id) => world.(state := Abort(s, d, id))
    case AbortingMeeting(m) => world.(state := AbortMeeting(s, m))
    case Disconnecting(d, participant) => world.(state := Disconnect(s, d, participant))
    case Preparing(d, participant) => world.(state := PrepareUpdate(s, d, participant).0)
    case Writing(d, participant) => WriteStep(homes, world, d, participant)
    case WriteEnds(m) => World(EndCollaboration(s, m), world.writing - multiset{m}, world.external)
    case ExternalBegins(m) =>
      var (begun, accepted) := BeginExternal(s, m);
      World(begun, world.writing, if accepted then world.external + multiset{m} else world.external)
    case ExternalEnds(m) => World(EndExternal(s, m), world.writing, world.external - multiset{m})
    case CompletionBegins(m, d, user, id) => world.(state := BeginCompletion(s, m, d, user, id).0)
    case Drains(d, id, participant) => world.(state := CompletionDrained(s, d, id, participant))
    case ReadEnds(d, id, sequence) => world.(state := ReadResolves(s, d, id, sequence))
    case ReadErrs(d, id) => world.(state := ReadFails(s, d, id))
    case Confirms(d, id, participant, sequence) => world.(state := ConfirmCompletion(s, d, id, participant, sequence))
    case Submitting(m, id, user, sequence) => world.(state := ClaimSubmission(s, m, id, user, sequence).0)
    case Cancelling(m, id, user) => world.(state := CancelCompletion(s, m, id, user))
    case Firing(d) => world.(state := TimerFires(s, d))
  }

  // ---------- the phases of a barrier ----------

  /** Who has drained and confirmed in each phase, when a sequence is known, and which timeout is pending. */
  predicate BarrierIsSound(barrier: Barrier) {
    && barrier.drained <= barrier.participants && barrier.confirmed <= barrier.participants
    && (barrier.phase.Draining? ==> barrier.serverSequence.None?)
    && (barrier.serverSequence.None? ==> barrier.confirmed == {})
    && (barrier.phase.Confirming? || barrier.phase.Ready? || barrier.phase.Finalizing? ==>
        barrier.drained == barrier.participants)
    && (barrier.phase.Confirming? || barrier.phase.Finalizing? ==> barrier.intention.Completion?)
    && (barrier.intention.Completion? && IsLocked(barrier) ==>
          barrier.drained == barrier.confirmed == barrier.participants && barrier.serverSequence.Some?)
    && (barrier.phase.Ready? || barrier.phase.Committing? ==> barrier.serverSequence.Some?)
    && (barrier.intention.Compaction? ==> barrier.confirmed == {} && !barrier.cancelled)
    && (barrier.cancelled ==> barrier.phase.Committing?)
    && barrier.timer == (if barrier.phase.Finalizing? then FailTimer
                         else if !barrier.phase.Committing? then AbortTimer
                         else if barrier.intention.Completion? then FailTimer else NoTimer)
  }

  /** Barrier ids are used once, and a released barrier does not come back. */
  ghost predicate Identified(homes: Homes, state: State) {
    && (forall d | d in state.barriers :: d in homes && state.barriers[d].meetingId == homes[d])
    && (forall left, right | left in state.barriers && right in state.barriers && left != right ::
          state.barriers[left].id != state.barriers[right].id)
    && (forall d, i | d in state.barriers && 0 <= i < |state.released| ::
          state.barriers[d].id != state.released[i].barrierId)
    && (forall i, j | 0 <= i < j < |state.released| :: state.released[i].barrierId != state.released[j].barrierId)
  }

  ghost predicate Sound(homes: Homes, state: State) {
    && Injective(homes) && Identified(homes, state)
    && (forall d | d in state.barriers ::
          BarrierIsSound(state.barriers[d]) && Count(state.externalWriters, state.barriers[d].meetingId) == 0)
  }

  /** Subset and size give equality, as the coordinator's comparison of sizes intends. */
  lemma SameSize(small: set<Id>, large: set<Id>)
    requires small <= large
    ensures |small| == |large| <==> small == large
  {
    assert large == small + (large - small);
  }

  lemma ReplacedIsSound(homes: Homes, state: State, documentId: Id, barrier: Barrier)
    requires Sound(homes, state) && documentId in state.barriers && BarrierIsSound(barrier)
    requires barrier.id == state.barriers[documentId].id && barrier.meetingId == state.barriers[documentId].meetingId
    ensures Sound(homes, Replaced(state, documentId, barrier))
  {
  }

  lemma ReleasedIsSound(homes: Homes, state: State, documentId: Id, outcome: ReleaseOutcome)
    requires Sound(homes, state) && documentId in state.barriers
    ensures Sound(homes, Released(state, documentId, outcome))
  {
    hide BarrierIsSound;
  }

  lemma OpenedIsSound(homes: Homes, state: State, documentId: Id, barrier: Barrier)
    requires Sound(homes, state) && documentId !in state.barriers && BarrierIsSound(barrier)
    requires documentId in homes && barrier.meetingId == homes[documentId] && FreshBarrier(state, barrier.id)
    requires Count(state.externalWriters, barrier.meetingId) == 0
    ensures Sound(homes, Replaced(state, documentId, barrier))
  {
  }

  /** Connections, pending reads and collaboration writers do not concern the barriers. */
  lemma SameBarriersAreSound(homes: Homes, state: State, after: State)
    requires Sound(homes, state) && after.barriers == state.barriers && after.released == state.released
    requires forall d | d in state.barriers ::
               Count(after.externalWriters, state.barriers[d].meetingId) == Count(state.externalWriters,
                                                                                  state.barriers[d].meetingId)
    ensures Sound(homes, after)
  {
    hide BarrierIsSound;
  }

  lemma AbortIsSound(homes: Homes, state: State, documentId: Id, barrierId: Option<Id>)
    requires Sound(homes, state)
    ensures Sound(homes, Abort(state, documentId, barrierId))
  {
    if documentId in state.barriers && (barrierId.Some? ==> state.barriers[documentId].id == barrierId.value) {
      var barrier := state.barriers[documentId];
      assert BarrierIsSound(barrier);
      hide Sound;
      if barrier.phase.Committing? {
        if barrier.intention.Completion? {
          ReplacedIsSound(homes, state, documentId, barrier.(cancelled := true));
        }
      } else {
        ReleasedIsSound(homes, state, documentId, Aborted);
      }
    }
  }

  lemma JoinIsSound(homes: Homes, state: State, documentId: Id, participant: Id)
    requires Sound(homes, state)
    ensures Sound(homes, Join(state, documentId, participant).0)
  {
    var joined := Joined(state, documentId, participant);
    SameBarriersAreSound(homes, state, joined);
    if documentId in state.barriers {
      var barrier := state.barriers[documentId];
      assert BarrierIsSound(barrier);
      hide Sound;
      if !(barrier.intention.Completion? && IsLocked(barrier)) {
        ReplacedIsSound(homes, joined, documentId, WithParticipant(barrier, participant));
      }
    }
  }

  lemma AcknowledgeIsSound(homes: Homes, state: State, documentId: Id, barrierId: Id, participant: Id)
    requires Sound(homes, state)
    ensures Sound(homes, Acknowledge(state, documentId, barrierId, participant).0)
  {
    if documentId in state.barriers {
      var barrier := state.barriers[documentId];
      assert BarrierIsSound(barrier);
      hide Sound;
      if participant in barrier.participants && barrier.phase.Draining? {
        ReplacedIsSound(homes, state, documentId, barrier.(drained := barrier.drained + {participant}));
      }
    }
  }

  lemma MakeReadyIsSound(homes: Homes, state: State, documentId: Id, barrierId: Id, sequence: nat)
    requires Sound(homes, state)
    ensures Sound(homes, MakeReady(state, documentId, barrierId, sequence).0)
  {
    if documentId in state.barriers {
      var barrier := state.barriers[documentId];
      assert BarrierIsSound(barrier);
      hide Sound;
      SameSize(barrier.drained, barrier.participants);
      if barrier.phase.Draining? && barrier.drained == barrier.participants {
        ReplacedIsSound(homes, state, documentId, barrier.(phase := Ready, serverSequence := Some(sequence)));
      }
    }
  }

  lemma StartReadIsSound(homes: Homes, state: State, documentId: Id)
    requires Sound(homes, state) && documentId in state.barriers
    ensures Sound(homes, StartRead(state, documentId))
  {
    var barrier := state.barriers[documentId];
    assert BarrierIsSound(barrier);
    hide Sound;
    SameSize(barrier.drained, barrier.participants);
    if barrier.intention.Completion? && barrier.phase.Draining? && barrier.drained == barrier.participants {
      var confirming := Replaced(state, documentId, barrier.(phase := Confirming));
      ReplacedIsSound(homes, state, documentId, barrier.(phase := Confirming));
      SameBarriersAreSound(homes, confirming, StartRead(state, documentId));
    }
  }

  lemma ClaimCompletionIsSound(homes: Homes, state: State, documentId: Id)
    requires Sound(homes, state) && documentId in state.barriers
    ensures Sound(homes, ClaimCompletion(state, documentId))
  {
    var barrier := state.barriers[documentId];
    assert BarrierIsSound(barrier);
    hide Sound;
    SameSize(barrier.confirmed, barrier.participants);
    if ClaimCompletion(state, documentId) != state {
      ReplacedIsSound(homes, state, documentId, barrier.(phase := Finalizing, timer := FailTimer));
    }
  }

  lemma OpenIsSound(homes: Homes, state: State, meetingId: Id, documentId: Id, compactor: Option<Id>, user: Id,
                    participants: set<Id>, id: Id)
    requires Sound(homes, state) && documentId in homes && homes[documentId] == meetingId && FreshBarrier(state, id)
    ensures Sound(homes, Open(state, meetingId, documentId, compactor, user, participants, id).0)
  {
    hide Sound;
    if Count(state.externalWriters, meetingId) == 0 && documentId !in state.barriers {
      OpenedIsSound(homes, state, documentId, Barrier(Compaction, false, id, meetingId, compactor, user, participants,
                                                      {}, {}, Draining, None, AbortTimer));
    }
  }

  function NewCompletion(state: State, meetingId: Id, documentId: Id, user: Id, id: Id): Barrier {
    Barrier(Completion, false, id, meetingId, None, user, ConnectionsOf(state, documentId), {}, {}, Draining, None,
            AbortTimer)
  }

  lemma BegunCompletion(state: State, meetingId: Id, documentId: Id, user: Id, id: Id)
    requires documentId !in state.barriers && Count(state.externalWriters, meetingId) == 0
    ensures BeginCompletion(state, meetingId, documentId, user, id).0 ==
            StartRead(Replaced(state, documentId, NewCompletion(state, meetingId, documentId, user, id)), documentId)
  {
    hide StartRead;
    var begun := Open(state, meetingId, documentId, None, user, ConnectionsOf(state, documentId), id).0;
    var barrier := NewCompletion(state, meetingId, documentId, user, id);
    assert Replaced(begun, documentId, barrier) == Replaced(state, documentId, barrier);
  }

  lemma BeginCompletionIsSound(homes: Homes, state: State, meetingId: Id, documentId: Id, user: Id, id: Id)
    requires Sound(homes, state) && documentId in homes && homes[documentId] == meetingId && FreshBarrier(state, id)
    ensures Sound(homes, BeginCompletion(state, meetingId, documentId, user, id).0)
  {
    hide Sound;
    if documentId !in state.barriers && Count(state.externalWriters, meetingId) == 0 {
      var barrier := Barrier(Compaction, false, id, meetingId, None, user, ConnectionsOf(state, documentId),
                             {}, {}, Draining, None, AbortTimer);
      var begun := Replaced(state, documentId, barrier);
      OpenedIsSound(homes, state, documentId, barrier);
      ReplacedIsSound(homes, begun, documentId, barrier.(intention := Completion));
      StartReadIsSound(homes, Replaced(begun, documentId, barrier.(intention := Completion)), documentId);
    }
  }

  lemma CompletionDrainedIsSound(homes: Homes, state: State, documentId: Id, barrierId: Id, participant: Id)
    requires Sound(homes, state)
    ensures Sound(homes, CompletionDrained(state, documentId, barrierId, participant))
  {
    hide Sound, StartRead;
    AcknowledgeIsSound(homes, state, documentId, barrierId, participant);
    var (drained, all) := Acknowledge(state, documentId, barrierId, participant);
    if all {
      StartReadIsSound(homes, drained, documentId);
    }
  }

  lemma ReadResolvesIsSound(homes: Homes, state: State, documentId: Id, barrierId: Id, sequence: nat)
    requires Sound(homes, state)
    ensures Sound(homes, ReadResolves(state, documentId, barrierId, sequence))
  {
    var ended := state.(reading := state.reading - multiset{(documentId, barrierId)});
    SameBarriersAreSound(homes, state, ended);
    if documentId in state.barriers {
      var barrier := state.barriers[documentId];
      assert BarrierIsSound(barrier);
      hide Sound, Abort, ClaimCompletion;
      AbortIsSound(homes, ended, documentId, Some(barrierId));
      if barrier.phase.Confirming? {
        ReplacedIsSound(homes, ended, documentId, barrier.(serverSequence := Some(sequence)));
        ClaimCompletionIsSound(homes, Replaced(ended, documentId, barrier.(serverSequence := Some(sequence))),
                               documentId);
      }
    }
  }

  lemma ConfirmIsSound(homes: Homes, state: State, documentId: Id, barrierId: Id, participant: Id, sequence: nat)
    requires Sound(homes, state)
    ensures Sound(homes, ConfirmCompletion(state, documentId, barrierId, participant, sequence))
  {
    if documentId in state.barriers {
      var barrier := state.barriers[documentId];
      assert BarrierIsSound(barrier);
      hide Sound, ClaimCompletion;
      if barrier.intention.Completion? && barrier.phase.Confirming? && barrier.serverSequence == Some(sequence)
         && participant in barrier.participants {
        var confirmed := barrier.(confirmed := barrier.confirmed + {participant});
        ReplacedIsSound(homes, state, documentId, confirmed);
        ClaimCompletionIsSound(homes, Replaced(state, documentId, confirmed), documentId);
      }
    }
  }

  lemma PrepareIsSound(homes: Homes, state: State, documentId: Id, participant: Id)
    requires Sound(homes, state)
    ensures Sound(homes, PrepareUpdate(state, documentId, participant).0)
  {
    hide Sound;
    if documentId in state.barriers {
      ReleasedIsSound(homes, state, documentId, Aborted);
    }
  }

  lemma BeginExternalIsSound(homes: Homes, state: State, meetingId: Id)
    requires Sound(homes, state)
    ensures Sound(homes, BeginExternal(state, meetingId).0)
    ensures BeginExternal(state, meetingId).1 ==>
              forall d | d in BeginExternal(state, meetingId).0.barriers ::
                  BeginExternal(state, meetingId).0.barriers[d].meetingId != meetingId
  {
    var found := OfMeeting(state.barriers, meetingId);
    if BeginExternal(state, meetingId).1 {
      var free := if found.Some? then Released(state, found.value, Aborted) else state;
      if found.Some? {
        ReleasedIsSound(homes, state, found.value, Aborted);
      }
      assert forall d | d in free.barriers :: free.barriers[d].meetingId != meetingId;
      SameBarriersAreSound(homes, free, BeginExternal(state, meetingId).0);
    }
  }

  lemma FoundIsSound(homes: Homes, state: State, documentId: Id)
    requires Sound(homes, state) && documentId in state.barriers
    ensures BarrierIsSound(state.barriers[documentId])
  {
  }

  lemma ClaimIsSound(homes: Homes, state: State, meetingId: Id, barrierId: Id, user: Id)
    requires Sound(homes, state)
    ensures Sound(homes, Claim(state, meetingId, barrierId, user).0)
  {
    hide Sound;
    var found := WithId(state.barriers, barrierId);
    if Claim(state, meetingId, barrierId, user).1.Some? {
      FoundIsSound(homes, state, found.value);
      ReplacedIsSound(homes, state, found.value, state.barriers[found.value].(phase := Committing, timer := NoTimer));
    }
  }

  lemma SubmissionIsSound(homes: Homes, state: State, meetingId: Id, barrierId: Id, user: Id, sequence: nat)
    requires Sound(homes, state)
    ensures Sound(homes, ClaimSubmission(state, meetingId, barrierId, user, sequence).0)
  {
    hide Sound;
    var found := WithId(state.barriers, barrierId);
    if ClaimSubmission(state, meetingId, barrierId, user, sequence).1.Some? {
      FoundIsSound(homes, state, found.value);
      ReplacedIsSound(homes, state, found.value, state.barriers[found.value].(phase := Committing));
    }
  }

  lemma EndIsSound(homes: Homes, state: State, meetingId: Id, barrierId: Id)
    requires Sound(homes, state)
    ensures Sound(homes, Complete(state, meetingId, barrierId)) && Sound(homes, Fail(state, meetingId, barrierId))
  {
    hide Sound;
    var found := WithId(state.barriers, barrierId);
    if found.Some? {
      ReleasedIsSound(homes, state, found.value, Aborted);
      ReleasedIsSound(homes, state, found.value,
                      if state.barriers[found.value].intention.Completion? then Completed else Compacted);
    }
  }

  lemma AbortMeetingIsSound(homes: Homes, state: State, meetingId: Id)
    requires Sound(homes, state)
    ensures Sound(homes, AbortMeeting(state, meetingId))
  {
    hide Sound;
    var found := OfMeeting(state.barriers, meetingId);
    if found.Some? {
      ReleasedIsSound(homes, state, found.value, Aborted);
    }
  }

  lemma DisconnectIsSound(homes: Homes, state: State, documentId: Id, participant: Id)
    requires Sound(homes, state)
    ensures Sound(homes, Disconnect(state, documentId, participant))
  {
    var left := Left(state, documentId, participant);
    SameBarriersAreSound(homes, state, left);
    hide Sound, Abort;
    if documentId in state.barriers {
      AbortIsSound(homes, left, documentId, Some(state.barriers[documentId].id));
    }
  }

  lemma WriteIsSound(homes: Homes, world: World, documentId: Id, participant: Id)
    requires Sound(homes, world.state) && documentId in homes
    ensures Sound(homes, WriteStep(homes, world, documentId, participant).state)
  {
    PrepareIsSound(homes, world.state, documentId, participant);
    var prepared := PrepareUpdate(world.state, documentId, participant).0;
    SameBarriersAreSound(homes, prepared, BeginCollaboration(prepared, homes[documentId]).0);
    hide Sound;
  }

  lemma TimerIsSound(homes: Homes, state: State, documentId: Id)
    requires Sound(homes, state)
    ensures Sound(homes, TimerFires(state, documentId))
  {
    hide Sound, Abort, Fail;
    if documentId in state.barriers {
      AbortIsSound(homes, state, documentId, Some(state.barriers[documentId].id));
      EndIsSound(homes, state, state.barriers[documentId].meetingId, state.barriers[documentId].id);
    }
  }

  lemma EndExternalIsSound(homes: Homes, state: State, meetingId: Id)
    requires Sound(homes, state) && Count(state.externalWriters, meetingId) > 0
    ensures Sound(homes, EndExternal(state, meetingId))
  {
    SameBarriersAreSound(homes, state, EndExternal(state, meetingId));
  }
}
