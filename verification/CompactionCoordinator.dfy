/** The coordinator object: every public method, the firing of a timeout and the end of a sequence read
    change its fields in place (backend/src/meetings/meeting-compaction-coordinator.ts). */
module CompactionCoordinator {
  import opened Options
  import opened Spec = CompactionBarriers
  import opened BarrierRuns

  /** Ids and meetings tell barriers apart. */
  ghost predicate UniqueBarriers(barriers: map<Id, Barrier>) {
    forall left, right | left in barriers && right in barriers && left != right ::
      barriers[left].id != barriers[right].id && barriers[left].meetingId != barriers[right].meetingId
  }

  lemma SoundIsUnique(homes: Homes, state: State)
    requires Sound(homes, state)
    ensures UniqueBarriers(state.barriers)
  {
    hide BarrierIsSound;
  }

  predicate OfWriter(event: Event) {
    event.Preparing? || event.Writing? || event.WriteEnds? || event.ExternalBegins? || event.ExternalEnds?
  }

  class MeetingCompactionCoordinator {
    var barriers: map<Id, Barrier>
    var connections: map<Id, set<Id>>
    var collaborationWriters: map<Id, nat>
    var externalWriters: map<Id, nat>
    var reading: multiset<(Id, Id)>
    var released: seq<Release>

    ghost function View(): State
      reads this
    {
      State(barriers, connections, collaborationWriters, externalWriters, reading, released)
    }

    constructor ()
      ensures View() == State(map[], map[], map[], map[], multiset{}, [])
    {
      barriers, connections, collaborationWriters, externalWriters := map[], map[], map[], map[];
      reading, released := multiset{}, [];
    }

    method FindBarrier(barrierId: Id) returns (found: Option<Id>)
      requires UniqueBarriers(barriers)
      ensures found == WithId(barriers, barrierId)
    {
      var rest := barriers.Keys;
      while rest != {}
        invariant rest <= barriers.Keys
        invariant forall d | d in barriers.Keys - rest :: barriers[d].id != barrierId
        decreases |rest|
      {
        var documentId :| documentId in rest;
        if barriers[documentId].id == barrierId {
          return Some(documentId);
        }
        rest := rest - {documentId};
      }
      return None;
    }

    method FindOfMeeting(meetingId: Id) returns (found: Option<Id>)
      requires UniqueBarriers(barriers)
      ensures found == OfMeeting(barriers, meetingId)
    {
      var rest := barriers.Keys;
      while rest != {}
        invariant rest <= barriers.Keys
        invariant forall d | d in barriers.Keys - rest :: barriers[d].meetingId != meetingId
        decreases |rest|
      {
        var documentId :| documentId in rest;
        if barriers[documentId].meetingId == meetingId {
          return Some(documentId);
        }
        rest := rest - {documentId};
      }
      return None;
    }

    method ReleaseBarrier(documentId: Id, outcome: ReleaseOutcome)
      requires documentId in barriers
      modifies this`barriers, this`released
      ensures View() == Released(old(View()), documentId, outcome)
    {
      var barrier := barriers[documentId];
      barriers := barriers - {documentId};
      released := released + [Release(barrier.id, barrier.intention, barrier.participants, outcome)];
    }

    method Open(meetingId: Id, documentId: Id, compactor: Option<Id>, user: Id, participants: set<Id>, id: Id)
      returns (info: Option<BarrierInfo>)
      modifies this`barriers
      ensures (View(), info) == Spec.Open(old(View()), meetingId, documentId, compactor, user, participants, id)
    {
      if meetingId in externalWriters && externalWriters[meetingId] > 0 {
        return None;
      }
      if documentId in barriers {
        return Some(Info(barriers[documentId]));
      }
      var barrier := Barrier(Compaction, false, id, meetingId, compactor, user, participants, {}, {}, Draining, None,
                             AbortTimer);
      barriers := barriers[documentId := barrier];
      return Some(Info(barrier));
    }

    method Join(documentId: Id, participant: Id) returns (info: Option<BarrierInfo>)
      modifies this`barriers, this`connections
      ensures (View(), info) == Spec.Join(old(View()), documentId, participant)
    {
      var joined: set<Id> := if documentId in connections then connections[documentId] else {};
      connections := connections[documentId := joined + {participant}];
      if documentId !in barriers {
        return None;
      }
      var barrier := barriers[documentId];
      info := Some(BarrierInfo(barrier.intention, barrier.id, {participant}));
      if barrier.intention == Completion && (barrier.phase == Committing || barrier.phase == Finalizing) {
        return;
      }
      barrier := barrier.(participants := barrier.participants + {participant}, confirmed := {});
      if barrier.phase != Committing {
        barrier := barrier.(phase := Draining, serverSequence := None);
      }
      barriers := barriers[documentId := barrier];
    }

    method Acknowledge(documentId: Id, barrierId: Id, participant: Id) returns (all: bool)
      modifies this`barriers
      ensures (View(), all) == Spec.Acknowledge(old(View()), documentId, barrierId, participant)
    {
      if documentId !in barriers || barriers[documentId].id != barrierId
         || participant !in barriers[documentId].participants || barriers[documentId].phase != Draining {
        return false;
      }
      var barrier := barriers[documentId].(drained := barriers[documentId].drained + {participant});
      barriers := barriers[documentId := barrier];
      return |barrier.drained| == |barrier.participants|;
    }

    method MarkReady(documentId: Id, barrierId: Id, serverSequence: nat) returns (ready: bool)
      modifies this`barriers
      ensures (View(), ready) == MakeReady(old(View()), documentId, barrierId, serverSequence)
    {
      if documentId !in barriers || barriers[documentId].id != barrierId || barriers[documentId].phase != Draining
         || |barriers[documentId].drained| != |barriers[documentId].participants| {
        return false;
      }
      barriers := barriers[documentId := barriers[documentId].(phase := Ready, serverSequence := Some(serverSequence))];
      return true;
    }

    method Claim(meetingId: Id, barrierId: Id, user: Id) returns (sequence: Option<nat>)
      requires UniqueBarriers(barriers)
      modifies this`barriers
      ensures (View(), sequence) == Spec.Claim(old(View()), meetingId, barrierId, user)
    {
      var found := FindBarrier(barrierId);
      if found.None? {
        return None;
      }
      var barrier := barriers[found.value];
      if barrier.meetingId != meetingId || barrier.compactorUser != user || barrier.intention != Compaction
         || barrier.phase != Ready || barrier.serverSequence.None? {
        return None;
      }
      barriers := barriers[found.value := barrier.(phase := Committing, timer := NoTimer)];
      return barrier.serverSequence;
    }

    method AssertClaim(meetingId: Id, barrierId: Id) returns (holds: bool)
      requires UniqueBarriers(barriers)
      ensures holds == ClaimHolds(View(), meetingId, barrierId)
    {
      var found := FindBarrier(barrierId);
      return found.Some? && barriers[found.value].meetingId == meetingId
        && barriers[found.value].phase == Committing && !barriers[found.value].cancelled;
    }

    method Complete(meetingId: Id, barrierId: Id)
      requires UniqueBarriers(barriers)
      modifies this`barriers, this`released
      ensures View() == Spec.Complete(old(View()), meetingId, barrierId)
    {
      var found := FindBarrier(barrierId);
      if found.Some? && barriers[found.value].meetingId == meetingId {
        ReleaseBarrier(found.value, if barriers[found.value].intention == Completion then Completed else Compacted);
      }
    }

    method Fail(meetingId: Id, barrierId: Id)
      requires UniqueBarriers(barriers)
      modifies this`barriers, this`released
      ensures View() == Spec.Fail(old(View()), meetingId, barrierId)
    {
      var found := FindBarrier(barrierId);
      if found.Some? && barriers[found.value].meetingId == meetingId {
        ReleaseBarrier(found.value, Aborted);
      }
    }

    method Abort(documentId: Id, barrierId: Option<Id>)
      modifies this`barriers, this`released
      ensures View() == Spec.Abort(old(View()), documentId, barrierId)
    {
      if documentId !in barriers || (barrierId.Some? && barriers[documentId].id != barrierId.value) {
        return;
      }
      if barriers[documentId].phase == Committing {
        if barriers[documentId].intention == Completion {
          barriers := barriers[documentId := barriers[documentId].(cancelled := true)];
        }
        return;
      }
      ReleaseBarrier(documentId, Aborted);
    }

    method AbortMeeting(meetingId: Id)
      requires UniqueBarriers(barriers)
      modifies this`barriers, this`released
      ensures View() == Spec.AbortMeeting(old(View()), meetingId)
    {
      var found := FindOfMeeting(meetingId);
      if found.Some? && barriers[found.value].phase != Committing {
        ReleaseBarrier(found.value, Aborted);
      }
    }

    method Disconnected(documentId: Id, participant: Id)
      modifies this`barriers, this`connections, this`released
      ensures View() == Disconnect(old(View()), documentId, participant)
    {
      if documentId in connections {
        connections := connections[documentId := connections[documentId] - {participant}];
        if connections[documentId] == {} {
          connections := connections - {documentId};
        }
      }
      assert View() == Left(old(View()), documentId, participant);
      if documentId in barriers && participant in barriers[documentId].participants {
        Abort(documentId, Some(barriers[documentId].id));
      }
    }

    method PrepareUpdate(documentId: Id, participant: Id) returns (ready: bool)
      modifies this`barriers, this`released
      ensures (View(), ready) == Spec.PrepareUpdate(old(View()), documentId, participant)
    {
      if documentId !in barriers {
        return true;
      }
      if barriers[documentId].phase == Committing || barriers[documentId].phase == Finalizing {
        return false;
      }
      if participant in barriers[documentId].drained {
        ReleaseBarrier(documentId, Aborted);
      }
      return true;
    }

    method BeginExternalUpdate(meetingId: Id) returns (begun: bool)
      requires UniqueBarriers(barriers)
      modifies this`barriers, this`released, this`externalWriters
      ensures (View(), begun) == BeginExternal(old(View()), meetingId)
    {
      var found := FindOfMeeting(meetingId);
      if found.Some? {
        if barriers[found.value].phase == Committing || barriers[found.value].phase == Finalizing {
          return false;
        }
        ReleaseBarrier(found.value, Aborted);
      }
      externalWriters := externalWriters[meetingId := (if meetingId in externalWriters then externalWriters[meetingId]
                                                       else 0) + 1];
      return true;
    }

    method EndExternalUpdate(meetingId: Id)
      modifies this`externalWriters
      ensures View() == EndExternal(old(View()), meetingId)
    {
      var writers := if meetingId in externalWriters then externalWriters[meetingId] else 0;
      if writers <= 1 {
        externalWriters := externalWriters - {meetingId};
      } else {
        externalWriters := externalWriters[meetingId := writers - 1];
      }
    }

    method BeginCollaborationUpdate(meetingId: Id) returns (begun: bool)
      requires UniqueBarriers(barriers)
      modifies this`collaborationWriters
      ensures (View(), begun) == BeginCollaboration(old(View()), meetingId)
    {
      var found := FindOfMeeting(meetingId);
      if found.Some? && (barriers[found.value].phase == Committing || barriers[found.value].phase == Finalizing) {
        return false;
      }
      collaborationWriters :=
        collaborationWriters[meetingId := (if meetingId in collaborationWriters then collaborationWriters[meetingId]
                                           else 0) + 1];
      return true;
    }

    method EndCollaborationUpdate(meetingId: Id)
      modifies this`collaborationWriters
      ensures View() == EndCollaboration(old(View()), meetingId)
    {
      var writers := if meetingId in collaborationWriters then collaborationWriters[meetingId] else 0;
      if writers <= 1 {
        collaborationWriters := collaborationWriters - {meetingId};
      } else {
        collaborationWriters := collaborationWriters[meetingId := writers - 1];
      }
    }

    method BeginCompletion(meetingId: Id, documentId: Id, user: Id, id: Id) returns (begun: bool)
      modifies this`barriers, this`reading
      ensures (View(), begun) == Spec.BeginCompletion(old(View()), meetingId, documentId, user, id)
    {
      if documentId in barriers || (meetingId in externalWriters && externalWriters[meetingId] > 0) {
        return false;
      }
      var participants: set<Id> := if documentId in connections then connections[documentId] else {};
      var _ := Open(meetingId, documentId, None, user, participants, id);
      barriers := barriers[documentId := barriers[documentId].(intention := Completion)];
      StartCapture(documentId);
      return true;
    }

    /** The part of captureCompletionSequence before the read. */
    method StartCapture(documentId: Id)
      requires documentId in barriers
      modifies this`barriers, this`reading
      ensures View() == StartRead(old(View()), documentId)
    {
      var barrier := barriers[documentId];
      if barrier.intention != Completion || barrier.phase != Draining || |barrier.drained| != |barrier.participants| {
        return;
      }
      barriers := barriers[documentId := barrier.(phase := Confirming)];
      reading := reading + multiset{(documentId, barrier.id)};
    }

    /** The part after the read; None stands for a read that failed. */
    method FinishCapture(documentId: Id, barrierId: Id, sequence: Option<nat>)
      modifies this`barriers, this`reading, this`released
      ensures View() == if sequence.None? then ReadFails(old(View()), documentId, barrierId)
                        else ReadResolves(old(View()), documentId, barrierId, sequence.value)
    {
      hide Spec.Abort, ClaimCompletion;
      reading := reading - multiset{(documentId, barrierId)};
      assert View() == old(View()).(reading := reading);
      if sequence.None? {
        Abort(documentId, Some(barrierId));
        return;
      }
      if documentId !in barriers || barriers[documentId].id != barrierId || barriers[documentId].phase != Confirming {
        return;
      }
      var meetingId := barriers[documentId].meetingId;
      if meetingId in collaborationWriters && collaborationWriters[meetingId] > 0 {
        Abort(documentId, Some(barrierId));
        return;
      }
      barriers := barriers[documentId := barriers[documentId].(serverSequence := sequence)];
      ClaimWhenConfirmed(documentId);
    }

    method ClaimWhenConfirmed(documentId: Id)
      requires documentId in barriers
      modifies this`barriers
      ensures View() == ClaimCompletion(old(View()), documentId)
    {
      var barrier := barriers[documentId];
      if barrier.intention != Completion || barrier.phase != Confirming || barrier.serverSequence.None?
         || |barrier.confirmed| != |barrier.participants| {
        return;
      }
      barriers := barriers[documentId := barrier.(phase := Finalizing, timer := FailTimer)];
    }

    method CompletionDrained(documentId: Id, barrierId: Id, participant: Id)
      modifies this`barriers, this`reading
      ensures View() == Spec.CompletionDrained(old(View()), documentId, barrierId, participant)
    {
      if documentId !in barriers || barriers[documentId].intention != Completion {
        return;
      }
      var all := Acknowledge(documentId, barrierId, participant);
      if all {
        StartCapture(documentId);
      }
    }

    method ConfirmCompletion(documentId: Id, barrierId: Id, participant: Id, sequence: nat)
      modifies this`barriers
      ensures View() == Spec.ConfirmCompletion(old(View()), documentId, barrierId, participant, sequence)
    {
      if documentId !in barriers || barriers[documentId].intention != Completion || barriers[documentId].id != barrierId
         || barriers[documentId].phase != Confirming || barriers[documentId].serverSequence != Some(sequence)
         || participant !in barriers[documentId].participants {
        return;
      }
      barriers := barriers[documentId := barriers[documentId].(confirmed := barriers[documentId].confirmed + {participant})];
      ClaimWhenConfirmed(documentId);
    }

    method ClaimCompletionSubmission(meetingId: Id, barrierId: Id, user: Id,
                                     sequence: nat) returns (documentId: Option<Id>)
      requires UniqueBarriers(barriers)
      modifies this`barriers
      ensures (View(), documentId) == ClaimSubmission(old(View()), meetingId, barrierId, user, sequence)
    {
      documentId := FindBarrier(barrierId);
      if documentId.None? {
        return;
      }
      var barrier := barriers[documentId.value];
      if barrier.intention != Completion || barrier.phase != Finalizing || barrier.meetingId != meetingId
         || barrier.compactorUser != user || barrier.serverSequence != Some(sequence) {
        return None;
      }
      barriers := barriers[documentId.value := barrier.(phase := Committing)];
    }

    method CancelCompletion(meetingId: Id, barrierId: Id, user: Id)
      requires UniqueBarriers(barriers)
      modifies this`barriers, this`released
      ensures View() == Spec.CancelCompletion(old(View()), meetingId, barrierId, user)
    {
      var found := FindBarrier(barrierId);
      if found.Some? && barriers[found.value].intention == Completion && barriers[found.value].meetingId == meetingId
         && barriers[found.value].compactorUser == user {
        Abort(found.value, Some(barrierId));
      }
    }

    /** The pending timeout of a barrier runs out. */
    method TimeOut(documentId: Id)
      requires UniqueBarriers(barriers)
      modifies this`barriers, this`released
      ensures View() == TimerFires(old(View()), documentId)
    {
      if documentId in barriers {
        var barrier := barriers[documentId];
        match barrier.timer
        case AbortTimer => Abort(documentId, Some(barrier.id));
        case FailTimer => Fail(barrier.meetingId, barrier.id);
        case NoTimer =>
      }
    }

    /** Whatever happens next in a run: the handlers together do exactly its step. */
    method Handle(homes: Homes, ghost world: World, event: Event)
      requires View() == world.state && Sound(homes, world.state) && Legal(homes, world, event)
      modifies this
      ensures View() == Step(homes, world, event).state
    {
      SoundIsUnique(homes, View());
      hide Sound, Spec.Open, Spec.Join, Spec.Acknowledge, MakeReady, Spec.Claim, Spec.Complete, Spec.Fail, Spec.Abort,
        Spec.AbortMeeting, Disconnect, BeginExternal, EndExternal, EndCollaboration, TimerFires, UniqueBarriers,
        WriteStep, Spec.PrepareUpdate;
      if OfCompletion(event) {
        HandleCompletion(homes, world, event);
        return;
      }
      if OfWriter(event) {
        HandleWriter(homes, world, event);
        return;
      }
      match event {
        case Opening(m, d, connection, user, participants, id) =>
          var _ := Open(m, d, Some(connection), user, participants, id);
        case Joining(d, participant) => var _ := Join(d, participant);
        case Acknowledging(d, id, participant) => var _ := Acknowledge(d, id, participant);
        case Readying(d, id, sequence) => var _ := MarkReady(d, id, sequence);
        case Claiming(m, id, user) => var _ := Claim(m, id, user);
        case Completing(m, id) => Complete(m, id);
        case Failing(m, id) => Fail(m, id);
        case Aborting(d, id) => Abort(d, id);
        case AbortingMeeting(m) => AbortMeeting(m);
        case Disconnecting(d, participant) => Disconnected(d, participant);
        case Firing(d) => TimeOut(d);
      }
    }

    method HandleWriter(homes: Homes, ghost world: World, event: Event)
      requires View() == world.state && Sound(homes, world.state) && Legal(homes, world, event)
      requires OfWriter(event)
      modifies this
      ensures View() == Step(homes, world, event).state
    {
      SoundIsUnique(homes, View());
      hide Sound, BeginExternal, EndExternal, EndCollaboration, UniqueBarriers, WriteStep, Spec.PrepareUpdate;
      match event {
        case Preparing(d, participant) => var _ := PrepareUpdate(d, participant);
        case Writing(d, participant) => HandleUpdate(homes, world, d, participant);
        case WriteEnds(m) => EndCollaborationUpdate(m);
        case ExternalBegins(m) => var _ := BeginExternalUpdate(m);
        case ExternalEnds(m) => EndExternalUpdate(m);
      }
    }

    method HandleCompletion(homes: Homes, ghost world: World, event: Event)
      requires View() == world.state && UniqueBarriers(barriers) && Legal(homes, world, event) && OfCompletion(event)
      modifies this
      ensures View() == Step(homes, world, event).state
    {
      hide Spec.BeginCompletion, Spec.CompletionDrained, ReadResolves, ReadFails, Spec.ConfirmCompletion,
        ClaimSubmission, Spec.CancelCompletion, UniqueBarriers, Spec.Open, Spec.Join, Spec.Acknowledge, MakeReady,
        Spec.Claim, Spec.Complete, Spec.Fail, Spec.Abort, Spec.AbortMeeting, Disconnect, BeginExternal, EndExternal,
        EndCollaboration, TimerFires, WriteStep;
      match event {
        case CompletionBegins(m, d, user, id) => var _ := BeginCompletion(m, d, user, id);
        case Drains(d, id, participant) => CompletionDrained(d, id, participant);
        case ReadEnds(d, id, sequence) => FinishCapture(d, id, Some(sequence));
        case ReadErrs(d, id) => FinishCapture(d, id, None);
        case Confirms(d, id, participant, sequence) => ConfirmCompletion(d, id, participant, sequence);
        case Submitting(m, id, user, sequence) => var _ := ClaimCompletionSubmission(m, id, user, sequence);
        case Cancelling(m, id, user) => CancelCompletion(m, id, user);
      }
    }

    /** An update frame prepares the barrier and begins the write without a pause. */
    method HandleUpdate(homes: Homes, ghost world: World, documentId: Id, participant: Id)
      requires View() == world.state && Sound(homes, world.state) && documentId in homes
      modifies this`barriers, this`released, this`collaborationWriters
      ensures View() == WriteStep(homes, world, documentId, participant).state
    {
      PrepareIsSound(homes, world.state, documentId, participant);
      SoundIsUnique(homes, Spec.PrepareUpdate(world.state, documentId, participant).0);
      hide Sound, Spec.PrepareUpdate, BeginCollaboration, UniqueBarriers;
      var ready := PrepareUpdate(documentId, participant);
      if ready {
        var _ := BeginCollaborationUpdate(homes[documentId]);
      }
    }
  }
}
