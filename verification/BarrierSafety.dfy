/** What every reachable state of the compaction coordinator guarantees
    (backend/src/meetings/meeting-compaction-coordinator.ts). */
module BarrierSafety {
  import opened Options
  import opened CompactionBarriers
  import opened BarrierRuns

  // ---------- soundness over runs ----------

  lemma CompletionStepIsSound(homes: Homes, world: World, event: Event)
    requires Sound(homes, world.state) && Legal(homes, world, event) && OfCompletion(event)
    ensures Sound(homes, Step(homes, world, event).state)
  {
    hide Sound, StartRead, ClaimCompletion, BarrierIsSound, BeginCompletion, CompletionDrained, ReadResolves, ReadFails,
      ConfirmCompletion, ClaimSubmission, CancelCompletion;
    var s := world.state;
    match event
    case CompletionBegins(m, d, user, id) => BeginCompletionIsSound(homes, s, m, d, user, id);
    case Drains(d, id, participant) => CompletionDrainedIsSound(homes, s, d, id, participant);
    case ReadEnds(d, id, sequence) => ReadResolvesIsSound(homes, s, d, id, sequence);
    case ReadErrs(d, id) => ReadFailsIsSound(homes, s, d, id);
    case Confirms(d, id, participant, sequence) => ConfirmIsSound(homes, s, d, id, participant, sequence);
    case Submitting(m, id, user, sequence) => SubmissionIsSound(homes, s, m, id, user, sequence);
    case Cancelling(m, id, user) => CancelIsSound(homes, s, m, id, user);
  }

  lemma StepIsSound(homes: Homes, world: World, event: Event)
    requires Sound(homes, world.state) && WritersAreCounted(world) && Legal(homes, world, event)
    ensures Sound(homes, Step(homes, world, event).state)
  {
    hide Sound, Abort, TimerFires, WriteStep, BarrierIsSound, Open, Join, Acknowledge, MakeReady, Claim, Complete, Fail,
      AbortMeeting, Disconnect, PrepareUpdate, BeginExternal;
    var s := world.state;
    if OfCompletion(event) {
      CompletionStepIsSound(homes, world, event);
    } else {
      match event {
        case Opening(m, d, connection, user, participants, id) =>
          OpenIsSound(homes, s, m, d, Some(connection), user, participants, id);
        case Joining(d, participant) => JoinIsSound(homes, s, d, participant);
        case Acknowledging(d, id, participant) => AcknowledgeIsSound(homes, s, d, id, participant);
        case Readying(d, id, sequence) => MakeReadyIsSound(homes, s, d, id, sequence);
        case Claiming(m, id, user) => ClaimIsSound(homes, s, m, id, user);
        case Completing(m, id) => EndIsSound(homes, s, m, id);
        case Failing(m, id) => EndIsSound(homes, s, m, id);
        case Aborting(d, id) => AbortIsSound(homes, s, d, id);
        case AbortingMeeting(m) => AbortMeetingIsSound(homes, s, m);
        case Disconnecting(d, participant) => DisconnectIsSound(homes, s, d, participant);
        case Preparing(d, participant) => PrepareIsSound(homes, s, d, participant);
        case Writing(d, participant) => WriteIsSound(homes, world, d, participant);
        case WriteEnds(m) => SameBarriersAreSound(homes, s, EndCollaboration(s, m));
        case ExternalBegins(m) => BeginExternalIsSound(homes, s, m);
        case ExternalEnds(m) => EndExternalIsSound(homes, s, m);
        case Firing(d) => TimerIsSound(homes, s, d);
      }
    }
  }

  lemma ReadFailsIsSound(homes: Homes, state: State, documentId: Id, barrierId: Id)
    requires Sound(homes, state)
    ensures Sound(homes, ReadFails(state, documentId, barrierId))
  {
    var ended := state.(reading := state.reading - multiset{(documentId, barrierId)});
    SameBarriersAreSound(homes, state, ended);
    hide Sound;
    AbortIsSound(homes, ended, documentId, Some(barrierId));
  }

  lemma CancelIsSound(homes: Homes, state: State, meetingId: Id, barrierId: Id, user: Id)
    requires Sound(homes, state)
    ensures Sound(homes, CancelCompletion(state, meetingId, barrierId, user))
  {
    hide Sound, Abort;
    var found := WithId(state.barriers, barrierId);
    if found.Some? {
      AbortIsSound(homes, state, found.value, Some(barrierId));
    }
  }

  // ---------- writers ----------

  /** The counters say how many writes of each meeting have begun and not ended. */
  ghost predicate WritersAreCounted(world: World) {
    forall m: Id ::
      && Count(world.state.externalWriters, m) == world.external[m]
      && Count(world.state.collaborationWriters, m) == world.writing[m]
  }

  /** Only the four writer steps touch the counters. */
  predicate IsWriterEvent(event: Event) {
    event.Writing? || event.WriteEnds? || event.ExternalBegins? || event.ExternalEnds?
  }

  lemma OtherStepsKeepWriters(homes: Homes, world: World, event: Event)
    requires Legal(homes, world, event) && !IsWriterEvent(event)
    ensures SameWriters(world.state, Step(homes, world, event).state)
    ensures Step(homes, world, event) == world.(state := Step(homes, world, event).state)
  {
    hide TimerFires, Abort, Join, Acknowledge, MakeReady, PrepareUpdate, CompletionDrained, ReadResolves, ReadFails,
      ConfirmCompletion, Disconnect, Open, BeginCompletion, Claim, ClaimSubmission, Complete, Fail, AbortMeeting,
      CancelCompletion;
  }

  lemma WriteIsCounted(homes: Homes, world: World, documentId: Id, participant: Id)
    requires WritersAreCounted(world) && documentId in homes
    ensures WritersAreCounted(WriteStep(homes, world, documentId, participant))
  {
    assert SameWriters(world.state, PrepareUpdate(world.state, documentId, participant).0);
  }

  lemma ExternalIsCounted(world: World, meetingId: Id)
    requires WritersAreCounted(world)
    ensures var (begun, accepted) := BeginExternal(world.state, meetingId);
            WritersAreCounted(World(begun, world.writing, if accepted then world.external + multiset{meetingId}
                                                          else world.external))
  {
  }

  lemma EndsAreCounted(world: World, meetingId: Id)
    requires WritersAreCounted(world)
    ensures meetingId in world.writing ==>
              WritersAreCounted(World(EndCollaboration(world.state, meetingId), world.writing - multiset{meetingId},
                                      world.external))
    ensures meetingId in world.external ==>
              WritersAreCounted(World(EndExternal(world.state, meetingId), world.writing,
                                      world.external - multiset{meetingId}))
  {
  }

  lemma StepCountsWriters(homes: Homes, world: World, event: Event)
    requires WritersAreCounted(world) && Legal(homes, world, event)
    ensures WritersAreCounted(Step(homes, world, event))
  {
    if IsWriterEvent(event) {
      hide BeginExternal, EndExternal, EndCollaboration, WriteStep;
      match event {
        case Writing(d, participant) => WriteIsCounted(homes, world, d, participant);
        case WriteEnds(m) => EndsAreCounted(world, m);
        case ExternalBegins(m) => ExternalIsCounted(world, m);
        case ExternalEnds(m) => EndsAreCounted(world, m);
      }
    } else {
      OtherStepsKeepWriters(homes, world, event);
      hide Step, Legal;
    }
  }

  /** A write begins only while no barrier of its meeting is finalizing or committing, and an external
      write leaves the meeting without a barrier. */
  lemma WritesWaitForLockedBarriers(homes: Homes, world: World, event: Event)
    requires Sound(homes, world.state) && Legal(homes, world, event)
    requires var after := Step(homes, world, event);
             |after.writing| > |world.writing| || |after.external| > |world.external|
    ensures event.Writing? || event.ExternalBegins?
    ensures var m := if event.Writing? then homes[event.documentId] else event.meetingId;
            && (forall d | d in world.state.barriers && world.state.barriers[d].meetingId == m ::
                !IsLocked(world.state.barriers[d]))
            && (event.ExternalBegins? ==>
                  forall d | d in Step(homes, world, event).state.barriers ::
                    Step(homes, world, event).state.barriers[d].meetingId != m)
  {
    hide BarrierIsSound;
    if !IsWriterEvent(event) {
      OtherStepsKeepWriters(homes, world, event);
    } else if event.ExternalBegins? {
      BeginExternalIsSound(homes, world.state, event.meetingId);
      OneBarrierPerMeeting(homes, world.state);
    } else if event.Writing? {
      OneBarrierPerMeeting(homes, world.state);
    }
  }

  lemma OneBarrierPerMeeting(homes: Homes, state: State)
    requires Sound(homes, state)
    ensures forall left, right | left in state.barriers && right in state.barriers
                                 && state.barriers[left].meetingId == state.barriers[right].meetingId :: left == right
  {
    hide BarrierIsSound;
  }

  // ---------- phases ----------

  /** How one event may change the phase of a barrier. */
  predicate MayChange(before: Barrier, after: Barrier, documentId: Id, event: Event) {
    || after.phase == before.phase
    || (before.phase.Draining? && after.phase.Confirming? && event.Drains? && before.intention.Completion?)
    || (before.phase.Draining? && after.phase.Ready? && event.Readying?)
    || ((before.phase.Confirming? || before.phase.Ready?) && after.phase.Draining?
        && event.Joining? && event.documentId == documentId && event.participant in after.participants)
    || (before.phase.Confirming? && after.phase.Finalizing? && (event.ReadEnds? || event.Confirms?))
    || (before.phase.Ready? && after.phase.Committing? && event.Claiming?
        && event.user == before.compactorUser && before.intention.Compaction?)
    || (before.phase.Finalizing? && after.phase.Committing? && event.Submitting?
        && event.user == before.compactorUser && before.serverSequence == Some(event.sequence))
  }

  /** Only the barrier of the given document is touched: opened, changed as the protocol says, or released. */
  ghost predicate Touches(state: State, after: State, event: Event, documentId: Id) {
    && after.barriers - {documentId} == state.barriers - {documentId}
    && if documentId in after.barriers then
         && after.released == state.released
         && var barrier := after.barriers[documentId];
            if documentId in state.barriers then
              barrier.id == state.barriers[documentId].id
                  && MayChange(state.barriers[documentId], barrier, documentId, event)
            else FreshBarrier(state, barrier.id) && !IsLocked(barrier)
       else if documentId in state.barriers then
         && |after.released| == |state.released| + 1 && state.released <= after.released
         && after.released[|state.released|].barrierId == state.barriers[documentId].id
       else after.released == state.released
  }

  ghost predicate TouchesFound(state: State, after: State, event: Event, found: Option<Id>) {
    if found.Some? then Touches(state, after, event, found.value)
    else after.barriers == state.barriers && after.released == state.released
  }

  /** At most one barrier is touched. */
  ghost predicate TouchesOne(state: State, after: State, event: Event) {
    exists documentId :: Touches(state, after, event, documentId)
  }

  lemma UntouchedIsOne(state: State, after: State, event: Event)
    requires after.barriers == state.barriers && after.released == state.released
    ensures TouchesOne(state, after, event)
  {
    assert Touches(state, after, event, 0);
  }

  lemma OpenEffect(s: State, meetingId: Id, documentId: Id, compactor: Option<Id>, user: Id, participants: set<Id>,
                   id: Id, event: Event)
    requires FreshBarrier(s, id)
    ensures var after := Open(s, meetingId, documentId, compactor, user, participants, id).0;
            Touches(s, after, event, documentId)
  {
  }

  lemma JoinEffect(s: State, documentId: Id, participant: Id, event: Event)
    requires event == Joining(documentId, participant)
    requires documentId in s.barriers ==> BarrierIsSound(s.barriers[documentId])
    ensures var after := Join(s, documentId, participant).0; Touches(s, after, event, documentId)
  {
  }

  lemma DrainEffect(s: State, documentId: Id, barrierId: Id, participant: Id, sequence: nat, event: Event)
    ensures var after := Acknowledge(s, documentId, barrierId, participant).0;
            Touches(s, after, event, documentId)
    ensures var after := MakeReady(s, documentId, barrierId, sequence).0;
            event.Readying? ==> Touches(s, after, event, documentId)
  {
  }

  lemma ClaimEffect(s: State, meetingId: Id, barrierId: Id, user: Id, event: Event)
    requires event == Claiming(meetingId, barrierId, user)
    ensures var after := Claim(s, meetingId, barrierId, user).0;
            TouchesFound(s, after, event, WithId(s.barriers, barrierId))
  {
  }

  lemma CompleteEffect(s: State, meetingId: Id, barrierId: Id, event: Event)
    ensures var after := Complete(s, meetingId, barrierId);
            TouchesFound(s, after, event, WithId(s.barriers, barrierId))
  {
  }

  lemma FailEffect(s: State, meetingId: Id, barrierId: Id, event: Event)
    ensures var after := Fail(s, meetingId, barrierId);
            TouchesFound(s, after, event, WithId(s.barriers, barrierId))
  {
  }

  lemma AbortEffect(s: State, documentId: Id, barrierId: Option<Id>, event: Event)
    ensures var after := Abort(s, documentId, barrierId); Touches(s, after, event, documentId)
  {
  }

  lemma AbortMeetingEffect(s: State, meetingId: Id, event: Event)
    ensures var after := AbortMeeting(s, meetingId);
            TouchesFound(s, after, event, OfMeeting(s.barriers, meetingId))
  {
  }

  lemma DisconnectEffect(s: State, documentId: Id, participant: Id, event: Event)
    ensures var after := Disconnect(s, documentId, participant); Touches(s, after, event, documentId)
  {
  }

  lemma PrepareEffect(s: State, documentId: Id, participant: Id, event: Event)
    ensures var after := PrepareUpdate(s, documentId, participant).0; Touches(s, after, event, documentId)
  {
  }

  lemma WriteEffect(homes: Homes, world: World, documentId: Id, participant: Id, event: Event)
    requires documentId in homes
    ensures var after := WriteStep(homes, world, documentId, participant).state;
            Touches(world.state, after, event, documentId)
  {
    hide MayChange;
    PrepareEffect(world.state, documentId, participant, event);
  }

  lemma ExternalEffect(s: State, meetingId: Id, event: Event)
    ensures var after := BeginExternal(s, meetingId).0;
            TouchesFound(s, after, event, OfMeeting(s.barriers, meetingId))
  {
  }

  lemma BeginCompletionEffect(s: State, meetingId: Id, documentId: Id, user: Id, id: Id, event: Event)
    requires FreshBarrier(s, id)
    ensures var after := BeginCompletion(s, meetingId, documentId, user, id).0;
            Touches(s, after, event, documentId)
  {
    if documentId !in s.barriers && Count(s.externalWriters, meetingId) == 0 {
      BegunCompletion(s, meetingId, documentId, user, id);
      hide BeginCompletion;
    }
  }

  lemma CompletionDrainedEffect(s: State, documentId: Id, barrierId: Id, participant: Id, event: Event)
    requires event.Drains?
    ensures var after := CompletionDrained(s, documentId, barrierId, participant);
            Touches(s, after, event, documentId)
  {
  }

  lemma ReadEffect(s: State, documentId: Id, barrierId: Id, sequence: nat, event: Event)
    requires event.ReadEnds?
    ensures var after := ReadResolves(s, documentId, barrierId, sequence);
            Touches(s, after, event, documentId)
  {
    var ended := s.(reading := s.reading - multiset{(documentId, barrierId)});
    if documentId in s.barriers && Count(s.collaborationWriters, s.barriers[documentId].meetingId) > 0 {
      AbortEffect(ended, documentId, Some(barrierId), event);
      hide Abort, MayChange;
    }
  }

  lemma ReadFailsEffect(s: State, documentId: Id, barrierId: Id, event: Event)
    ensures var after := ReadFails(s, documentId, barrierId); Touches(s, after, event, documentId)
  {
  }

  lemma ConfirmEffect(s: State, documentId: Id, barrierId: Id, participant: Id, sequence: nat, event: Event)
    requires event.Confirms?
    ensures var after := ConfirmCompletion(s, documentId, barrierId, participant, sequence);
            Touches(s, after, event, documentId)
  {
  }

  lemma SubmissionEffect(s: State, meetingId: Id, barrierId: Id, user: Id, sequence: nat, event: Event)
    requires event == Submitting(meetingId, barrierId, user, sequence)
    ensures var after := ClaimSubmission(s, meetingId, barrierId, user, sequence).0;
            TouchesFound(s, after, event, WithId(s.barriers, barrierId))
  {
  }

  lemma CancelEffect(s: State, meetingId: Id, barrierId: Id, user: Id, event: Event)
    ensures var after := CancelCompletion(s, meetingId, barrierId, user);
            TouchesFound(s, after, event, WithId(s.barriers, barrierId))
  {
  }

  lemma TimerEffect(s: State, documentId: Id, event: Event)
    requires documentId in s.barriers ==> WithId(s.barriers, s.barriers[documentId].id) == Some(documentId)
    ensures var after := TimerFires(s, documentId); Touches(s, after, event, documentId)
  {
    hide Abort, Fail;
    if documentId in s.barriers {
      AbortEffect(s, documentId, Some(s.barriers[documentId].id), event);
      FailEffect(s, s.barriers[documentId].meetingId, s.barriers[documentId].id, event);
    }
  }

  lemma FoundBarrier(homes: Homes, state: State, documentId: Id)
    requires Sound(homes, state)
    ensures documentId in state.barriers ==>
              && BarrierIsSound(state.barriers[documentId])
              && WithId(state.barriers, state.barriers[documentId].id) == Some(documentId)
  {
  }

  lemma FoundIsOne(state: State, after: State, event: Event, found: Option<Id>)
    requires TouchesFound(state, after, event, found)
    ensures TouchesOne(state, after, event)
  {
    if found.None? {
      UntouchedIsOne(state, after, event);
    }
  }

  lemma CompletionStepTouchesOne(homes: Homes, world: World, event: Event)
    requires Sound(homes, world.state) && Legal(homes, world, event) && OfCompletion(event)
    ensures TouchesOne(world.state, Step(homes, world, event).state, event)
  {
    hide Sound, BarrierIsSound, MayChange, Touches, TouchesFound, StartRead, ClaimCompletion, BeginCompletion,
      CompletionDrained, ReadResolves, ReadFails, ConfirmCompletion, ClaimSubmission, CancelCompletion;
    var s := world.state;
    match event
    case CompletionBegins(m, d, user, id) => BeginCompletionEffect(s, m, d, user, id, event);
    case Drains(d, id, participant) => CompletionDrainedEffect(s, d, id, participant, event);
    case ReadEnds(d, id, sequence) => ReadEffect(s, d, id, sequence, event);
    case ReadErrs(d, id) => ReadFailsEffect(s, d, id, event);
    case Confirms(d, id, participant, sequence) => ConfirmEffect(s, d, id, participant, sequence, event);
    case Submitting(m, id, user, sequence) =>
      SubmissionEffect(s, m, id, user, sequence, event);
      FoundIsOne(s, ClaimSubmission(s, m, id, user, sequence).0, event, WithId(s.barriers, id));
    case Cancelling(m, id, user) =>
      CancelEffect(s, m, id, user, event);
      FoundIsOne(s, CancelCompletion(s, m, id, user), event, WithId(s.barriers, id));
  }

  /** Every event touches at most one barrier, and changes its phase as the protocol says. */
  lemma StepTouchesOne(homes: Homes, world: World, event: Event)
    requires Sound(homes, world.state) && Legal(homes, world, event)
    ensures TouchesOne(world.state, Step(homes, world, event).state, event)
  {
    var s := world.state;
    hide Sound, BarrierIsSound, MayChange, Touches, TouchesFound, TimerFires, WriteStep, Abort, StartRead,
      ClaimCompletion, Join, Acknowledge, MakeReady, PrepareUpdate, CompletionDrained, ReadResolves, ReadFails,
      ConfirmCompletion, Disconnect, Open, BeginCompletion, Claim, ClaimSubmission, Complete, Fail, AbortMeeting,
      CancelCompletion, BeginExternal;
    if OfCompletion(event) {
      CompletionStepTouchesOne(homes, world, event);
    } else {
      match event {
        case Opening(m, d, connection, user, participants, id) =>
          OpenEffect(s, m, d, Some(connection), user, participants, id, event);
        case Joining(d, participant) =>
          FoundBarrier(homes, s, d);
          JoinEffect(s, d, participant, event);
        case Acknowledging(d, id, participant) => DrainEffect(s, d, id, participant, 0, event);
        case Readying(d, id, sequence) => DrainEffect(s, d, id, 0, sequence, event);
        case Claiming(m, id, user) =>
          ClaimEffect(s, m, id, user, event);
          FoundIsOne(s, Claim(s, m, id, user).0, event, WithId(s.barriers, id));
        case Completing(m, id) =>
          CompleteEffect(s, m, id, event);
          FoundIsOne(s, Complete(s, m, id), event, WithId(s.barriers, id));
        case Failing(m, id) =>
          FailEffect(s, m, id, event);
          FoundIsOne(s, Fail(s, m, id), event, WithId(s.barriers, id));
        case Aborting(d, id) => AbortEffect(s, d, id, event);
        case AbortingMeeting(m) =>
          AbortMeetingEffect(s, m, event);
          FoundIsOne(s, AbortMeeting(s, m), event, OfMeeting(s.barriers, m));
        case Disconnecting(d, participant) => DisconnectEffect(s, d, participant, event);
        case Preparing(d, participant) => PrepareEffect(s, d, participant, event);
        case Writing(d, participant) => WriteEffect(homes, world, d, participant, event);
        case WriteEnds(m) => UntouchedIsOne(s, EndCollaboration(s, m), event);
        case ExternalBegins(m) =>
          ExternalEffect(s, m, event);
          FoundIsOne(s, BeginExternal(s, m).0, event, OfMeeting(s.barriers, m));
        case ExternalEnds(m) => UntouchedIsOne(s, EndExternal(s, m), event);
        case Firing(d) =>
          FoundBarrier(homes, s, d);
          TimerEffect(s, d, event);
      }
    }
  }

  /** Every phase change is one of the protocol; nothing returns to draining except by a join before
      finalization. A barrier that disappears is the one reported as released. */
  lemma PhasesFollowTheProtocol(homes: Homes, world: World, event: Event, documentId: Id)
    requires Sound(homes, world.state) && Legal(homes, world, event) && documentId in world.state.barriers
    ensures var before, after := world.state.barriers[documentId], Step(homes, world, event).state;
            if documentId in after.barriers && after.barriers[documentId].id == before.id then
              MayChange(before, after.barriers[documentId], documentId, event)
            else
              |after.released| == |world.state.released| + 1
                  && after.released[|world.state.released|].barrierId == before.id
  {
    StepTouchesOne(homes, world, event);
    EffectOnBarrier(world.state, Step(homes, world, event).state, event, documentId);
  }

  lemma EffectOnBarrier(state: State, after: State, event: Event, documentId: Id)
    requires TouchesOne(state, after, event) && documentId in state.barriers
    ensures if documentId in after.barriers && after.barriers[documentId].id == state.barriers[documentId].id then
              MayChange(state.barriers[documentId], after.barriers[documentId], documentId, event)
            else
              |after.released| == |state.released| + 1 && after.released[|state.released|].barrierId ==
                  state.barriers[documentId].id
  {
    var touched :| Touches(state, after, event, touched);
    if touched != documentId {
      assert documentId in state.barriers - {touched} && documentId in after.barriers - {touched};
    }
  }

  // ---------- runs ----------

  ghost predicate LegalRun(homes: Homes, world: World, events: seq<Event>)
    decreases |events|
  {
    events != [] ==> Legal(homes, world, events[0]) && LegalRun(homes, Step(homes, world, events[0]), events[1..])
  }

  ghost function After(homes: Homes, world: World, events: seq<Event>): World
    requires LegalRun(homes, world, events)
    decreases |events|
  {
    if events == [] then world else After(homes, Step(homes, world, events[0]), events[1..])
  }

  lemma ReleasesGrow(state: State, after: State, event: Event)
    requires TouchesOne(state, after, event)
    ensures state.released <= after.released
  {
  }

  /** Over every run the barriers stay sound, the counters count, and the release events only grow. */
  lemma {:induction false} RunsAreSound(homes: Homes, world: World, events: seq<Event>)
    requires Sound(homes, world.state) && WritersAreCounted(world) && LegalRun(homes, world, events)
    ensures var after := After(homes, world, events);
            Sound(homes, after.state) && WritersAreCounted(after) && world.state.released <= after.state.released
    decreases |events|
  {
    hide Sound, Step, Legal;
    if events != [] {
      var next := Step(homes, world, events[0]);
      StepIsSound(homes, world, events[0]);
      StepCountsWriters(homes, world, events[0]);
      StepTouchesOne(homes, world, events[0]);
      ReleasesGrow(world.state, next.state, events[0]);
      RunsAreSound(homes, next, events[1..]);
    }
  }

  /** A barrier id is released at most once over a whole run, and a released barrier is gone for good. */
  lemma ReleasedAtMostOnce(homes: Homes, world: World, events: seq<Event>, id: Id)
    requires Sound(homes, world.state) && WritersAreCounted(world) && LegalRun(homes, world, events)
    ensures var after := After(homes, world, events).state;
            && (forall i, j | 0 <= i < |after.released| && 0 <= j < |after.released|
                              && after.released[i].barrierId == id && after.released[j].barrierId == id :: i == j)
            && ((exists i :: 0 <= i < |world.state.released| && world.state.released[i].barrierId == id) ==>
                  forall d | d in after.barriers :: after.barriers[d].id != id)
  {
    RunsAreSound(homes, world, events);
    hide BarrierIsSound, Step, Legal, LegalRun;
    var after := After(homes, world, events).state;
    if i :| 0 <= i < |world.state.released| && world.state.released[i].barrierId == id {
      assert after.released[i].barrierId == id;
    }
  }
}
