/** When a completion has fixed its sequence, no write of its meeting is in progress
    (backend/src/meetings/meeting-compaction-coordinator.ts). */
module CompletionQuiescence {
  import opened Options
  import opened CompactionBarriers
  import opened BarrierRuns
  import opened BarrierSafety

  /** A completion in finalization or commit, or one whose participants are confirming a sequence. */
  predicate HasFixedSequence(barrier: Barrier) {
    barrier.intention.Completion? && (IsLocked(barrier) || (barrier.phase.Confirming? && barrier.serverSequence.Some?))
  }

  /** Until it is locked, a completion waits for every joined connection. */
  predicate QuietAt(barrier: Barrier, connections: set<Id>, writers: nat) {
    && (HasFixedSequence(barrier) ==> writers == 0)
    && (barrier.intention.Completion? && !IsLocked(barrier) ==> connections <= barrier.participants)
  }

  ghost predicate Quiet(state: State) {
    forall d | d in state.barriers ::
      QuietAt(state.barriers[d], ConnectionsOf(state, d),
              Count(state.collaborationWriters, state.barriers[d].meetingId))
  }

  /** An update whose author does not take part in the barrier, while the participants confirm a fixed sequence. */
  predicate LateWrite(world: World, event: Event) {
    event.Writing? && event.documentId in world.state.barriers &&
    var barrier := world.state.barriers[event.documentId];
    barrier.phase.Confirming? && HasFixedSequence(barrier) && event.participant !in barrier.participants
  }

  /** Updates come from connections that have joined and not left. */
  predicate FromJoined(world: World, event: Event) {
    event.Writing? ==> event.participant in ConnectionsOf(world.state, event.documentId)
  }

  // ---------- steps ----------

  lemma QuietReplaced(s: State, d: Id, barrier: Barrier)
    requires Quiet(s) && QuietAt(barrier, ConnectionsOf(s, d), Count(s.collaborationWriters, barrier.meetingId))
    ensures Quiet(Replaced(s, d, barrier))
  {
    hide QuietAt;
  }

  lemma QuietReleased(s: State, d: Id, outcome: ReleaseOutcome)
    requires Quiet(s) && d in s.barriers
    ensures Quiet(Released(s, d, outcome))
  {
    hide QuietAt;
  }

  lemma QuietSame(s: State, after: State)
    requires Quiet(s) && after.barriers == s.barriers
    requires forall d | d in s.barriers ::
               && ConnectionsOf(after, d) <= ConnectionsOf(s, d)
               && Count(after.collaborationWriters, s.barriers[d].meetingId) <= Count(s.collaborationWriters, s.barriers[d].meetingId)
    ensures Quiet(after)
  {
  }

  lemma QuietBarrier(s: State, d: Id)
    requires Quiet(s) && d in s.barriers
    ensures QuietAt(s.barriers[d], ConnectionsOf(s, d), Count(s.collaborationWriters, s.barriers[d].meetingId))
  {
  }

  lemma AbortIsQuiet(s: State, d: Id, barrierId: Option<Id>)
    requires Quiet(s)
    ensures Quiet(Abort(s, d, barrierId))
  {
    hide Quiet;
    if d in s.barriers {
      QuietBarrier(s, d);
      QuietReplaced(s, d, s.barriers[d].(cancelled := true));
      QuietReleased(s, d, Aborted);
    }
  }

  lemma OpenIsQuiet(s: State, m: Id, d: Id, compactor: Option<Id>, user: Id, participants: set<Id>, id: Id)
    requires Quiet(s)
    ensures Quiet(Open(s, m, d, compactor, user, participants, id).0)
  {
    hide Quiet;
    QuietReplaced(s, d,
                  Barrier(Compaction, false, id, m, compactor, user, participants, {}, {}, Draining, None, AbortTimer));
  }

  lemma JoinIsQuiet(s: State, d: Id, participant: Id)
    requires Quiet(s)
    ensures Quiet(Join(s, d, participant).0)
  {
    var after := Join(s, d, participant).0;
    forall other | other in after.barriers
      ensures QuietAt(after.barriers[other], ConnectionsOf(after, other),
                      Count(after.collaborationWriters, after.barriers[other].meetingId))
    {
      QuietBarrier(s, other);
    }
  }

  lemma DrainIsQuiet(s: State, d: Id, barrierId: Id, participant: Id, sequence: nat)
    requires Quiet(s)
    ensures Quiet(Acknowledge(s, d, barrierId, participant).0)
    ensures Quiet(MakeReady(s, d, barrierId, sequence).0)
  {
    hide Quiet;
    if d in s.barriers {
      QuietBarrier(s, d);
      var barrier := s.barriers[d];
      if barrier.phase.Draining? {
        QuietReplaced(s, d, barrier.(drained := barrier.drained + {participant}));
        QuietReplaced(s, d, barrier.(phase := Ready, serverSequence := Some(sequence)));
      }
    }
  }

  lemma ClaimIsQuiet(s: State, m: Id, barrierId: Id, user: Id)
    requires Quiet(s)
    ensures Quiet(Claim(s, m, barrierId, user).0)
  {
    hide Quiet;
    if Claim(s, m, barrierId, user).1.Some? {
      var d := WithId(s.barriers, barrierId).value;
      QuietReplaced(s, d, s.barriers[d].(phase := Committing, timer := NoTimer));
    }
  }

  lemma EndIsQuiet(s: State, m: Id, barrierId: Id)
    requires Quiet(s)
    ensures Quiet(Complete(s, m, barrierId)) && Quiet(Fail(s, m, barrierId)) && Quiet(AbortMeeting(s, m))
  {
    hide Quiet;
    var found, ofMeeting := WithId(s.barriers, barrierId), OfMeeting(s.barriers, m);
    if found.Some? {
      QuietReleased(s, found.value, Aborted);
      QuietReleased(s, found.value, if s.barriers[found.value].intention.Completion? then Completed else Compacted);
    }
    if ofMeeting.Some? {
      QuietReleased(s, ofMeeting.value, Aborted);
    }
  }

  lemma DisconnectIsQuiet(s: State, d: Id, participant: Id)
    requires Quiet(s)
    ensures Quiet(Disconnect(s, d, participant))
  {
    var left := Left(s, d, participant);
    QuietSame(s, left);
    hide Quiet, Abort;
    if d in s.barriers {
      AbortIsQuiet(left, d, Some(s.barriers[d].id));
    }
  }

  lemma PrepareIsQuiet(s: State, d: Id, participant: Id)
    requires Quiet(s)
    ensures Quiet(PrepareUpdate(s, d, participant).0)
  {
    hide Quiet;
    if d in s.barriers {
      QuietReleased(s, d, Aborted);
    }
  }

  /** A write that is not late starts only where no completion has fixed its sequence. */
  lemma WriteIsQuiet(homes: Homes, world: World, d: Id, participant: Id)
    requires Sound(homes, world.state) && Quiet(world.state) && d in homes
    requires !LateWrite(world, Writing(d, participant))
    ensures Quiet(WriteStep(homes, world, d, participant).state)
  {
    var s := world.state;
    var (prepared, ready) := PrepareUpdate(s, d, participant);
    PrepareIsQuiet(s, d, participant);
    if ready {
      var begun := BeginCollaboration(prepared, homes[d]).0;
      forall other | other in begun.barriers
        ensures QuietAt(begun.barriers[other], ConnectionsOf(begun, other),
                        Count(begun.collaborationWriters, begun.barriers[other].meetingId))
      {
        QuietBarrier(s, other);
        if other == d {
          NotFixedYet(homes, world, d, participant);
        } else {
          assert begun.barriers[other].meetingId != homes[d];
        }
      }
    }
  }

  lemma NotFixedYet(homes: Homes, world: World, d: Id, participant: Id)
    requires Sound(homes, world.state) && d in world.state.barriers
    requires PrepareUpdate(world.state, d, participant) == (world.state, true)
    requires !LateWrite(world, Writing(d, participant))
    ensures !HasFixedSequence(world.state.barriers[d])
  {
    FoundIsSound(homes, world.state, d);
    hide Sound;
  }

  /** A late write does start: its author has not drained, and the barrier is not locked. */
  lemma LateWriteStarts(homes: Homes, world: World, d: Id, participant: Id)
    requires Sound(homes, world.state) && d in homes && LateWrite(world, Writing(d, participant))
    ensures var after := WriteStep(homes, world, d, participant);
            && after.state.barriers == world.state.barriers && homes[d] == world.state.barriers[d].meetingId
            && Count(after.state.collaborationWriters, homes[d]) == Count(world.state.collaborationWriters,
                                                                          homes[d]) + 1
            && after.writing == world.writing + multiset{homes[d]}
  {
    FoundIsSound(homes, world.state, d);
    OneBarrierPerMeeting(homes, world.state);
    assert homes[d] == world.state.barriers[d].meetingId;
    assert PrepareUpdate(world.state, d, participant) == (world.state, true);
    var found := OfMeeting(world.state.barriers, homes[d]);
    hide Sound;
    assert found == Some(d);
  }

  /** An update of a joined connection is never late. */
  lemma JoinedIsNotLate(homes: Homes, world: World, event: Event)
    requires Sound(homes, world.state) && Quiet(world.state) && FromJoined(world, event)
    ensures !LateWrite(world, event)
  {
    if event.Writing? && event.documentId in world.state.barriers {
      QuietBarrier(world.state, event.documentId);
    }
    hide Quiet, Sound;
  }

  lemma ExternalIsQuiet(s: State, m: Id)
    requires Quiet(s)
    ensures Quiet(BeginExternal(s, m).0)
  {
    var found := OfMeeting(s.barriers, m);
    if BeginExternal(s, m).1 {
      var free := if found.Some? then Released(s, found.value, Aborted) else s;
      if found.Some? {
        QuietReleased(s, found.value, Aborted);
      }
      QuietSame(free, BeginExternal(s, m).0);
    }
  }

  lemma StartReadIsQuiet(s: State, d: Id)
    requires Quiet(s) && d in s.barriers && BarrierIsSound(s.barriers[d])
    ensures Quiet(StartRead(s, d))
  {
    QuietBarrier(s, d);
    QuietReplaced(s, d,
                  s.barriers[d].(phase := if s.barriers[d].phase.Draining? then Confirming else s.barriers[d].phase));
    if StartRead(s, d) != s {
      QuietSame(Replaced(s, d, s.barriers[d].(phase := Confirming)), StartRead(s, d));
    }
    hide Quiet;
  }

  lemma ClaimCompletionIsQuiet(s: State, d: Id)
    requires Quiet(s) && d in s.barriers
    ensures Quiet(ClaimCompletion(s, d))
  {
    hide Quiet;
    QuietBarrier(s, d);
    if ClaimCompletion(s, d) != s {
      QuietReplaced(s, d, s.barriers[d].(phase := Finalizing, timer := FailTimer));
    }
  }

  lemma BeginCompletionIsQuiet(s: State, m: Id, d: Id, user: Id, id: Id)
    requires Quiet(s)
    ensures Quiet(BeginCompletion(s, m, d, user, id).0)
  {
    hide Quiet, StartRead;
    if d !in s.barriers && Count(s.externalWriters, m) == 0 {
      var begun := Replaced(s, d, NewCompletion(s, m, d, user, id));
      BegunCompletion(s, m, d, user, id);
      hide BeginCompletion;
      QuietReplaced(s, d, NewCompletion(s, m, d, user, id));
      StartReadIsQuiet(begun, d);
    }
  }

  lemma CompletionDrainedIsQuiet(homes: Homes, s: State, d: Id, barrierId: Id, participant: Id)
    requires Sound(homes, s) && Quiet(s)
    ensures Quiet(CompletionDrained(s, d, barrierId, participant))
  {
    hide Quiet, StartRead, BarrierIsSound;
    DrainIsQuiet(s, d, barrierId, participant, 0);
    var (drained, all) := Acknowledge(s, d, barrierId, participant);
    if all {
      AcknowledgeIsSound(homes, s, d, barrierId, participant);
      FoundIsSound(homes, drained, d);
      StartReadIsQuiet(drained, d);
    }
  }

  lemma ReadIsQuiet(s: State, d: Id, barrierId: Id, sequence: nat)
    requires Quiet(s)
    ensures Quiet(ReadResolves(s, d, barrierId, sequence)) && Quiet(ReadFails(s, d, barrierId))
  {
    var ended := s.(reading := s.reading - multiset{(d, barrierId)});
    QuietSame(s, ended);
    AbortIsQuiet(ended, d, Some(barrierId));
    hide Quiet, Abort, ClaimCompletion;
    if d in s.barriers && s.barriers[d].phase.Confirming?
        && Count(s.collaborationWriters, s.barriers[d].meetingId) == 0 {
      QuietBarrier(s, d);
      var read := s.barriers[d].(serverSequence := Some(sequence));
      QuietReplaced(ended, d, read);
      ClaimCompletionIsQuiet(Replaced(ended, d, read), d);
    }
  }

  lemma ConfirmIsQuiet(s: State, d: Id, barrierId: Id, participant: Id, sequence: nat)
    requires Quiet(s)
    ensures Quiet(ConfirmCompletion(s, d, barrierId, participant, sequence))
  {
    hide Quiet, ClaimCompletion;
    if d in s.barriers {
      QuietBarrier(s, d);
      var confirmed := s.barriers[d].(confirmed := s.barriers[d].confirmed + {participant});
      QuietReplaced(s, d, confirmed);
      ClaimCompletionIsQuiet(Replaced(s, d, confirmed), d);
    }
  }

  lemma SubmissionIsQuiet(s: State, m: Id, barrierId: Id, user: Id, sequence: nat)
    requires Quiet(s)
    ensures Quiet(ClaimSubmission(s, m, barrierId, user, sequence).0)
    ensures Quiet(CancelCompletion(s, m, barrierId, user))
  {
    hide Quiet, Abort;
    var found := WithId(s.barriers, barrierId);
    if found.Some? {
      QuietBarrier(s, found.value);
      AbortIsQuiet(s, found.value, Some(barrierId));
      if s.barriers[found.value].phase.Finalizing? {
        QuietReplaced(s, found.value, s.barriers[found.value].(phase := Committing));
      }
    }
  }

  lemma TimerIsQuiet(s: State, d: Id)
    requires Quiet(s)
    ensures Quiet(TimerFires(s, d))
  {
    hide Quiet, Abort, Fail;
    if d in s.barriers {
      AbortIsQuiet(s, d, Some(s.barriers[d].id));
      EndIsQuiet(s, s.barriers[d].meetingId, s.barriers[d].id);
    }
  }

  lemma CompletionStepIsQuiet(homes: Homes, world: World, event: Event)
    requires Sound(homes, world.state) && Quiet(world.state) && Legal(homes, world, event) && OfCompletion(event)
    ensures Quiet(Step(homes, world, event).state)
  {
    hide Quiet, Sound, CompletionDrained, ReadResolves, ReadFails, ConfirmCompletion, BeginCompletion, ClaimSubmission,
      CancelCompletion;
    var s := world.state;
    match event
    case CompletionBegins(m, d, user, id) => BeginCompletionIsQuiet(s, m, d, user, id);
    case Drains(d, id, participant) => CompletionDrainedIsQuiet(homes, s, d, id, participant);
    case ReadEnds(d, id, sequence) => ReadIsQuiet(s, d, id, sequence);
    case ReadErrs(d, id) => ReadIsQuiet(s, d, id, 0);
    case Confirms(d, id, participant, sequence) => ConfirmIsQuiet(s, d, id, participant, sequence);
    case Submitting(m, id, user, sequence) => SubmissionIsQuiet(s, m, id, user, sequence);
    case Cancelling(m, id, user) => SubmissionIsQuiet(s, m, id, user, 0);
  }

  lemma StepIsQuiet(homes: Homes, world: World, event: Event)
    requires Sound(homes, world.state) && WritersAreCounted(world) && Quiet(world.state)
    requires Legal(homes, world, event) && !LateWrite(world, event)
    ensures Quiet(Step(homes, world, event).state)
  {
    hide Quiet, Sound, TimerFires, Abort, Join, Acknowledge, MakeReady, PrepareUpdate, CompletionDrained, ReadResolves,
      ReadFails, ConfirmCompletion, Disconnect, Open, BeginCompletion, Claim, ClaimSubmission, Complete, Fail,
      AbortMeeting, CancelCompletion, WriteStep, BeginExternal, LateWrite;
    var s := world.state;
    if OfCompletion(event) {
      CompletionStepIsQuiet(homes, world, event);
    } else {
      match event {
        case Opening(m, d, connection, user, participants, id) =>
          OpenIsQuiet(s, m, d, Some(connection), user, participants, id);
        case Joining(d, participant) => JoinIsQuiet(s, d, participant);
        case Acknowledging(d, id, participant) => DrainIsQuiet(s, d, id, participant, 0);
        case Readying(d, id, sequence) => DrainIsQuiet(s, d, id, 0, sequence);
        case Claiming(m, id, user) => ClaimIsQuiet(s, m, id, user);
        case Completing(m, id) => EndIsQuiet(s, m, id);
        case Failing(m, id) => EndIsQuiet(s, m, id);
        case Aborting(d, id) => AbortIsQuiet(s, d, id);
        case AbortingMeeting(m) => EndIsQuiet(s, m, 0);
        case Disconnecting(d, participant) => DisconnectIsQuiet(s, d, participant);
        case Preparing(d, participant) => PrepareIsQuiet(s, d, participant);
        case Writing(d, participant) => WriteIsQuiet(homes, world, d, participant);
        case WriteEnds(m) => QuietSame(s, EndCollaboration(s, m));
        case ExternalBegins(m) => ExternalIsQuiet(s, m);
        case ExternalEnds(m) => QuietSame(s, EndExternal(s, m));
        case Firing(d) => TimerIsQuiet(s, d);
      }
    }
  }

  /** No barrier that has fixed its sequence has a write of its meeting in progress. */
  ghost predicate Quiescent(world: World) {
    forall d | d in world.state.barriers && HasFixedSequence(world.state.barriers[d]) ::
      && world.writing[world.state.barriers[d].meetingId] == 0
      && world.external[world.state.barriers[d].meetingId] == 0
  }

  lemma QuietIsQuiescent(homes: Homes, world: World)
    requires Sound(homes, world.state) && WritersAreCounted(world) && Quiet(world.state)
    ensures Quiescent(world)
  {
    forall d | d in world.state.barriers && HasFixedSequence(world.state.barriers[d])
      ensures world.writing[world.state.barriers[d].meetingId] == 0
      ensures world.external[world.state.barriers[d].meetingId] == 0
    {
      QuietBarrier(world.state, d);
      NoExternalWriter(homes, world.state, d);
      CountedAt(world, world.state.barriers[d].meetingId);
      hide Sound, Quiet, WritersAreCounted;
    }
  }

  lemma NoExternalWriter(homes: Homes, state: State, d: Id)
    requires Sound(homes, state) && d in state.barriers
    ensures Count(state.externalWriters, state.barriers[d].meetingId) == 0
  {
  }

  lemma CountedAt(world: World, meetingId: Id)
    requires WritersAreCounted(world)
    ensures Count(world.state.externalWriters, meetingId) == world.external[meetingId]
    ensures Count(world.state.collaborationWriters, meetingId) == world.writing[meetingId]
  {
  }

  /** One event breaks the quiescence if and only if it is a late write. */
  lemma StepIsQuietExactly(homes: Homes, world: World, event: Event)
    requires Sound(homes, world.state) && WritersAreCounted(world) && Quiet(world.state) && Legal(homes, world, event)
    ensures Quiet(Step(homes, world, event).state) <==> !LateWrite(world, event)
    ensures Quiescent(Step(homes, world, event)) <==> !LateWrite(world, event)
  {
    StepIsSound(homes, world, event);
    StepCountsWriters(homes, world, event);
    if LateWrite(world, event) {
      LateStep(homes, world, event);
      hide Sound, Quiet, Step, Legal, LateWrite, WritersAreCounted, Quiescent;
    } else {
      StepIsQuiet(homes, world, event);
      hide Sound, Quiet, Step, Legal, LateWrite, WritersAreCounted, Quiescent;
      QuietIsQuiescent(homes, Step(homes, world, event));
    }
  }

  lemma LateStep(homes: Homes, world: World, event: Event)
    requires Sound(homes, world.state) && WritersAreCounted(world) && Legal(homes, world, event)
        && LateWrite(world, event)
    ensures !Quiet(Step(homes, world, event).state) && !Quiescent(Step(homes, world, event))
  {
    var d, participant := event.documentId, event.participant;
    var after := WriteStep(homes, world, d, participant);
    assert Step(homes, world, event) == after;
    LateWriteStarts(homes, world, d, participant);
    hide Sound, WriteStep, WritersAreCounted, Step, Legal;
    if Quiet(after.state) {
      QuietBarrier(after.state, d);
    }
  }

  // ---------- runs ----------

  ghost predicate JoinedRun(homes: Homes, world: World, events: seq<Event>)
    requires LegalRun(homes, world, events)
    decreases |events|
  {
    events != [] ==> FromJoined(world, events[0]) && JoinedRun(homes, Step(homes, world, events[0]), events[1..])
  }

  ghost predicate RunWithoutLateWrite(homes: Homes, world: World, events: seq<Event>)
    requires LegalRun(homes, world, events)
    decreases |events|
  {
    events != [] ==> !LateWrite(world, events[0]) && RunWithoutLateWrite(homes, Step(homes, world, events[0]),
                                                                         events[1..])
  }

  /** Every state on the way is quiescent. */
  ghost predicate QuiescentThroughout(homes: Homes, world: World, events: seq<Event>)
    requires LegalRun(homes, world, events)
    decreases |events|
  {
    Quiescent(world) && (events != [] ==> QuiescentThroughout(homes, Step(homes, world, events[0]), events[1..]))
  }

  /** Completions are quiescent throughout a run if and only if no update of it is a late write. */
  lemma {:induction false} QuiescentExactly(homes: Homes, world: World, events: seq<Event>)
    requires Sound(homes, world.state) && WritersAreCounted(world) && Quiet(world.state)
    requires LegalRun(homes, world, events)
    ensures QuiescentThroughout(homes, world, events) <==> RunWithoutLateWrite(homes, world, events)
    decreases |events|
  {
    QuietIsQuiescent(homes, world);
    if events != [] {
      hide Sound, Quiet, Step, Legal, LateWrite, Quiescent;
      var next := Step(homes, world, events[0]);
      StepIsSound(homes, world, events[0]);
      StepCountsWriters(homes, world, events[0]);
      StepIsQuietExactly(homes, world, events[0]);
      if LateWrite(world, events[0]) {
        assert !QuiescentThroughout(homes, next, events[1..]);
      } else {
        QuiescentExactly(homes, next, events[1..]);
      }
    }
  }

  lemma {:induction false} JoinedRunHasNoLateWrite(homes: Homes, world: World, events: seq<Event>)
    requires Sound(homes, world.state) && WritersAreCounted(world) && Quiet(world.state)
    requires LegalRun(homes, world, events) && JoinedRun(homes, world, events)
    ensures RunWithoutLateWrite(homes, world, events)
    decreases |events|
  {
    if events != [] {
      hide Sound, Quiet, Step, Legal, FromJoined, LateWrite;
      JoinedIsNotLate(homes, world, events[0]);
      StepIsSound(homes, world, events[0]);
      StepCountsWriters(homes, world, events[0]);
      StepIsQuiet(homes, world, events[0]);
      JoinedRunHasNoLateWrite(homes, Step(homes, world, events[0]), events[1..]);
    }
  }

  lemma {:induction false} ThroughoutAtEnd(homes: Homes, world: World, events: seq<Event>)
    requires LegalRun(homes, world, events) && QuiescentThroughout(homes, world, events)
    ensures Quiescent(After(homes, world, events))
    decreases |events|
  {
    if events != [] {
      hide Quiescent, Step, Legal;
      ThroughoutAtEnd(homes, Step(homes, world, events[0]), events[1..]);
    }
  }

  /** However joins, disconnects, late reads, writers and timers interleave: while a completion has fixed
      its sequence, no collaboration write and no external write of its meeting is in progress. */
  lemma CompletionIsQuiescent(homes: Homes, world: World, events: seq<Event>, documentId: Id)
    requires Sound(homes, world.state) && WritersAreCounted(world) && Quiet(world.state)
    requires LegalRun(homes, world, events) && JoinedRun(homes, world, events)
    ensures var after := After(homes, world, events);
            documentId in after.state.barriers && HasFixedSequence(after.state.barriers[documentId]) ==>
              && after.writing[after.state.barriers[documentId].meetingId] == 0
              && after.external[after.state.barriers[documentId].meetingId] == 0
  {
    JoinedRunHasNoLateWrite(homes, world, events);
    QuiescentExactly(homes, world, events);
    ThroughoutAtEnd(homes, world, events);
    hide Sound, Quiet, LegalRun, After, JoinedRun, WritersAreCounted;
  }

  const START := World(State(map[], map[], map[], map[], multiset{}, []), multiset{}, multiset{})

  lemma StartIsQuiet(homes: Homes)
    requires Injective(homes)
    ensures Sound(homes, START.state) && WritersAreCounted(START) && Quiet(START.state)
  {
  }

  // ---------- a write from a connection that has left ----------

  const DRAINED := Barrier(Completion, false, 100, 1, None, 5, {10}, {10}, {}, Confirming, None, AbortTimer)

  lemma {:induction false} RunExtended(homes: Homes, world: World, events: seq<Event>, event: Event)
    requires LegalRun(homes, world, events) && Legal(homes, After(homes, world, events), event)
    ensures LegalRun(homes, world, events + [event])
    ensures After(homes, world, events + [event]) == Step(homes, After(homes, world, events), event)
    decreases |events|
  {
    hide Legal, Step;
    if events == [] {
      assert ([event])[1..] == [];
      assert events + [event] == [event];
      assert LegalRun(homes, Step(homes, world, event), []);
      assert After(homes, Step(homes, world, event), []) == Step(homes, world, event);
    } else {
      RunExtended(homes, Step(homes, world, events[0]), events[1..], event);
      assert (events + [event])[1..] == events[1..] + [event];
    }
  }

  /** Two clients join, and the second leaves while its update is still on the way. */
  lemma OneClientStays(homes: Homes) returns (events: seq<Event>)
    requires homes == map[1 := 1]
    ensures LegalRun(homes, START, events)
    ensures After(homes, START, events) == START.(state := START.state.(connections := map[1 := {10}]))
  {
    var joined := START.(state := START.state.(connections := map[1 := {10}]));
    var both := START.(state := START.state.(connections := map[1 := {10, 20}]));
    events := [];
    assert Join(START.state, 1, 10).0 == joined.state by { assert {} + {10} == {10}; }
    assert Join(joined.state, 1, 20).0 == both.state by { assert {10} + {20} == {10, 20}; }
    assert Disconnect(both.state, 1, 20) == joined.state by { assert {10, 20} - {20} == {10}; }
    hide Join, Disconnect;
    RunExtended(homes, START, events, Joining(1, 10));
    events := events + [Joining(1, 10)];
    RunExtended(homes, START, events, Joining(1, 20));
    events := events + [Joining(1, 20)];
    RunExtended(homes, START, events, Disconnecting(1, 20));
    events := events + [Disconnecting(1, 20)];
  }

  /** Nobody writes, and the barriers and reads are as given. */
  predicate IsStage(world: World, barriers: map<Id, Barrier>, reading: multiset<(Id, Id)>) {
    world.state == State(barriers, map[1 := {10}], map[], map[], reading, []) && world.writing == multiset{}
  }

  lemma CompletionStage(homes: Homes, world: World)
    requires homes == map[1 := 1] && IsStage(world, map[], multiset{})
    ensures IsStage(Step(homes, world, CompletionBegins(1, 1, 5, 100)),
                    map[1 := DRAINED.(phase := Draining, drained := {})], multiset{})
  {
    assert |{10 as Id}| == 1;
    assert BeginCompletion(world.state, 1, 1, 5, 100).0.barriers ==
           map[1 := DRAINED.(phase := Draining, drained := {})];
  }

  lemma DrainedStage(homes: Homes, world: World)
    requires IsStage(world, map[1 := DRAINED.(phase := Draining, drained := {})], multiset{})
    ensures IsStage(Step(homes, world, Drains(1, 100, 10)), map[1 := DRAINED], multiset{(1, 100)})
  {
    assert {} + {10} == {10};
    var (drained, all) := Acknowledge(world.state, 1, 100, 10);
    assert all && drained.barriers == map[1 := DRAINED.(phase := Draining)];
    assert StartRead(drained, 1).barriers == map[1 := DRAINED];
    assert CompletionDrained(world.state, 1, 100, 10) == StartRead(drained, 1);
  }

  lemma ReadStage(homes: Homes, world: World)
    requires IsStage(world, map[1 := DRAINED], multiset{(1, 100)})
    ensures IsStage(Step(homes, world, ReadEnds(1, 100, 7)), map[1 := DRAINED.(serverSequence := Some(7))], multiset{})
  {
    assert multiset{(1, 100)} - multiset{(1, 100)} == multiset{};
    var read := world.state.(reading := multiset{}, barriers := map[1 := DRAINED.(serverSequence := Some(7))]);
    assert |{10 as Id}| == 1;
    assert ReadResolves(world.state, 1, 100, 7) == read;
  }

  /** The first client drains for a completion and is asked to confirm sequence 7. */
  lemma ReachesConfirming(homes: Homes) returns (events: seq<Event>)
    requires homes == map[1 := 1]
    ensures LegalRun(homes, START, events)
    ensures IsStage(After(homes, START, events), map[1 := DRAINED.(serverSequence := Some(7))], multiset{})
  {
    hide Step;
    events := OneClientStays(homes);
    CompletionStage(homes, After(homes, START, events));
    RunExtended(homes, START, events, CompletionBegins(1, 1, 5, 100));
    events := events + [CompletionBegins(1, 1, 5, 100)];
    DrainedStage(homes, After(homes, START, events));
    RunExtended(homes, START, events, Drains(1, 100, 10));
    events := events + [Drains(1, 100, 10)];
    ReadStage(homes, After(homes, START, events));
    RunExtended(homes, START, events, ReadEnds(1, 100, 7));
    events := events + [ReadEnds(1, 100, 7)];
  }

  /** From the start: the update of the client that has left slips in before the last confirmation, and the
      completion is finalized while that write is in progress. */
  lemma LateWriterBreaksQuiescence(homes: Homes) returns (before: seq<Event>, events: seq<Event>)
    requires homes == map[1 := 1]
    ensures LegalRun(homes, START, before) && LegalRun(homes, START, events)
    ensures events == before + [Writing(1, 20)] + [Confirms(1, 100, 10, 7)]
    ensures LateWrite(After(homes, START, before), Writing(1, 20))
    ensures var after := After(homes, START, events);
            && 1 in after.state.barriers && after.state.barriers[1].phase.Finalizing? && after.writing[1] == 1
            && !Quiescent(after)
  {
    before := ReachesConfirming(homes);
    var confirming := After(homes, START, before);
    var written := Step(homes, confirming, Writing(1, 20));
    LateWriteBegins(homes, confirming, written);
    LastConfirmation(homes, written, Step(homes, written, Confirms(1, 100, 10, 7)));
    hide Step;
    RunExtended(homes, START, before, Writing(1, 20));
    events := before + [Writing(1, 20)];
    RunExtended(homes, START, events, Confirms(1, 100, 10, 7));
    events := events + [Confirms(1, 100, 10, 7)];
  }

  lemma LateWriteBegins(homes: Homes, world: World, written: World)
    requires homes == map[1 := 1] && world.state.barriers == map[1 := DRAINED.(serverSequence := Some(7))]
    requires written == Step(homes, world, Writing(1, 20))
    ensures written.state.barriers == world.state.barriers && written.writing == world.writing + multiset{1}
  {
    var found := OfMeeting(world.state.barriers, 1);
  }

  lemma LastConfirmation(homes: Homes, written: World, confirmed: World)
    requires written.state.barriers == map[1 := DRAINED.(serverSequence := Some(7))]
    requires confirmed == Step(homes, written, Confirms(1, 100, 10, 7))
    ensures 1 in confirmed.state.barriers && confirmed.state.barriers[1].phase.Finalizing?
    ensures HasFixedSequence(confirmed.state.barriers[1]) && confirmed.writing == written.writing
    ensures confirmed.state.barriers[1].meetingId == 1
  {
    assert {} + {10} == {10};
  }
}
