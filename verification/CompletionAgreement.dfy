/** What the participants of a completion have confirmed (backend/src/meetings/meeting-compaction-coordinator.ts). A
    read that ends late replaces the sequence and keeps the confirmations of the earlier one. */
module CompletionAgreement {
  import opened Options
  import opened CompactionBarriers
  import opened BarrierRuns
  import opened BarrierSafety
  import opened CompletionQuiescence

  /** For barrier and participant, the sequence that the last confirmation counted there has named. */
  type Notes = map<(Id, Id), nat>

  /** The confirmation counts for the barrier of the document. */
  predicate Counts(state: State, event: Event) {
    event.Confirms? && event.documentId in state.barriers &&
    var barrier := state.barriers[event.documentId];
    && barrier.intention.Completion? && barrier.id == event.barrierId && barrier.phase.Confirming?
    && barrier.serverSequence == Some(event.sequence) && event.participant in barrier.participants
  }

  function Noted(notes: Notes, state: State, event: Event): Notes {
    if Counts(state, event) then notes[(event.barrierId, event.participant) := event.sequence] else notes
  }

  /** Everybody counted has confirmed the sequence in force. */
  predicate AgreedAt(barrier: Barrier, notes: Notes) {
    forall p | p in barrier.confirmed ::
      (barrier.id, p) in notes && barrier.serverSequence == Some(notes[(barrier.id, p)])
  }

  ghost predicate Agreed(state: State, notes: Notes) {
    forall d | d in state.barriers :: AgreedAt(state.barriers[d], notes)
  }

  /** A read ends with another sequence after somebody has confirmed the one before. */
  predicate Overwrites(world: World, event: Event) {
    event.ReadEnds? && event.documentId in world.state.barriers &&
    var barrier := world.state.barriers[event.documentId];
    && barrier.id == event.barrierId && barrier.phase.Confirming? && barrier.confirmed != {}
    && Count(world.state.collaborationWriters, barrier.meetingId) == 0 && barrier.serverSequence != Some(event.sequence)
  }

  // ---------- what the other events do ----------

  /** Every barrier has lost its confirmations or kept them with its id and sequence. */
  ghost predicate Calm(state: State, after: State) {
    forall d | d in after.barriers :: CalmAt(state, d, after.barriers[d])
  }

  predicate CalmAt(state: State, d: Id, barrier: Barrier) {
    barrier.confirmed == {}
    || (d in state.barriers && barrier.id == state.barriers[d].id && barrier.confirmed == state.barriers[d].confirmed
        && barrier.serverSequence == state.barriers[d].serverSequence)
  }

  lemma CalmReplaced(s: State, d: Id, barrier: Barrier)
    requires CalmAt(s, d, barrier)
    ensures Calm(s, Replaced(s, d, barrier))
  {
  }

  lemma CalmReleased(s: State, d: Id, outcome: ReleaseOutcome)
    requires d in s.barriers
    ensures Calm(s, Released(s, d, outcome))
  {
  }

  lemma CalmSame(s: State, after: State)
    requires after.barriers == s.barriers
    ensures Calm(s, after)
  {
  }

  lemma CalmVia(s: State, middle: State, after: State)
    requires middle.barriers == s.barriers && Calm(middle, after)
    ensures Calm(s, after)
  {
  }

  lemma AbortIsCalm(s: State, d: Id, barrierId: Option<Id>)
    ensures Calm(s, Abort(s, d, barrierId))
  {
    hide Calm;
    CalmSame(s, s);
    if d in s.barriers {
      CalmReplaced(s, d, s.barriers[d].(cancelled := true));
      CalmReleased(s, d, Aborted);
    }
  }

  lemma DrainIsCalm(homes: Homes, s: State, d: Id, barrierId: Id, participant: Id, sequence: nat)
    requires Sound(homes, s)
    ensures Calm(s, Acknowledge(s, d, barrierId, participant).0)
    ensures Calm(s, MakeReady(s, d, barrierId, sequence).0)
  {
    hide Calm, Sound;
    CalmSame(s, s);
    if d in s.barriers {
      FoundIsSound(homes, s, d);
      CalmReplaced(s, d, s.barriers[d].(drained := s.barriers[d].drained + {participant}));
      if s.barriers[d].phase.Draining? {
        CalmReplaced(s, d, s.barriers[d].(phase := Ready, serverSequence := Some(sequence)));
      }
    }
  }

  lemma JoinIsCalm(s: State, d: Id, participant: Id)
    ensures Calm(s, Join(s, d, participant).0) && Calm(s, Disconnect(s, d, participant))
    ensures Calm(s, PrepareUpdate(s, d, participant).0)
  {
    hide Calm, Abort;
    var joined, left := Joined(s, d, participant), Left(s, d, participant);
    CalmSame(s, s);
    CalmSame(s, joined);
    CalmSame(s, left);
    if d in s.barriers {
      CalmReplaced(joined, d, WithParticipant(s.barriers[d], participant));
      CalmVia(s, joined, Replaced(joined, d, WithParticipant(s.barriers[d], participant)));
      AbortIsCalm(left, d, Some(s.barriers[d].id));
      CalmVia(s, left, Abort(left, d, Some(s.barriers[d].id)));
      CalmReleased(s, d, Aborted);
    }
  }

  lemma EndIsCalm(s: State, m: Id, barrierId: Id, user: Id, sequence: nat)
    ensures Calm(s, Complete(s, m, barrierId)) && Calm(s, Fail(s, m, barrierId)) && Calm(s, AbortMeeting(s, m))
    ensures Calm(s, Claim(s, m, barrierId, user).0) && Calm(s, ClaimSubmission(s, m, barrierId, user, sequence).0)
    ensures Calm(s, CancelCompletion(s, m, barrierId, user))
  {
    hide Calm, Abort;
    var found, ofMeeting := WithId(s.barriers, barrierId), OfMeeting(s.barriers, m);
    CalmSame(s, s);
    if found.Some? {
      CalmReleased(s, found.value, Aborted);
      CalmReleased(s, found.value, if s.barriers[found.value].intention.Completion? then Completed else Compacted);
      CalmReplaced(s, found.value, s.barriers[found.value].(phase := Committing, timer := NoTimer));
      CalmReplaced(s, found.value, s.barriers[found.value].(phase := Committing));
      AbortIsCalm(s, found.value, Some(barrierId));
    }
    if ofMeeting.Some? {
      CalmReleased(s, ofMeeting.value, Aborted);
    }
  }

  lemma WriteIsCalm(homes: Homes, world: World, d: Id, participant: Id)
    requires d in homes
    ensures Calm(world.state, WriteStep(homes, world, d, participant).state)
  {
    hide Calm;
    JoinIsCalm(world.state, d, participant);
    var prepared, after := PrepareUpdate(world.state, d, participant).0, WriteStep(homes, world, d, participant).state;
    CalmFollows(world.state, prepared, after);
  }

  lemma CalmFollows(s: State, middle: State, after: State)
    requires after.barriers == middle.barriers && Calm(s, middle)
    ensures Calm(s, after)
  {
  }

  lemma ExternalIsCalm(s: State, m: Id)
    ensures Calm(s, BeginExternal(s, m).0)
  {
    hide Calm;
    var found := OfMeeting(s.barriers, m);
    CalmSame(s, s);
    if found.Some? {
      CalmReleased(s, found.value, Aborted);
    }
    if BeginExternal(s, m).1 {
      CalmFollows(s, if found.Some? then Released(s, found.value, Aborted) else s, BeginExternal(s, m).0);
    }
  }

  lemma WriterIsCalm(homes: Homes, world: World, event: Event)
    requires Legal(homes, world, event) && IsWriterEvent(event)
    ensures Calm(world.state, Step(homes, world, event).state)
  {
    hide Calm, WriteStep, BeginExternal;
    match event {
      case Writing(d, participant) => WriteIsCalm(homes, world, d, participant);
      case ExternalBegins(m) => ExternalIsCalm(world.state, m);
      case WriteEnds(m) => CalmSame(world.state, EndCollaboration(world.state, m));
      case ExternalEnds(m) => CalmSame(world.state, EndExternal(world.state, m));
    }
  }

  lemma OpenIsCalm(s: State, m: Id, d: Id, compactor: Option<Id>, user: Id, participants: set<Id>, id: Id)
    ensures Calm(s, Open(s, m, d, compactor, user, participants, id).0)
    ensures Calm(s, BeginCompletion(s, m, d, user, id).0)
  {
    hide Calm, StartRead;
    CalmSame(s, s);
    if d !in s.barriers && Count(s.externalWriters, m) == 0 {
      CalmReplaced(s, d,
                   Barrier(Compaction, false, id, m, compactor, user, participants, {}, {}, Draining, None,
                           AbortTimer));
      BegunCompletion(s, m, d, user, id);
      hide BeginCompletion;
      StartReadIsCalm(s, Replaced(s, d, NewCompletion(s, m, d, user, id)), d);
    }
  }

  lemma StartReadIsCalm(s: State, middle: State, d: Id)
    requires d in middle.barriers && middle.barriers - {d} == s.barriers - {d} && CalmAt(s, d, middle.barriers[d])
    ensures Calm(s, StartRead(middle, d))
  {
    var after := StartRead(middle, d);
    forall other | other in after.barriers ensures CalmAt(s, other, after.barriers[other]) {
      if other != d {
        assert other in middle.barriers - {d} && other in s.barriers - {d};
        assert (middle.barriers - {d})[other] == (s.barriers - {d})[other];
      }
    }
  }

  lemma DrainsIsCalm(homes: Homes, s: State, d: Id, barrierId: Id, participant: Id)
    requires Sound(homes, s)
    ensures Calm(s, CompletionDrained(s, d, barrierId, participant))
  {
    DrainIsCalm(homes, s, d, barrierId, participant, 0);
    CalmSame(s, s);
    if d in s.barriers {
      var (drained, all) := Acknowledge(s, d, barrierId, participant);
      if all {
        assert drained.barriers - {d} == s.barriers - {d};
        StartReadIsCalm(s, drained, d);
      }
    }
    hide Calm, Sound, StartRead;
  }

  lemma TimerIsCalm(s: State, d: Id)
    ensures Calm(s, TimerFires(s, d))
  {
    hide Calm, Abort, Fail;
    CalmSame(s, s);
    if d in s.barriers {
      AbortIsCalm(s, d, Some(s.barriers[d].id));
      EndIsCalm(s, s.barriers[d].meetingId, s.barriers[d].id, 0, 0);
    }
  }

  lemma ReadFailsIsCalm(s: State, d: Id, barrierId: Id)
    ensures Calm(s, ReadFails(s, d, barrierId))
  {
    hide Calm, Abort;
    var ended := s.(reading := s.reading - multiset{(d, barrierId)});
    AbortIsCalm(ended, d, Some(barrierId));
    CalmVia(s, ended, ReadFails(s, d, barrierId));
  }

  lemma CompletionStepIsCalm(homes: Homes, world: World, event: Event)
    requires Sound(homes, world.state) && Legal(homes, world, event) && OfCompletion(event)
    requires !event.ReadEnds? && !event.Confirms?
    ensures Calm(world.state, Step(homes, world, event).state)
  {
    hide Calm, Sound, CompletionDrained, ReadFails, BeginCompletion, ClaimSubmission, CancelCompletion;
    var s := world.state;
    match event
    case CompletionBegins(m, d, user, id) => OpenIsCalm(s, m, d, None, user, {}, id);
    case Drains(d, id, participant) => DrainsIsCalm(homes, s, d, id, participant);
    case ReadErrs(d, id) => ReadFailsIsCalm(s, d, id);
    case Submitting(m, id, user, sequence) => EndIsCalm(s, m, id, user, sequence);
    case Cancelling(m, id, user) => EndIsCalm(s, m, id, user, 0);
  }

  lemma OtherStepIsCalm(homes: Homes, world: World, event: Event)
    requires Sound(homes, world.state) && Legal(homes, world, event)
    requires !event.ReadEnds? && !event.Confirms?
    ensures Calm(world.state, Step(homes, world, event).state)
  {
    hide Calm, Sound, TimerFires, Abort, Join, Acknowledge, MakeReady, PrepareUpdate, Disconnect, Open, Claim, Complete,
      Fail, AbortMeeting, WriteStep;
    var s := world.state;
    if IsWriterEvent(event) {
      WriterIsCalm(homes, world, event);
    } else if OfCompletion(event) {
      CompletionStepIsCalm(homes, world, event);
    } else {
      match event {
        case Opening(m, d, connection, user, participants, id) =>
          OpenIsCalm(s, m, d, Some(connection), user, participants, id);
        case Joining(d, participant) => JoinIsCalm(s, d, participant);
        case Acknowledging(d, id, participant) => DrainIsCalm(homes, s, d, id, participant, 0);
        case Readying(d, id, sequence) => DrainIsCalm(homes, s, d, id, 0, sequence);
        case Claiming(m, id, user) => EndIsCalm(s, m, id, user, 0);
        case Completing(m, id) => EndIsCalm(s, m, id, 0, 0);
        case Failing(m, id) => EndIsCalm(s, m, id, 0, 0);
        case Aborting(d, id) => AbortIsCalm(s, d, id);
        case AbortingMeeting(m) => EndIsCalm(s, m, 0, 0, 0);
        case Disconnecting(d, participant) => JoinIsCalm(s, d, participant);
        case Preparing(d, participant) => JoinIsCalm(s, d, participant);
        case Firing(d) => TimerIsCalm(s, d);
      }
    }
  }

  lemma CalmAgrees(s: State, after: State, notes: Notes)
    requires Agreed(s, notes) && Calm(s, after)
    ensures Agreed(after, notes)
  {
    forall d | d in after.barriers ensures AgreedAt(after.barriers[d], notes) {
      assert CalmAt(s, d, after.barriers[d]);
    }
  }

  // ---------- the two events that matter ----------

  /** What the end of a read does to the barriers. */
  lemma ReadEffectOnBarriers(s: State, d: Id, barrierId: Id, sequence: nat)
    ensures var after := ReadResolves(s, d, barrierId, sequence);
            if d in s.barriers && s.barriers[d].id == barrierId && s.barriers[d].phase.Confirming?
               && Count(s.collaborationWriters, s.barriers[d].meetingId) == 0 then
              && after.barriers.Keys == s.barriers.Keys && after.barriers - {d} == s.barriers - {d}
              && after.barriers[d].id == barrierId && after.barriers[d].confirmed == s.barriers[d].confirmed
              && after.barriers[d].serverSequence == Some(sequence)
            else Calm(s, after)
  {
    var ended := s.(reading := s.reading - multiset{(d, barrierId)});
    CalmSame(s, ended);
    AbortIsCalm(ended, d, Some(barrierId));
    CalmVia(s, ended, Abort(ended, d, Some(barrierId)));
    hide Calm, Abort;
  }

  lemma ConfirmEffectOnBarriers(s: State, d: Id, barrierId: Id, participant: Id, sequence: nat)
    ensures var after := ConfirmCompletion(s, d, barrierId, participant, sequence);
            if Counts(s, Confirms(d, barrierId, participant, sequence)) then
              && after.barriers.Keys == s.barriers.Keys && after.barriers - {d} == s.barriers - {d}
              && after.barriers[d].id == barrierId
              && after.barriers[d].confirmed == s.barriers[d].confirmed + {participant}
              && after.barriers[d].serverSequence == Some(sequence)
            else after == s
  {
  }

  lemma OnlyOneDiffers(s: State, after: State, d: Id, other: Id)
    requires after.barriers.Keys == s.barriers.Keys && after.barriers - {d} == s.barriers - {d}
    requires other in after.barriers && other != d
    ensures other in s.barriers && after.barriers[other] == s.barriers[other]
  {
    assert other in after.barriers - {d};
    assert (after.barriers - {d})[other] == (s.barriers - {d})[other];
  }

  lemma ReadAgreesExactly(homes: Homes, world: World, notes: Notes, d: Id, barrierId: Id, sequence: nat)
    requires Sound(homes, world.state) && Agreed(world.state, notes)
    ensures Agreed(ReadResolves(world.state, d, barrierId, sequence), notes) <==>
            !Overwrites(world, ReadEnds(d, barrierId, sequence))
  {
    var s := world.state;
    var after := ReadResolves(s, d, barrierId, sequence);
    ReadEffectOnBarriers(s, d, barrierId, sequence);
    hide ReadResolves, Sound;
    if Calm(s, after) && !Overwrites(world, ReadEnds(d, barrierId, sequence)) {
      CalmAgrees(s, after, notes);
    } else {
      assert AgreedAt(s.barriers[d], notes);
      forall other | other in after.barriers && other != d ensures AgreedAt(after.barriers[other], notes) {
        OnlyOneDiffers(s, after, d, other);
        assert AgreedAt(s.barriers[other], notes);
      }
      if Overwrites(world, ReadEnds(d, barrierId, sequence)) {
        var p :| p in s.barriers[d].confirmed;
        assert !AgreedAt(after.barriers[d], notes);
      }
    }
  }

  lemma ConfirmAgrees(homes: Homes, s: State, notes: Notes, event: Event)
    requires Sound(homes, s) && Agreed(s, notes) && event.Confirms?
    ensures Agreed(ConfirmCompletion(s, event.documentId, event.barrierId, event.participant, event.sequence),
                   Noted(notes, s, event))
  {
    var d, p := event.documentId, event.participant;
    var after := ConfirmCompletion(s, d, event.barrierId, p, event.sequence);
    ConfirmEffectOnBarriers(s, d, event.barrierId, p, event.sequence);
    hide ConfirmCompletion;
    if Counts(s, event) {
      forall other | other in after.barriers ensures AgreedAt(after.barriers[other], Noted(notes, s, event)) {
        assert AgreedAt(s.barriers[other], notes);
        if other != d {
          OnlyOneDiffers(s, after, d, other);
          OtherId(homes, s, d, other);
        }
      }
    }
    hide Sound;
  }

  lemma OtherId(homes: Homes, s: State, d: Id, other: Id)
    requires Sound(homes, s) && d in s.barriers && other in s.barriers && other != d
    ensures s.barriers[d].id != s.barriers[other].id
  {
    hide BarrierIsSound;
  }

  /** One event leaves a counted confirmation of another sequence than the one in force if and only if it is a read that
      overwrites the sequence. */
  lemma StepAgreesExactly(homes: Homes, world: World, notes: Notes, event: Event)
    requires Sound(homes, world.state) && Agreed(world.state, notes) && Legal(homes, world, event)
    ensures Agreed(Step(homes, world, event).state, Noted(notes, world.state, event)) <==> !Overwrites(world, event)
  {
    hide Sound, Agreed, ReadResolves, ConfirmCompletion;
    if event.ReadEnds? {
      ReadAgreesExactly(homes, world, notes, event.documentId, event.barrierId, event.sequence);
    } else if event.Confirms? {
      ConfirmAgrees(homes, world.state, notes, event);
    } else {
      OtherStepIsCalm(homes, world, event);
      hide Step, Calm;
      CalmAgrees(world.state, Step(homes, world, event).state, notes);
    }
  }

  // ---------- runs ----------

  ghost predicate RunWithoutOverwriting(homes: Homes, world: World, events: seq<Event>)
    requires LegalRun(homes, world, events)
    decreases |events|
  {
    events != [] ==> !Overwrites(world, events[0]) && RunWithoutOverwriting(homes, Step(homes, world, events[0]),
                                                                            events[1..])
  }

  ghost predicate AgreedThroughout(homes: Homes, world: World, notes: Notes, events: seq<Event>)
    requires LegalRun(homes, world, events)
    decreases |events|
  {
    Agreed(world.state, notes)
    && (events != [] ==>
          AgreedThroughout(homes, Step(homes, world, events[0]), Noted(notes, world.state, events[0]), events[1..]))
  }

  ghost function NotesAfter(homes: Homes, world: World, notes: Notes, events: seq<Event>): Notes
    requires LegalRun(homes, world, events)
    decreases |events|
  {
    if events == [] then notes
    else NotesAfter(homes, Step(homes, world, events[0]), Noted(notes, world.state, events[0]), events[1..])
  }

  /** Throughout a run all counted confirmations name the sequence in force if and only if no read overwrites one. */
  lemma {:induction false} AgreedExactly(homes: Homes, world: World, notes: Notes, events: seq<Event>)
    requires Sound(homes, world.state) && WritersAreCounted(world) && Agreed(world.state, notes)
    requires LegalRun(homes, world, events)
    ensures AgreedThroughout(homes, world, notes, events) <==> RunWithoutOverwriting(homes, world, events)
    decreases |events|
  {
    hide Sound, Agreed, Step, Legal, Overwrites, Noted, WritersAreCounted;
    if events != [] {
      var next, noted := Step(homes, world, events[0]), Noted(notes, world.state, events[0]);
      StepIsSound(homes, world, events[0]);
      StepCountsWriters(homes, world, events[0]);
      StepAgreesExactly(homes, world, notes, events[0]);
      if Overwrites(world, events[0]) {
        assert !AgreedThroughout(homes, next, noted, events[1..]);
      } else {
        AgreedExactly(homes, next, noted, events[1..]);
      }
    }
  }

  lemma {:induction false} AgreedAtEnd(homes: Homes, world: World, notes: Notes, events: seq<Event>)
    requires LegalRun(homes, world, events) && AgreedThroughout(homes, world, notes, events)
    ensures Agreed(After(homes, world, events).state, NotesAfter(homes, world, notes, events))
    decreases |events|
  {
    if events != [] {
      hide Agreed, Step, Legal, Noted;
      AgreedAtEnd(homes, Step(homes, world, events[0]), Noted(notes, world.state, events[0]), events[1..]);
    }
  }

  /** In a run without overwriting a completion in finalization or commit has been confirmed, by every participant, at
      the very sequence it will complete with. */
  lemma FinalizedAsConfirmed(homes: Homes, events: seq<Event>, d: Id)
    requires Injective(homes) && LegalRun(homes, START, events) && RunWithoutOverwriting(homes, START, events)
    requires var after := After(homes, START, events).state;
             d in after.barriers && after.barriers[d].intention.Completion? && IsLocked(after.barriers[d])
    ensures var barrier := After(homes, START, events).state.barriers[d];
            && barrier.serverSequence.Some?
            && forall p | p in barrier.participants ::
                 (barrier.id, p) in NotesAfter(homes, START, map[], events)
                 && NotesAfter(homes, START, map[], events)[(barrier.id, p)] == barrier.serverSequence.value
  {
    StartIsQuiet(homes);
    assert Agreed(START.state, map[]);
    AgreedExactly(homes, START, map[], events);
    AgreedAtEnd(homes, START, map[], events);
    RunsAreSound(homes, START, events);
    hide After, NotesAfter, LegalRun, RunWithoutOverwriting, AgreedThroughout;
    var after := After(homes, START, events).state;
    FoundIsSound(homes, after, d);
    hide Sound;
    assert AgreedAt(after.barriers[d], NotesAfter(homes, START, map[], events));
  }

  // ---------- who has confirmed ----------

  /** A participant that counts as confirmed did before, or confirms now. */
  lemma ConfirmedNowOrBefore(homes: Homes, world: World, event: Event, d: Id, p: Id)
    requires Sound(homes, world.state) && Legal(homes, world, event)
    requires var after := Step(homes, world, event).state; d in after.barriers && p in after.barriers[d].confirmed
    ensures var id := Step(homes, world, event).state.barriers[d].id;
            || (d in world.state.barriers && world.state.barriers[d].id == id && p in world.state.barriers[d].confirmed)
            || (Counts(world.state, event) && event.documentId == d && event.barrierId == id && event.participant == p)
  {
    var s, after := world.state, Step(homes, world, event).state;
    if event.ReadEnds? {
      ReadEffectOnBarriers(s, event.documentId, event.barrierId, event.sequence);
      hide ReadResolves, Sound;
      if Calm(s, after) {
        assert CalmAt(s, d, after.barriers[d]);
      } else if d != event.documentId {
        OnlyOneDiffers(s, after, event.documentId, d);
      }
    } else if event.Confirms? {
      ConfirmEffectOnBarriers(s, event.documentId, event.barrierId, event.participant, event.sequence);
      hide ConfirmCompletion, Sound;
      if Counts(s, event) && d != event.documentId {
        OnlyOneDiffers(s, after, event.documentId, d);
      }
    } else {
      OtherStepIsCalm(homes, world, event);
      hide Step, Sound;
      assert CalmAt(s, d, after.barriers[d]);
    }
  }

  /** Every participant that counts as confirmed has sent its confirmation for that barrier in the course of the run. */
  lemma {:induction false} ConfirmedHasSent(homes: Homes, world: World, events: seq<Event>, d: Id, p: Id)
    requires Sound(homes, world.state) && WritersAreCounted(world) && LegalRun(homes, world, events)
    requires var after := After(homes, world, events).state; d in after.barriers && p in after.barriers[d].confirmed
    ensures var id := After(homes, world, events).state.barriers[d].id;
            || (d in world.state.barriers && world.state.barriers[d].id == id && p in world.state.barriers[d].confirmed)
            || exists i :: 0 <= i < |events| && IsConfirmation(events[i], d, id, p)
    decreases |events|
  {
    if events != [] {
      hide Sound, Step, Legal, WritersAreCounted;
      var next := Step(homes, world, events[0]);
      var id := After(homes, world, events).state.barriers[d].id;
      StepIsSound(homes, world, events[0]);
      StepCountsWriters(homes, world, events[0]);
      ConfirmedHasSent(homes, next, events[1..], d, p);
      if i :| 0 <= i < |events[1..]| && IsConfirmation(events[1..][i], d, id, p) {
        assert IsConfirmation(events[i + 1], d, id, p);
      } else {
        ConfirmedNowOrBefore(homes, world, events[0], d, p);
        assert Counts(world.state, events[0]) ==>
                 IsConfirmation(events[0], d, events[0].barrierId, events[0].participant)
                                                   || events[0].documentId != d;
      }
    }
  }

  predicate IsConfirmation(event: Event, d: Id, barrierId: Id, p: Id) {
    event.Confirms? && event.documentId == d && event.barrierId == barrierId && event.participant == p
  }

  // ---------- a read of an earlier round ----------

  /** Nobody writes, and the completion, the connections and the reads are as given. */
  predicate IsRound(world: World, barrier: Barrier, connections: set<Id>, reading: multiset<(Id, Id)>) {
    world.state == State(map[1 := barrier], map[1 := connections], map[], map[], reading, [])
  }

  /** The completion of two clients, both drained, after a second read has started. */
  const TWO := Barrier(Completion, false, 100, 1, None, 5, {10, 11}, {10, 11}, {}, Confirming, None, AbortTimer)

  const READ: (Id, Id) := (1, 100)

  lemma FirstClient(homes: Homes) returns (events: seq<Event>)
    requires homes == map[1 := 1]
    ensures LegalRun(homes, START, events)
    ensures IsRound(After(homes, START, events), TWO.(participants := {10}, drained := {10}), {10}, multiset{READ})
  {
    hide Step;
    events := OneClientStays(homes);
    CompletionStage(homes, After(homes, START, events));
    RunExtended(homes, START, events, CompletionBegins(1, 1, 5, 100));
    events := events + [CompletionBegins(1, 1, 5, 100)];
    DrainedStage(homes, After(homes, START, events));
    RunExtended(homes, START, events, Drains(1, 100, 10));
    events := events + [Drains(1, 100, 10)];
  }

  lemma SecondClientJoins(homes: Homes, world: World)
    requires IsRound(world, TWO.(participants := {10}, drained := {10}), {10}, multiset{READ})
    ensures IsRound(Step(homes, world, Joining(1, 11)), TWO.(drained := {10}, phase := Draining), {10, 11},
                    multiset{READ})
  {
    assert {10} + {11} == {10, 11};
  }

  lemma SecondClientDrains(homes: Homes, world: World)
    requires IsRound(world, TWO.(drained := {10}, phase := Draining), {10, 11}, multiset{READ})
    ensures IsRound(Step(homes, world, Drains(1, 100, 11)), TWO, {10, 11}, multiset{READ, READ})
  {
    assert {10} + {11} == {10, 11};
    var (drained, all) := Acknowledge(world.state, 1, 100, 11);
    assert all && drained.barriers == map[1 := TWO.(phase := Draining)];
    assert CompletionDrained(world.state, 1, 100, 11) == StartRead(drained, 1);
    assert multiset{READ} + multiset{READ} == multiset{READ, READ};
  }

  lemma FirstReadEnds(homes: Homes, world: World)
    requires IsRound(world, TWO, {10, 11}, multiset{READ, READ})
    ensures IsRound(Step(homes, world, ReadEnds(1, 100, 7)), TWO.(serverSequence := Some(7)), {10, 11}, multiset{READ})
  {
    assert multiset{READ, READ} - multiset{READ} == multiset{READ};
    assert |{10 as Id, 11}| == 2;
  }

  lemma FirstClientConfirms(homes: Homes, world: World)
    requires IsRound(world, TWO.(serverSequence := Some(7)), {10, 11}, multiset{READ})
    ensures IsRound(Step(homes, world, Confirms(1, 100, 10, 7)), TWO.(serverSequence := Some(7), confirmed := {10}),
                    {10, 11},
                    multiset{READ})
  {
    assert {} + {10} == {10};
    assert |{10 as Id, 11}| == 2 && |{10 as Id}| == 1;
  }

  lemma SecondReadEnds(homes: Homes, world: World)
    requires IsRound(world, TWO.(serverSequence := Some(7), confirmed := {10}), {10, 11}, multiset{READ})
    ensures IsRound(Step(homes, world, ReadEnds(1, 100, 8)), TWO.(serverSequence := Some(8), confirmed := {10}),
                    {10, 11},
                    multiset{})
  {
    assert |{10 as Id, 11}| == 2 && |{10 as Id}| == 1;
  }

  lemma SecondClientConfirms(homes: Homes, world: World)
    requires IsRound(world, TWO.(serverSequence := Some(8), confirmed := {10}), {10, 11}, multiset{})
    ensures Step(homes, world, Confirms(1, 100, 11, 8)).state.barriers ==
            map[1 := TWO.(serverSequence := Some(8), confirmed := {10, 11}, phase := Finalizing, timer := FailTimer)]
  {
    assert {10} + {11} == {10, 11};
  }

  /** Both clients have drained, the second in a round of its own. */
  lemma TwoRounds(homes: Homes) returns (events: seq<Event>)
    requires homes == map[1 := 1]
    ensures LegalRun(homes, START, events)
    ensures IsRound(After(homes, START, events), TWO, {10, 11}, multiset{READ, READ})
  {
    hide Step, After, LegalRun;
    events := FirstClient(homes);
    SecondClientJoins(homes, After(homes, START, events));
    RunExtended(homes, START, events, Joining(1, 11));
    events := events + [Joining(1, 11)];
    SecondClientDrains(homes, After(homes, START, events));
    RunExtended(homes, START, events, Drains(1, 100, 11));
    events := events + [Drains(1, 100, 11)];
  }

  lemma ConfirmedSeven(homes: Homes) returns (events: seq<Event>)
    requires homes == map[1 := 1]
    ensures LegalRun(homes, START, events) && |events| > 0 && events[|events| - 1] == Confirms(1, 100, 10, 7)
    ensures IsRound(After(homes, START, events), TWO.(serverSequence := Some(7), confirmed := {10}), {10, 11},
                    multiset{READ})
  {
    hide Step, After, LegalRun;
    events := TwoRounds(homes);
    FirstReadEnds(homes, After(homes, START, events));
    RunExtended(homes, START, events, ReadEnds(1, 100, 7));
    events := events + [ReadEnds(1, 100, 7)];
    FirstClientConfirms(homes, After(homes, START, events));
    RunExtended(homes, START, events, Confirms(1, 100, 10, 7));
    events := events + [Confirms(1, 100, 10, 7)];
  }

  /** From the start: a client confirms sequence 7, which a read of the first round has brought, then the read of the
      second round brings sequence 8, and the completion is finalized at 8 with both confirmations. */
  lemma LateReadOverwrites(homes: Homes) returns (before: seq<Event>, events: seq<Event>)
    requires homes == map[1 := 1]
    ensures LegalRun(homes, START, before) && LegalRun(homes, START, events)
    ensures |before| > 0 && before[|before| - 1] == Confirms(1, 100, 10, 7)
    ensures events == before + [ReadEnds(1, 100, 8)] + [Confirms(1, 100, 11, 8)]
    ensures Overwrites(After(homes, START, before), ReadEnds(1, 100, 8))
    ensures After(homes, START, events).state.barriers ==
            map[1 := TWO.(serverSequence := Some(8), confirmed := {10, 11}, phase := Finalizing, timer := FailTimer)]
  {
    hide Step, After, LegalRun;
    before := ConfirmedSeven(homes);
    SecondReadEnds(homes, After(homes, START, before));
    RunExtended(homes, START, before, ReadEnds(1, 100, 8));
    events := before + [ReadEnds(1, 100, 8)];
    SecondClientConfirms(homes, After(homes, START, events));
    RunExtended(homes, START, events, Confirms(1, 100, 11, 8));
    events := events + [Confirms(1, 100, 11, 8)];
  }
}
