/** What one event does to one barrier, field by field, and what it reports
    (backend/src/meetings/meeting-compaction-coordinator.ts). */
module BarrierContract {
  import opened Options
  import opened CompactionBarriers
  import opened BarrierRuns
  import opened BarrierSafety

  // ---------- what an event means for a barrier ----------

  /** The barrier waits for its commit or is being committed: no write may begin. */
  predicate IsClosing(barrier: Barrier) {
    barrier.phase.Finalizing? || barrier.phase.Committing?
  }

  /** The event takes back the barrier: one of its clients or its user gives up, a write needs the document, or the
      sequence cannot be read. */
  predicate Withdraws(event: Event, d: Id, barrier: Barrier) {
    match event
    case Aborting(documentId, aborted) => documentId == d && (aborted.None? || aborted.value == barrier.id)
    case Disconnecting(documentId, participant) => documentId == d && participant in barrier.participants
    case ReadErrs(documentId, barrierId) => documentId == d && barrierId == barrier.id
    case Cancelling(meetingId, barrierId, user) =>
      && barrierId == barrier.id && meetingId == barrier.meetingId && barrier.intention.Completion?
      && user == barrier.compactorUser
    case _ => false
  }

  /** The barrier ends with this event. */
  predicate Ends(state: State, event: Event, d: Id, barrier: Barrier) {
    || (Withdraws(event, d, barrier) && !barrier.phase.Committing?)
    || match event
       case Completing(meetingId, barrierId) => barrierId == barrier.id && meetingId == barrier.meetingId
       case Failing(meetingId, barrierId) => barrierId == barrier.id && meetingId == barrier.meetingId
       case AbortingMeeting(meetingId) => meetingId == barrier.meetingId && !barrier.phase.Committing?
       case Preparing(documentId, participant) =>
         documentId == d && participant in barrier.drained && !IsClosing(barrier)
       case Writing(documentId, participant) => documentId == d && participant in barrier.drained && !IsClosing(barrier)
       case ExternalBegins(meetingId) => meetingId == barrier.meetingId && !IsClosing(barrier)
       case ReadEnds(documentId, barrierId, _) =>
         && documentId == d && barrierId == barrier.id && barrier.phase.Confirming?
         && Count(state.collaborationWriters, barrier.meetingId) > 0
       case Firing(documentId) => documentId == d && !(barrier.phase.Committing? && barrier.intention.Compaction?)
       case _ => false
  }

  /** A client joins the round of the barrier; a completion that is locked goes on without it. */
  predicate Admits(event: Event, d: Id, barrier: Barrier) {
    event.Joining? && event.documentId == d && !(barrier.intention.Completion? && IsClosing(barrier))
  }

  /** A participant reports that it has drained. */
  predicate Reports(event: Event, d: Id, barrier: Barrier) {
    && (event.Acknowledging? || (event.Drains? && barrier.intention.Completion?))
    && event.documentId == d && event.barrierId == barrier.id && event.participant in barrier.participants
    && barrier.phase.Draining?
  }

  /** A participant confirms the sequence in force. */
  predicate Confirming(event: Event, d: Id, barrier: Barrier) {
    && event.Confirms? && event.documentId == d && event.barrierId == barrier.id && barrier.intention.Completion?
    && barrier.phase.Confirming? && barrier.serverSequence == Some(event.sequence)
    && event.participant in barrier.participants
  }

  /** A read brings the sequence to confirm. */
  predicate Reads(state: State, event: Event, d: Id, barrier: Barrier) {
    && event.ReadEnds? && event.documentId == d && event.barrierId == barrier.id && barrier.phase.Confirming?
    && Count(state.collaborationWriters, barrier.meetingId) == 0
  }

  /** Everybody has drained, and the sequence a compaction has to cover is known. */
  predicate Readies(event: Event, d: Id, barrier: Barrier) {
    && event.Readying? && event.documentId == d && event.barrierId == barrier.id && barrier.phase.Draining?
    && barrier.drained == barrier.participants
  }

  /** The compactor or the user who completes takes up its turn. */
  predicate TakesUp(event: Event, barrier: Barrier) {
    || (event.Claiming? && event.barrierId == barrier.id && event.meetingId == barrier.meetingId
        && event.user == barrier.compactorUser && barrier.intention.Compaction? && barrier.phase.Ready?)
    || (event.Submitting? && event.barrierId == barrier.id && event.meetingId == barrier.meetingId
        && event.user == barrier.compactorUser && barrier.intention.Completion? && barrier.phase.Finalizing?
        && barrier.serverSequence == Some(event.sequence))
  }

  // ---------- the fields of a barrier that goes on ----------

  function ParticipantsAfter(event: Event, d: Id, barrier: Barrier): set<Id> {
    if Admits(event, d, barrier) then barrier.participants + {event.participant} else barrier.participants
  }

  function DrainedAfter(event: Event, d: Id, barrier: Barrier): set<Id> {
    if Reports(event, d, barrier) then barrier.drained + {event.participant} else barrier.drained
  }

  function ConfirmedAfter(event: Event, d: Id, barrier: Barrier): set<Id> {
    if Admits(event, d, barrier) then {}
    else if Confirming(event, d, barrier) then barrier.confirmed + {event.participant}
    else barrier.confirmed
  }

  function SequenceAfter(state: State, event: Event, d: Id, barrier: Barrier): Option<nat> {
    if Admits(event, d, barrier) && !barrier.phase.Committing? then None
    else if Reads(state, event, d, barrier) || Readies(event, d, barrier) then Some(event.sequence)
    else barrier.serverSequence
  }

  function PhaseAfter(state: State, event: Event, d: Id, barrier: Barrier): Phase {
    if barrier.phase.Committing? then Committing
    else if Admits(event, d, barrier) then Draining
    else if TakesUp(event, barrier) then Committing
    else if Readies(event, d, barrier) then Ready
    else if event.Drains? && Reports(event, d, barrier) && DrainedAfter(event, d, barrier) == barrier.participants then
      Phase.Confirming
    else if (Reads(state, event, d, barrier) || Confirming(event, d, barrier))
            && ConfirmedAfter(event, d, barrier) == barrier.participants then Finalizing
    else barrier.phase
  }

  /** A completion that is being committed cannot be released any more, only marked. */
  predicate CancelledAfter(event: Event, d: Id, barrier: Barrier) {
    barrier.cancelled || (Withdraws(event, d, barrier) && barrier.phase.Committing? && barrier.intention.Completion?)
  }

  /** The timeout follows from the phase. */
  function TimerFor(intention: Intention, phase: Phase): Timer {
    if phase.Finalizing? || (phase.Committing? && intention.Completion?) then FailTimer
    else if phase.Committing? then NoTimer
    else AbortTimer
  }

  function BarrierAfter(state: State, event: Event, d: Id, barrier: Barrier): Barrier {
    Barrier(barrier.intention, CancelledAfter(event, d, barrier), barrier.id, barrier.meetingId,
            barrier.compactorConnection,
            barrier.compactorUser, ParticipantsAfter(event, d, barrier), DrainedAfter(event, d, barrier),
            ConfirmedAfter(event, d, barrier), PhaseAfter(state, event, d, barrier),
            SequenceAfter(state, event, d, barrier),
            TimerFor(barrier.intention, PhaseAfter(state, event, d, barrier)))
  }

  function OutcomeOf(event: Event, barrier: Barrier): ReleaseOutcome {
    if !event.Completing? then Aborted else if barrier.intention.Completion? then Completed else Compacted
  }

  /** The barrier of the document goes on as it should, or ends and is reported once. */
  ghost predicate GoesOn(state: State, after: State, event: Event, d: Id)
    requires d in state.barriers
  {
    var barrier := state.barriers[d];
    if Ends(state, event, d, barrier) then
      && d !in after.barriers
      && after.released ==
         state.released + [Release(barrier.id, barrier.intention, barrier.participants, OutcomeOf(event, barrier))]
    else d in after.barriers && after.barriers[d] == BarrierAfter(state, event, d, barrier)
  }

  // ---------- one event at a time ----------

  /** A search by id or meeting finds the barrier. */
  lemma SearchFinds(homes: Homes, s: State, d: Id)
    requires Sound(homes, s) && d in s.barriers
    ensures forall id :: WithId(s.barriers, id) == Some(d) <==> s.barriers[d].id == id
    ensures forall m :: OfMeeting(s.barriers, m) == Some(d) <==> s.barriers[d].meetingId == m
    ensures BarrierIsSound(s.barriers[d])
  {
    OneBarrierPerMeeting(homes, s);
    hide BarrierIsSound;
  }

  /** Nothing about the barrier is asked for, and it is as before. */
  lemma Unconcerned(s: State, after: State, event: Event, d: Id)
    requires d in s.barriers && d in after.barriers && after.barriers[d] == s.barriers[d]
        && BarrierIsSound(s.barriers[d])
    requires !Ends(s, event, d, s.barriers[d]) && !Admits(event, d, s.barriers[d]) && !Reports(event, d, s.barriers[d])
    requires !Confirming(event, d, s.barriers[d]) && !Reads(s, event, d, s.barriers[d])
        && !Readies(event, d, s.barriers[d])
    requires !TakesUp(event, s.barriers[d])
    requires Withdraws(event, d, s.barriers[d]) ==>
               s.barriers[d].phase.Committing? && s.barriers[d].intention.Compaction?
    ensures GoesOn(s, after, event, d)
  {
  }

  predicate IsWithdrawal(event: Event) {
    event.Aborting? || event.Disconnecting? || event.ReadErrs? || event.Cancelling?
  }

  lemma WithdrawnGoesOn(s: State, after: State, event: Event, d: Id)
    requires d in s.barriers && BarrierIsSound(s.barriers[d]) && IsWithdrawal(event)
    requires if !Withdraws(event, d, s.barriers[d]) then d in after.barriers && after.barriers[d] == s.barriers[d]
             else if !s.barriers[d].phase.Committing? then
               && d !in after.barriers
               && after.released == s.released + [Release(s.barriers[d].id, s.barriers[d].intention,
                                                          s.barriers[d].participants, Aborted)]
             else
               d in after.barriers
               && after.barriers[d] == s.barriers[d].(cancelled := s.barriers[d].cancelled || s.barriers[d].intention.Completion?)
    ensures GoesOn(s, after, event, d)
  {
  }

  lemma AbortGoesOn(homes: Homes, s: State, event: Event, d: Id, barrierId: Option<Id>, other: Id)
    requires Sound(homes, s) && other in s.barriers && IsWithdrawal(event)
    requires Withdraws(event, other, s.barriers[other]) <==>
             other == d && (barrierId.None? || barrierId.value == s.barriers[other].id)
    ensures GoesOn(s, Abort(s, d, barrierId), event, other)
  {
    FoundIsSound(homes, s, other);
    hide Sound, GoesOn, Withdraws;
    AbortMeans(s, d, barrierId, other);
    WithdrawnGoesOn(s, Abort(s, d, barrierId), event, other);
  }

  lemma AbortMeans(s: State, d: Id, barrierId: Option<Id>, other: Id)
    requires other in s.barriers && BarrierIsSound(s.barriers[other])
    ensures var after, barrier := Abort(s, d, barrierId), s.barriers[other];
            if other != d || (barrierId.Some? && barrierId.value != barrier.id) then
              other in after.barriers && after.barriers[other] == barrier
            else if !barrier.phase.Committing? then
              && other !in after.barriers
              && after.released == s.released + [Release(barrier.id, barrier.intention, barrier.participants, Aborted)]
            else
              other in after.barriers
              && after.barriers[other] == barrier.(cancelled := barrier.cancelled || barrier.intention.Completion?)
  {
  }

  lemma JoinGoesOn(homes: Homes, s: State, event: Event, d: Id, participant: Id, other: Id)
    requires Sound(homes, s) && other in s.barriers && event == Joining(d, participant)
    ensures GoesOn(s, Join(s, d, participant).0, event, other)
  {
    SearchFinds(homes, s, other);
    hide Sound;
  }

  lemma DrainGoesOn(homes: Homes, s: State, d: Id, barrierId: Id, participant: Id, other: Id)
    requires Sound(homes, s) && other in s.barriers
    ensures GoesOn(s, Acknowledge(s, d, barrierId, participant).0, Acknowledging(d, barrierId, participant), other)
  {
    SearchFinds(homes, s, other);
    hide Sound;
  }

  lemma ReadyGoesOn(homes: Homes, s: State, d: Id, barrierId: Id, sequence: nat, other: Id)
    requires Sound(homes, s) && other in s.barriers
    ensures GoesOn(s, MakeReady(s, d, barrierId, sequence).0, Readying(d, barrierId, sequence), other)
  {
    SearchFinds(homes, s, other);
    SameSize(s.barriers[other].drained, s.barriers[other].participants);
    hide Sound;
  }

  /** A barrier that is found and released ends, and so does no other. */
  lemma EndedGoesOn(s: State, after: State, event: Event, d: Id, found: Option<Id>)
    requires d in s.barriers && BarrierIsSound(s.barriers[d])
    requires event.Completing? || event.Failing? || event.AbortingMeeting? || event.ExternalBegins?
    requires Ends(s, event, d, s.barriers[d]) ==> found == Some(d)
    requires found.Some? ==> found.value in s.barriers
    requires if Ends(s, event, d, s.barriers[d]) then
               && d !in after.barriers
               && after.released == s.released + [Release(s.barriers[d].id, s.barriers[d].intention,
                                                          s.barriers[d].participants,
                                                          OutcomeOf(event, s.barriers[d]))]
             else d in after.barriers && after.barriers[d] == s.barriers[d]
    ensures GoesOn(s, after, event, d)
  {
  }

  lemma CompleteGoesOn(homes: Homes, s: State, m: Id, barrierId: Id, d: Id)
    requires Sound(homes, s) && d in s.barriers
    ensures GoesOn(s, Complete(s, m, barrierId), Completing(m, barrierId), d)
    ensures GoesOn(s, Fail(s, m, barrierId), Failing(m, barrierId), d)
  {
    SearchFinds(homes, s, d);
    var found := WithId(s.barriers, barrierId);
    hide Sound, GoesOn;
    EndedGoesOn(s, Complete(s, m, barrierId), Completing(m, barrierId), d, found);
    EndedGoesOn(s, Fail(s, m, barrierId), Failing(m, barrierId), d, found);
  }

  lemma MeetingGoesOn(homes: Homes, s: State, m: Id, d: Id)
    requires Sound(homes, s) && d in s.barriers
    ensures GoesOn(s, AbortMeeting(s, m), AbortingMeeting(m), d)
    ensures GoesOn(s, BeginExternal(s, m).0, ExternalBegins(m), d)
  {
    SearchFinds(homes, s, d);
    var found := OfMeeting(s.barriers, m);
    hide Sound, GoesOn;
    EndedGoesOn(s, AbortMeeting(s, m), AbortingMeeting(m), d, found);
    EndedGoesOn(s, BeginExternal(s, m).0, ExternalBegins(m), d, found);
  }

  lemma ClaimGoesOn(homes: Homes, s: State, m: Id, barrierId: Id, user: Id, d: Id)
    requires Sound(homes, s) && d in s.barriers
    ensures GoesOn(s, Claim(s, m, barrierId, user).0, Claiming(m, barrierId, user), d)
  {
    SearchFinds(homes, s, d);
    hide Sound;
  }

  lemma SubmissionGoesOn(homes: Homes, s: State, m: Id, barrierId: Id, user: Id, sequence: nat, d: Id)
    requires Sound(homes, s) && d in s.barriers
    ensures GoesOn(s, ClaimSubmission(s, m, barrierId, user, sequence).0, Submitting(m, barrierId, user, sequence), d)
  {
    SearchFinds(homes, s, d);
    hide Sound;
  }

  lemma CancelGoesOn(homes: Homes, s: State, m: Id, barrierId: Id, user: Id, d: Id)
    requires Sound(homes, s) && d in s.barriers
    ensures GoesOn(s, CancelCompletion(s, m, barrierId, user), Cancelling(m, barrierId, user), d)
  {
    SearchFinds(homes, s, d);
    var found, event := WithId(s.barriers, barrierId), Cancelling(m, barrierId, user);
    hide Sound, GoesOn;
    if found.Some? {
      AbortMeans(s, found.value, Some(barrierId), d);
    }
    hide Abort;
    WithdrawnGoesOn(s, CancelCompletion(s, m, barrierId, user), event, d);
  }

  lemma DisconnectMeans(s: State, d: Id, participant: Id, other: Id)
    requires other in s.barriers && BarrierIsSound(s.barriers[other])
    ensures var after, barrier := Disconnect(s, d, participant), s.barriers[other];
            if other != d || participant !in barrier.participants then
              other in after.barriers && after.barriers[other] == barrier
            else if !barrier.phase.Committing? then
              && other !in after.barriers
              && after.released == s.released + [Release(barrier.id, barrier.intention, barrier.participants, Aborted)]
            else
              other in after.barriers
              && after.barriers[other] == barrier.(cancelled := barrier.cancelled || barrier.intention.Completion?)
  {
    if d in s.barriers {
      AbortMeans(Left(s, d, participant), d, Some(s.barriers[d].id), other);
    }
    hide Abort, BarrierIsSound;
  }

  lemma DisconnectGoesOn(homes: Homes, s: State, d: Id, participant: Id, other: Id)
    requires Sound(homes, s) && other in s.barriers
    ensures GoesOn(s, Disconnect(s, d, participant), Disconnecting(d, participant), other)
  {
    FoundIsSound(homes, s, other);
    hide Sound, GoesOn, Disconnect, BarrierIsSound;
    DisconnectMeans(s, d, participant, other);
    WithdrawnGoesOn(s, Disconnect(s, d, participant), Disconnecting(d, participant), other);
  }

  lemma ReadFailsGoesOn(homes: Homes, s: State, d: Id, barrierId: Id, other: Id)
    requires Sound(homes, s) && other in s.barriers
    ensures GoesOn(s, ReadFails(s, d, barrierId), ReadErrs(d, barrierId), other)
  {
    FoundIsSound(homes, s, other);
    hide Sound, GoesOn;
    AbortMeans(s.(reading := s.reading - multiset{(d, barrierId)}), d, Some(barrierId), other);
    hide Abort;
    WithdrawnGoesOn(s, ReadFails(s, d, barrierId), ReadErrs(d, barrierId), other);
  }

  lemma PrepareReference(s: State, d: Id, participant: Id)
    requires d in s.barriers && BarrierIsSound(s.barriers[d])
    ensures var event, barrier := Preparing(d, participant), s.barriers[d];
            && (Ends(s, event, d, barrier) <==> participant in barrier.drained && !IsClosing(barrier))
            && OutcomeOf(event, barrier) == Aborted && BarrierAfter(s, event, d, barrier) == barrier
  {
  }

  lemma PrepareMeans(s: State, d: Id, participant: Id, other: Id)
    requires other in s.barriers
    ensures var after, barrier := PrepareUpdate(s, d, participant).0, s.barriers[other];
            if other == d && participant in barrier.drained && !IsClosing(barrier) then
              && other !in after.barriers
              && after.released == s.released + [Release(barrier.id, barrier.intention, barrier.participants, Aborted)]
            else other in after.barriers && after.barriers[other] == barrier
  {
  }

  lemma PrepareGoesOn(homes: Homes, s: State, d: Id, participant: Id, other: Id)
    requires Sound(homes, s) && other in s.barriers
    ensures GoesOn(s, PrepareUpdate(s, d, participant).0, Preparing(d, participant), other)
  {
    FoundIsSound(homes, s, other);
    PrepareMeans(s, d, participant, other);
    hide Sound, PrepareUpdate, Ends, BarrierAfter, BarrierIsSound, OutcomeOf;
    if other == d {
      PrepareReference(s, d, participant);
    } else {
      ElsewhereGoesOn(s, PrepareUpdate(s, d, participant).0, Preparing(d, participant), d, other);
    }
  }

  lemma WriteGoesOn(homes: Homes, world: World, d: Id, participant: Id, other: Id)
    requires Sound(homes, world.state) && other in world.state.barriers && d in homes
    ensures GoesOn(world.state, WriteStep(homes, world, d, participant).state, Writing(d, participant), other)
  {
    PrepareGoesOn(homes, world.state, d, participant, other);
    FoundIsSound(homes, world.state, other);
    WriteLikePrepare(world.state, PrepareUpdate(world.state, d, participant).0,
                     WriteStep(homes, world, d, participant).state,
                     d, participant, other);
    hide Sound, PrepareUpdate, GoesOn;
  }

  lemma WriteLikePrepare(s: State, prepared: State, after: State, d: Id, participant: Id, other: Id)
    requires other in s.barriers && GoesOn(s, prepared, Preparing(d, participant), other)
        && BarrierIsSound(s.barriers[other])
    requires after.barriers == prepared.barriers && after.released == prepared.released
    ensures GoesOn(s, after, Writing(d, participant), other)
  {
  }

  lemma StartReadMeans(s: State, d: Id, other: Id)
    requires d in s.barriers && other in s.barriers && BarrierIsSound(s.barriers[d])
    ensures other in StartRead(s, d).barriers
    ensures StartRead(s, d).barriers[other] ==
            if other == d && s.barriers[d].intention.Completion? && s.barriers[d].phase.Draining?
               && s.barriers[d].drained == s.barriers[d].participants
            then s.barriers[d].(phase := Phase.Confirming) else s.barriers[other]
  {
    SameSize(s.barriers[d].drained, s.barriers[d].participants);
  }

  /** Events about another document. */
  lemma ElsewhereGoesOn(s: State, after: State, event: Event, d: Id, other: Id)
    requires other in s.barriers && BarrierIsSound(s.barriers[other]) && other != d
    requires event.Drains? || event.ReadEnds? || event.Confirms? || event.Firing? || event.Preparing? || event.Opening?
             || event.CompletionBegins?
    requires event.documentId == d && other in after.barriers && after.barriers[other] == s.barriers[other]
    ensures GoesOn(s, after, event, other)
  {
  }

  /** What the contract asks of the report of a drained client. */
  lemma DrainsReference(s: State, d: Id, barrierId: Id, participant: Id)
    requires d in s.barriers && BarrierIsSound(s.barriers[d])
    ensures var event, barrier := Drains(d, barrierId, participant), s.barriers[d];
            && !Ends(s, event, d, barrier)
            && BarrierAfter(s, event, d, barrier) ==
               if barrier.intention.Completion? && barrier.id == barrierId && participant in barrier.participants
                  && barrier.phase.Draining?
               then var drained := barrier.drained + {participant};
                    barrier.(drained := drained, phase := if drained == barrier.participants then Phase.Confirming
                                                          else Draining)
               else barrier
  {
  }

  lemma DrainsMeans(s: State, d: Id, barrierId: Id, participant: Id)
    requires d in s.barriers && BarrierIsSound(s.barriers[d])
    ensures var barrier, after := s.barriers[d], CompletionDrained(s, d, barrierId, participant);
            && d in after.barriers
            && after.barriers[d] ==
               if barrier.intention.Completion? && barrier.id == barrierId && participant in barrier.participants
                  && barrier.phase.Draining?
               then var drained := barrier.drained + {participant};
                    barrier.(drained := drained, phase := if drained == barrier.participants then Phase.Confirming
                                                          else Draining)
               else barrier
  {
    var (drained, all) := Acknowledge(s, d, barrierId, participant);
    if participant in s.barriers[d].participants {
      SameSize(s.barriers[d].drained + {participant}, s.barriers[d].participants);
    }
  }

  lemma DrainsElsewhere(s: State, d: Id, barrierId: Id, participant: Id, other: Id)
    requires other in s.barriers && other != d
    ensures var after := CompletionDrained(s, d, barrierId, participant);
            other in after.barriers && after.barriers[other] == s.barriers[other]
  {
  }

  lemma DrainsGoesOn(homes: Homes, s: State, d: Id, barrierId: Id, participant: Id, other: Id)
    requires Sound(homes, s) && other in s.barriers
    ensures GoesOn(s, CompletionDrained(s, d, barrierId, participant), Drains(d, barrierId, participant), other)
  {
    FoundIsSound(homes, s, other);
    hide Sound, CompletionDrained, Ends, BarrierAfter, BarrierIsSound;
    if other == d {
      DrainsReference(s, d, barrierId, participant);
      DrainsMeans(s, d, barrierId, participant);
    } else {
      DrainsElsewhere(s, d, barrierId, participant, other);
      ElsewhereGoesOn(s, CompletionDrained(s, d, barrierId, participant), Drains(d, barrierId, participant), d, other);
    }
  }

  lemma ClaimCompletionMeans(s: State, d: Id, other: Id)
    requires d in s.barriers && other in s.barriers && s.barriers[d].confirmed <= s.barriers[d].participants
    ensures other in ClaimCompletion(s, d).barriers
    ensures ClaimCompletion(s, d).barriers[other] ==
            if other == d && s.barriers[d].intention.Completion? && s.barriers[d].phase.Confirming?
               && s.barriers[d].serverSequence.Some? && s.barriers[d].confirmed == s.barriers[d].participants
            then s.barriers[d].(phase := Finalizing, timer := FailTimer) else s.barriers[other]
  {
    SameSize(s.barriers[d].confirmed, s.barriers[d].participants);
  }

  lemma ReadReference(s: State, d: Id, barrierId: Id, sequence: nat)
    requires d in s.barriers && BarrierIsSound(s.barriers[d])
    ensures var event, barrier := ReadEnds(d, barrierId, sequence), s.barriers[d];
            var counts := barrier.id == barrierId && barrier.phase.Confirming?;
            && (Ends(s, event, d, barrier) <==> counts && Count(s.collaborationWriters, barrier.meetingId) > 0)
            && OutcomeOf(event, barrier) == Aborted
            && (!Ends(s, event, d, barrier) ==>
                  BarrierAfter(s, event, d, barrier) ==
                  if !counts then barrier
                  else if barrier.confirmed == barrier.participants then
                    barrier.(serverSequence := Some(sequence), phase := Finalizing, timer := FailTimer)
                  else barrier.(serverSequence := Some(sequence)))
  {
  }

  lemma ReadMeans(s: State, d: Id, barrierId: Id, sequence: nat)
    requires d in s.barriers && BarrierIsSound(s.barriers[d])
    ensures var barrier, after := s.barriers[d], ReadResolves(s, d, barrierId, sequence);
            var counts := barrier.id == barrierId && barrier.phase.Confirming?;
            if counts && Count(s.collaborationWriters, barrier.meetingId) > 0 then
              && d !in after.barriers
              && after.released == s.released + [Release(barrier.id, barrier.intention, barrier.participants, Aborted)]
            else
              && d in after.barriers
              && after.barriers[d] ==
                 if !counts then barrier
                 else if barrier.confirmed == barrier.participants then
                   barrier.(serverSequence := Some(sequence), phase := Finalizing, timer := FailTimer)
                 else barrier.(serverSequence := Some(sequence))
  {
    var ended := s.(reading := s.reading - multiset{(d, barrierId)});
    AbortMeans(ended, d, Some(barrierId), d);
    ClaimCompletionMeans(Replaced(ended, d, s.barriers[d].(serverSequence := Some(sequence))), d, d);
    hide Abort, ClaimCompletion;
  }

  lemma ReadElsewhere(s: State, d: Id, barrierId: Id, sequence: nat, other: Id)
    requires other in s.barriers && other != d
    ensures var after := ReadResolves(s, d, barrierId, sequence);
            other in after.barriers && after.barriers[other] == s.barriers[other]
  {
  }

  lemma ReadGoesOn(homes: Homes, s: State, d: Id, barrierId: Id, sequence: nat, other: Id)
    requires Sound(homes, s) && other in s.barriers
    ensures GoesOn(s, ReadResolves(s, d, barrierId, sequence), ReadEnds(d, barrierId, sequence), other)
  {
    FoundIsSound(homes, s, other);
    hide Sound, ReadResolves, Ends, BarrierAfter, BarrierIsSound, OutcomeOf;
    if other == d {
      ReadReference(s, d, barrierId, sequence);
      ReadMeans(s, d, barrierId, sequence);
    } else {
      ReadElsewhere(s, d, barrierId, sequence, other);
      ElsewhereGoesOn(s, ReadResolves(s, d, barrierId, sequence), ReadEnds(d, barrierId, sequence), d, other);
    }
  }

  lemma ConfirmReference(s: State, d: Id, barrierId: Id, participant: Id, sequence: nat)
    requires d in s.barriers && BarrierIsSound(s.barriers[d])
    ensures var event, barrier := Confirms(d, barrierId, participant, sequence), s.barriers[d];
            && !Ends(s, event, d, barrier)
            && BarrierAfter(s, event, d, barrier) ==
               if barrier.id == barrierId && barrier.phase.Confirming? && barrier.serverSequence == Some(sequence)
                  && participant in barrier.participants
               then var confirmed := barrier.confirmed + {participant};
                    if confirmed == barrier.participants then
                      barrier.(confirmed := confirmed, phase := Finalizing, timer := FailTimer)
                    else barrier.(confirmed := confirmed)
               else barrier
  {
  }

  lemma ConfirmMeans(s: State, d: Id, barrierId: Id, participant: Id, sequence: nat)
    requires d in s.barriers && BarrierIsSound(s.barriers[d])
    ensures var barrier, after := s.barriers[d], ConfirmCompletion(s, d, barrierId, participant, sequence);
            && d in after.barriers
            && after.barriers[d] ==
               if barrier.id == barrierId && barrier.phase.Confirming? && barrier.serverSequence == Some(sequence)
                  && participant in barrier.participants
               then var confirmed := barrier.confirmed + {participant};
                    if confirmed == barrier.participants then
                      barrier.(confirmed := confirmed, phase := Finalizing, timer := FailTimer)
                    else barrier.(confirmed := confirmed)
               else barrier
  {
    if participant in s.barriers[d].participants {
      ClaimCompletionMeans(Replaced(s, d, s.barriers[d].(confirmed := s.barriers[d].confirmed + {participant})), d, d);
    }
    hide ClaimCompletion;
  }

  lemma ConfirmElsewhere(s: State, d: Id, barrierId: Id, participant: Id, sequence: nat, other: Id)
    requires other in s.barriers && other != d
    ensures var after := ConfirmCompletion(s, d, barrierId, participant, sequence);
            other in after.barriers && after.barriers[other] == s.barriers[other]
  {
  }

  lemma ConfirmGoesOn(homes: Homes, s: State, d: Id, barrierId: Id, participant: Id, sequence: nat, other: Id)
    requires Sound(homes, s) && other in s.barriers
    ensures GoesOn(s, ConfirmCompletion(s, d, barrierId, participant, sequence),
                   Confirms(d, barrierId, participant, sequence), other)
  {
    FoundIsSound(homes, s, other);
    hide Sound, ConfirmCompletion, Ends, BarrierAfter, BarrierIsSound;
    if other == d {
      ConfirmReference(s, d, barrierId, participant, sequence);
      ConfirmMeans(s, d, barrierId, participant, sequence);
    } else {
      ConfirmElsewhere(s, d, barrierId, participant, sequence, other);
      ElsewhereGoesOn(s, ConfirmCompletion(s, d, barrierId, participant, sequence),
                      Confirms(d, barrierId, participant, sequence), d, other);
    }
  }

  lemma TimerReference(s: State, d: Id)
    requires d in s.barriers && BarrierIsSound(s.barriers[d])
    ensures var event, barrier := Firing(d), s.barriers[d];
            && (Ends(s, event, d, barrier) <==> !barrier.timer.NoTimer?) && OutcomeOf(event, barrier) == Aborted
            && (!Ends(s, event, d, barrier) ==> BarrierAfter(s, event, d, barrier) == barrier)
  {
  }

  lemma TimerMeans(homes: Homes, s: State, d: Id, other: Id)
    requires Sound(homes, s) && d in s.barriers && other in s.barriers
    ensures var after, barrier := TimerFires(s, d), s.barriers[other];
            if other != d || barrier.timer.NoTimer? then other in after.barriers && after.barriers[other] == barrier
            else
              && other !in after.barriers
              && after.released == s.released + [Release(barrier.id, barrier.intention, barrier.participants, Aborted)]
  {
    SearchFinds(homes, s, d);
    FoundIsSound(homes, s, other);
    AbortMeans(s, d, Some(s.barriers[d].id), other);
    hide Sound, Abort;
  }

  lemma TimerGoesOn(homes: Homes, s: State, d: Id, other: Id)
    requires Sound(homes, s) && other in s.barriers
    ensures GoesOn(s, TimerFires(s, d), Firing(d), other)
  {
    FoundIsSound(homes, s, other);
    if d in s.barriers {
      TimerMeans(homes, s, d, other);
    }
    hide Sound, TimerFires, Ends, BarrierAfter, BarrierIsSound, OutcomeOf;
    if other == d {
      TimerReference(s, d);
    } else {
      assert d !in s.barriers ==> TimerFires(s, d) == s by { TimerOfNone(s, d); }
      ElsewhereGoesOn(s, TimerFires(s, d), Firing(d), d, other);
    }
  }

  lemma TimerOfNone(s: State, d: Id)
    ensures d !in s.barriers ==> TimerFires(s, d) == s
  {
  }

  lemma OpenMeans(s: State, m: Id, d: Id, compactor: Option<Id>, user: Id, participants: set<Id>, id: Id, other: Id)
    requires other in s.barriers
    ensures var first := Open(s, m, d, compactor, user, participants, id).0;
            other in first.barriers && first.barriers[other] == s.barriers[other]
    ensures var begun := BeginCompletion(s, m, d, user, id).0;
            other in begun.barriers && begun.barriers[other] == s.barriers[other]
  {
    if d !in s.barriers && Count(s.externalWriters, m) == 0 {
      BegunCompletion(s, m, d, user, id);
      hide BeginCompletion;
    }
  }

  /** A barrier that is there is not opened again. */
  lemma OpenReference(s: State, event: Event, d: Id)
    requires d in s.barriers && BarrierIsSound(s.barriers[d]) && (event.Opening? || event.CompletionBegins?)
    ensures !Ends(s, event, d, s.barriers[d]) && BarrierAfter(s, event, d, s.barriers[d]) == s.barriers[d]
  {
  }

  lemma OpenGoesOn(homes: Homes, s: State, m: Id, d: Id, compactor: Option<Id>, user: Id, participants: set<Id>, id: Id,
                   event: Event, other: Id)
    requires Sound(homes, s) && other in s.barriers && (event.Opening? || event.CompletionBegins?)
    ensures GoesOn(s, Open(s, m, d, compactor, user, participants, id).0, event, other)
    ensures GoesOn(s, BeginCompletion(s, m, d, user, id).0, event, other)
  {
    FoundIsSound(homes, s, other);
    OpenMeans(s, m, d, compactor, user, participants, id, other);
    OpenReference(s, event, other);
    hide Sound, Open, BeginCompletion, Ends, BarrierAfter, BarrierIsSound;
  }

  lemma QuietWriterGoesOn(homes: Homes, s: State, after: State, event: Event, other: Id)
    requires Sound(homes, s) && other in s.barriers && (event.WriteEnds? || event.ExternalEnds?)
        && after.barriers == s.barriers
    ensures GoesOn(s, after, event, other)
  {
    FoundIsSound(homes, s, other);
    hide Sound;
    Unconcerned(s, after, event, other);
  }

  // ---------- every event ----------

  lemma CompletionGoesOn(homes: Homes, world: World, event: Event, d: Id)
    requires Sound(homes, world.state) && Legal(homes, world, event) && d in world.state.barriers && OfCompletion(event)
    ensures GoesOn(world.state, Step(homes, world, event).state, event, d)
  {
    hide Sound, GoesOn, CompletionDrained, ReadResolves, ReadFails, ConfirmCompletion, BeginCompletion, ClaimSubmission,
      CancelCompletion;
    var s := world.state;
    match event
    case CompletionBegins(m, document, user, id) => OpenGoesOn(homes, s, m, document, None, user, {}, id, event, d);
    case Drains(document, id, participant) => DrainsGoesOn(homes, s, document, id, participant, d);
    case ReadEnds(document, id, sequence) => ReadGoesOn(homes, s, document, id, sequence, d);
    case ReadErrs(document, id) => ReadFailsGoesOn(homes, s, document, id, d);
    case Confirms(document, id, participant, sequence) =>
      ConfirmGoesOn(homes, s, document, id, participant, sequence, d);
    case Submitting(m, id, user, sequence) => SubmissionGoesOn(homes, s, m, id, user, sequence, d);
    case Cancelling(m, id, user) => CancelGoesOn(homes, s, m, id, user, d);
  }

  /** Whatever happens, each barrier goes on or ends exactly as its own fields and the event say. */
  lemma StepGoesOn(homes: Homes, world: World, event: Event, d: Id)
    requires Sound(homes, world.state) && Legal(homes, world, event) && d in world.state.barriers
    ensures GoesOn(world.state, Step(homes, world, event).state, event, d)
  {
    hide Sound, GoesOn, Abort, Join, Acknowledge, MakeReady, PrepareUpdate, Disconnect, Open, Claim, Complete, Fail,
      AbortMeeting, WriteStep, BeginExternal, TimerFires;
    var s := world.state;
    if OfCompletion(event) {
      CompletionGoesOn(homes, world, event, d);
    } else {
      match event {
        case Opening(m, document, connection, user, participants, id) =>
          OpenGoesOn(homes, s, m, document, Some(connection), user, participants, id, event, d);
        case Joining(document, participant) => JoinGoesOn(homes, s, event, document, participant, d);
        case Acknowledging(document, id, participant) => DrainGoesOn(homes, s, document, id, participant, d);
        case Readying(document, id, sequence) => ReadyGoesOn(homes, s, document, id, sequence, d);
        case Claiming(m, id, user) => ClaimGoesOn(homes, s, m, id, user, d);
        case Completing(m, id) => CompleteGoesOn(homes, s, m, id, d);
        case Failing(m, id) => CompleteGoesOn(homes, s, m, id, d);
        case Aborting(document, id) =>
          assert Withdraws(event, d, s.barriers[d]) <==> d == document && (id.None? || id.value == s.barriers[d].id);
          AbortGoesOn(homes, s, event, document, id, d);
        case AbortingMeeting(m) => MeetingGoesOn(homes, s, m, d);
        case Disconnecting(document, participant) => DisconnectGoesOn(homes, s, document, participant, d);
        case Preparing(document, participant) => PrepareGoesOn(homes, s, document, participant, d);
        case Writing(document, participant) => WriteGoesOn(homes, world, document, participant, d);
        case WriteEnds(m) => QuietWriterGoesOn(homes, s, EndCollaboration(s, m), event, d);
        case ExternalBegins(m) => MeetingGoesOn(homes, s, m, d);
        case ExternalEnds(m) => QuietWriterGoesOn(homes, s, EndExternal(s, m), event, d);
        case Firing(document) => TimerGoesOn(homes, s, document, d);
      }
    }
  }

  // ---------- barriers that begin ----------

  /** A barrier of a document without one begins with a request, unless an external write of the meeting is in progress.
      */
  predicate Begins(state: State, event: Event, d: Id) {
    (event.Opening? || event.CompletionBegins?) && event.documentId == d && Count(state.externalWriters,
                                                                                  event.meetingId) == 0
  }

  /** A compaction waits for the participants named, a completion for everybody connected; with nobody to wait for it
      reads its sequence at once. */
  function NewBarrier(state: State, event: Event): Barrier
    requires event.Opening? || event.CompletionBegins?
  {
    if event.Opening? then
      Barrier(Compaction, false, event.id, event.meetingId, Some(event.connection), event.user, event.participants, {},
              {},
              Draining, None, AbortTimer)
    else
      var connected := ConnectionsOf(state, event.documentId);
      Barrier(Completion, false, event.id, event.meetingId, None, event.user, connected, {}, {},
              if connected == {} then Phase.Confirming else Draining, None, AbortTimer)
  }

  lemma BeginMeans(s: State, m: Id, d: Id, user: Id, id: Id, connection: Id, participants: set<Id>, other: Id)
    requires other !in s.barriers
    ensures var after := Open(s, m, d, Some(connection), user, participants, id).0;
            if Begins(s, Opening(m, d, connection, user, participants, id), other) then
              other in after.barriers && after.barriers[other] == NewBarrier(s, Opening(m, d, connection, user, participants, id))
            else other !in after.barriers
    ensures var after := BeginCompletion(s, m, d, user, id).0;
            if Begins(s, CompletionBegins(m, d, user, id), other) then
              other in after.barriers && after.barriers[other] == NewBarrier(s, CompletionBegins(m, d, user, id))
            else other !in after.barriers
  {
    if d !in s.barriers && Count(s.externalWriters, m) == 0 {
      BegunCompletion(s, m, d, user, id);
      SameSize({}, ConnectionsOf(s, d));
    }
    hide BeginCompletion;
  }

  /** Nothing else begins one. */
  lemma StepBegins(homes: Homes, world: World, event: Event, d: Id)
    requires Sound(homes, world.state) && Legal(homes, world, event) && d !in world.state.barriers
    ensures var after := Step(homes, world, event).state;
            if Begins(world.state, event, d) then d in after.barriers && after.barriers[d] == NewBarrier(world.state, event)
            else d !in after.barriers
  {
    var s := world.state;
    if event.Opening? {
      BeginMeans(s, event.meetingId, event.documentId, event.user, event.id, event.connection, event.participants, d);
      hide Open;
    } else if event.CompletionBegins? {
      BeginMeans(s, event.meetingId, event.documentId, event.user, event.id, 0, {}, d);
      hide BeginCompletion;
    } else {
      StepTouchesOne(homes, world, event);
      NoneAppears(homes, world, event, d);
    }
  }

  /** No barrier appears for the document, and the same clients are connected to it. */
  predicate NothingNew(s: State, after: State, d: Id) {
    (d !in s.barriers ==> d !in after.barriers) && after.connections == s.connections
  }

  lemma JoinIsNothingNew(s: State, document: Id, participant: Id, d: Id)
    ensures d !in s.barriers ==> d !in Join(s, document, participant).0.barriers
    ensures Join(s, document, participant).0.connections == Joined(s, document, participant).connections
  {
    hide WithParticipant;
  }

  lemma AbortIsNothingNew(s: State, document: Id, aborted: Option<Id>, d: Id)
    ensures NothingNew(s, Abort(s, document, aborted), d)
  {
  }

  lemma DisconnectIsNothingNew(s: State, document: Id, participant: Id, d: Id)
    ensures d !in s.barriers ==> d !in Disconnect(s, document, participant).barriers
    ensures Disconnect(s, document, participant).connections == Left(s, document, participant).connections
  {
    var left := Left(s, document, participant);
    if document in s.barriers {
      AbortIsNothingNew(left, document, Some(s.barriers[document].id), d);
    }
    hide Abort;
  }

  lemma DrainIsNothingNew(s: State, document: Id, id: Id, participant: Id, sequence: nat, d: Id)
    ensures NothingNew(s, Acknowledge(s, document, id, participant).0, d)
    ensures NothingNew(s, MakeReady(s, document, id, sequence).0, d)
    ensures NothingNew(s, PrepareUpdate(s, document, participant).0, d)
  {
  }

  lemma EndIsNothingNew(s: State, m: Id, id: Id, d: Id)
    ensures NothingNew(s, Complete(s, m, id), d) && NothingNew(s, Fail(s, m, id), d)
        && NothingNew(s, AbortMeeting(s, m), d)
    ensures NothingNew(s, BeginExternal(s, m).0, d)
  {
  }

  lemma ClaimIsNothingNew(s: State, m: Id, id: Id, user: Id, sequence: nat, d: Id)
    ensures NothingNew(s, Claim(s, m, id, user).0, d) && NothingNew(s, ClaimSubmission(s, m, id, user, sequence).0, d)
    ensures NothingNew(s, CancelCompletion(s, m, id, user), d)
  {
    var found := WithId(s.barriers, id);
    if found.Some? {
      AbortIsNothingNew(s, found.value, Some(id), d);
    }
    hide Abort;
  }

  lemma DrainsIsNothingNew(s: State, document: Id, id: Id, participant: Id, d: Id)
    ensures NothingNew(s, CompletionDrained(s, document, id, participant), d)
  {
    DrainIsNothingNew(s, document, id, participant, 0, d);
  }

  lemma ReadIsNothingNew(s: State, document: Id, id: Id, sequence: nat, d: Id)
    ensures NothingNew(s, ReadResolves(s, document, id, sequence), d) && NothingNew(s, ReadFails(s, document, id), d)
  {
    AbortIsNothingNew(s.(reading := s.reading - multiset{(document, id)}), document, Some(id), d);
    hide Abort;
  }

  lemma ConfirmIsNothingNew(s: State, document: Id, id: Id, participant: Id, sequence: nat, d: Id)
    ensures NothingNew(s, ConfirmCompletion(s, document, id, participant, sequence), d)
  {
  }

  lemma TimerIsNothingNew(s: State, document: Id, d: Id)
    ensures NothingNew(s, TimerFires(s, document), d)
  {
    if document in s.barriers {
      AbortIsNothingNew(s, document, Some(s.barriers[document].id), d);
      EndIsNothingNew(s, s.barriers[document].meetingId, s.barriers[document].id, d);
    }
    hide Abort, Fail;
  }

  lemma OpenConnects(s: State, m: Id, d: Id, compactor: Option<Id>, user: Id, participants: set<Id>, id: Id)
    ensures Open(s, m, d, compactor, user, participants, id).0.connections == s.connections
    ensures BeginCompletion(s, m, d, user, id).0.connections == s.connections
  {
  }

  lemma CompletionIsNothingNew(homes: Homes, world: World, event: Event, d: Id)
    requires Legal(homes, world, event) && OfCompletion(event) && !event.CompletionBegins?
    ensures NothingNew(world.state, Step(homes, world, event).state, d)
  {
    hide CompletionDrained, ReadResolves, ReadFails, ConfirmCompletion, ClaimSubmission, CancelCompletion, NothingNew;
    var s := world.state;
    match event
    case Drains(document, id, participant) => DrainsIsNothingNew(s, document, id, participant, d);
    case ReadEnds(document, id, sequence) => ReadIsNothingNew(s, document, id, sequence, d);
    case ReadErrs(document, id) => ReadIsNothingNew(s, document, id, 0, d);
    case Confirms(document, id, participant, sequence) =>
      ConfirmIsNothingNew(s, document, id, participant, sequence, d);
    case Submitting(m, id, user, sequence) => ClaimIsNothingNew(s, m, id, user, sequence, d);
    case Cancelling(m, id, user) => ClaimIsNothingNew(s, m, id, user, 0, d);
  }

  predicate MovesClients(event: Event) {
    event.Joining? || event.Disconnecting? || event.Opening? || event.CompletionBegins?
  }

  lemma OthersBringNothingNew(homes: Homes, world: World, event: Event, d: Id)
    requires Legal(homes, world, event) && !MovesClients(event)
    ensures NothingNew(world.state, Step(homes, world, event).state, d)
  {
    hide Abort, Acknowledge, MakeReady, PrepareUpdate, Claim, Complete, Fail, AbortMeeting, BeginExternal, TimerFires,
      NothingNew;
    var s := world.state;
    if OfCompletion(event) {
      CompletionIsNothingNew(homes, world, event, d);
    } else {
      match event {
        case Acknowledging(document, id, participant) => DrainIsNothingNew(s, document, id, participant, 0, d);
        case Readying(document, id, sequence) => DrainIsNothingNew(s, document, id, 0, sequence, d);
        case Claiming(m, id, user) => ClaimIsNothingNew(s, m, id, user, 0, d);
        case Completing(m, id) => EndIsNothingNew(s, m, id, d);
        case Failing(m, id) => EndIsNothingNew(s, m, id, d);
        case Aborting(document, id) => AbortIsNothingNew(s, document, id, d);
        case AbortingMeeting(m) => EndIsNothingNew(s, m, 0, d);
        case Preparing(document, participant) => DrainIsNothingNew(s, document, 0, participant, 0, d);
        case Writing(document, participant) =>
          DrainIsNothingNew(s, document, 0, participant, 0, d);
          SameIsNothingNew(s, PrepareUpdate(s, document, participant).0,
                           WriteStep(homes, world, document, participant).state, d);
        case WriteEnds(m) => SameIsNothingNew(s, s, EndCollaboration(s, m), d);
        case ExternalBegins(m) => EndIsNothingNew(s, m, 0, d);
        case ExternalEnds(m) => SameIsNothingNew(s, s, EndExternal(s, m), d);
        case Firing(document) => TimerIsNothingNew(s, document, d);
      }
    }
  }

  lemma SameIsNothingNew(s: State, middle: State, after: State, d: Id)
    requires middle == s || NothingNew(s, middle, d)
    requires after.barriers == middle.barriers && after.connections == middle.connections
    ensures NothingNew(s, after, d)
  {
  }

  lemma NoneAppears(homes: Homes, world: World, event: Event, d: Id)
    requires Legal(homes, world, event) && d !in world.state.barriers && !event.Opening? && !event.CompletionBegins?
    ensures d !in Step(homes, world, event).state.barriers
  {
    if event.Joining? {
      JoinIsNothingNew(world.state, event.documentId, event.participant, d);
      hide Join;
    } else if event.Disconnecting? {
      DisconnectIsNothingNew(world.state, event.documentId, event.participant, d);
      hide Disconnect;
    } else {
      OthersBringNothingNew(homes, world, event, d);
      hide Step, Legal;
    }
  }

  /** Nothing is reported as released without a barrier that ends. */
  lemma ReleasedExactly(homes: Homes, world: World, event: Event)
    requires Sound(homes, world.state) && Legal(homes, world, event)
    ensures Step(homes, world, event).state.released == world.state.released
            || exists d :: d in world.state.barriers && Ends(world.state, event, d, world.state.barriers[d])
  {
    var s, after := world.state, Step(homes, world, event).state;
    StepTouchesOne(homes, world, event);
    hide Sound, Step, Legal, Ends, MayChange;
    var touched :| Touches(s, after, event, touched);
    if touched in s.barriers {
      StepGoesOn(homes, world, event, touched);
    }
  }

  // ---------- connections and reads ----------

  /** Clients are connected from their join to their disconnection. */
  lemma ConnectionsExactly(homes: Homes, world: World, event: Event, d: Id)
    requires Legal(homes, world, event)
    ensures ConnectionsOf(Step(homes, world, event).state, d) ==
            if event.Joining? && event.documentId == d then ConnectionsOf(world.state, d) + {event.participant}
            else if event.Disconnecting? && event.documentId == d then ConnectionsOf(world.state,
                                                                                     d) - {event.participant}
            else ConnectionsOf(world.state, d)
  {
    var s := world.state;
    match event
    case Joining(document, participant) =>
      JoinIsNothingNew(s, document, participant, d);
      hide Join;
    case Disconnecting(document, participant) =>
      DisconnectIsNothingNew(s, document, participant, d);
      hide Disconnect;
    case Opening(m, document, connection, user, participants, id) =>
      OpenConnects(s, m, document, Some(connection), user, participants, id);
      hide Open;
    case CompletionBegins(m, document, user, id) =>
      OpenConnects(s, m, document, None, user, {}, id);
      hide BeginCompletion;
    case _ =>
      OthersBringNothingNew(homes, world, event, d);
      hide Step, Legal;
  }

  /** The reads in progress after an event: one starts when the round of a completion is complete, and each ends once.
      */
  function ReadingAfter(s: State, event: Event): multiset<(Id, Id)> {
    match event
    case ReadEnds(d, id, _) => s.reading - multiset{(d, id)}
    case ReadErrs(d, id) => s.reading - multiset{(d, id)}
    case Drains(d, id, participant) =>
      if d in s.barriers && Reports(event, d, s.barriers[d]) && DrainedAfter(event, d,
                                                                             s.barriers[d]) == s.barriers[d].participants
      then s.reading + multiset{(d, id)} else s.reading
    case CompletionBegins(_, d, _, id) =>
      if d !in s.barriers && Begins(s, event, d) && ConnectionsOf(s, d) == {} then s.reading + multiset{(d, id)}
      else s.reading
    case _ => s.reading
  }

  lemma ReadsExactly(homes: Homes, world: World, event: Event)
    requires Sound(homes, world.state) && Legal(homes, world, event)
    ensures Step(homes, world, event).state.reading == ReadingAfter(world.state, event)
  {
    var s := world.state;
    if event.Drains? {
      DrainsReads(homes, s, event.documentId, event.barrierId, event.participant);
      hide CompletionDrained, Sound;
    } else if event.CompletionBegins? {
      BeginReads(s, event.meetingId, event.documentId, event.user, event.id);
      hide BeginCompletion, Sound;
    } else if event.ReadEnds? {
      EndReads(s, event.documentId, event.barrierId, event.sequence);
      hide ReadResolves, Sound;
    } else if event.ReadErrs? {
      EndReads(s, event.documentId, event.barrierId, 0);
      hide ReadFails, Sound;
    } else {
      OtherReads(homes, world, event);
      hide Step, Legal, Sound;
    }
  }

  lemma EndReads(s: State, d: Id, id: Id, sequence: nat)
    ensures ReadResolves(s, d, id, sequence).reading == s.reading - multiset{(d, id)}
    ensures ReadFails(s, d, id).reading == s.reading - multiset{(d, id)}
  {
    SameReadsOfAbort(s.(reading := s.reading - multiset{(d, id)}), d, Some(id));
    hide Abort;
  }

  lemma OtherReads(homes: Homes, world: World, event: Event)
    requires Legal(homes, world, event)
    requires !event.Drains? && !event.CompletionBegins? && !event.ReadEnds? && !event.ReadErrs?
    ensures Step(homes, world, event).state.reading == world.state.reading
  {
    hide Claim, Complete, Fail, AbortMeeting, TimerFires;
    var s := world.state;
    if OfCompletion(event) {
      CompletionReads(homes, world, event);
    } else if IsWriterEvent(event) {
      WriterReads(homes, world, event);
    } else if event.Claiming? {
      SameReadsOfMeeting(s, event.meetingId, 0, event.barrierId, event.user, 0, 0);
    } else if event.Completing? || event.Failing? {
      SameReadsOfMeeting(s, event.meetingId, 0, event.barrierId, 0, 0, 0);
    } else if event.AbortingMeeting? {
      SameReadsOfMeeting(s, event.meetingId, 0, 0, 0, 0, 0);
    } else if event.Firing? {
      SameReadsOfMeeting(s, 0, event.documentId, 0, 0, 0, 0);
    } else {
      DocumentReads(homes, world, event);
      hide Step, Legal;
    }
  }

  lemma DocumentReads(homes: Homes, world: World, event: Event)
    requires Legal(homes, world, event)
    requires event.Opening? || event.Joining? || event.Acknowledging? || event.Readying? || event.Aborting? || event.Disconnecting?
             || event.Preparing?
    ensures Step(homes, world, event).state.reading == world.state.reading
  {
    hide Abort, Join, Acknowledge, MakeReady, PrepareUpdate, Disconnect, Open;
    var s := world.state;
    match event
    case Opening(m, d, connection, user, participants, id) =>
      SameReads(s, m, d, id, None, user, 0, 0, participants, connection);
    case Joining(d, participant) => SameReads(s, 0, d, 0, None, 0, participant, 0, {}, 0);
    case Acknowledging(d, id, participant) => SameReads(s, 0, d, id, None, 0, participant, 0, {}, 0);
    case Readying(d, id, sequence) => SameReads(s, 0, d, id, None, 0, 0, sequence, {}, 0);
    case Aborting(d, id) => SameReads(s, 0, d, 0, id, 0, 0, 0, {}, 0);
    case Disconnecting(d, participant) => SameReads(s, 0, d, 0, None, 0, participant, 0, {}, 0);
    case Preparing(d, participant) => SameReads(s, 0, d, 0, None, 0, participant, 0, {}, 0);
  }

  lemma WriterReads(homes: Homes, world: World, event: Event)
    requires Legal(homes, world, event) && IsWriterEvent(event)
    ensures Step(homes, world, event).state.reading == world.state.reading
  {
    hide PrepareUpdate, BeginExternal;
    var s := world.state;
    match event
    case Writing(d, participant) => SameReadsOfDrain(s, d, 0, participant, 0);
    case ExternalBegins(m) => SameReadsOfMeeting(s, m, 0, 0, 0, 0, 0);
    case _ =>
  }

  lemma CompletionReads(homes: Homes, world: World, event: Event)
    requires Legal(homes, world, event) && (event.Confirms? || event.Submitting? || event.Cancelling?)
    ensures Step(homes, world, event).state.reading == world.state.reading
  {
    if event.Confirms? {
      ConfirmReads(homes, world, event);
    } else {
      SubmissionReads(homes, world, event);
    }
    hide Step, Legal;
  }

  lemma ConfirmReads(homes: Homes, world: World, event: Event)
    requires Legal(homes, world, event) && event.Confirms?
    ensures Step(homes, world, event).state.reading == world.state.reading
  {
    SameReadsOfMeeting(world.state, 0, event.documentId, event.barrierId, 0, event.participant, event.sequence);
    hide ConfirmCompletion;
  }

  lemma SubmissionReads(homes: Homes, world: World, event: Event)
    requires Legal(homes, world, event) && (event.Submitting? || event.Cancelling?)
    ensures Step(homes, world, event).state.reading == world.state.reading
  {
    var sequence := if event.Submitting? then event.sequence else 0;
    SameReadsOfMeeting(world.state, event.meetingId, 0, event.barrierId, event.user, 0, sequence);
    hide ClaimSubmission, CancelCompletion;
  }

  lemma SameReads(s: State, m: Id, d: Id, id: Id, aborted: Option<Id>, user: Id, participant: Id, sequence: nat,
                  participants: set<Id>, connection: Id)
    ensures Open(s, m, d, Some(connection), user, participants, id).0.reading == s.reading
    ensures Join(s, d, participant).0.reading == s.reading && Abort(s, d, aborted).reading == s.reading
    ensures Acknowledge(s, d, id, participant).0.reading == s.reading
        && MakeReady(s, d, id, sequence).0.reading == s.reading
    ensures Disconnect(s, d, participant).reading == s.reading
        && PrepareUpdate(s, d, participant).0.reading == s.reading
  {
    SameReadsOfAbort(s, d, aborted);
    SameReadsOfDrain(s, d, id, participant, sequence);
    if d in s.barriers {
      SameReadsOfAbort(Left(s, d, participant), d, Some(s.barriers[d].id));
    }
    hide WithParticipant, Abort, Acknowledge, MakeReady, PrepareUpdate;
  }

  lemma SameReadsOfDrain(s: State, d: Id, id: Id, participant: Id, sequence: nat)
    ensures Acknowledge(s, d, id, participant).0.reading == s.reading
        && MakeReady(s, d, id, sequence).0.reading == s.reading
    ensures PrepareUpdate(s, d, participant).0.reading == s.reading
  {
  }

  lemma SameReadsOfAbort(s: State, d: Id, aborted: Option<Id>)
    ensures Abort(s, d, aborted).reading == s.reading
  {
  }

  lemma SameReadsOfMeeting(s: State, m: Id, d: Id, id: Id, user: Id, participant: Id, sequence: nat)
    ensures Claim(s, m, id, user).0.reading == s.reading && Complete(s, m, id).reading == s.reading
    ensures Fail(s, m, id).reading == s.reading && AbortMeeting(s, m).reading == s.reading
    ensures BeginExternal(s, m).0.reading == s.reading && TimerFires(s, d).reading == s.reading
    ensures ConfirmCompletion(s, d, id, participant, sequence).reading == s.reading
    ensures ClaimSubmission(s, m, id, user, sequence).0.reading == s.reading
    ensures CancelCompletion(s, m, id, user).reading == s.reading
  {
  }

  lemma DrainsReads(homes: Homes, s: State, d: Id, id: Id, participant: Id)
    requires Sound(homes, s)
    ensures CompletionDrained(s, d, id, participant).reading ==
            if d in s.barriers && Reports(Drains(d, id, participant), d, s.barriers[d])
               && s.barriers[d].drained + {participant} == s.barriers[d].participants
            then s.reading + multiset{(d, id)} else s.reading
  {
    if d in s.barriers {
      FoundIsSound(homes, s, d);
      if participant in s.barriers[d].participants {
        SameSize(s.barriers[d].drained + {participant}, s.barriers[d].participants);
      }
    }
    hide Sound;
  }

  lemma BeginReads(s: State, m: Id, d: Id, user: Id, id: Id)
    ensures BeginCompletion(s, m, d, user, id).0.reading ==
            if d !in s.barriers && Count(s.externalWriters, m) == 0 && ConnectionsOf(s, d) == {} then s.reading + multiset{(d, id)}
            else s.reading
  {
    if d !in s.barriers && Count(s.externalWriters, m) == 0 {
      BegunCompletion(s, m, d, user, id);
      SameSize({}, ConnectionsOf(s, d));
    }
    hide BeginCompletion;
  }

  // ---------- writes ----------

  /** No barrier of the meeting is finalizing or committing. */
  ghost predicate MayWrite(state: State, meetingId: Id) {
    forall d | d in state.barriers && state.barriers[d].meetingId == meetingId :: !IsClosing(state.barriers[d])
  }

  /** A write begins exactly when no barrier of its meeting is locked, and is counted until it ends. */
  lemma WritesExactly(homes: Homes, world: World, event: Event)
    requires Sound(homes, world.state) && Legal(homes, world, event)
    ensures var after := Step(homes, world, event);
            && after.writing ==
               (if event.Writing? && MayWrite(world.state, homes[event.documentId]) then
                  world.writing + multiset{homes[event.documentId]}
                else if event.WriteEnds? then world.writing - multiset{event.meetingId}
                else world.writing)
            && after.external ==
               (if event.ExternalBegins? && MayWrite(world.state, event.meetingId) then
                  world.external + multiset{event.meetingId}
                else if event.ExternalEnds? then world.external - multiset{event.meetingId}
                else world.external)
  {
    if event.Writing? {
      WriteBegins(homes, world, event.documentId, event.participant);
      hide WriteStep;
    } else if event.ExternalBegins? {
      LockedOfMeeting(homes, world.state, event.meetingId);
    } else if !IsWriterEvent(event) {
      OtherStepsKeepWriters(homes, world, event);
      hide Step, Legal;
    }
  }

  lemma LockedOfMeeting(homes: Homes, s: State, m: Id)
    requires Sound(homes, s)
    ensures var found := OfMeeting(s.barriers, m);
            MayWrite(s, m) <==> (found.Some? ==> !IsClosing(s.barriers[found.value]))
  {
    OneBarrierPerMeeting(homes, s);
    hide BarrierIsSound;
  }

  lemma WriteBegins(homes: Homes, world: World, d: Id, participant: Id)
    requires Sound(homes, world.state) && d in homes
    ensures WriteStep(homes, world, d, participant).writing ==
            if MayWrite(world.state, homes[d]) then world.writing + multiset{homes[d]} else world.writing
    ensures WriteStep(homes, world, d, participant).external == world.external
  {
    var s := world.state;
    var (prepared, ready) := PrepareUpdate(s, d, participant);
    LockedOfMeeting(homes, s, homes[d]);
    HomeBarrier(homes, s, d);
    PrepareIsSound(homes, s, d, participant);
    LockedOfMeeting(homes, prepared, homes[d]);
    HomeBarrier(homes, prepared, d);
    hide Sound;
  }

  lemma HomeBarrier(homes: Homes, s: State, d: Id)
    requires Sound(homes, s) && d in homes
    ensures MayWrite(s, homes[d]) <==> (d in s.barriers ==> !IsClosing(s.barriers[d]))
  {
    hide BarrierIsSound;
  }

  // ---------- answers ----------

  /** What those who open, join and drain a barrier are told. */
  lemma AnswersExactly(homes: Homes, s: State, m: Id, d: Id, id: Id, user: Id, participant: Id, sequence: nat,
                       participants: set<Id>, connection: Id)
    requires Sound(homes, s)
    ensures var (after, info) := Open(s, m, d, Some(connection), user, participants, id);
            if Count(s.externalWriters, m) > 0 then info.None?
            else
              && d in after.barriers && info.Some? && info.value.barrierId == after.barriers[d].id
              && info.value.intention == after.barriers[d].intention
              && info.value.participants == after.barriers[d].participants
    ensures var info := Join(s, d, participant).1;
            if d !in s.barriers then info.None?
            else info == Some(BarrierInfo(s.barriers[d].intention, s.barriers[d].id, {participant}))
    ensures BeginCompletion(s, m, d, user, id).1 <==> d !in s.barriers && Count(s.externalWriters, m) == 0
  {
    hide Sound, StartRead, WithParticipant;
  }

  /** Whether all have drained, and whether the compactor may be called. */
  lemma RoundsExactly(homes: Homes, s: State, d: Id, id: Id, participant: Id, sequence: nat)
    requires Sound(homes, s)
    ensures Acknowledge(s, d, id, participant).1 <==>
            d in s.barriers && Reports(Acknowledging(d, id, participant), d, s.barriers[d])
            && s.barriers[d].drained + {participant} == s.barriers[d].participants
    ensures MakeReady(s, d, id, sequence).1 <==> d in s.barriers && Readies(Readying(d, id, sequence), d, s.barriers[d])
  {
    if d in s.barriers {
      FoundIsSound(homes, s, d);
      SameSize(s.barriers[d].drained, s.barriers[d].participants);
      if participant in s.barriers[d].participants {
        SameSize(s.barriers[d].drained + {participant}, s.barriers[d].participants);
      }
    }
    hide Sound;
  }

  /** Whether a write may begin. */
  lemma PermissionsExactly(homes: Homes, s: State, m: Id, d: Id, participant: Id)
    requires Sound(homes, s)
    ensures PrepareUpdate(s, d, participant).1 <==> !(d in s.barriers && IsClosing(s.barriers[d]))
    ensures BeginExternal(s, m).1 <==> MayWrite(s, m)
    ensures BeginCollaboration(s, m).1 <==> MayWrite(s, m)
  {
    LockedOfMeeting(homes, s, m);
    hide Sound, MayWrite;
  }

  /** A claim is granted to the compactor of a ready compaction, a submission to the user of a finalizing completion. */
  lemma ClaimsExactly(homes: Homes, s: State, m: Id, id: Id, user: Id, sequence: nat, d: Id)
    requires Sound(homes, s) && d in s.barriers && s.barriers[d].id == id
    ensures Claim(s, m, id, user).1 ==
            if TakesUp(Claiming(m, id, user), s.barriers[d]) then s.barriers[d].serverSequence else None
    ensures ClaimSubmission(s, m, id, user, sequence).1 ==
            if TakesUp(Submitting(m, id, user, sequence), s.barriers[d]) then Some(d) else None
  {
    SearchFinds(homes, s, d);
    hide Sound;
  }

  // ---------- claims ----------

  /** A claim holds while its barrier is being committed and was not withdrawn. */
  lemma ClaimMeans(homes: Homes, s: State, m: Id, id: Id)
    requires Sound(homes, s)
    ensures ClaimHolds(s, m, id) <==>
            exists d :: d in s.barriers && s.barriers[d].id == id && s.barriers[d].meetingId == m
                        && s.barriers[d].phase.Committing? && !s.barriers[d].cancelled
  {
    forall d | d in s.barriers && s.barriers[d].id == id ensures WithId(s.barriers, id) == Some(d) {
      SearchFinds(homes, s, d);
    }
    hide Sound;
  }

  /** For a completion that is being committed and still there: the claim survives an event if and only if it does not
      withdraw the barrier. */
  lemma ClaimSurvivesExactly(homes: Homes, world: World, event: Event, d: Id)
    requires Sound(homes, world.state) && WritersAreCounted(world) && Legal(homes, world, event)
    requires d in world.state.barriers && world.state.barriers[d].intention.Completion?
        && world.state.barriers[d].phase.Committing?
    requires d in Step(homes, world, event).state.barriers
    ensures var barrier, after := world.state.barriers[d], Step(homes, world, event).state;
            && after.barriers[d].id == barrier.id
            && (ClaimHolds(after, barrier.meetingId, barrier.id) <==>
                ClaimHolds(world.state, barrier.meetingId, barrier.id) && !Withdraws(event, d, barrier))
  {
    var barrier, after := world.state.barriers[d], Step(homes, world, event).state;
    StepGoesOn(homes, world, event, d);
    StepIsSound(homes, world, event);
    hide Step, Legal;
    CommittingGoesOn(world.state, after, event, d);
    hide GoesOn, Withdraws, Sound;
    SearchById(homes, world.state, d);
    SearchById(homes, after, d);
  }

  lemma SearchById(homes: Homes, s: State, d: Id)
    requires Sound(homes, s) && d in s.barriers
    ensures WithId(s.barriers, s.barriers[d].id) == Some(d)
  {
    SearchFinds(homes, s, d);
    hide Sound;
  }

  lemma CommittingGoesOn(s: State, after: State, event: Event, d: Id)
    requires d in s.barriers && GoesOn(s, after, event, d) && d in after.barriers
    requires s.barriers[d].intention.Completion? && s.barriers[d].phase.Committing?
    ensures var barrier := s.barriers[d];
            && after.barriers[d].id == barrier.id && after.barriers[d].meetingId == barrier.meetingId
            && after.barriers[d].phase.Committing?
            && (after.barriers[d].cancelled <==> barrier.cancelled || Withdraws(event, d, barrier))
  {
  }

  /** A withdrawn barrier never holds its claim again. */
  ghost predicate IsLost(state: State, id: Id) {
    && (forall d | d in state.barriers && state.barriers[d].id == id :: state.barriers[d].cancelled)
    && exists d :: (d in state.barriers && state.barriers[d].id == id) || HasReleased(state, id)
  }

  ghost predicate HasReleased(state: State, id: Id) {
    exists i :: 0 <= i < |state.released| && state.released[i].barrierId == id
  }

  lemma StepStaysLost(homes: Homes, world: World, event: Event, id: Id)
    requires Sound(homes, world.state) && WritersAreCounted(world) && Legal(homes, world, event)
        && IsLost(world.state, id)
    ensures IsLost(Step(homes, world, event).state, id)
  {
    var s, after := world.state, Step(homes, world, event).state;
    StepTouchesOne(homes, world, event);
    ReleasesGrow(s, after, event);
    forall d | d in after.barriers && after.barriers[d].id == id ensures after.barriers[d].cancelled {
      LostBarrierStays(homes, world, event, id, d);
    }
    if d :| d in s.barriers && s.barriers[d].id == id {
      StepGoesOn(homes, world, event, d);
      hide Sound, Step, Legal;
      if d !in after.barriers {
        assert after.released[|s.released|].barrierId == id;
        assert HasReleased(after, id);
      }
    } else {
      hide Sound, Step, Legal;
      assert HasReleased(s, id);
      var i :| 0 <= i < |s.released| && s.released[i].barrierId == id;
      assert after.released[i].barrierId == id;
      assert HasReleased(after, id);
    }
  }

  lemma NotFreshAgain(s: State, id: Id)
    requires IsLost(s, id)
    ensures !FreshBarrier(s, id)
  {
    if i :| 0 <= i < |s.released| && s.released[i].barrierId == id {
      assert !FreshBarrier(s, id);
    }
  }

  lemma LostBarrierStays(homes: Homes, world: World, event: Event, id: Id, d: Id)
    requires Sound(homes, world.state) && WritersAreCounted(world) && Legal(homes, world, event)
        && IsLost(world.state, id)
    requires d in Step(homes, world, event).state.barriers && Step(homes, world, event).state.barriers[d].id == id
    ensures Step(homes, world, event).state.barriers[d].cancelled
  {
    if d in world.state.barriers {
      StepGoesOn(homes, world, event, d);
      hide Sound, Step, Legal;
    } else {
      StepBegins(homes, world, event, d);
      hide Sound, Step;
      NotFreshAgain(world.state, id);
      assert false;
    }
  }

  /** Once a committing completion is withdrawn, its claim never holds again, whatever happens later. */
  lemma {:induction false} WithdrawnIsLost(homes: Homes, world: World, events: seq<Event>, m: Id, id: Id)
    requires Sound(homes, world.state) && WritersAreCounted(world) && LegalRun(homes, world, events)
        && IsLost(world.state, id)
    ensures !ClaimHolds(After(homes, world, events).state, m, id)
    decreases |events|
  {
    hide Sound, Step, Legal, IsLost;
    if events == [] {
      ClaimMeans(homes, world.state, m, id);
      LostIsCancelled(world.state, id);
    } else {
      StepIsSound(homes, world, events[0]);
      StepCountsWriters(homes, world, events[0]);
      StepStaysLost(homes, world, events[0], id);
      WithdrawnIsLost(homes, Step(homes, world, events[0]), events[1..], m, id);
    }
  }

  lemma LostIsCancelled(s: State, id: Id)
    requires IsLost(s, id)
    ensures forall d | d in s.barriers && s.barriers[d].id == id :: s.barriers[d].cancelled
  {
  }

  /** A withdrawal of a completion in commit is such a loss. */
  lemma WithdrawalLoses(homes: Homes, world: World, event: Event, d: Id)
    requires Sound(homes, world.state) && WritersAreCounted(world) && Legal(homes, world, event)
    requires d in world.state.barriers && world.state.barriers[d].intention.Completion?
        && world.state.barriers[d].phase.Committing?
    requires Withdraws(event, d, world.state.barriers[d])
    ensures IsLost(Step(homes, world, event).state, world.state.barriers[d].id)
  {
    var s, after, id := world.state, Step(homes, world, event).state, world.state.barriers[d].id;
    StepGoesOn(homes, world, event, d);
    StepIsSound(homes, world, event);
    hide Sound, Step, Legal;
    MarkedStays(s, after, event, d);
    forall other | other in after.barriers && after.barriers[other].id == id ensures after.barriers[other].cancelled {
      OneBarrierById(homes, after, d, other);
    }
  }

  lemma MarkedStays(s: State, after: State, event: Event, d: Id)
    requires d in s.barriers && GoesOn(s, after, event, d) && Withdraws(event, d, s.barriers[d])
    requires s.barriers[d].intention.Completion? && s.barriers[d].phase.Committing?
    ensures d in after.barriers && after.barriers[d].id == s.barriers[d].id && after.barriers[d].cancelled
  {
  }

  lemma OneBarrierById(homes: Homes, s: State, left: Id, right: Id)
    requires Sound(homes, s) && left in s.barriers && right in s.barriers && s.barriers[left].id == s.barriers[right].id
    ensures left == right
  {
    hide BarrierIsSound;
  }
}
