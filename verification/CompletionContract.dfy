/** When a Meeting is completed and what that changes, and that a completion whose barrier was withdrawn is never
    carried out (backend/src/meetings/meetings.service.ts, backend/src/meetings/meeting-compaction-coordinator.ts). */
module CompletionContract {
  import opened Options
  import opened AgendaPositions
  import opened RecurrencePlanner
  import MeetingAgenda
  import AgendaRuns
  import AgendaContract
  import opened MeetingCompletion
  import Log = DocumentLog
  import Coordination = BarrierRuns
  import Barriers = CompactionBarriers
  import Safety = BarrierSafety
  import Contract = BarrierContract

  // ---------- the condition ----------

  ghost predicate IsInProgress(agenda: Agenda, meetingId: Id) {
    exists i :: 0 <= i < |agenda.meetings| && agenda.meetings[i].id == meetingId && agenda.meetings[i].status.InProgress?
  }

  /** The submission has one snapshot for each appearance of the meeting. */
  ghost predicate CoversAgenda(rows: Rows, submission: Submission) {
    && (forall i, j | 0 <= i < j < |submission.appearances| :: submission.appearances[i] != submission.appearances[j])
    && forall id :: id in submission.appearances <==> id in rows && rows[id].meetingId == submission.meetingId
  }

  lemma StatusExactly(agenda: Agenda, meetingId: Id)
    requires Consistent(agenda)
    ensures StatusOf(agenda, meetingId) == Some(Log.InProgress) <==> IsInProgress(agenda, meetingId)
  {
    if IsInProgress(agenda, meetingId) {
      var i :| 0 <= i < |agenda.meetings| && agenda.meetings[i].id == meetingId && agenda.meetings[i].status.InProgress?;
      assert forall j | 0 <= j < |agenda.meetings| && agenda.meetings[j].id == meetingId :: j == i;
      assert agenda.meetings[i].id in MeetingSet(agenda.meetings);
    }
    if StatusOf(agenda, meetingId) == Some(Log.InProgress) {
      var i :| 0 <= i < |agenda.meetings| && agenda.meetings[i].id == meetingId;
      assert agenda.meetings[i].id !in PlannedSet(agenda.meetings) && agenda.meetings[i].id !in MeetingAgenda.CompletedSet(agenda.meetings);
    }
  }

  /** As many snapshots as appearances, for the same appearances, is one for each. */
  lemma CoverageExactly(rows: Rows, submission: Submission)
    ensures var ids := MeetingIds(rows, submission.meetingId);
            CoversAgenda(rows, submission) <==>
              |submission.appearances| == |ids|
              && (set i | 0 <= i < |submission.appearances| :: submission.appearances[i]) == ids
  {
    var listed, ids := Elements(submission.appearances), MeetingIds(rows, submission.meetingId);
    assert listed == set i | 0 <= i < |submission.appearances| :: submission.appearances[i];
    if CoversAgenda(rows, submission) {
      CoveredAreElements(rows, submission);
    }
    if |submission.appearances| == |ids| && listed == ids {
      ElementsCover(rows, submission);
    }
    hide CoversAgenda, Elements, MeetingIds;
  }

  lemma CoveredAreElements(rows: Rows, submission: Submission)
    requires CoversAgenda(rows, submission)
    ensures Elements(submission.appearances) == MeetingIds(rows, submission.meetingId)
    ensures |submission.appearances| == |MeetingIds(rows, submission.meetingId)|
  {
    ElementsCount(submission.appearances);
    forall id ensures id in Elements(submission.appearances) <==> id in MeetingIds(rows, submission.meetingId) {
      assert id in Elements(submission.appearances) <==> id in submission.appearances;
    }
  }

  lemma ElementsCover(rows: Rows, submission: Submission)
    requires Elements(submission.appearances) == MeetingIds(rows, submission.meetingId)
    requires |submission.appearances| == |MeetingIds(rows, submission.meetingId)|
    ensures CoversAgenda(rows, submission)
  {
    FullElementsDiffer(submission.appearances);
    forall id ensures id in submission.appearances <==> id in MeetingIds(rows, submission.meetingId) {
      assert id in Elements(submission.appearances) <==> id in submission.appearances;
    }
  }

  lemma {:induction false} FewElements(items: seq<Id>)
    ensures |Elements(items)| <= |items|
  {
    if items != [] {
      var last := |items| - 1;
      FewElements(items[..last]);
      assert Elements(items) == Elements(items[..last]) + {items[last]};
    }
  }

  /** A list with as many different elements as places repeats none. */
  lemma {:induction false} FullElementsDiffer(items: seq<Id>)
    requires |Elements(items)| == |items|
    ensures forall i, j | 0 <= i < j < |items| :: items[i] != items[j]
  {
    if items != [] {
      var last := |items| - 1;
      var front := items[..last];
      FewElements(front);
      assert Elements(items) == Elements(front) + {items[last]};
      assert items[last] !in Elements(front);
      FullElementsDiffer(front);
      forall i | 0 <= i < last ensures items[i] != items[last] {
        assert front[i] in Elements(front);
      }
    }
  }

  /** All that a completion needs. */
  ghost predicate MayComplete(site: Site, claimedDocument: Id, submission: Submission, claimHolds: bool) {
    && claimHolds && IsInProgress(site.agenda, submission.meetingId) && submission.allowed && submission.proven
    && submission.mentionsValid && submission.documentId == claimedDocument
    && CoversAgenda(site.agenda.rows, submission)
    && submission.meetingId in site.documents
    && site.documents[submission.meetingId].currentSequence == submission.sequence
  }

  // ---------- the effect ----------

  /** The Meeting is completed; dates and other Meetings stay. */
  predicate CompletesOnly(before: seq<Meeting>, after: seq<Meeting>, meetingId: Id) {
    |after| == |before| && forall i | 0 <= i < |before| ::
      after[i] == if before[i].id == meetingId then Meeting(meetingId, before[i].date, MeetingStatus.Completed)
                  else before[i]
  }

  ghost predicate OnTheAgenda(rows: Rows, meetingId: Id, topicId: Id) {
    exists id :: id in rows && (rows[id].meetingId, rows[id].topicId) == (meetingId, topicId)
  }

  /** Each topic of the agenda takes the status decided for it, if there is one. */
  ghost predicate DecidesOnly(before: Agenda, after: map<Id, Topic>, submission: Submission) {
    && after.Keys == before.topics.Keys
    && forall t | t in before.topics ::
         var decided := t in submission.decisions && OnTheAgenda(before.rows, submission.meetingId, t);
         after[t] == if decided then before.topics[t].(status := submission.decisions[t]) else before.topics[t]
  }

  /** A completion succeeds exactly if it may. It completes the Meeting at the submitted sequence, carries out the
      decisions and changes nothing else. */
  lemma CompletionExactly(site: Site, claimedDocument: Id, submission: Submission, claimHolds: bool)
    requires Consistent(site.agenda)
    ensures var outcome, m := CompletedBy(site, claimedDocument, submission, claimHolds), submission.meetingId;
            && (outcome.Done? <==> MayComplete(site, claimedDocument, submission, claimHolds))
            && (outcome.Done? ==>
                  var after := outcome.site;
                  && after.agenda == site.agenda.(meetings := after.agenda.meetings, topics := after.agenda.topics)
                  && CompletesOnly(site.agenda.meetings, after.agenda.meetings, m)
                  && DecidesOnly(site.agenda, after.agenda.topics, submission)
                  && after.documents.Keys == site.documents.Keys
                  && forall d | d in site.documents ::
                       after.documents[d] ==
                       if d == m then site.documents[d].(completedSequence := Some(site.documents[d].currentSequence))
                       else site.documents[d])
  {
    StatusExactly(site.agenda, submission.meetingId);
    CoverageExactly(site.agenda.rows, submission);
    hide Consistent, StatusOf, IsInProgress, CoversAgenda;
  }

  /** The first thing that is missing decides about the error; a stale sequence or document asks for another try. */
  lemma CompletionErrorExactly(site: Site, claimedDocument: Id, submission: Submission, claimHolds: bool)
    requires Consistent(site.agenda) && IsInProgress(site.agenda, submission.meetingId) && submission.allowed
    requires submission.meetingId in site.documents
    ensures var outcome := CompletedBy(site, claimedDocument, submission, claimHolds);
            var here := submission.documentId == claimedDocument;
            var fine := submission.proven && submission.mentionsValid && CoversAgenda(site.agenda.rows, submission);
            && (outcome == Failed(BarrierInvalid) <==> !claimHolds)
            && (outcome == Failed(Unreadable) <==> claimHolds && here && !submission.proven)
            && (outcome == Failed(SnapshotsInvalid) <==> claimHolds && here && submission.proven && !fine)
            && (outcome == Failed(Retry) <==>
                  claimHolds && (!here || (fine && site.documents[submission.meetingId].currentSequence != submission.sequence)))
  {
    StatusExactly(site.agenda, submission.meetingId);
    CoverageExactly(site.agenda.rows, submission);
    hide Consistent, StatusOf, IsInProgress, CoversAgenda, MeetingCompletion.Completed;
  }

  // ---------- what other steps do meanwhile ----------

  /** Before the completion the steps of the runs do take effect: an accepted update or snapshot is stored, an agenda
      change that succeeds is carried out, and the status of a Meeting that is not completed can be set. */
  lemma StepsTakeEffect(site: Site, step: Step)
    requires WellFormed(site.agenda) && Admissible(site, step)
    ensures var after := Next(site, step);
            match step
            case Append(m, access, envelope) =>
              var append := Log.AppendUpdate(WorkspaceOf(site, m), access, envelope);
              append.Accepted? ==> m in after.documents && after.documents[m] == append.document
            case Compact(m, access, snapshotId, envelope, expected) =>
              var compaction := Log.Compact(WorkspaceOf(site, m), access, snapshotId, envelope, expected);
              compaction.Compacted? ==> m in after.documents && after.documents[m] == compaction.document
            case Change(change) =>
              AgendaRuns.Attempt(site.agenda, change).Done? ==>
                after.agenda == AgendaRuns.Attempt(site.agenda, change).agenda
            case Finish(_, submission, _) => after != site ==> IsFinal(after, submission.meetingId)
            case SetStatus(m, status) =>
              forall i | 0 <= i < |site.agenda.meetings| && site.agenda.meetings[i].id == m ::
                AgendaContract.Accepts(site.agenda, m) ==>
                    after.agenda.meetings[i] == site.agenda.meetings[i].(status := status)
  {
    match step
    case Finish(claimedDocument, submission, claimHolds) =>
      if CompletedBy(site, claimedDocument, submission, claimHolds).Done? {
        CompletionIsFinal(site, claimedDocument, submission, claimHolds,
                          CompletedBy(site, claimedDocument, submission, claimHolds).site);
      }
      hide CompletedBy, IsFinal, WellFormed;
    case SetStatus(m, _) =>
      AgendaContract.RefusalExactly(site.agenda, m);
      hide WellFormed, MeetingAgenda.Refusal, AgendaContract.Accepts, AgendaContract.Exists;
    case _ => hide WellFormed, Log.AppendUpdate, Log.Compact, AgendaRuns.Attempt;
  }

  // ---------- withdrawn completions ----------

  /** When a participant of a committing completion disconnects, or its user cancels, or the barrier is aborted, then
      whatever happens later, no completion under that barrier is carried out. */
  lemma WithdrawnCompletionFails(homes: Coordination.Homes, world: Coordination.World, event: Coordination.Event, d: Id,
                                 events: seq<Coordination.Event>, site: Site, claimedDocument: Id,
                                 submission: Submission)
    requires Coordination.Sound(homes, world.state) && Safety.WritersAreCounted(world)
        && Coordination.Legal(homes, world, event)
    requires d in world.state.barriers && world.state.barriers[d].intention.Completion?
             && world.state.barriers[d].phase.Committing?
    requires Contract.Withdraws(event, d, world.state.barriers[d])
    requires Safety.LegalRun(homes, Coordination.Step(homes, world, event), events)
    ensures var after := Safety.After(homes, Coordination.Step(homes, world, event), events).state;
            var claimHolds := Barriers.ClaimHolds(after, submission.meetingId, world.state.barriers[d].id);
            CompletedBy(site, claimedDocument, submission, claimHolds) == Failed(BarrierInvalid)
  {
    Safety.StepIsSound(homes, world, event);
    Safety.StepCountsWriters(homes, world, event);
    Contract.WithdrawalLoses(homes, world, event, d);
    Contract.WithdrawnIsLost(homes, Coordination.Step(homes, world, event), events, submission.meetingId,
                             world.state.barriers[d].id);
  }
}
