/** Completing a Meeting, and why a completed one never changes again (backend/src/meetings/meetings.service.ts,
    backend/src/meetings/meeting-mutation-boundary.ts). The coordinator may answer anything. */
module MeetingCompletion {
  import opened Options
  import opened AgendaPositions
  import opened RecurrencePlanner
  import MeetingAgenda
  import AgendaRuns
  import Log = DocumentLog

  /** All Meetings with their agendas, and the document of each. */
  datatype Site = Site(agenda: Agenda, documents: map<Id, Log.Document>)

  function StatusOf(agenda: Agenda, meetingId: Id): Option<Log.Status> {
    if meetingId !in MeetingSet(agenda.meetings) then None
    else if meetingId in MeetingAgenda.CompletedSet(agenda.meetings) then Some(Log.Completed)
    else if meetingId in PlannedSet(agenda.meetings) then Some(Log.Planned)
    else Some(Log.InProgress)
  }

  function WorkspaceOf(site: Site, meetingId: Id): Log.Workspace {
    Log.Workspace(StatusOf(site.agenda, meetingId),
                  if meetingId in site.documents then Some(site.documents[meetingId]) else None)
  }

  function WithStatus(meetings: seq<Meeting>, meetingId: Id, status: MeetingStatus): seq<Meeting> {
    seq(|meetings|, i requires 0 <= i < |meetings| =>
      if meetings[i].id == meetingId then meetings[i].(status := status) else meetings[i])
  }

  // ---------- completion ----------

  datatype CompletionError = BarrierInvalid | Missing | NotInProgress | NotAllowed | Retry | Unreadable | SnapshotsInvalid

  /** What the client submits, what the checks of its proofs and mentions say, and the decisions stored
      with the appearances. */
  datatype Submission = Submission(
    meetingId: Id, documentId: Id, sequence: nat, appearances: seq<Id>, allowed: bool, proven: bool,
    mentionsValid: bool,
    decisions: map<Id, TopicStatus>)

  datatype Outcome = Done(site: Site) | Failed(error: CompletionError)

  predicate OnAgenda(rows: Rows, meetingId: Id, topicId: Id) {
    exists id | id in rows :: rows[id].meetingId == meetingId && rows[id].topicId == topicId
  }

  /** Topics of the agenda with a decision take it. */
  function Decided(topics: map<Id, Topic>, rows: Rows, meetingId: Id, decisions: map<Id, TopicStatus>): map<Id, Topic> {
    map topicId | topicId in topics ::
      if topicId in decisions && OnAgenda(rows, meetingId, topicId)
      then topics[topicId].(status := decisions[topicId]) else topics[topicId]
  }

  function CompletionRefusal(site: Site, claimedDocument: Id, submission: Submission,
                             claimHolds: bool): Option<CompletionError>
  {
    var status := StatusOf(site.agenda, submission.meetingId);
    if !claimHolds then Some(BarrierInvalid)
    else if status.None? then Some(Missing)
    else if !status.value.InProgress? then Some(NotInProgress)
    else if !submission.allowed then Some(NotAllowed)
    else if submission.documentId != claimedDocument then Some(Retry)
    else if !submission.proven then Some(Unreadable)
    else if |submission.appearances| != |MeetingIds(site.agenda.rows, submission.meetingId)|
            || (set i | 0 <= i < |submission.appearances| :: submission.appearances[i])
               != MeetingIds(site.agenda.rows, submission.meetingId)
            || !submission.mentionsValid
    then Some(SnapshotsInvalid)
    else if submission.meetingId !in site.documents then Some(Missing)
    else if site.documents[submission.meetingId].currentSequence != submission.sequence then Some(Retry)
    else None
  }

  function Completed(site: Site, submission: Submission): Site
    requires submission.meetingId in site.documents
  {
    var m := submission.meetingId;
    Site(site.agenda.(meetings := WithStatus(site.agenda.meetings, m, MeetingStatus.Completed),
                      topics := Decided(site.agenda.topics, site.agenda.rows, m, submission.decisions)),
         site.documents[m := site.documents[m].(completedSequence := Some(submission.sequence))])
  }

  /** claimHolds is the conjunction of the coordinator's answers; one refusal rolls everything back. */
  function CompletedBy(site: Site, claimedDocument: Id, submission: Submission, claimHolds: bool): Outcome {
    var refusal := CompletionRefusal(site, claimedDocument, submission, claimHolds);
    if refusal.Some? then Failed(refusal.value) else Done(Completed(site, submission))
  }

  // ---------- steps ----------

  datatype Step =
    | Append(target: Id, access: Log.Access, update: Log.UpdateEnvelope)
    | Compact(target: Id, access: Log.Access, snapshotId: Id, snapshot: Log.SnapshotEnvelope,
              expectedSequence: Option<nat>)
    | Change(change: AgendaRuns.Change)
    | Finish(claimedDocument: Id, submission: Submission, claimHolds: bool)
    | SetStatus(target: Id, status: MeetingStatus)

  predicate Admissible(site: Site, step: Step) {
    match step
    case Change(change) => AgendaRuns.Admissible(site.agenda, change)
    case SetStatus(_, status) => !status.Completed?
    case _ => true
  }

  ghost function Next(site: Site, step: Step): Site
    requires Consistent(site.agenda)
  {
    match step
    case Append(m, access, envelope) =>
      var append := Log.AppendUpdate(WorkspaceOf(site, m), access, envelope);
      if append.Accepted? then site.(documents := site.documents[m := append.document]) else site
    case Compact(m, access, snapshotId, envelope, expected) =>
      var compaction := Log.Compact(WorkspaceOf(site, m), access, snapshotId, envelope, expected);
      if compaction.Compacted? then site.(documents := site.documents[m := compaction.document]) else site
    case Change(change) => site.(agenda := AgendaRuns.Next(site.agenda, change))
    case Finish(claimedDocument, submission, claimHolds) =>
      var outcome := CompletedBy(site, claimedDocument, submission, claimHolds);
      if outcome.Done? then outcome.site else site
    case SetStatus(m, status) =>
      if MeetingAgenda.Refusal(site.agenda, m).Some? then site
      else site.(agenda := site.agenda.(meetings := WithStatus(site.agenda.meetings, m, status)))
  }

  /** Completed, with the completed sequence equal to the current one. */
  predicate IsFinal(site: Site, meetingId: Id) {
    && meetingId in MeetingAgenda.CompletedSet(site.agenda.meetings) && meetingId in MeetingSet(site.agenda.meetings)
    && meetingId !in PlannedSet(site.agenda.meetings)
    && meetingId in site.documents
    && site.documents[meetingId].completedSequence == Some(site.documents[meetingId].currentSequence)
  }

  /** The appearances of one meeting are the same. */
  ghost predicate SameAppearances(before: Rows, after: Rows, meetingId: Id) {
    && (forall id | id in before && before[id].meetingId == meetingId :: id in after && after[id] == before[id])
    && (forall id | id in after && after[id].meetingId == meetingId :: id in before && before[id] == after[id])
  }

  // ---------- what a completion achieves ----------

  lemma StatusSets(meetings: seq<Meeting>, meetingId: Id, status: MeetingStatus)
    ensures var after := WithStatus(meetings, meetingId, status);
            && MeetingSet(after) == MeetingSet(meetings)
            && (forall other | other != meetingId ::
                  && (other in MeetingAgenda.CompletedSet(after) <==> other in MeetingAgenda.CompletedSet(meetings))
                  && (other in PlannedSet(after) <==> other in PlannedSet(meetings)))
            && (meetingId in MeetingSet(meetings) && status.Completed? ==>
                meetingId in MeetingAgenda.CompletedSet(after))
            && (!status.Planned? ==> meetingId !in PlannedSet(after))
  {
    var after := WithStatus(meetings, meetingId, status);
    forall i | 0 <= i < |meetings|
      ensures after[i].id == meetings[i].id && (after[i].id != meetingId ==> after[i] == meetings[i])
    {
    }
    assert forall i | 0 <= i < |meetings| :: after[i].id in MeetingSet(meetings);
    forall other | other in MeetingSet(meetings) ensures other in MeetingSet(after) {
      var i :| 0 <= i < |meetings| && meetings[i].id == other;
      assert after[i].id == other;
    }
    forall other | other != meetingId
      ensures other in MeetingAgenda.CompletedSet(after) <==> other in MeetingAgenda.CompletedSet(meetings)
      ensures other in PlannedSet(after) <==> other in PlannedSet(meetings)
    {
      assert forall i | 0 <= i < |meetings| && meetings[i].id == other :: after[i] == meetings[i];
    }
    if meetingId in MeetingSet(meetings) && status.Completed? {
      var i :| 0 <= i < |meetings| && meetings[i].id == meetingId;
      assert after[i].id == meetingId && after[i].status.Completed?;
    }
  }

  /** A completion that succeeds found the meeting in progress and the log at the submitted sequence, with every
      claim confirmed; it makes the meeting final and leaves the log and the agenda rows as they were. */
  lemma CompletionIsFinal(site: Site, claimedDocument: Id, submission: Submission, claimHolds: bool, after: Site)
    requires CompletedBy(site, claimedDocument, submission, claimHolds) == Done(after)
    ensures claimHolds && StatusOf(site.agenda, submission.meetingId) == Some(Log.InProgress)
    ensures submission.meetingId in site.documents
        && site.documents[submission.meetingId].currentSequence == submission.sequence
    ensures IsFinal(after, submission.meetingId) && after.agenda.rows == site.agenda.rows
    ensures after.documents[submission.meetingId] ==
            site.documents[submission.meetingId].(completedSequence := Some(submission.sequence))
    ensures forall m | m in site.documents && m != submission.meetingId ::
              m in after.documents && after.documents[m] == site.documents[m]
  {
    StatusSets(site.agenda.meetings, submission.meetingId, MeetingStatus.Completed);
  }

  // ---------- nothing changes a completed meeting ----------

  lemma StatusKeepsWellFormed(agenda: Agenda, meetingId: Id, status: MeetingStatus, topics: map<Id, Topic>)
    requires WellFormed(agenda) && topics.Keys == agenda.topics.Keys
    requires forall t | t in topics :: topics[t] == agenda.topics[t].(status := topics[t].status)
    ensures WellFormed(agenda.(meetings := WithStatus(agenda.meetings, meetingId, status), topics := topics))
  {
    StatusSets(agenda.meetings, meetingId, status);
  }

  lemma StepKeepsWellFormed(site: Site, step: Step)
    requires WellFormed(site.agenda) && Admissible(site, step)
    ensures WellFormed(Next(site, step).agenda)
  {
    hide WellFormed, AgendaRuns.Attempt;
    match step
    case Change(change) => AgendaRuns.StepKeepsWellFormed(site.agenda, change);
    case Finish(_, submission, _) =>
      StatusKeepsWellFormed(site.agenda, submission.meetingId, MeetingStatus.Completed,
                            Decided(site.agenda.topics, site.agenda.rows, submission.meetingId, submission.decisions));
    case SetStatus(m, status) =>
      StatusKeepsWellFormed(site.agenda, m, status, site.agenda.topics);
      assert site.agenda.(meetings := WithStatus(site.agenda.meetings, m, status), topics := site.agenda.topics) ==
             site.agenda.(meetings := WithStatus(site.agenda.meetings, m, status));
    case _ =>
  }

  lemma DeletionElsewhere(rows: Rows, id: Id, meetingId: Id)
    requires id in rows && rows[id].meetingId != meetingId
    ensures SameAppearances(rows, Deleted(rows, id), meetingId)
  {
    DeletedRows(rows, id, Deleted(rows, id));
  }

  lemma InsertionElsewhere(rows: Rows, id: Id, appearance: Appearance, meetingId: Id)
    requires id !in rows && appearance.meetingId != meetingId
    ensures SameAppearances(rows, Inserted(rows, id, appearance), meetingId)
  {
    InsertedRows(rows, id, appearance, Inserted(rows, id, appearance));
  }

  lemma PlacementElsewhere(agenda: Agenda, target: Id, input: MeetingAgenda.TopicInput, position: int, after: Agenda,
                           meetingId: Id)
    requires MeetingAgenda.Place(agenda, target, input, position) == MeetingAgenda.Done(after)
    requires target != meetingId && input.id !in agenda.rows
    requires input.sourceAppearanceId.Some? && input.sourceAppearanceId.value in agenda.rows ==>
               agenda.rows[input.sourceAppearanceId.value].meetingId != meetingId
    ensures SameAppearances(agenda.rows, after.rows, meetingId) && after.meetings == agenda.meetings
  {
    hide Deleted, Inserted, DenseSection;
    var source := input.sourceAppearanceId;
    var middle := MeetingAgenda.WithoutSource(agenda.rows, source);
    if source.Some? && source.value in agenda.rows {
      DeletionElsewhere(agenda.rows, source.value, meetingId);
      DeletedRows(agenda.rows, source.value, middle);
    }
    var place := if input.position.Some? then input.position.value else position;
    InsertionElsewhere(middle, input.id,
                       Appearance(target, input.topicId, input.sectionId, place, input.source, false), meetingId);
  }

  /** An agenda change that succeeds is not about a completed meeting, and moves nothing out of one. */
  lemma ChangeElsewhere(agenda: Agenda, change: AgendaRuns.Change, meetingId: Id)
    requires Consistent(agenda) && AgendaRuns.Admissible(agenda, change)
    requires meetingId in MeetingAgenda.CompletedSet(agenda.meetings) && meetingId in MeetingSet(agenda.meetings)
    ensures SameAppearances(agenda.rows, AgendaRuns.Next(agenda, change).rows, meetingId)
    ensures AgendaRuns.Next(agenda, change).meetings == agenda.meetings
  {
    hide Consistent, AppearancesOf, PlanFor, Deleted, Reordered, MeetingAgenda.Place, SameAppearances;
    var outcome := AgendaRuns.Attempt(agenda, change);
    SameRows(agenda.rows, meetingId);
    if outcome.Done? {
      match change
      case Add(target, input) => AdditionElsewhere(agenda, target, input, outcome.agenda, meetingId);
      case Remove(_, id) => DeletionElsewhere(agenda.rows, id, meetingId);
      case RemovePlanned(_, id) => DeletionElsewhere(agenda.rows, id, meetingId);
      case Order(target, items) => ReorderElsewhere(agenda.rows, target, items, meetingId);
    }
  }

  lemma SameRows(rows: Rows, meetingId: Id)
    ensures SameAppearances(rows, rows, meetingId)
  {
  }

  lemma ReorderElsewhere(rows: Rows, target: Id, items: seq<OrderItem>, meetingId: Id)
    requires ValidOrder(rows, target, items) && target != meetingId
    ensures SameAppearances(rows, Reordered(rows, items), meetingId)
  {
    ReorderedRows(rows, target, items, Reordered(rows, items));
  }

  lemma AdditionElsewhere(agenda: Agenda, target: Id, input: MeetingAgenda.TopicInput, after: Agenda, meetingId: Id)
    requires Consistent(agenda) && input.id !in agenda.rows
    requires meetingId in MeetingAgenda.CompletedSet(agenda.meetings) && meetingId in MeetingSet(agenda.meetings)
    requires MeetingAgenda.AddTopic(agenda, target, input) == MeetingAgenda.Done(after)
    ensures SameAppearances(agenda.rows, after.rows, meetingId) && after.meetings == agenda.meetings
  {
    hide Consistent, AppearancesOf, PlanFor, MeetingAgenda.Place, SameAppearances, SectionIds,
      MeetingAgenda.WithoutSource;
    var reopened := MeetingAgenda.Reopened(agenda, input.topicId);
    MeetingAgenda.ReopenedIsConsistent(agenda, input.topicId);
    var position: int;
    if input.source == Recurrence {
      position := MeetingAgenda.FindMove(PlanFor(reopened, input.topicId).moves, target, input).value.position;
    } else {
      position := |SectionIds(MeetingAgenda.WithoutSource(agenda.rows, input.sourceAppearanceId), target,
                              input.sectionId)| + 1;
    }
    PlacementElsewhere(reopened, target, input, position, after, meetingId);
  }

  /** One step of anyone leaves a final meeting final, with the same document and the same appearances. */
  lemma StepKeepsFinal(site: Site, step: Step, meetingId: Id)
    requires WellFormed(site.agenda) && Admissible(site, step) && IsFinal(site, meetingId)
    ensures var after := Next(site, step);
            && IsFinal(after, meetingId) && after.documents[meetingId] == site.documents[meetingId]
            && SameAppearances(site.agenda.rows, after.agenda.rows, meetingId)
  {
    hide SameAppearances, Dense, Consistent, AgendaRuns.Attempt;
    SameRows(site.agenda.rows, meetingId);
    match step
    case Change(change) => ChangeElsewhere(site.agenda, change, meetingId);
    case Finish(claimedDocument, submission, claimHolds) =>
      StatusSets(site.agenda.meetings, submission.meetingId, MeetingStatus.Completed);
    case SetStatus(m, status) => StatusSets(site.agenda.meetings, m, status);
    case _ =>
  }

  ghost predicate AdmissibleRun(site: Site, steps: seq<Step>)
    requires WellFormed(site.agenda)
    decreases |steps|
  {
    steps != [] ==>
      && Admissible(site, steps[0])
      && (StepKeepsWellFormed(site, steps[0]); AdmissibleRun(Next(site, steps[0]), steps[1..]))
  }

  ghost function After(site: Site, steps: seq<Step>): Site
    requires WellFormed(site.agenda) && AdmissibleRun(site, steps)
    decreases |steps|
  {
    if steps == [] then site
    else StepKeepsWellFormed(site, steps[0]); After(Next(site, steps[0]), steps[1..])
  }

  /** Once completed, for ever: whatever the coordinator says and whoever asks, the completed sequence equals the
      current one and no append, compaction or agenda change of the meeting takes effect. */
  lemma {:induction false} CompletedIsFinal(site: Site, steps: seq<Step>, meetingId: Id)
    requires WellFormed(site.agenda) && AdmissibleRun(site, steps) && IsFinal(site, meetingId)
    ensures var after := After(site, steps);
            && IsFinal(after, meetingId) && after.documents[meetingId] == site.documents[meetingId]
            && SameAppearances(site.agenda.rows, after.agenda.rows, meetingId)
    decreases |steps|
  {
    hide Consistent, Dense, Next, Admissible, IsFinal;
    if steps == [] {
      SameRows(site.agenda.rows, meetingId);
    } else {
      StepKeepsWellFormed(site, steps[0]);
      StepKeepsFinal(site, steps[0], meetingId);
      CompletedIsFinal(Next(site, steps[0]), steps[1..], meetingId);
    }
  }

  // ---------- the transaction in place ----------

  /** Topics of the given appearances take their decision. */
  ghost predicate DecidedFor(before: map<Id, Topic>, after: map<Id, Topic>, rows: Rows, ids: set<Id>,
                             decisions: map<Id, TopicStatus>)
    requires ids <= rows.Keys
  {
    && after.Keys == before.Keys
    && forall t | t in before ::
         after[t] == if t in decisions && (exists id | id in ids :: rows[id].topicId == t)
                     then before[t].(status := decisions[t]) else before[t]
  }

  lemma OneMoreDecided(before: map<Id, Topic>, topics: map<Id, Topic>, after: map<Id, Topic>, rows: Rows, ids: set<Id>,
                       id: Id,
                       decisions: map<Id, TopicStatus>)
    requires ids <= rows.Keys && id in rows && DecidedFor(before, topics, rows, ids, decisions)
    requires var topicId := rows[id].topicId;
             after == if topicId in decisions && topicId in topics
                      then topics[topicId := topics[topicId].(status := decisions[topicId])] else topics
    ensures DecidedFor(before, after, rows, ids + {id}, decisions)
  {
    forall t | t in before && t != rows[id].topicId
      ensures (exists other | other in ids + {id} :: rows[other].topicId == t) <==> (exists other | other in ids ::
          rows[other].topicId == t)
    {
      if other :| other in ids && rows[other].topicId == t {
        assert other in ids + {id};
      }
    }
    assert id in ids + {id};
  }

  lemma AllDecided(before: map<Id, Topic>, after: map<Id, Topic>, rows: Rows, meetingId: Id,
                   decisions: map<Id, TopicStatus>)
    requires DecidedFor(before, after, rows, MeetingIds(rows, meetingId), decisions)
    ensures after == Decided(before, rows, meetingId, decisions)
  {
    forall t | t in before
      ensures (exists id | id in MeetingIds(rows, meetingId) :: rows[id].topicId == t) <==> OnAgenda(rows, meetingId, t)
    {
      if OnAgenda(rows, meetingId, t) {
        var id :| id in rows && rows[id].meetingId == meetingId && rows[id].topicId == t;
        assert id in MeetingIds(rows, meetingId);
      }
    }
  }

  class CompletionTables {
    var agenda: Agenda
    var documents: map<Id, Log.Document>

    function View(): Site
      reads this
    {
      Site(agenda, documents)
    }

    /** The decisions stored with the appearances of the meeting become the status of their topics. */
    method DecideTopics(meetingId: Id, decisions: map<Id, TopicStatus>)
      modifies this`agenda
      ensures agenda == old(agenda).(topics := Decided(old(agenda).topics, old(agenda).rows, meetingId, decisions))
    {
      ghost var before := agenda;
      var ids := MeetingIds(agenda.rows, meetingId);
      var rest := ids;
      while rest != {}
        invariant rest <= ids && agenda == before.(topics := agenda.topics)
        invariant DecidedFor(before.topics, agenda.topics, before.rows, ids - rest, decisions)
        decreases |rest|
      {
        var id :| id in rest;
        var topicId := agenda.rows[id].topicId;
        ghost var topics := agenda.topics;
        if topicId in decisions && topicId in agenda.topics {
          agenda := agenda.(topics := agenda.topics[topicId := agenda.topics[topicId].(status := decisions[topicId])]);
        }
        OneMoreDecided(before.topics, topics, agenda.topics, before.rows, ids - rest, id, decisions);
        assert ids - (rest - {id}) == ids - rest + {id};
        rest := rest - {id};
      }
      assert ids - rest == ids;
      AllDecided(before.topics, agenda.topics, before.rows, meetingId, decisions);
    }

    method Complete(claimedDocument: Id, submission: Submission,
                    claimHolds: bool) returns (error: Option<CompletionError>)
      modifies this
      ensures CompletedBy(old(View()), claimedDocument, submission, claimHolds) ==
              if error.None? then Done(View()) else Failed(error.value)
      ensures error.Some? ==> View() == old(View())
    {
      error := CompletionRefusal(View(), claimedDocument, submission, claimHolds);
      if error.Some? {
        return;
      }
      DecideTopics(submission.meetingId, submission.decisions);
      var document := documents[submission.meetingId].(completedSequence := Some(submission.sequence));
      documents := documents[submission.meetingId := document];
      agenda := agenda.(meetings := WithStatus(agenda.meetings, submission.meetingId, MeetingStatus.Completed));
    }
  }
}
