/** Agenda changes of a meeting as whole transactions: each either fails and changes nothing or yields
    the new tables (backend/src/meetings/meetings.service.ts). */
module MeetingAgenda {
  import opened Options
  import opened CalendarDates
  import opened AgendaPositions
  import opened RecurrencePlanner

  datatype Outcome = Done(agenda: Agenda) | Failed(error: Error)

  datatype TopicInput = TopicInput(
    id: Id, topicId: Id, sectionId: Id, position: Option<nat>, source: Source, sourceAppearanceId: Option<Id>)

  predicate InputIsValid(input: TopicInput) {
    input.position.Some? ==> input.position.value > 0
  }

  function CompletedSet(meetings: seq<Meeting>): set<Id> {
    set i | 0 <= i < |meetings| && meetings[i].status.Completed? :: meetings[i].id
  }

  /** Why the row lock on a meeting refuses a change; None when the change may proceed. */
  function Refusal(agenda: Agenda, meetingId: Id): Option<Error> {
    if meetingId !in MeetingSet(agenda.meetings) then Some(NotFound)
    else if meetingId in CompletedSet(agenda.meetings) then Some(MeetingCompleted)
    else None
  }

  /** Adding a deferred topic reopens it. */
  function Reopened(agenda: Agenda, topicId: Id): Agenda
    requires topicId in agenda.topics
  {
    if agenda.topics[topicId].status.Deferred?
    then agenda.(topics := agenda.topics[topicId := agenda.topics[topicId].(status := Open)])
    else agenda
  }

  predicate MatchesMove(move: Move, meetingId: Id, input: TopicInput) {
    && move.meetingId == meetingId && move.sectionId == input.sectionId
    && (input.position.None? || move.position == input.position.value)
    && (if move.source.Some? then Some(move.source.value.id) else None) == input.sourceAppearanceId
  }

  function FindMove(moves: seq<Move>, meetingId: Id, input: TopicInput): Option<Move> {
    if moves == [] then None
    else if MatchesMove(moves[0], meetingId, input) then Some(moves[0])
    else FindMove(moves[1..], meetingId, input)
  }

  /** The given source cannot be moved. */
  predicate SourceIsInvalid(agenda: Agenda, input: TopicInput) {
    input.sourceAppearanceId.Some? && (
      var id := input.sourceAppearanceId.value;
      || id !in agenda.rows
      || agenda.rows[id].topicId != input.topicId
      || agenda.rows[id].source != Recurrence
      || agenda.rows[id].contentEdited
      || agenda.rows[id].meetingId !in PlannedSet(agenda.meetings))
  }

  /** The checks before the plan is consulted, given the topic's appearances. */
  function AddRefusal(agenda: Agenda, meetingId: Id, input: TopicInput, appearances: map<Id, Id>): Option<Error> {
    var source := input.sourceAppearanceId;
    if Refusal(agenda, meetingId).Some? then Refusal(agenda, meetingId)
    else if input.topicId !in agenda.topics || input.sectionId !in agenda.sections then Some(NotFound)
    else if meetingId in appearances && Some(appearances[meetingId]) != source then Some(TopicConflict)
    else if source.Some? && source.value in agenda.rows
            && Refusal(agenda, agenda.rows[source.value].meetingId).Some?
    then Refusal(agenda, agenda.rows[source.value].meetingId)
    else if SourceIsInvalid(agenda, input) then Some(ReconciliationChanged)
    else None
  }

  ghost function AddTopic(agenda: Agenda, meetingId: Id, input: TopicInput): Outcome
    requires Consistent(agenda)
  {
    var refusal := AddRefusal(agenda, meetingId, input, AppearancesOf(agenda.rows, input.topicId));
    if refusal.Some? then Failed(refusal.value)
    else
      var reopened := Reopened(agenda, input.topicId);
      assert Consistent(reopened) by { ReopenedIsConsistent(agenda, input.topicId); }
      if input.source == Recurrence then PlacePlanned(reopened, meetingId, input)
      else
        var rows := WithoutSource(agenda.rows, input.sourceAppearanceId);
        Place(reopened, meetingId, input, |SectionIds(rows, meetingId, input.sectionId)| + 1)
  }

  /** An automatic appearance must be one of the moves of a fresh plan. */
  ghost function PlacePlanned(agenda: Agenda, meetingId: Id, input: TopicInput): Outcome
    requires Consistent(agenda)
  {
    var plan := PlanFor(agenda, input.topicId);
    if plan.Refused? then Failed(plan.error)
    else
      var planned := FindMove(plan.moves, meetingId, input);
      if planned.None? then Failed(ReconciliationChanged)
      else Place(agenda, meetingId, input, planned.value.position)
  }

  lemma ReopenedIsConsistent(agenda: Agenda, topicId: Id)
    requires Consistent(agenda) && topicId in agenda.topics
    ensures Consistent(Reopened(agenda, topicId))
    ensures Reopened(agenda, topicId).rows == agenda.rows
  {
  }

  function WithoutSource(rows: Rows, source: Option<Id>): Rows {
    if source.Some? && source.value in rows then Deleted(rows, source.value) else rows
  }

  /** Removes the source, checks the section and inserts the appearance. */
  ghost function Place(agenda: Agenda, meetingId: Id, input: TopicInput, defaultPosition: int): Outcome {
    var rows := WithoutSource(agenda.rows, input.sourceAppearanceId);
    var position := if input.position.Some? then input.position.value else defaultPosition;
    if !DenseSection(rows, meetingId, input.sectionId) then Failed(PositionsInvalid)
    else if position > |SectionIds(rows, meetingId, input.sectionId)| + 1 then Failed(PositionInvalid)
    else
      var appearance := Appearance(meetingId, input.topicId, input.sectionId, position, input.source, false);
      Done(agenda.(rows := Inserted(rows, input.id, appearance)))
  }

  ghost function RemoveTopic(agenda: Agenda, meetingId: Id, id: Id): Outcome {
    if Refusal(agenda, meetingId).Some? then Failed(Refusal(agenda, meetingId).value)
    else if id !in agenda.rows || agenda.rows[id].meetingId != meetingId then Failed(NotFound)
    else
      var skips := if agenda.rows[id].source == Recurrence
                   then agenda.skips + {(agenda.rows[id].topicId, meetingId)} else agenda.skips;
      Done(agenda.(rows := Deleted(agenda.rows, id), skips := skips))
  }

  ghost function RemoveReconciled(agenda: Agenda, meetingId: Id, id: Id): Outcome
    requires Consistent(agenda)
  {
    if Refusal(agenda, meetingId).Some? then Failed(Refusal(agenda, meetingId).value)
    else if id !in agenda.rows || agenda.rows[id].meetingId != meetingId
            || agenda.rows[id].source != Recurrence || agenda.rows[id].contentEdited
    then Failed(ReconciliationChanged)
    else
      var plan := PlanFor(agenda, agenda.rows[id].topicId);
      if plan.Refused? then Failed(plan.error)
      else if Ref(id, meetingId) !in plan.removals then Failed(ReconciliationChanged)
      else Done(agenda.(rows := Deleted(agenda.rows, id)))
  }

  /** A skipped appearance may be planned again. */
  function RestoreRecurrence(agenda: Agenda, meetingId: Id, topicId: Id): Outcome {
    if Refusal(agenda, meetingId).Some? then Failed(Refusal(agenda, meetingId).value)
    else if (topicId, meetingId) !in agenda.skips then Failed(NotFound)
    else Done(agenda.(skips := agenda.skips - {(topicId, meetingId)}))
  }

  ghost function Reorder(agenda: Agenda, meetingId: Id, items: seq<OrderItem>): Outcome {
    if Refusal(agenda, meetingId).Some? then Failed(Refusal(agenda, meetingId).value)
    else if !UniqueItems(items) then Failed(PositionsInvalid)
    else if ItemIds(items) != MeetingIds(agenda.rows, meetingId) then Failed(AgendaChanged)
    else if exists i | 0 <= i < |items| :: items[i].sectionId !in agenda.sections then Failed(NotFound)
    else if !ValidOrder(agenda.rows, meetingId, items) then Failed(PositionsInvalid)
    else Done(agenda.(rows := Reordered(agenda.rows, items)))
  }

  // ---------- what every change keeps ----------

  /** Deleting a row keeps the appearances unique and leaves the other rows in place. */
  lemma DeletedAppearances(rows: Rows, id: Id, after: Rows)
    requires UniqueAppearances(rows) && Dense(rows) && id in rows && after == Deleted(rows, id)
    ensures UniqueAppearances(after) && Dense(after) && after.Keys == rows.Keys - {id}
    ensures forall other | other in after :: after[other] == rows[other].(position := after[other].position)
  {
    DeletedKeepsDense(rows, id, after);
    DeletedRows(rows, id, after);
  }

  lemma InsertedAppearances(rows: Rows, id: Id, appearance: Appearance, after: Rows)
    requires UniqueAppearances(rows) && Dense(rows) && id !in rows && after == Inserted(rows, id, appearance)
    requires 1 <= appearance.position <= |SectionIds(rows, appearance.meetingId, appearance.sectionId)| + 1
    requires forall other | other in rows && rows[other].meetingId == appearance.meetingId ::
               rows[other].topicId != appearance.topicId
    ensures UniqueAppearances(after) && Dense(after) && after.Keys == rows.Keys + {id} && after[id] == appearance
    ensures forall other | other in rows :: after[other] == rows[other].(position := after[other].position)
  {
    InsertedKeepsDense(rows, id, appearance, after);
    InsertedRows(rows, id, appearance, after);
  }

  /** What one placement changes: the source leaves, the new row arrives, other rows keep all but their position. */
  ghost predicate Placed(before: Rows, after: Rows, source: Option<Id>, id: Id, appearance: Appearance) {
    var moved := if source.Some? then {source.value} else {};
    && after.Keys == before.Keys - moved + {id} && after[id] == appearance
    && (forall other | other in before && other !in moved ::
          after[other] == before[other].(position := after[other].position))
    && (forall other | other in before && other !in moved && before[other].meetingId != appearance.meetingId
          && (source.Some? && source.value in before ==> before[other].meetingId != before[source.value].meetingId) ::
          after[other] == before[other])
    && KeepsOrder(before, after, moved)
  }

  lemma PlacedOthers(rows: Rows, source: Id, id: Id, appearance: Appearance, middle: Rows, after: Rows)
    requires source in rows && id !in rows && middle == Deleted(rows, source) && after == Inserted(middle, id, appearance)
    ensures after.Keys == rows.Keys - {source} + {id} && after[id] == appearance
    ensures forall other | other in rows && other != source ::
              after[other] == rows[other].(position := after[other].position)
    ensures forall other | other in rows && other != source && rows[other].meetingId != appearance.meetingId
              && rows[other].meetingId != rows[source].meetingId :: after[other] == rows[other]
  {
    DeletedRows(rows, source, middle);
    InsertedRows(middle, id, appearance, after);
    hide Deleted, Inserted;
  }

  lemma PlacedRows(rows: Rows, source: Option<Id>, id: Id, appearance: Appearance, middle: Rows, after: Rows)
    requires UniqueAppearances(rows) && Dense(rows) && id !in rows && (source.Some? ==> source.value in rows)
    requires middle == WithoutSource(rows, source) && after == Inserted(middle, id, appearance)
    requires 1 <= appearance.position <= |SectionIds(middle, appearance.meetingId, appearance.sectionId)| + 1
    requires forall other | other in rows && rows[other].meetingId == appearance.meetingId
                            && rows[other].topicId == appearance.topicId :: Some(other) == source
    ensures UniqueAppearances(after) && Dense(after)
    ensures Placed(rows, after, source, id, appearance)
  {
    if source.Some? {
      DeletedAppearances(rows, source.value, middle);
      InsertedAppearances(middle, id, appearance, after);
      DeletedKeepsDense(rows, source.value, middle);
      PlacedOthers(rows, source.value, id, appearance, middle, after);
      InsertedKeepsDense(middle, id, appearance, after);
      hide Inserted, Deleted, Dense, UniqueAppearances, SectionIds, KeepsOrder;
      KeepsOrderCompose(rows, source.value, middle, after);
    } else {
      InsertedAppearances(rows, id, appearance, after);
      InsertedKeepsDense(rows, id, appearance, after);
      InsertedRows(rows, id, appearance, after);
    }
  }

  lemma PlacedMeetings(before: Rows, after: Rows, source: Option<Id>, id: Id, appearance: Appearance, meetings: set<Id>)
    requires Placed(before, after, source, id, appearance) && appearance.meetingId in meetings
    requires forall other | other in before :: before[other].meetingId in meetings
    ensures forall other | other in after :: after[other].meetingId in meetings
  {
    hide KeepsOrder;
  }

  /** New rows that satisfy the table constraints keep the agenda well formed. */
  lemma NewRows(before: Agenda, after: Agenda)
    requires WellFormed(before) && after == before.(rows := after.rows)
    requires UniqueAppearances(after.rows) && Dense(after.rows)
    requires forall id | id in after.rows :: after.rows[id].meetingId in MeetingSet(before.meetings)
    ensures WellFormed(after)
  {
  }

  /** Placing an appearance keeps the tables well formed and every other appearance in its order. */
  lemma PlaceKeepsWellFormed(agenda: Agenda, meetingId: Id, input: TopicInput, defaultPosition: int, after: Agenda)
    requires WellFormed(agenda) && InputIsValid(input) && input.id !in agenda.rows && defaultPosition > 0
    requires meetingId in MeetingSet(agenda.meetings)
    requires input.sourceAppearanceId.Some? ==> input.sourceAppearanceId.value in agenda.rows
    requires meetingId in AppearancesOf(agenda.rows, input.topicId) ==>
               Some(AppearancesOf(agenda.rows, input.topicId)[meetingId]) == input.sourceAppearanceId
    requires Place(agenda, meetingId, input, defaultPosition) == Done(after)
    ensures WellFormed(after) && after == agenda.(rows := after.rows)
    ensures input.id in after.rows
    ensures Placed(agenda.rows, after.rows, input.sourceAppearanceId, input.id, after.rows[input.id])
    ensures var position := if input.position.Some? then input.position.value else defaultPosition;
            after.rows[input.id] == Appearance(meetingId, input.topicId, input.sectionId, position, input.source, false)
  {
    var source := input.sourceAppearanceId;
    var middle := WithoutSource(agenda.rows, source);
    var position := if input.position.Some? then input.position.value else defaultPosition;
    var appearance := Appearance(meetingId, input.topicId, input.sectionId, position, input.source, false);
    AppearanceLookup(agenda.rows, input.topicId);
    assert after == agenda.(rows := Inserted(middle, input.id, appearance));
    hide AppearancesOf, Deleted, Inserted, KeepsOrder, WithoutSource, DenseSection;
    PlacedRows(agenda.rows, source, input.id, appearance, middle, after.rows);
    PlacedMeetings(agenda.rows, after.rows, source, input.id, appearance, MeetingSet(agenda.meetings));
    hide Placed, Dense, UniqueAppearances;
    NewRows(agenda, after);
  }
}
