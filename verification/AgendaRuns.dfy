/** Whole runs of agenda changes (backend/src/meetings/meetings.service.ts): whatever users and
    reconciling clients ask for, in any order, every section stays numbered 1, 2, ... */
module AgendaRuns {
  import opened Options
  import opened AgendaPositions
  import opened RecurrenceSchedule
  import opened RecurrencePlanner
  import opened MeetingAgenda

  datatype Change =
    | Add(meetingId: Id, input: TopicInput)
    | Remove(meetingId: Id, id: Id)
    | RemovePlanned(meetingId: Id, id: Id)
    | Order(meetingId: Id, items: seq<OrderItem>)

  /** What request validation and the primary key guarantee about a change. */
  predicate Admissible(agenda: Agenda, change: Change) {
    change.Add? ==> InputIsValid(change.input) && change.input.id !in agenda.rows
  }

  ghost function Attempt(agenda: Agenda, change: Change): Outcome
    requires Consistent(agenda)
  {
    match change
    case Add(meetingId, input) => AddTopic(agenda, meetingId, input)
    case Remove(meetingId, id) => RemoveTopic(agenda, meetingId, id)
    case RemovePlanned(meetingId, id) => RemoveReconciled(agenda, meetingId, id)
    case Order(meetingId, items) => Reorder(agenda, meetingId, items)
  }

  /** A refused change is rolled back. */
  ghost function Next(agenda: Agenda, change: Change): Agenda
    requires Consistent(agenda)
  {
    var outcome := Attempt(agenda, change);
    if outcome.Done? then outcome.agenda else agenda
  }

  /** The row that a change takes out or puts elsewhere. */
  function Moved(change: Change): set<Id> {
    match change
    case Add(_, input) => if input.sourceAppearanceId.Some? then {input.sourceAppearanceId.value} else {}
    case Remove(_, id) => {id}
    case RemovePlanned(_, id) => {id}
    case Order(_, items) => ItemIds(items)
  }

  lemma AddKeepsWellFormed(agenda: Agenda, meetingId: Id, input: TopicInput, after: Agenda)
    requires WellFormed(agenda) && InputIsValid(input) && input.id !in agenda.rows
    requires AddTopic(agenda, meetingId, input) == Done(after)
    ensures WellFormed(after)
    ensures KeepsOrder(agenda.rows, after.rows, Moved(Add(meetingId, input)))
    ensures input.id in after.rows && after.rows.Keys == agenda.rows.Keys - Moved(Add(meetingId, input)) + {input.id}
  {
    hide AppearancesOf, Place, PlanFor, KeepsOrder, Dense;
    var reopened := Reopened(agenda, input.topicId);
    ReopenedIsConsistent(agenda, input.topicId);
    var defaultPosition: int;
    if input.source == Recurrence {
      var planned := FindMove(PlanFor(reopened, input.topicId).moves, meetingId, input);
      defaultPosition := planned.value.position;
      PlannedPosition(reopened, input.topicId, meetingId, input);
    } else {
      var rows := WithoutSource(agenda.rows, input.sourceAppearanceId);
      defaultPosition := |SectionIds(rows, meetingId, input.sectionId)| + 1;
    }
    PlaceKeepsWellFormed(reopened, meetingId, input, defaultPosition, after);
  }

  lemma {:induction false} FoundMove(moves: seq<Move>, meetingId: Id, input: TopicInput)
    requires FindMove(moves, meetingId, input).Some?
    ensures FindMove(moves, meetingId, input).value in moves
  {
    if !MatchesMove(moves[0], meetingId, input) {
      FoundMove(moves[1..], meetingId, input);
    }
  }

  lemma {:induction false} AssignedPositions(targets: seq<Target>, reusable: seq<Ref>, sectionId: Id)
    requires forall i | 0 <= i < |targets| :: targets[i].position > 0
    ensures forall move | move in Assign(targets, reusable, sectionId).0 :: move.position > 0
  {
    if targets != [] {
      var rest := if targets[0].stable || reusable == [] then reusable
                  else WithoutIndex(reusable, PickIndex(reusable, targets[0].meetingId));
      AssignedPositions(targets[1..], rest, sectionId);
    }
  }

  /** Planned positions start at 1. */
  lemma PlannedPosition(agenda: Agenda, topicId: Id, meetingId: Id, input: TopicInput)
    requires Consistent(agenda) && PlanFor(agenda, topicId).Plan?
    requires FindMove(PlanFor(agenda, topicId).moves, meetingId, input).Some?
    ensures FindMove(PlanFor(agenda, topicId).moves, meetingId, input).value.position > 0
  {
    hide AppearancesOf, MovableOf, OtherRows, RefsOf, StableIds;
    var topic := agenda.topics[topicId];
    var sectionId := topic.defaultSection.value;
    var targets := TargetsOf(agenda, topicId, sectionId,
                             Greedy(SlotsOf(agenda, topicId), topic.firstDueDate, topic.interval).slots);
    AssignedPositions(targets, RefsOf(agenda.byDate, MovableOf(agenda, topicId) - StableIds(targets)), sectionId);
    FoundMove(PlanFor(agenda, topicId).moves, meetingId, input);
  }

  lemma DeletionKeepsWellFormed(agenda: Agenda, id: Id, after: Agenda)
    requires WellFormed(agenda) && id in agenda.rows && after.rows == Deleted(agenda.rows, id)
    requires after == agenda.(rows := after.rows, skips := after.skips)
    ensures WellFormed(after) && KeepsOrder(agenda.rows, after.rows, {id})
  {
    DeletedAppearances(agenda.rows, id, after.rows);
    DeletedKeepsDense(agenda.rows, id, after.rows);
  }

  lemma ReorderKeepsWellFormed(agenda: Agenda, meetingId: Id, items: seq<OrderItem>, after: Agenda)
    requires WellFormed(agenda) && Reorder(agenda, meetingId, items) == Done(after)
    ensures WellFormed(after)
    ensures after.rows.Keys == agenda.rows.Keys
    ensures forall i | 0 <= i < |items| ::
              items[i].id in after.rows
              && (after.rows[items[i].id].sectionId, after.rows[items[i].id].position) == (items[i].sectionId, items[i].position)
    ensures forall id | id in agenda.rows && agenda.rows[id].meetingId != meetingId :: after.rows[id] == agenda.rows[id]
  {
    ReorderedRows(agenda.rows, meetingId, items, after.rows);
    ReorderedKeepsDense(agenda.rows, meetingId, items, after.rows);
    ReorderedTopics(agenda.rows, items);
  }

  lemma {:induction false} ReorderedTopics(rows: Rows, items: seq<OrderItem>)
    ensures Reordered(rows, items).Keys == rows.Keys
    ensures forall id | id in rows ::
              && Reordered(rows, items)[id].meetingId == rows[id].meetingId
              && Reordered(rows, items)[id].topicId == rows[id].topicId
  {
    if items != [] {
      ReorderedTopics(rows, items[1..]);
    }
  }

  /** One attempted change. An insertion or removal leaves the order of all other rows alone. */
  lemma StepKeepsWellFormed(agenda: Agenda, change: Change)
    requires WellFormed(agenda) && Admissible(agenda, change)
    ensures WellFormed(Next(agenda, change))
    ensures !change.Order? ==> KeepsOrder(agenda.rows, Next(agenda, change).rows, Moved(change))
  {
    hide AddTopic, RemoveTopic, RemoveReconciled, Reorder, KeepsOrder, Consistent, Dense, Deleted;
    var outcome := Attempt(agenda, change);
    if outcome.Failed? {
      UnchangedOrder(agenda.rows, Moved(change));
    } else {
      match change
      case Add(meetingId, input) => AddKeepsWellFormed(agenda, meetingId, input, outcome.agenda);
      case Remove(meetingId, id) =>
        RemovedRow(agenda, meetingId, id, outcome.agenda);
        DeletionKeepsWellFormed(agenda, id, outcome.agenda);
      case RemovePlanned(meetingId, id) =>
        RemovedPlannedRow(agenda, meetingId, id, outcome.agenda);
        DeletionKeepsWellFormed(agenda, id, outcome.agenda);
      case Order(meetingId, items) => ReorderKeepsWellFormed(agenda, meetingId, items, outcome.agenda);
    }
  }

  lemma UnchangedOrder(rows: Rows, moved: set<Id>)
    ensures KeepsOrder(rows, rows, moved)
  {
  }

  lemma RemovedRow(agenda: Agenda, meetingId: Id, id: Id, after: Agenda)
    requires RemoveTopic(agenda, meetingId, id) == Done(after)
    ensures id in agenda.rows && after.rows == Deleted(agenda.rows, id)
    ensures after == agenda.(rows := after.rows, skips := after.skips)
  {
  }

  lemma RemovedPlannedRow(agenda: Agenda, meetingId: Id, id: Id, after: Agenda)
    requires Consistent(agenda) && RemoveReconciled(agenda, meetingId, id) == Done(after)
    ensures id in agenda.rows && after.rows == Deleted(agenda.rows, id)
    ensures after == agenda.(rows := after.rows, skips := after.skips)
  {
  }

  // ---------- runs ----------

  ghost predicate AdmissibleRun(agenda: Agenda, changes: seq<Change>)
    requires WellFormed(agenda)
    decreases |changes|
  {
    changes != [] ==>
      && Admissible(agenda, changes[0])
      && (StepKeepsWellFormed(agenda, changes[0]); AdmissibleRun(Next(agenda, changes[0]), changes[1..]))
  }

  ghost function After(agenda: Agenda, changes: seq<Change>): Agenda
    requires WellFormed(agenda) && AdmissibleRun(agenda, changes)
    decreases |changes|
  {
    if changes == [] then agenda
    else StepKeepsWellFormed(agenda, changes[0]); After(Next(agenda, changes[0]), changes[1..])
  }

  /** After any run of changes a section of n rows carries exactly the positions 1..n. */
  lemma {:induction false} RunsStayDense(agenda: Agenda, changes: seq<Change>, meetingId: Id, sectionId: Id)
    requires WellFormed(agenda) && AdmissibleRun(agenda, changes)
    ensures var rows := After(agenda, changes).rows;
            var ids := SectionIds(rows, meetingId, sectionId);
            WellFormed(After(agenda, changes)) && PositionsOf(rows, ids) == UpTo(|ids|)
    decreases |changes|
  {
    if changes == [] {
      assert DenseSection(agenda.rows, meetingId, sectionId);
      DenseUsesEveryPosition(agenda.rows, meetingId, sectionId);
    } else {
      StepKeepsWellFormed(agenda, changes[0]);
      RunsStayDense(Next(agenda, changes[0]), changes[1..], meetingId, sectionId);
    }
  }
}
