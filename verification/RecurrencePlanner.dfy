/** The reconciliation plan of a Recurring Topic: which appearances to keep, move and remove
    (backend/src/recurrence/recurrence.service.ts, plan and buildPlan). */
module RecurrencePlanner {
  import opened Options
  import opened CalendarDates
  import opened AgendaPositions
  import opened RecurrenceSchedule

  datatype MeetingStatus = Planned | InProgress | Completed

  datatype Meeting = Meeting(id: Id, date: Date, status: MeetingStatus)

  datatype TopicStatus = Open | Deferred | Closed

  datatype Topic = Topic(
    status: TopicStatus, recurring: bool, firstDueDate: Date, interval: Interval,
    defaultSection: Option<Id>, defaultPosition: Option<nat>)

  /** The tables the planner reads. The appearances of a topic arrive in the order of byDate, which
      lists the meetings by date with any fixed order among equal dates. */
  datatype Agenda = Agenda(
    meetings: seq<Meeting>, byDate: seq<Id>, topics: map<Id, Topic>, sections: set<Id>,
    rows: Rows, skips: set<(Id, Id)>)

  datatype Ref = Ref(id: Id, meetingId: Id)

  datatype Target = Target(meetingId: Id, position: int, stable: bool)

  datatype Move = Move(meetingId: Id, sectionId: Id, position: int, source: Option<Ref>)

  datatype Error = NotFound | MeetingCompleted | TopicConflict | ReconciliationChanged
    | EditedAppearanceConflict | ConfigurationInvalid | PositionsInvalid | PositionInvalid | AgendaChanged

  datatype Plan = Plan(moves: seq<Move>, removals: seq<Ref>) | Refused(error: Error)

  // ---------- what the tables say about a topic ----------

  /** A topic appears at most once in a meeting. */
  ghost predicate UniqueAppearances(rows: Rows) {
    forall left, right | left in rows && right in rows
                         && rows[left].meetingId == rows[right].meetingId
                             && rows[left].topicId == rows[right].topicId ::
      left == right
  }

  predicate TopicIsValid(topic: Topic) {
    && IsDate(topic.firstDueDate) && topic.interval.count > 0
    && (topic.defaultPosition.Some? ==> topic.defaultPosition.value > 0)
  }

  /** What the database constraints guarantee. */
  ghost predicate Consistent(agenda: Agenda) {
    && UniqueAppearances(agenda.rows)
    && (forall i | 0 <= i < |agenda.meetings| :: IsDate(agenda.meetings[i].date))
    && (forall i, j | 0 <= i < j < |agenda.meetings| ::
          agenda.meetings[i].id != agenda.meetings[j].id && !Before(agenda.meetings[j].date, agenda.meetings[i].date))
    && (forall i, j | 0 <= i < j < |agenda.byDate| :: agenda.byDate[i] != agenda.byDate[j])
    && (forall meetingId :: meetingId in agenda.byDate <==> meetingId in MeetingSet(agenda.meetings))
    && (forall id | id in agenda.rows :: agenda.rows[id].meetingId in MeetingSet(agenda.meetings))
    && (forall topicId | topicId in agenda.topics :: TopicIsValid(agenda.topics[topicId]))
  }

  /** Consistent, with dense positions in every section. */
  ghost predicate WellFormed(agenda: Agenda) {
    Consistent(agenda) && Dense(agenda.rows)
  }

  function MeetingSet(meetings: seq<Meeting>): set<Id> {
    set i | 0 <= i < |meetings| :: meetings[i].id
  }

  function PlannedSet(meetings: seq<Meeting>): set<Id> {
    set i | 0 <= i < |meetings| && meetings[i].status.Planned? :: meetings[i].id
  }

  /** Row of the topic in each meeting that has one. */
  function AppearancesOf(rows: Rows, topicId: Id): map<Id, Id>
    requires UniqueAppearances(rows)
  {
    map id | id in rows && rows[id].topicId == topicId :: rows[id].meetingId := id
  }

  /** The map lists the row of the topic in every meeting that has one, and nothing else. */
  ghost predicate Lists(appearances: map<Id, Id>, rows: Rows, topicId: Id) {
    && (forall id | id in rows && rows[id].topicId == topicId ::
          rows[id].meetingId in appearances && appearances[rows[id].meetingId] == id)
    && (forall meetingId | meetingId in appearances ::
          appearances[meetingId] in rows && rows[appearances[meetingId]].topicId == topicId
          && rows[appearances[meetingId]].meetingId == meetingId)
  }

  lemma AppearanceLookup(rows: Rows, topicId: Id)
    requires UniqueAppearances(rows)
    ensures Lists(AppearancesOf(rows, topicId), rows, topicId)
  {
  }

  /** Automatic, unedited appearances in planned meetings: all that reconciliation may touch. */
  function Movable(appearances: map<Id, Id>, rows: Rows, planned: set<Id>): map<Id, Id>
    requires appearances.Values <= rows.Keys
  {
    map meetingId | meetingId in appearances && meetingId in planned
                    && rows[appearances[meetingId]].source.Recurrence?
                    && !rows[appearances[meetingId]].contentEdited :: appearances[meetingId]
  }

  function MovableOf(agenda: Agenda, topicId: Id): map<Id, Id>
    requires UniqueAppearances(agenda.rows)
  {
    AppearanceLookup(agenda.rows, topicId);
    Movable(AppearancesOf(agenda.rows, topicId), agenda.rows, PlannedSet(agenda.meetings))
  }

  function SlotOf(agenda: Agenda, topicId: Id, meeting: Meeting): Slot
    requires UniqueAppearances(agenda.rows)
  {
    var appearances := AppearancesOf(agenda.rows, topicId);
    Slot(meeting.id, meeting.date, meeting.status.Planned?,
         if meeting.id in appearances && meeting.id !in MovableOf(agenda, topicId)
         then Kept(agenda.rows[appearances[meeting.id]].source) else Nothing,
         (topicId, meeting.id) in agenda.skips)
  }

  function SlotsOf(agenda: Agenda, topicId: Id): (slots: seq<Slot>)
    requires UniqueAppearances(agenda.rows)
  {
    seq(|agenda.meetings|, i requires 0 <= i < |agenda.meetings| => SlotOf(agenda, topicId, agenda.meetings[i]))
  }

  lemma SlotsAreOrdered(agenda: Agenda, topicId: Id)
    requires Consistent(agenda)
    ensures Ordered(SlotsOf(agenda, topicId))
  {
  }

  // ---------- targets ----------

  function TargetPosition(topic: Topic, others: nat): int {
    if topic.defaultPosition.None? || topic.defaultPosition.value > others + 1 then others + 1
    else topic.defaultPosition.value
  }

  /** The rows of a section other than the topic's own appearance. */
  function OtherRows(rows: Rows, meetingId: Id, sectionId: Id, own: map<Id, Id>): set<Id> {
    SectionIds(rows, meetingId, sectionId) - (if meetingId in own then {own[meetingId]} else {})
  }

  function TargetOf(agenda: Agenda, topicId: Id, sectionId: Id, meetingId: Id): Target
    requires UniqueAppearances(agenda.rows) && topicId in agenda.topics
  {
    var own := MovableOf(agenda, topicId);
    var position := TargetPosition(agenda.topics[topicId], |OtherRows(agenda.rows, meetingId, sectionId, own)|);
    Target(meetingId, position,
           meetingId in own && agenda.rows[own[meetingId]].sectionId == sectionId
           && agenda.rows[own[meetingId]].position == position)
  }

  function TargetsOf(agenda: Agenda, topicId: Id, sectionId: Id, desired: seq<Slot>): (targets: seq<Target>)
    requires UniqueAppearances(agenda.rows) && topicId in agenda.topics
    ensures |targets| == |desired|
  {
    seq(|desired|, i requires 0 <= i < |desired| => TargetOf(agenda, topicId, sectionId, desired[i].meetingId))
  }

  function StableIds(targets: seq<Target>): set<Id> {
    set i | 0 <= i < |targets| && targets[i].stable :: targets[i].meetingId
  }

  // ---------- assigning sources ----------

  /** The given appearances in date order. */
  function RefsOf(byDate: seq<Id>, appearances: map<Id, Id>): seq<Ref> {
    if byDate == [] then []
    else if byDate[0] in appearances then
      [Ref(appearances[byDate[0]], byDate[0])] + RefsOf(byDate[1..], appearances)
    else RefsOf(byDate[1..], appearances)
  }

  /** Index of the appearance in the given meeting; the length when there is none. */
  function IndexOf(refs: seq<Ref>, meetingId: Id): (index: nat)
    ensures index <= |refs|
    ensures index < |refs| ==> refs[index].meetingId == meetingId
    ensures forall k | 0 <= k < index :: refs[k].meetingId != meetingId
  {
    if refs == [] || refs[0].meetingId == meetingId then 0 else 1 + IndexOf(refs[1..], meetingId)
  }

  /** The meeting's own appearance if it is still available, otherwise the first available one. */
  function PickIndex(reusable: seq<Ref>, meetingId: Id): (index: nat)
    requires reusable != []
    ensures index < |reusable|
  {
    if IndexOf(reusable, meetingId) < |reusable| then IndexOf(reusable, meetingId) else 0
  }

  function WithoutIndex(refs: seq<Ref>, index: nat): (rest: seq<Ref>)
    requires index < |refs|
    ensures |rest| == |refs| - 1
  {
    refs[..index] + refs[index + 1..]
  }

  function Assign(targets: seq<Target>, reusable: seq<Ref>, sectionId: Id): (seq<Move>, seq<Ref>) {
    if targets == [] then ([], reusable)
    else if targets[0].stable then Assign(targets[1..], reusable, sectionId)
    else if reusable == [] then
      var (moves, removals) := Assign(targets[1..], [], sectionId);
      ([Move(targets[0].meetingId, sectionId, targets[0].position, None)] + moves, removals)
    else
      var index := PickIndex(reusable, targets[0].meetingId);
      var (moves, removals) := Assign(targets[1..], WithoutIndex(reusable, index), sectionId);
      ([Move(targets[0].meetingId, sectionId, targets[0].position, Some(reusable[index]))] + moves, removals)
  }

  // ---------- the plan ----------

  function BuildPlan(agenda: Agenda, topicId: Id): Plan
    requires Consistent(agenda) && topicId in agenda.topics
  {
    var topic := agenda.topics[topicId];
    var movable := MovableOf(agenda, topicId);
    if agenda.meetings == [] then Plan([], [])
    else if !topic.status.Open? then Plan([], RefsOf(agenda.byDate, movable))
    else
      var schedule := Greedy(SlotsOf(agenda, topicId), topic.firstDueDate, topic.interval);
      if schedule.Conflict? then Refused(EditedAppearanceConflict)
      else if schedule.slots == [] then Plan([], RefsOf(agenda.byDate, movable))
      else if topic.defaultSection.None? || topic.defaultSection.value !in agenda.sections then
        Refused(ConfigurationInvalid)
      else
        var sectionId := topic.defaultSection.value;
        var targets := TargetsOf(agenda, topicId, sectionId, schedule.slots);
        var (moves, removals) := Assign(targets, RefsOf(agenda.byDate, movable - StableIds(targets)), sectionId);
        Plan(moves, removals)
  }

  function PlanFor(agenda: Agenda, topicId: Id): Plan
    requires Consistent(agenda)
  {
    if topicId !in agenda.topics then Refused(NotFound)
    else if !agenda.topics[topicId].recurring then Refused(ConfigurationInvalid)
    else BuildPlan(agenda, topicId)
  }
}
