/** What a reconciliation plan is, said of the tables alone: which meetings are scheduled, where the topic belongs in
    each, which appearance moves where and what is removed (backend/src/recurrence/recurrence.service.ts, buildPlan). */
module PlanContract {
  import opened Options
  import opened CalendarDates
  import opened AgendaPositions
  import RecurrenceSchedule
  import opened RecurrencePlanner
  import RecurrenceService

  // ---------- the rows of a topic ----------

  /** An automatic, unedited appearance of the topic in a planned meeting. */
  ghost predicate IsMovable(agenda: Agenda, topicId: Id, id: Id) {
    && id in agenda.rows && agenda.rows[id].topicId == topicId
    && agenda.rows[id].source.Recurrence? && !agenda.rows[id].contentEdited
    && exists i :: 0 <= i < |agenda.meetings| && agenda.meetings[i].id == agenda.rows[id].meetingId
                   && agenda.meetings[i].status.Planned?
  }

  /** Any other appearance of the topic. */
  ghost predicate IsFixed(agenda: Agenda, topicId: Id, id: Id) {
    id in agenda.rows && agenda.rows[id].topicId == topicId && !IsMovable(agenda, topicId, id)
  }

  ghost predicate HasFixed(agenda: Agenda, topicId: Id, meetingId: Id) {
    exists id :: IsFixed(agenda, topicId, id) && agenda.rows[id].meetingId == meetingId
  }

  lemma MovableRows(agenda: Agenda, topicId: Id)
    requires Consistent(agenda)
    ensures forall m | m in MovableOf(agenda, topicId) ::
              IsMovable(agenda, topicId, MovableOf(agenda, topicId)[m])
              && agenda.rows[MovableOf(agenda, topicId)[m]].meetingId == m
    ensures forall id | IsMovable(agenda, topicId, id) ::
              agenda.rows[id].meetingId in MovableOf(agenda, topicId)
              && MovableOf(agenda, topicId)[agenda.rows[id].meetingId] == id
  {
    AppearanceLookup(agenda.rows, topicId);
  }

  // ---------- the schedule ----------

  /** The topic takes place in the i-th meeting: it is fixed there or scheduled. */
  ghost predicate TakesPlace(agenda: Agenda, topicId: Id, chosen: set<Id>, i: nat)
    requires i < |agenda.meetings|
  {
    HasFixed(agenda, topicId, agenda.meetings[i].id) || agenda.meetings[i].id in chosen
  }

  /** The last meeting before the j-th in which the topic takes place; -1 for none. */
  ghost predicate IsLast(agenda: Agenda, topicId: Id, chosen: set<Id>, last: int, j: nat)
    requires j < |agenda.meetings|
  {
    && -1 <= last < j && (last >= 0 ==> TakesPlace(agenda, topicId, chosen, last))
    && forall k | last < k < j :: !TakesPlace(agenda, topicId, chosen, k)
  }

  /** The topic is due on the first date of its configuration, later one interval after it took place. */
  ghost function Due(agenda: Agenda, topicId: Id, last: int): Date
    requires Consistent(agenda) && topicId in agenda.topics && -1 <= last < |agenda.meetings|
  {
    if last == -1 then agenda.topics[topicId].firstDueDate
    else AddInterval(agenda.meetings[last].date, agenda.topics[topicId].interval)
  }

  /** Scheduled are exactly the planned meetings, not skipped and without a fixed appearance, that are not before the
      due date. */
  ghost predicate IsSchedule(agenda: Agenda, topicId: Id, chosen: set<Id>)
    requires Consistent(agenda) && topicId in agenda.topics
  {
    && chosen <= MeetingSet(agenda.meetings)
    && forall last, j | 0 <= j < |agenda.meetings| && IsLast(agenda, topicId, chosen, last, j) ::
         var meeting := agenda.meetings[j];
         meeting.id in chosen <==>
           && meeting.status.Planned? && !HasFixed(agenda, topicId, meeting.id)
           && (topicId, meeting.id) !in agenda.skips
           && !Before(meeting.date, Due(agenda, topicId, last))
  }

  /** A fixed appearance comes before the due date, after a scheduled meeting or as an automatic one in a planned
      meeting. */
  ghost predicate Clashes(agenda: Agenda, topicId: Id, chosen: set<Id>, last: int, j: nat, id: Id)
    requires Consistent(agenda) && topicId in agenda.topics && j < |agenda.meetings|
  {
    && IsLast(agenda, topicId, chosen, last, j)
    && IsFixed(agenda, topicId, id) && agenda.rows[id].meetingId == agenda.meetings[j].id
    && Before(agenda.meetings[j].date, Due(agenda, topicId, last))
    && ((last >= 0 && agenda.meetings[last].id in chosen)
        || (agenda.rows[id].source.Recurrence? && agenda.meetings[j].status.Planned?))
  }

  ghost predicate HasClash(agenda: Agenda, topicId: Id, chosen: set<Id>)
    requires Consistent(agenda) && topicId in agenda.topics
  {
    exists last, j, id :: 0 <= j < |agenda.meetings| && Clashes(agenda, topicId, chosen, last, j, id)
  }

  /** What the planner sees of a meeting. */
  lemma SlotMeans(agenda: Agenda, topicId: Id, i: nat)
    requires Consistent(agenda) && i < |agenda.meetings|
    ensures var slot, meeting := SlotsOf(agenda, topicId)[i], agenda.meetings[i];
            && slot.meetingId == meeting.id && slot.date == meeting.date
            && (slot.planned <==> meeting.status.Planned?) && (slot.skipped <==> (topicId, meeting.id) in agenda.skips)
            && (slot.preserved.Kept? <==> HasFixed(agenda, topicId, meeting.id))
            && forall id | IsFixed(agenda, topicId, id) && agenda.rows[id].meetingId == meeting.id ::
                 slot.preserved == RecurrenceSchedule.Kept(agenda.rows[id].source)
  {
    var meeting := agenda.meetings[i];
    AppearanceLookup(agenda.rows, topicId);
    MovableRows(agenda, topicId);
    hide IsMovable, MovableOf;
    var appearances := AppearancesOf(agenda.rows, topicId);
    if meeting.id in appearances && meeting.id !in MovableOf(agenda, topicId) {
      assert IsFixed(agenda, topicId, appearances[meeting.id]);
    }
  }

  lemma OccursMeans(agenda: Agenda, topicId: Id, chosen: set<Id>)
    requires Consistent(agenda)
    ensures forall i | 0 <= i < |agenda.meetings| ::
              RecurrenceSchedule.Occurs(SlotsOf(agenda, topicId)[i], chosen) <==> TakesPlace(agenda, topicId, chosen, i)
  {
    forall i | 0 <= i < |agenda.meetings|
      ensures RecurrenceSchedule.Occurs(SlotsOf(agenda, topicId)[i], chosen) <==> TakesPlace(agenda, topicId, chosen, i)
    {
      SlotMeans(agenda, topicId, i);
    }
  }

  lemma LastMeans(agenda: Agenda, topicId: Id, chosen: set<Id>, last: int, j: nat)
    requires Consistent(agenda) && j < |agenda.meetings|
    ensures RecurrenceSchedule.IsPrevious(SlotsOf(agenda, topicId), chosen, last, j) <==>
            IsLast(agenda, topicId, chosen, last, j)
  {
    OccursMeans(agenda, topicId, chosen);
    hide SlotsOf, TakesPlace, RecurrenceSchedule.Occurs, Consistent;
  }

  lemma ScheduleMeans(agenda: Agenda, topicId: Id, chosen: set<Id>)
    requires Consistent(agenda) && topicId in agenda.topics && IsSchedule(agenda, topicId, chosen)
    ensures RecurrenceSchedule.Ordered(SlotsOf(agenda, topicId))
    ensures var topic := agenda.topics[topicId];
            RecurrenceSchedule.IsChoice(SlotsOf(agenda, topicId), topic.firstDueDate, topic.interval, chosen)
  {
    var topic, slots := agenda.topics[topicId], SlotsOf(agenda, topicId);
    SlotsAreOrdered(agenda, topicId);
    forall last, j | 0 <= j < |slots| && RecurrenceSchedule.IsPrevious(slots, chosen, last, j)
      ensures slots[j].meetingId in chosen <==>
              RecurrenceSchedule.Eligible(slots[j])
              && !Before(slots[j].date, RecurrenceSchedule.DueAfter(slots, topic.firstDueDate, topic.interval, last))
    {
      LastMeans(agenda, topicId, chosen, last, j);
      SlotMeans(agenda, topicId, j);
      if last >= 0 {
        SlotMeans(agenda, topicId, last);
      }
    }
  }

  /** A scheduled meeting has no fixed appearance. */
  lemma ScheduledIsFree(agenda: Agenda, topicId: Id, chosen: set<Id>, j: nat)
    requires Consistent(agenda) && topicId in agenda.topics && IsSchedule(agenda, topicId, chosen)
    requires j < |agenda.meetings| && agenda.meetings[j].id in chosen
    ensures agenda.meetings[j].status.Planned? && !HasFixed(agenda, topicId, agenda.meetings[j].id)
    ensures (topicId, agenda.meetings[j].id) !in agenda.skips
  {
    var last := RecurrenceSchedule.PreviousExists(SlotsOf(agenda, topicId), chosen, j);
    LastMeans(agenda, topicId, chosen, last, j);
  }

  lemma ClashMeans(agenda: Agenda, topicId: Id, chosen: set<Id>, last: int, j: nat)
    requires Consistent(agenda) && topicId in agenda.topics && IsSchedule(agenda, topicId, chosen)
    requires j < |agenda.meetings|
    ensures RecurrenceSchedule.Ordered(SlotsOf(agenda, topicId))
    ensures var topic := agenda.topics[topicId];
            RecurrenceSchedule.Conflicts(SlotsOf(agenda, topicId), topic.firstDueDate, topic.interval, chosen, last,
                                         j) <==>
            exists id :: Clashes(agenda, topicId, chosen, last, j, id)
  {
    var topic, slots := agenda.topics[topicId], SlotsOf(agenda, topicId);
    SlotsAreOrdered(agenda, topicId);
    LastMeans(agenda, topicId, chosen, last, j);
    SlotMeans(agenda, topicId, j);
    if IsLast(agenda, topicId, chosen, last, j) {
      if last >= 0 {
        SlotMeans(agenda, topicId, last);
        if agenda.meetings[last].id in chosen {
          ScheduledIsFree(agenda, topicId, chosen, last);
        }
      }
      hide IsSchedule, SlotsOf, Consistent, IsMovable;
      if slots[j].preserved.Kept? {
        var id :| IsFixed(agenda, topicId, id) && agenda.rows[id].meetingId == agenda.meetings[j].id;
        assert RecurrenceSchedule.Conflicts(slots, topic.firstDueDate, topic.interval, chosen, last, j) ==>
                 Clashes(agenda, topicId, chosen, last, j, id);
      }
    }
  }

  /** There is one schedule. */
  lemma ScheduleExists(agenda: Agenda, topicId: Id) returns (chosen: set<Id>)
    requires Consistent(agenda) && topicId in agenda.topics
    ensures IsSchedule(agenda, topicId, chosen)
    ensures forall other | IsSchedule(agenda, topicId, other) :: other == chosen
  {
    var topic, slots := agenda.topics[topicId], SlotsOf(agenda, topicId);
    SlotsAreOrdered(agenda, topicId);
    RecurrenceSchedule.PassIsChoice(slots, topic.firstDueDate, topic.interval);
    chosen := RecurrenceSchedule.ChosenIds(RecurrenceSchedule.Unchecked(slots, topic.firstDueDate, topic.interval));
    ChosenAreMeetings(agenda, topicId);
    forall last, j | 0 <= j < |agenda.meetings| && IsLast(agenda, topicId, chosen, last, j)
      ensures var meeting := agenda.meetings[j];
              meeting.id in chosen <==>
                && meeting.status.Planned? && !HasFixed(agenda, topicId, meeting.id)
                && (topicId, meeting.id) !in agenda.skips && !Before(meeting.date, Due(agenda, topicId, last))
    {
      LastMeans(agenda, topicId, chosen, last, j);
      SlotMeans(agenda, topicId, j);
      if last >= 0 {
        SlotMeans(agenda, topicId, last);
      }
    }
    forall other | IsSchedule(agenda, topicId, other) ensures other == chosen {
      OneSchedule(agenda, topicId, chosen, other);
    }
  }

  lemma ChosenAreMeetings(agenda: Agenda, topicId: Id)
    requires Consistent(agenda) && topicId in agenda.topics
    requires RecurrenceSchedule.Ordered(SlotsOf(agenda, topicId))
    ensures var topic := agenda.topics[topicId];
            RecurrenceSchedule.ChosenIds(RecurrenceSchedule.Unchecked(SlotsOf(agenda, topicId), topic.firstDueDate,
                                                                      topic.interval))
            <= MeetingSet(agenda.meetings)
  {
    var topic, slots := agenda.topics[topicId], SlotsOf(agenda, topicId);
    RecurrenceSchedule.UncheckedSelects(slots, topic.firstDueDate, topic.interval);
    var pass := RecurrenceSchedule.Unchecked(slots, topic.firstDueDate, topic.interval);
    forall m | m in RecurrenceSchedule.ChosenIds(pass) ensures m in MeetingSet(agenda.meetings) {
      var k :| 0 <= k < |pass| && pass[k].meetingId == m;
      assert pass[k] in slots;
      var i :| 0 <= i < |slots| && slots[i] == pass[k];
      assert agenda.meetings[i].id == m;
    }
  }

  lemma OneSchedule(agenda: Agenda, topicId: Id, left: set<Id>, right: set<Id>)
    requires Consistent(agenda) && topicId in agenda.topics
    requires IsSchedule(agenda, topicId, left) && IsSchedule(agenda, topicId, right)
    ensures left == right
  {
    var topic, slots := agenda.topics[topicId], SlotsOf(agenda, topicId);
    ScheduleMeans(agenda, topicId, left);
    ScheduleMeans(agenda, topicId, right);
    RecurrenceSchedule.OneChoice(slots, topic.firstDueDate, topic.interval, left, right, |slots|);
    forall m | m in MeetingSet(agenda.meetings) ensures m in left <==> m in right {
      var i :| 0 <= i < |agenda.meetings| && agenda.meetings[i].id == m;
      assert slots[i].meetingId == m;
    }
  }

  // ---------- where the topic belongs in a meeting ----------

  /** Rows of other topics in a section of a meeting. */
  ghost function Others(agenda: Agenda, topicId: Id, meetingId: Id, sectionId: Id): set<Id> {
    set id | id in agenda.rows && agenda.rows[id].meetingId == meetingId && agenda.rows[id].sectionId == sectionId
             && agenda.rows[id].topicId != topicId
  }

  /** The topic's default position, or the end of the section when it has none or one beyond the end. */
  ghost predicate IsWanted(agenda: Agenda, topicId: Id, meetingId: Id, sectionId: Id, position: int)
    requires topicId in agenda.topics
  {
    var default, end := agenda.topics[topicId].defaultPosition, |Others(agenda, topicId, meetingId, sectionId)| + 1;
    match default
    case None => position == end
    case Some(value) => position <= value && position <= end && (position == value || position == end)
  }

  /** The topic has an automatic, unedited appearance in the meeting that already stands where it belongs. */
  ghost predicate InPlace(agenda: Agenda, topicId: Id, sectionId: Id, meetingId: Id)
    requires topicId in agenda.topics
  {
    exists id :: IsMovable(agenda, topicId, id) && agenda.rows[id].meetingId == meetingId
                 && agenda.rows[id].sectionId == sectionId
                 && IsWanted(agenda, topicId, meetingId, sectionId, agenda.rows[id].position)
  }

  lemma OthersMeans(agenda: Agenda, topicId: Id, sectionId: Id, meetingId: Id)
    requires Consistent(agenda) && !HasFixed(agenda, topicId, meetingId)
    ensures OtherRows(agenda.rows, meetingId, sectionId, MovableOf(agenda, topicId)) ==
            Others(agenda, topicId, meetingId, sectionId)
  {
    var own := MovableOf(agenda, topicId);
    MovableRows(agenda, topicId);
    hide MovableOf, IsMovable, Consistent;
    forall id | id in SectionIds(agenda.rows, meetingId, sectionId) && agenda.rows[id].topicId == topicId
      ensures meetingId in own && own[meetingId] == id
    {
      assert !IsFixed(agenda, topicId, id);
    }
  }

  lemma PositionMeans(agenda: Agenda, topicId: Id, sectionId: Id, meetingId: Id, position: int)
    requires topicId in agenda.topics
    ensures IsWanted(agenda, topicId, meetingId, sectionId, position) <==>
            position == TargetPosition(agenda.topics[topicId], |Others(agenda, topicId, meetingId, sectionId)|)
  {
    hide Others;
  }

  lemma TargetMeans(agenda: Agenda, topicId: Id, sectionId: Id, meetingId: Id)
    requires Consistent(agenda) && topicId in agenda.topics && !HasFixed(agenda, topicId, meetingId)
    ensures var target := TargetOf(agenda, topicId, sectionId, meetingId);
            && target.meetingId == meetingId && IsWanted(agenda, topicId, meetingId, sectionId, target.position)
            && (target.stable <==> InPlace(agenda, topicId, sectionId, meetingId))
  {
    OthersMeans(agenda, topicId, sectionId, meetingId);
    MovableRows(agenda, topicId);
    var target := TargetOf(agenda, topicId, sectionId, meetingId);
    PositionMeans(agenda, topicId, sectionId, meetingId, target.position);
    hide MovableOf, IsMovable, Consistent, HasFixed, OtherRows, IsWanted, TargetPosition;
    forall id | IsMovable(agenda, topicId, id) && agenda.rows[id].meetingId == meetingId
      ensures IsWanted(agenda, topicId, meetingId, sectionId, agenda.rows[id].position) <==>
              agenda.rows[id].position == target.position
    {
      PositionMeans(agenda, topicId, sectionId, meetingId, agenda.rows[id].position);
    }
  }

  // ---------- sources ----------

  predicate Earlier(byDate: seq<Id>, left: Id, right: Id) {
    exists i, j :: 0 <= i < j < |byDate| && byDate[i] == left && byDate[j] == right
  }

  /** The references stand in the order of their meetings, each meeting once. */
  predicate InOrder(byDate: seq<Id>, refs: seq<Ref>) {
    forall a, b | 0 <= a < b < |refs| :: Earlier(byDate, refs[a].meetingId, refs[b].meetingId)
  }

  ghost predicate OncePerMeeting(byDate: seq<Id>) {
    forall i, j | 0 <= i < j < |byDate| :: byDate[i] != byDate[j]
  }

  lemma {:induction false} RefsInOrder(byDate: seq<Id>, appearances: map<Id, Id>)
    ensures InOrder(byDate, RefsOf(byDate, appearances))
    ensures forall ref | ref in RefsOf(byDate, appearances) :: ref.meetingId in byDate
  {
    if byDate != [] {
      var rest := RefsOf(byDate[1..], appearances);
      RefsInOrder(byDate[1..], appearances);
      forall left, right | Earlier(byDate[1..], left, right) ensures Earlier(byDate, left, right) {
        var i, j :| 0 <= i < j < |byDate[1..]| && byDate[1..][i] == left && byDate[1..][j] == right;
        assert byDate[i + 1] == left && byDate[j + 1] == right;
      }
      forall ref | ref in rest ensures Earlier(byDate, byDate[0], ref.meetingId) {
        var j :| 0 <= j < |byDate[1..]| && byDate[1..][j] == ref.meetingId;
        assert byDate[j + 1] == ref.meetingId;
      }
    }
  }

  lemma EarlierIsStrict(byDate: seq<Id>, left: Id, right: Id)
    requires OncePerMeeting(byDate) && Earlier(byDate, left, right)
    ensures left != right && !Earlier(byDate, right, left)
  {
  }

  lemma WithoutKeepsOrder(byDate: seq<Id>, refs: seq<Ref>, index: nat)
    requires OncePerMeeting(byDate) && InOrder(byDate, refs) && index < |refs|
    ensures InOrder(byDate, WithoutIndex(refs, index))
    ensures forall ref :: ref in WithoutIndex(refs, index) <==> ref in refs && ref != refs[index]
  {
    var rest := WithoutIndex(refs, index);
    forall a, b | 0 <= a < b < |refs| ensures refs[a] != refs[b] {
      EarlierIsStrict(byDate, refs[a].meetingId, refs[b].meetingId);
    }
    forall ref | ref in refs && ref != refs[index] ensures ref in rest {
      var k :| 0 <= k < |refs| && refs[k] == ref;
      assert if k < index then rest[k] == ref else rest[k - 1] == ref;
    }
  }

  /** The references that no move of the list takes. */
  ghost predicate IsLeft(moves: seq<Move>, ref: Ref) {
    forall i | 0 <= i < |moves| :: moves[i].source != Some(ref)
  }

  /** The source of a move: the appearance of its own meeting if it is still there, else the first one by date, none
      only when nothing is left. */
  ghost predicate IsSource(byDate: seq<Id>, reusable: seq<Ref>, moves: seq<Move>, k: nat)
    requires k < |moves|
  {
    match moves[k].source
    case None => forall ref | ref in reusable :: !IsLeft(moves[..k], ref)
    case Some(source) =>
      && source in reusable && IsLeft(moves[..k], source)
      && forall other | other in reusable && IsLeft(moves[..k], other) && other != source ::
           && other.meetingId != moves[k].meetingId
           && (source.meetingId == moves[k].meetingId || Earlier(byDate, source.meetingId, other.meetingId))
  }

  lemma LeftAfterFirst(moves: seq<Move>, reusable: seq<Ref>, rest: seq<Ref>)
    requires moves != []
    requires forall ref :: ref in rest <==> ref in reusable && moves[0].source != Some(ref)
    ensures forall ref, k | 0 <= k < |moves| ::
              (ref in reusable && IsLeft(moves[..k + 1], ref)) <==> (ref in rest && IsLeft(moves[1..][..k], ref))
  {
    forall ref, k | 0 <= k < |moves|
      ensures (ref in reusable && IsLeft(moves[..k + 1], ref)) <==> (ref in rest && IsLeft(moves[1..][..k], ref))
    {
      assert forall i | 0 <= i < k :: moves[1..][..k][i] == moves[..k + 1][i + 1];
      assert moves[..k + 1][0] == moves[0];
      var taken := moves[..k + 1];
      if ref in rest && IsLeft(moves[1..][..k], ref) {
        forall i | 0 <= i < |taken| ensures taken[i].source != Some(ref) {
          if i > 0 {
            assert taken[i] == moves[1..][..k][i - 1];
          }
        }
      }
    }
  }

  lemma SourceOfLater(byDate: seq<Id>, reusable: seq<Ref>, rest: seq<Ref>, moves: seq<Move>, k: nat)
    requires moves != [] && 0 < k < |moves|
    requires forall ref :: ref in rest <==> ref in reusable && moves[0].source != Some(ref)
    requires IsSource(byDate, rest, moves[1..], k - 1)
    ensures IsSource(byDate, reusable, moves, k)
  {
    LeftAfterFirst(moves, reusable, rest);
    hide IsLeft;
    assert moves[1..][k - 1] == moves[k];
    assert forall ref ::
      (ref in reusable && IsLeft(moves[..k - 1 + 1], ref)) <==> (ref in rest && IsLeft(moves[1..][..k - 1], ref));
    assert moves[..k - 1 + 1] == moves[..k];
  }

  /** The pass over the targets gives each unstable one its source, and removes what is left. */
  lemma {:induction false} SourcesExactly(targets: seq<Target>, byDate: seq<Id>, reusable: seq<Ref>, sectionId: Id)
    requires OncePerMeeting(byDate) && InOrder(byDate, reusable)
    ensures var (moves, removals) := Assign(targets, reusable, sectionId);
            && (forall k | 0 <= k < |moves| :: IsSource(byDate, reusable, moves, k))
            && InOrder(byDate, removals)
            && forall ref :: ref in removals <==> ref in reusable && IsLeft(moves, ref)
  {
    if targets != [] {
      if targets[0].stable {
        SourcesExactly(targets[1..], byDate, reusable, sectionId);
      } else {
        var (moves, removals) := Assign(targets, reusable, sectionId);
        var rest := if reusable == [] then [] else WithoutIndex(reusable, PickIndex(reusable, targets[0].meetingId));
        if reusable != [] {
          WithoutKeepsOrder(byDate, reusable, PickIndex(reusable, targets[0].meetingId));
          PickIsSource(byDate, reusable, targets[0].meetingId, moves);
        } else {
          NothingLeft(byDate, moves);
        }
        SourcesExactly(targets[1..], byDate, rest, sectionId);
        var (later, same) := Assign(targets[1..], rest, sectionId);
        assert moves[1..] == later && removals == same;
        SourcesWithFirst(byDate, reusable, rest, moves, removals);
        hide Assign, PickIndex, IsSource, InOrder, OncePerMeeting, IsLeft;
      }
    }
  }

  lemma SourcesWithFirst(byDate: seq<Id>, reusable: seq<Ref>, rest: seq<Ref>, moves: seq<Move>, removals: seq<Ref>)
    requires moves != [] && IsSource(byDate, reusable, moves, 0)
    requires forall ref :: ref in rest <==> ref in reusable && moves[0].source != Some(ref)
    requires forall k | 0 <= k < |moves[1..]| :: IsSource(byDate, rest, moves[1..], k)
    requires forall ref :: ref in removals <==> ref in rest && IsLeft(moves[1..], ref)
    ensures forall k | 0 <= k < |moves| :: IsSource(byDate, reusable, moves, k)
    ensures forall ref :: ref in removals <==> ref in reusable && IsLeft(moves, ref)
  {
    hide IsSource;
    forall k | 0 < k < |moves| ensures IsSource(byDate, reusable, moves, k) {
      SourceOfLater(byDate, reusable, rest, moves, k);
    }
    LeftAfterFirst(moves, reusable, rest);
    hide IsLeft;
    assert moves[..|moves| - 1 + 1] == moves && moves[1..][..|moves| - 1] == moves[1..];
  }

  lemma NothingLeft(byDate: seq<Id>, moves: seq<Move>)
    requires moves != [] && moves[0].source.None?
    ensures IsSource(byDate, [], moves, 0)
  {
  }

  lemma PickIsSource(byDate: seq<Id>, reusable: seq<Ref>, meetingId: Id, moves: seq<Move>)
    requires OncePerMeeting(byDate) && InOrder(byDate, reusable) && reusable != []
    requires moves != [] && moves[0].meetingId == meetingId
    requires moves[0].source == Some(reusable[PickIndex(reusable, meetingId)])
    ensures IsSource(byDate, reusable, moves, 0)
  {
    var index := PickIndex(reusable, meetingId);
    forall k | 0 <= k < |reusable| && k != index
      ensures reusable[k].meetingId != meetingId
      ensures reusable[index].meetingId ==
              meetingId || Earlier(byDate, reusable[index].meetingId, reusable[k].meetingId)
    {
      if k > index {
        EarlierIsStrict(byDate, reusable[index].meetingId, reusable[k].meetingId);
      }
    }
  }

  // ---------- the plan ----------

  /** An appearance that reconciliation may move or remove: movable, and not already where a scheduled meeting wants it.
      */
  ghost predicate IsReusable(agenda: Agenda, topicId: Id, sectionId: Id, chosen: set<Id>, ref: Ref)
    requires topicId in agenda.topics
  {
    && IsMovable(agenda, topicId, ref.id) && agenda.rows[ref.id].meetingId == ref.meetingId
    && !(ref.meetingId in chosen && InPlace(agenda, topicId, sectionId, ref.meetingId))
  }

  /** One move for each scheduled meeting where the topic is not in place, in meeting order, to where it belongs. */
  ghost predicate MovesFit(agenda: Agenda, topicId: Id, sectionId: Id, chosen: set<Id>, moves: seq<Move>)
    requires topicId in agenda.topics
  {
    && (forall k | 0 <= k < |moves| ::
          && moves[k].sectionId == sectionId && moves[k].meetingId in chosen
          && !InPlace(agenda, topicId, sectionId, moves[k].meetingId)
          && IsWanted(agenda, topicId, moves[k].meetingId, sectionId, moves[k].position))
    && (forall m | m in chosen && !InPlace(agenda, topicId, sectionId, m) ::
          exists k :: 0 <= k < |moves| && moves[k].meetingId == m)
    && (forall k, l, i, j | 0 <= k < l < |moves| && 0 <= i < |agenda.meetings| && 0 <= j < |agenda.meetings|
                            && agenda.meetings[i].id == moves[k].meetingId
                            && agenda.meetings[j].id == moves[l].meetingId ::
          i < j)
  }

  /** Each move takes its source, and what no move takes is removed, by date. */
  ghost predicate SourcesFit(byDate: seq<Id>, reusable: seq<Ref>, plan: Plan)
    requires plan.Plan?
  {
    && (forall k | 0 <= k < |plan.moves| :: IsSource(byDate, reusable, plan.moves, k))
    && InOrder(byDate, plan.removals)
    && forall ref :: ref in plan.removals <==> ref in reusable && IsLeft(plan.moves, ref)
  }

  /** Where the unstable targets stand among all, from some target on. */
  lemma {:induction false} UnstableAt(targets: seq<Target>, from: nat) returns (at: seq<nat>)
    requires from <= |targets|
    ensures |at| == |RecurrenceService.UnstableTargets(targets[from..])|
    ensures forall k | 0 <= k < |at| ::
              from <= at[k] < |targets| && !targets[at[k]].stable
              && RecurrenceService.UnstableTargets(targets[from..])[k] == targets[at[k]]
    ensures forall k, l | 0 <= k < l < |at| :: at[k] < at[l]
    ensures forall i | from <= i < |targets| && !targets[i].stable :: i in at
    decreases |targets| - from
  {
    at := [];
    if from < |targets| {
      var later := UnstableAt(targets, from + 1);
      assert targets[from..][1..] == targets[from + 1..];
      at := if targets[from].stable then later else [from] + later;
    }
  }

  /** The listed meetings come one after the other. */
  ghost predicate Ascends(slots: seq<RecurrenceSchedule.Slot>, desired: seq<RecurrenceSchedule.Slot>) {
    forall a, b, i, j | 0 <= a < b < |desired| && 0 <= i < |slots| && 0 <= j < |slots|
                        && slots[i].meetingId == desired[a].meetingId && slots[j].meetingId == desired[b].meetingId ::
      i < j
  }

  lemma AscendsFromTail(slots: seq<RecurrenceSchedule.Slot>, rest: seq<RecurrenceSchedule.Slot>)
    requires slots != [] && Ascends(slots[1..], rest)
    requires forall slot | slot in rest :: slot.meetingId != slots[0].meetingId
    ensures Ascends(slots, rest)
  {
    forall a, b, i, j | 0 <= a < b < |rest| && 0 <= i < |slots| && 0 <= j < |slots|
                        && slots[i].meetingId == rest[a].meetingId && slots[j].meetingId == rest[b].meetingId
      ensures i < j
    {
      assert rest[a] in rest && rest[b] in rest;
      assert slots[1..][i - 1] == slots[i] && slots[1..][j - 1] == slots[j];
    }
  }

  lemma AscendsWithFirst(slots: seq<RecurrenceSchedule.Slot>, rest: seq<RecurrenceSchedule.Slot>)
    requires RecurrenceSchedule.Ordered(slots) && slots != [] && Ascends(slots, rest)
    requires forall slot | slot in rest :: slot.meetingId != slots[0].meetingId
    ensures Ascends(slots, [slots[0]] + rest)
  {
    var desired := [slots[0]] + rest;
    forall a, b, i, j | 0 <= a < b < |desired| && 0 <= i < |slots| && 0 <= j < |slots|
                        && slots[i].meetingId == desired[a].meetingId && slots[j].meetingId == desired[b].meetingId
      ensures i < j
    {
      assert desired[b] == rest[b - 1] && rest[b - 1] in rest;
      if a > 0 {
        assert desired[a] == rest[a - 1];
      }
    }
  }

  lemma {:induction false} GreedyAscends(slots: seq<RecurrenceSchedule.Slot>, nextDue: Date, interval: Interval)
    requires RecurrenceSchedule.Ordered(slots) && RecurrenceSchedule.Greedy(slots, nextDue, interval).Schedule?
    ensures Ascends(slots, RecurrenceSchedule.Greedy(slots, nextDue, interval).slots)
  {
    if slots != [] {
      var due := RecurrenceSchedule.DueAfterFirst(slots, nextDue, interval);
      var rest := RecurrenceSchedule.Greedy(slots[1..], due, interval).slots;
      GreedyAscends(slots[1..], due, interval);
      RecurrenceSchedule.GreedySelects(slots[1..], due, interval);
      forall slot | slot in rest ensures slot.meetingId != slots[0].meetingId {
        var k :| 0 <= k < |slots[1..]| && slots[1..][k] == slot;
        assert slots[k + 1] == slot;
      }
      AscendsFromTail(slots, rest);
      AscendsWithFirst(slots, rest);
      hide Ascends;
    }
  }

  /** The moves for a list of scheduled meetings in order. */
  lemma MovesOfSchedule(agenda: Agenda, topicId: Id, sectionId: Id, chosen: set<Id>,
                        desired: seq<RecurrenceSchedule.Slot>,
                        reusable: seq<Ref>)
    requires Consistent(agenda) && topicId in agenda.topics
    requires forall m | m in chosen :: !HasFixed(agenda, topicId, m)
    requires forall m :: m in chosen <==> exists a :: 0 <= a < |desired| && desired[a].meetingId == m
    requires Ascends(SlotsOf(agenda, topicId), desired)
    ensures MovesFit(agenda, topicId, sectionId, chosen,
                     Assign(TargetsOf(agenda, topicId, sectionId, desired), reusable, sectionId).0)
  {
    var targets := TargetsOf(agenda, topicId, sectionId, desired);
    forall a | 0 <= a < |desired|
      ensures targets[a].meetingId == desired[a].meetingId
      ensures IsWanted(agenda, topicId, desired[a].meetingId, sectionId, targets[a].position)
      ensures targets[a].stable <==> InPlace(agenda, topicId, sectionId, desired[a].meetingId)
    {
      assert desired[a].meetingId in chosen;
      TargetMeans(agenda, topicId, sectionId, desired[a].meetingId);
    }
    MovesOfTargets(agenda, topicId, sectionId, chosen, desired, targets, reusable);
    hide Assign, TargetsOf, InPlace, IsWanted, HasFixed, SlotsOf, Ascends, MovesFit;
  }

  lemma MovesOfTargets(agenda: Agenda, topicId: Id, sectionId: Id, chosen: set<Id>,
                       desired: seq<RecurrenceSchedule.Slot>,
                       targets: seq<Target>, reusable: seq<Ref>)
    requires UniqueAppearances(agenda.rows) && topicId in agenda.topics && |targets| == |desired|
    requires forall m :: m in chosen <==> exists a :: 0 <= a < |desired| && desired[a].meetingId == m
    requires Ascends(SlotsOf(agenda, topicId), desired)
    requires forall a | 0 <= a < |desired| ::
               && targets[a].meetingId == desired[a].meetingId
               && IsWanted(agenda, topicId, desired[a].meetingId, sectionId, targets[a].position)
               && (targets[a].stable <==> InPlace(agenda, topicId, sectionId, desired[a].meetingId))
    ensures MovesFit(agenda, topicId, sectionId, chosen, Assign(targets, reusable, sectionId).0)
  {
    var at := MovesAt(targets, reusable, sectionId);
    var moves := Assign(targets, reusable, sectionId).0;
    hide Assign, InPlace, IsWanted, SlotsOf, Ascends, UniqueAppearances;
    forall m | m in chosen && !InPlace(agenda, topicId, sectionId, m)
      ensures exists k :: 0 <= k < |moves| && moves[k].meetingId == m
    {
      var a :| 0 <= a < |desired| && desired[a].meetingId == m;
      var k :| 0 <= k < |at| && at[k] == a;
      assert moves[k].meetingId == m;
    }
    MovesAscend(agenda, topicId, desired, moves, at);
  }

  /** The k-th move serves the k-th unstable target. */
  lemma MovesAt(targets: seq<Target>, reusable: seq<Ref>, sectionId: Id) returns (at: seq<nat>)
    ensures var moves := Assign(targets, reusable, sectionId).0;
            && |at| == |moves|
            && forall k | 0 <= k < |at| ::
                 && at[k] < |targets| && !targets[at[k]].stable && moves[k].sectionId == sectionId
                 && moves[k].meetingId == targets[at[k]].meetingId && moves[k].position == targets[at[k]].position
    ensures forall k, l | 0 <= k < l < |at| :: at[k] < at[l]
    ensures forall a | 0 <= a < |targets| && !targets[a].stable :: a in at
  {
    RecurrenceService.AssignServesTargets(targets, reusable, sectionId);
    at := UnstableAt(targets, 0);
    assert targets[0..] == targets;
    hide Assign;
  }

  lemma MovesAscend(agenda: Agenda, topicId: Id, desired: seq<RecurrenceSchedule.Slot>, moves: seq<Move>, at: seq<nat>)
    requires UniqueAppearances(agenda.rows) && Ascends(SlotsOf(agenda, topicId), desired)
    requires |at| == |moves| && forall k | 0 <= k < |moves| ::
               at[k] < |desired| && moves[k].meetingId == desired[at[k]].meetingId
    requires forall k, l | 0 <= k < l < |at| :: at[k] < at[l]
    ensures forall k, l, i, j | 0 <= k < l < |moves| && 0 <= i < |agenda.meetings| && 0 <= j < |agenda.meetings|
                                && agenda.meetings[i].id == moves[k].meetingId
                                && agenda.meetings[j].id == moves[l].meetingId ::
              i < j
  {
    assert forall i | 0 <= i < |agenda.meetings| :: SlotsOf(agenda, topicId)[i].meetingId == agenda.meetings[i].id;
    hide SlotsOf, UniqueAppearances;
    forall k, l, i, j | 0 <= k < l < |moves| && 0 <= i < |agenda.meetings| && 0 <= j < |agenda.meetings|
                        && agenda.meetings[i].id == moves[k].meetingId && agenda.meetings[j].id == moves[l].meetingId
      ensures i < j
    {
      assert at[k] < at[l];
    }
  }

  /** The stable targets are the scheduled meetings where the topic is in place. */
  lemma StableMeans(agenda: Agenda, topicId: Id, sectionId: Id, chosen: set<Id>, desired: seq<RecurrenceSchedule.Slot>)
    requires Consistent(agenda) && topicId in agenda.topics
    requires forall m | m in chosen :: !HasFixed(agenda, topicId, m)
    requires forall m :: m in chosen <==> exists a :: 0 <= a < |desired| && desired[a].meetingId == m
    ensures forall m :: m in StableIds(TargetsOf(agenda, topicId, sectionId, desired)) <==>
              m in chosen && InPlace(agenda, topicId, sectionId, m)
  {
    var targets := TargetsOf(agenda, topicId, sectionId, desired);
    forall a | 0 <= a < |desired|
      ensures desired[a].meetingId in chosen && targets[a].meetingId == desired[a].meetingId
      ensures targets[a].stable <==> InPlace(agenda, topicId, sectionId, desired[a].meetingId)
    {
      TargetMeans(agenda, topicId, sectionId, desired[a].meetingId);
    }
    hide TargetsOf, InPlace, HasFixed, Consistent;
    forall m | m in chosen && InPlace(agenda, topicId, sectionId, m) ensures m in StableIds(targets) {
      var a :| 0 <= a < |desired| && desired[a].meetingId == m;
      assert targets[a].stable;
    }
  }

  /** What is listed as available. */
  lemma AvailableMeans(agenda: Agenda, topicId: Id, sectionId: Id, chosen: set<Id>, stable: set<Id>)
    requires Consistent(agenda) && topicId in agenda.topics
    requires forall m :: m in stable <==> m in chosen && InPlace(agenda, topicId, sectionId, m)
    ensures OncePerMeeting(agenda.byDate)
    ensures var available := RefsOf(agenda.byDate, MovableOf(agenda, topicId) - stable);
            && InOrder(agenda.byDate, available)
            && forall ref :: ref in available <==> IsReusable(agenda, topicId, sectionId, chosen, ref)
  {
    var movable := MovableOf(agenda, topicId);
    RefsInOrder(agenda.byDate, movable - stable);
    RecurrenceService.RefsOfDistinct(agenda.byDate, movable - stable);
    MovableRows(agenda, topicId);
    hide RefsOf, MovableOf, IsMovable, InPlace;
    forall ref
      ensures ref in RefsOf(agenda.byDate, movable - stable) <==> IsReusable(agenda, topicId, sectionId, chosen, ref)
    {
      assert ref in RefsOf(agenda.byDate, movable - stable) <==>
             multiset(RefsOf(agenda.byDate, movable - stable))[ref] > 0;
    }
  }

  /** No meeting is scheduled: everything movable is removed. */
  lemma RemovalsExactly(agenda: Agenda, topicId: Id, sectionId: Id) returns (reusable: seq<Ref>)
    requires Consistent(agenda) && topicId in agenda.topics
    ensures forall ref :: ref in reusable <==> IsReusable(agenda, topicId, sectionId, {}, ref)
    ensures var plan := Plan([], RefsOf(agenda.byDate, MovableOf(agenda, topicId)));
            MovesFit(agenda, topicId, sectionId, {}, plan.moves) && SourcesFit(agenda.byDate, reusable, plan)
  {
    AvailableMeans(agenda, topicId, sectionId, {}, {});
    reusable := RefsOf(agenda.byDate, MovableOf(agenda, topicId) - {});
    assert MovableOf(agenda, topicId) - {} == MovableOf(agenda, topicId);
    hide RefsOf, MovableOf, InOrder, IsReusable, Consistent;
  }

  lemma AssignedExactly(agenda: Agenda, topicId: Id, sectionId: Id, chosen: set<Id>,
                        desired: seq<RecurrenceSchedule.Slot>)
    returns (reusable: seq<Ref>)
    requires Consistent(agenda) && topicId in agenda.topics
    requires forall m | m in chosen :: !HasFixed(agenda, topicId, m)
    requires forall m :: m in chosen <==> exists a :: 0 <= a < |desired| && desired[a].meetingId == m
    requires Ascends(SlotsOf(agenda, topicId), desired)
    ensures forall ref :: ref in reusable <==> IsReusable(agenda, topicId, sectionId, chosen, ref)
    ensures var targets := TargetsOf(agenda, topicId, sectionId, desired);
            var (moves, removals) :=
              Assign(targets, RefsOf(agenda.byDate, MovableOf(agenda, topicId) - StableIds(targets)), sectionId);
            MovesFit(agenda, topicId, sectionId, chosen, moves) && SourcesFit(agenda.byDate, reusable,
                                                                              Plan(moves, removals))
  {
    var targets := TargetsOf(agenda, topicId, sectionId, desired);
    reusable := RefsOf(agenda.byDate, MovableOf(agenda, topicId) - StableIds(targets));
    MovesOfSchedule(agenda, topicId, sectionId, chosen, desired, reusable);
    StableMeans(agenda, topicId, sectionId, chosen, desired);
    AvailableMeans(agenda, topicId, sectionId, chosen, StableIds(targets));
    SourcesExactly(targets, agenda.byDate, reusable, sectionId);
    hide Assign, TargetsOf, StableIds, RefsOf, MovableOf, MovesFit, IsReusable, InOrder, IsSource, IsLeft, HasFixed,
      Consistent;
  }

  function SectionFor(topic: Topic): Id {
    if topic.defaultSection.Some? then topic.defaultSection.value else 0
  }

  /** The meetings a topic is scheduled in; a topic that is not open in none. */
  ghost function Wanted(agenda: Agenda, topicId: Id, schedule: set<Id>): set<Id>
    requires topicId in agenda.topics
  {
    if agenda.topics[topicId].status.Open? then schedule else {}
  }

  /** The schedule as the planner lists it. */
  lemma ScheduledSlots(agenda: Agenda, topicId: Id, schedule: set<Id>)
    requires Consistent(agenda) && topicId in agenda.topics && IsSchedule(agenda, topicId, schedule)
    ensures RecurrenceSchedule.Ordered(SlotsOf(agenda, topicId))
    ensures var topic := agenda.topics[topicId];
            var greedy := RecurrenceSchedule.Greedy(SlotsOf(agenda, topicId), topic.firstDueDate, topic.interval);
            && (greedy.Conflict? <==> HasClash(agenda, topicId, schedule))
            && (greedy.Schedule? ==>
                  && (forall m :: m in schedule <==>
                      exists a :: 0 <= a < |greedy.slots| && greedy.slots[a].meetingId == m)
                  && Ascends(SlotsOf(agenda, topicId), greedy.slots))
  {
    var topic, slots := agenda.topics[topicId], SlotsOf(agenda, topicId);
    ScheduleMeans(agenda, topicId, schedule);
    RecurrenceSchedule.ConflictExactly(slots, topic.firstDueDate, topic.interval, schedule);
    ClashesMean(agenda, topicId, schedule);
    var greedy := RecurrenceSchedule.Greedy(slots, topic.firstDueDate, topic.interval);
    if greedy.Schedule? {
      RecurrenceSchedule.GreedySelects(slots, topic.firstDueDate, topic.interval);
      GreedyAscends(slots, topic.firstDueDate, topic.interval);
      assert forall i | 0 <= i < |slots| :: slots[i].meetingId == agenda.meetings[i].id;
      assert forall slot | slot in greedy.slots :: slot in slots;
      hide SlotsOf, Consistent, IsSchedule, HasClash, RecurrenceSchedule.Greedy, RecurrenceSchedule.Selection,
        RecurrenceSchedule.IsChoice, RecurrenceSchedule.Conflicts, Ascends;
      ListedSchedule(agenda, slots, greedy.slots, schedule);
    }
  }

  lemma ListedSchedule(agenda: Agenda, slots: seq<RecurrenceSchedule.Slot>, listed: seq<RecurrenceSchedule.Slot>,
                       schedule: set<Id>)
    requires |slots| == |agenda.meetings| && schedule <= MeetingSet(agenda.meetings)
    requires forall i | 0 <= i < |slots| :: slots[i].meetingId == agenda.meetings[i].id
    requires forall slot | slot in listed :: slot in slots
    requires forall i | 0 <= i < |slots| :: slots[i] in listed <==> slots[i].meetingId in schedule
    ensures forall m :: m in schedule <==> exists a :: 0 <= a < |listed| && listed[a].meetingId == m
  {
    forall m | m in schedule ensures exists a :: 0 <= a < |listed| && listed[a].meetingId == m {
      var i :| 0 <= i < |agenda.meetings| && agenda.meetings[i].id == m;
      assert slots[i] in listed;
    }
    forall a | 0 <= a < |listed| ensures listed[a].meetingId in schedule {
      assert listed[a] in slots;
    }
  }

  lemma ClashesMean(agenda: Agenda, topicId: Id, schedule: set<Id>)
    requires Consistent(agenda) && topicId in agenda.topics && IsSchedule(agenda, topicId, schedule)
    ensures RecurrenceSchedule.Ordered(SlotsOf(agenda, topicId))
    ensures var topic := agenda.topics[topicId];
            HasClash(agenda, topicId, schedule) <==>
            exists last, j :: 0 <= j < |SlotsOf(agenda, topicId)|
                              && RecurrenceSchedule.Conflicts(SlotsOf(agenda, topicId), topic.firstDueDate,
                                                              topic.interval, schedule, last, j)
  {
    SlotsAreOrdered(agenda, topicId);
    var topic, slots := agenda.topics[topicId], SlotsOf(agenda, topicId);
    assert |slots| == |agenda.meetings|;
    if last, j, id :| 0 <= j < |agenda.meetings| && Clashes(agenda, topicId, schedule, last, j, id) {
      ClashMeans(agenda, topicId, schedule, last, j);
      assert RecurrenceSchedule.Conflicts(slots, topic.firstDueDate, topic.interval, schedule, last, j);
    } else if last, j :| 0 <= j < |slots|
                         && RecurrenceSchedule.Conflicts(slots, topic.firstDueDate, topic.interval, schedule, last, j) {
      ClashMeans(agenda, topicId, schedule, last, j);
    }
    hide SlotsOf, RecurrenceSchedule.Conflicts, Clashes, Consistent, IsSchedule;
  }

  /** The whole plan of a topic, from the tables: what is refused and why, and otherwise every move with its source and
      every removal. */
  lemma PlanExactly(agenda: Agenda, topicId: Id, schedule: set<Id>) returns (reusable: seq<Ref>)
    requires Consistent(agenda) && topicId in agenda.topics && IsSchedule(agenda, topicId, schedule)
    ensures var topic, plan := agenda.topics[topicId], PlanFor(agenda, topicId);
            var wanted, sectionId := Wanted(agenda, topicId, schedule), SectionFor(topic);
            if !topic.recurring then plan == Refused(ConfigurationInvalid)
            else if topic.status.Open? && HasClash(agenda, topicId,
                                                   schedule) then plan == Refused(EditedAppearanceConflict)
            else if wanted != {} && (topic.defaultSection.None? || sectionId !in agenda.sections) then
              plan == Refused(ConfigurationInvalid)
            else
              && plan.Plan? && MovesFit(agenda, topicId, sectionId, wanted, plan.moves)
              && SourcesFit(agenda.byDate, reusable, plan)
              && forall ref :: ref in reusable <==> IsReusable(agenda, topicId, sectionId, wanted, ref)
  {
    var topic := agenda.topics[topicId];
    ScheduledSlots(agenda, topicId, schedule);
    forall m | m in schedule ensures !HasFixed(agenda, topicId, m) {
      var j :| 0 <= j < |agenda.meetings| && agenda.meetings[j].id == m;
      ScheduledIsFree(agenda, topicId, schedule, j);
    }
    if agenda.meetings == [] {
      NothingWithoutMeetings(agenda, topicId, SectionFor(topic), schedule);
    }
    var greedy := RecurrenceSchedule.Greedy(SlotsOf(agenda, topicId), topic.firstDueDate, topic.interval);
    hide IsSchedule, HasClash, HasFixed, MovesFit, SourcesFit, IsReusable, SlotsOf, RecurrenceSchedule.Greedy, Assign,
      RefsOf, MovableOf, TargetsOf, StableIds, Consistent;
    if agenda.meetings == [] {
      reusable := [];
    } else if !topic.status.Open? || (greedy.Schedule? && greedy.slots == []) {
      assert greedy.Schedule? && greedy.slots == [] ==> schedule == {};
      reusable := RemovalsExactly(agenda, topicId, SectionFor(topic));
    } else if greedy.Schedule? {
      assert greedy.slots[0].meetingId in schedule;
      reusable := AssignedExactly(agenda, topicId, SectionFor(topic), schedule, greedy.slots);
    } else {
      reusable := [];
    }
  }

  lemma NothingWithoutMeetings(agenda: Agenda, topicId: Id, sectionId: Id, schedule: set<Id>)
    requires Consistent(agenda) && topicId in agenda.topics && IsSchedule(agenda, topicId, schedule)
        && agenda.meetings == []
    ensures schedule == {} && !HasClash(agenda, topicId, schedule)
    ensures MovesFit(agenda, topicId, sectionId, {}, []) && SourcesFit(agenda.byDate, [], Plan([], []))
    ensures forall ref :: !IsReusable(agenda, topicId, sectionId, {}, ref)
  {
  }
}
