/** Which agenda changes are accepted and what they leave, row by row, and that an automatic appearance a user has
    removed stays away (backend/src/meetings/meetings.service.ts). */
module AgendaContract {
  import opened Options
  import opened AgendaPositions
  import opened RecurrencePlanner
  import opened MeetingAgenda
  import AgendaRuns
  import RecurrenceService
  import opened PlanContract

  // ---------- meetings ----------

  /** The meeting exists and is not completed. */
  ghost predicate Accepts(agenda: Agenda, meetingId: Id) {
    exists i :: 0 <= i < |agenda.meetings| && agenda.meetings[i].id == meetingId && !agenda.meetings[i].status.Completed?
  }

  ghost predicate Exists(agenda: Agenda, meetingId: Id) {
    exists i :: 0 <= i < |agenda.meetings| && agenda.meetings[i].id == meetingId
  }

  /** A change of a meeting that does not accept any fails, and says why. */
  lemma RefusalExactly(agenda: Agenda, meetingId: Id)
    requires Consistent(agenda)
    ensures Refusal(agenda, meetingId) ==
            if Accepts(agenda, meetingId) then None
            else if Exists(agenda, meetingId) then Some(MeetingCompleted) else Some(NotFound)
  {
    if Accepts(agenda, meetingId) {
      var i :| 0 <= i < |agenda.meetings| && agenda.meetings[i].id == meetingId && !agenda.meetings[i].status.Completed?;
      assert forall j | 0 <= j < |agenda.meetings| && agenda.meetings[j].id == meetingId :: j == i;
      assert agenda.meetings[i].id in MeetingSet(agenda.meetings);
    }
    if Exists(agenda, meetingId) && !Accepts(agenda, meetingId) {
      var i :| 0 <= i < |agenda.meetings| && agenda.meetings[i].id == meetingId;
      assert agenda.meetings[i].status.Completed?;
    }
  }

  // ---------- rows ----------

  /** The row is gone and those behind it in its section move up by one. */
  ghost predicate TakenOut(before: Rows, after: Rows, id: Id)
    requires id in before
  {
    && after.Keys == before.Keys - {id}
    && forall other | other in after ::
         after[other] == before[other].(position := before[other].position - (if IsBehind(before, other, id) then 1
                                                                              else 0))
  }

  predicate IsBehind(rows: Rows, other: Id, id: Id)
    requires other in rows && id in rows
  {
    && (rows[other].meetingId, rows[other].sectionId) == (rows[id].meetingId, rows[id].sectionId)
    && rows[other].position > rows[id].position
  }

  /** The row stands where it should and those from there on move down by one. */
  ghost predicate PutIn(before: Rows, after: Rows, id: Id, appearance: Appearance) {
    && after.Keys == before.Keys + {id} && after[id] == appearance
    && forall other | other in before ::
         var row := before[other];
         var moves := (row.meetingId, row.sectionId) == (appearance.meetingId, appearance.sectionId)
                      && row.position >= appearance.position;
         after[other] == row.(position := row.position + (if moves then 1 else 0))
  }

  /** A row behind the removed one has one row less in front of it. */
  lemma RankWithout(rows: Rows, ids: set<Id>, id: Id, other: Id)
    requires ids <= rows.Keys && DenseOn(rows, ids) && PositionsOf(rows, ids) == UpTo(|ids|)
    requires id in ids && other in ids - {id}
    ensures Rank(rows - {id}, ids - {id}, other) ==
            rows[other].position - (if rows[other].position > rows[id].position then 1 else 0)
  {
    DenseRankIsPosition(rows, ids, other);
    assert Preceding(rows - {id}, ids - {id}, other) == Preceding(rows, ids, other) - {id};
    hide DenseOn, PositionsOf;
    assert rows[other].position != rows[id].position by { DistinctPositions(rows, ids, id, other); }
  }

  lemma DistinctPositions(rows: Rows, ids: set<Id>, id: Id, other: Id)
    requires ids <= rows.Keys && DenseOn(rows, ids) && id in ids && other in ids && id != other
    ensures rows[other].position != rows[id].position
  {
  }

  /** Renumbering closes the gap and nothing else. */
  lemma DeletedExactly(rows: Rows, id: Id)
    requires Dense(rows) && id in rows
    ensures TakenOut(rows, Deleted(rows, id), id)
  {
    var after := Deleted(rows, id);
    DeletedRows(rows, id, after);
    forall other | other in after
      ensures after[other].position == rows[other].position - (if IsBehind(rows, other, id) then 1 else 0)
    {
      DeletedAt(rows, id, other);
    }
    hide Dense, Deleted;
  }

  lemma DeletedAt(rows: Rows, id: Id, other: Id)
    requires Dense(rows) && id in rows && other in rows && other != id
    ensures other in Deleted(rows, id)
    ensures Deleted(rows, id)[other].position == rows[other].position - (if IsBehind(rows, other, id) then 1 else 0)
  {
    var m, s := rows[id].meetingId, rows[id].sectionId;
    var ids, rest := SectionIds(rows, m, s), rows - {id};
    assert DenseSection(rows, m, s);
    DenseUsesEveryPosition(rows, m, s);
    assert SectionIds(rest, m, s) == ids - {id};
    hide Dense, PositionsOf;
    if other in ids {
      RankWithout(rows, ids, id, other);
    }
    hide DenseSection, Rank;
  }

  lemma InsertedExactly(rows: Rows, id: Id, appearance: Appearance)
    requires id !in rows
    ensures PutIn(rows, Inserted(rows, id, appearance), id, appearance)
  {
    InsertedRows(rows, id, appearance, Inserted(rows, id, appearance));
  }

  // ---------- removal ----------

  /** A user's removal succeeds exactly for a row of a meeting that accepts changes. The rows behind it move up, and an
      automatic appearance is remembered as skipped, a manual one is not. */
  lemma RemovalExactly(agenda: Agenda, meetingId: Id, id: Id)
    requires WellFormed(agenda)
    ensures var outcome := RemoveTopic(agenda, meetingId, id);
            var there := id in agenda.rows && agenda.rows[id].meetingId == meetingId;
            && (outcome.Done? <==> Accepts(agenda, meetingId) && there)
            && (outcome == Failed(MeetingCompleted) <==> Exists(agenda, meetingId) && !Accepts(agenda, meetingId))
            && (outcome.Done? ==>
                  var row := agenda.rows[id];
                  && TakenOut(agenda.rows, outcome.agenda.rows, id)
                  && outcome.agenda == agenda.(rows := outcome.agenda.rows, skips := outcome.agenda.skips)
                  && outcome.agenda.skips ==
                     (if row.source.Recurrence? then agenda.skips + {(row.topicId, meetingId)} else agenda.skips))
  {
    RefusalExactly(agenda, meetingId);
    if id in agenda.rows {
      DeletedExactly(agenda.rows, id);
    }
    hide Refusal, Accepts, Exists, Deleted, TakenOut, Dense, Consistent;
  }

  /** A reconciling client's removal succeeds exactly for an automatic, unedited appearance that the plan of the moment
      removes. Nothing is remembered as skipped. */
  lemma PlannedRemovalExactly(agenda: Agenda, meetingId: Id, id: Id)
    requires WellFormed(agenda)
    ensures var outcome := RemoveReconciled(agenda, meetingId, id);
            && (outcome.Done? <==>
                  && Accepts(agenda, meetingId) && id in agenda.rows && agenda.rows[id].meetingId == meetingId
                  && agenda.rows[id].source.Recurrence? && !agenda.rows[id].contentEdited
                  && var plan := PlanFor(agenda, agenda.rows[id].topicId);
                     plan.Plan? && Ref(id, meetingId) in plan.removals)
            && (outcome.Done? ==>
                  && TakenOut(agenda.rows, outcome.agenda.rows, id)
                  && outcome.agenda == agenda.(rows := outcome.agenda.rows))
  {
    RefusalExactly(agenda, meetingId);
    if id in agenda.rows {
      DeletedExactly(agenda.rows, id);
    }
    hide Refusal, Accepts, Exists, Deleted, TakenOut, Dense, Consistent, PlanFor;
  }

  // ---------- addition ----------

  /** The meeting accepts changes, topic and section exist, the source may be taken, and the topic does not stand in the
      meeting already except as that source. */
  ghost predicate MayAdd(agenda: Agenda, meetingId: Id, input: TopicInput) {
    && Accepts(agenda, meetingId) && input.topicId in agenda.topics && input.sectionId in agenda.sections
    && (input.sourceAppearanceId.Some? ==> IsMovable(agenda, input.topicId, input.sourceAppearanceId.value))
    && forall id | id in agenda.rows && agenda.rows[id].topicId == input.topicId && agenda.rows[id].meetingId == meetingId ::
         input.sourceAppearanceId == Some(id)
  }

  lemma PlannedExactly(agenda: Agenda, meetingId: Id)
    requires Consistent(agenda)
    ensures meetingId in PlannedSet(agenda.meetings) <==>
              exists i :: 0 <= i < |agenda.meetings| && agenda.meetings[i].id == meetingId && agenda.meetings[i].status.Planned?
    ensures meetingId in PlannedSet(agenda.meetings) ==> Accepts(agenda, meetingId)
  {
  }

  lemma TakingExactly(agenda: Agenda, input: TopicInput)
    requires Consistent(agenda) && input.sourceAppearanceId.Some?
    ensures var id := input.sourceAppearanceId.value;
            IsMovable(agenda, input.topicId, id) <==>
              !SourceIsInvalid(agenda, input) && Refusal(agenda, agenda.rows[id].meetingId).None?
  {
    var id := input.sourceAppearanceId.value;
    if id in agenda.rows {
      PlannedExactly(agenda, agenda.rows[id].meetingId);
      RefusalExactly(agenda, agenda.rows[id].meetingId);
    }
    hide Consistent, Refusal, Accepts;
  }

  /** Of the checks in front of the plan. */
  lemma AdmissionExactly(agenda: Agenda, meetingId: Id, input: TopicInput)
    requires Consistent(agenda)
    ensures AddRefusal(agenda, meetingId, input, AppearancesOf(agenda.rows, input.topicId)) == None <==>
              MayAdd(agenda, meetingId, input)
  {
    RefusalExactly(agenda, meetingId);
    AppearanceLookup(agenda.rows, input.topicId);
    if input.sourceAppearanceId.Some? {
      TakingExactly(agenda, input);
    }
    hide Consistent, Refusal, Accepts, Exists, IsMovable, SourceIsInvalid, AppearancesOf;
    if input.sourceAppearanceId.Some? && input.sourceAppearanceId.value in agenda.rows {
      hide UniqueAppearances;
    }
  }

  /** Adding a deferred topic reopens it; nothing else changes about any topic. */
  ghost predicate ReopensOnly(before: map<Id, Topic>, after: map<Id, Topic>, topicId: Id) {
    && after.Keys == before.Keys
    && forall other | other in before ::
         after[other] == if other == topicId && before[other].status.Deferred? then before[other].(status := Open)
                         else before[other]
  }

  /** The rows once the source is taken out. */
  ghost predicate WithoutTaken(before: Rows, middle: Rows, source: Option<Id>) {
    if source.Some? then source.value in before && TakenOut(before, middle, source.value) else middle == before
  }

  /** What a successful addition leaves: the source is out, the new row stands at the position, and a deferred topic is
      open again. */
  ghost predicate Adds(agenda: Agenda, after: Agenda, meetingId: Id, input: TopicInput, middle: Rows, position: int) {
    && after == agenda.(rows := after.rows, topics := after.topics)
    && ReopensOnly(agenda.topics, after.topics, input.topicId)
    && WithoutTaken(agenda.rows, middle, input.sourceAppearanceId)
    && PutIn(middle, after.rows, input.id,
             Appearance(meetingId, input.topicId, input.sectionId, position, input.source, false))
  }

  lemma PlacedExactly(agenda: Agenda, meetingId: Id, input: TopicInput, defaultPosition: int) returns (middle: Rows)
    requires Dense(agenda.rows) && input.id !in agenda.rows
    requires input.sourceAppearanceId.Some? ==> input.sourceAppearanceId.value in agenda.rows
    ensures middle == WithoutSource(agenda.rows, input.sourceAppearanceId)
    ensures WithoutTaken(agenda.rows, middle, input.sourceAppearanceId)
    ensures var position := if input.position.Some? then input.position.value else defaultPosition;
            var outcome := Place(agenda, meetingId, input, defaultPosition);
            && (outcome.Done? <==> position <= |SectionIds(middle, meetingId, input.sectionId)| + 1)
            && (outcome.Done? ==>
                  && outcome.agenda == agenda.(rows := outcome.agenda.rows)
                  && PutIn(middle, outcome.agenda.rows, input.id,
                           Appearance(meetingId, input.topicId, input.sectionId, position, input.source, false)))
  {
    middle := WithoutSource(agenda.rows, input.sourceAppearanceId);
    if input.sourceAppearanceId.Some? {
      var id := input.sourceAppearanceId.value;
      DeletedExactly(agenda.rows, id);
      DeletedKeepsDense(agenda.rows, id, middle);
    }
    assert DenseSection(middle, meetingId, input.sectionId);
    assert input.id !in middle by {
      assert input.sourceAppearanceId.Some? ==> TakenOut(agenda.rows, middle, input.sourceAppearanceId.value);
    }
    var position := if input.position.Some? then input.position.value else defaultPosition;
    InsertedExactly(middle, input.id,
                    Appearance(meetingId, input.topicId, input.sectionId, position, input.source, false));
    hide Deleted, Inserted, Dense, DenseSection, PutIn, TakenOut, SectionIds, KeepsOrder;
  }

  /** A manual addition succeeds exactly if it may and its position, the end by default, is within the section. */
  lemma ManualAddExactly(agenda: Agenda, meetingId: Id, input: TopicInput) returns (middle: Rows)
    requires WellFormed(agenda) && input.id !in agenda.rows && input.source.Manual?
    ensures var outcome := AddTopic(agenda, meetingId, input);
            var n := |SectionIds(middle, meetingId, input.sectionId)|;
            var position := if input.position.Some? then input.position.value else n + 1;
            && (outcome.Done? <==> MayAdd(agenda, meetingId, input) && position <= n + 1)
            && (outcome.Done? ==> Adds(agenda, outcome.agenda, meetingId, input, middle, position))
  {
    middle := agenda.rows;
    AdmissionExactly(agenda, meetingId, input);
    ManualAddPlaces(agenda, meetingId, input);
    hide AppearancesOf, AddTopic, WellFormed, Place, Adds, SectionIds, AddRefusal, WithoutSource, Reopened;
    if MayAdd(agenda, meetingId, input) {
      middle := ManualPlaced(agenda, meetingId, input);
    }
    hide MayAdd;
  }

  lemma ManualPlaced(agenda: Agenda, meetingId: Id, input: TopicInput) returns (middle: Rows)
    requires WellFormed(agenda) && input.id !in agenda.rows && MayAdd(agenda, meetingId, input)
    ensures middle == WithoutSource(agenda.rows, input.sourceAppearanceId) && input.topicId in agenda.topics
    ensures var n := |SectionIds(middle, meetingId, input.sectionId)|;
            var position := if input.position.Some? then input.position.value else n + 1;
            var outcome := Place(Reopened(agenda, input.topicId), meetingId, input, n + 1);
            && (outcome.Done? <==> position <= n + 1)
            && (outcome.Done? ==> Adds(agenda, outcome.agenda, meetingId, input, middle, position))
  {
    Addable(agenda, meetingId, input);
    var reopened := Reopened(agenda, input.topicId);
    var n := |SectionIds(WithoutSource(agenda.rows, input.sourceAppearanceId), meetingId, input.sectionId)|;
    middle := PlacedExactly(reopened, meetingId, input, n + 1);
    hide MayAdd, WellFormed, Dense, WithoutTaken, PutIn, ReopensOnly, SectionIds, WithoutSource, Place, Reopened;
    var outcome := Place(reopened, meetingId, input, n + 1);
    if outcome.Done? {
      PlacementAdds(agenda, reopened, outcome.agenda, meetingId, input, middle,
                    if input.position.Some? then input.position.value else n + 1);
    }
  }

  lemma PlacementAdds(agenda: Agenda, reopened: Agenda, after: Agenda, meetingId: Id, input: TopicInput, middle: Rows,
                      position: int)
    requires reopened == agenda.(topics := reopened.topics) && after == reopened.(rows := after.rows)
    requires ReopensOnly(agenda.topics, reopened.topics, input.topicId)
    requires WithoutTaken(agenda.rows, middle, input.sourceAppearanceId)
    requires PutIn(middle, after.rows, input.id,
                   Appearance(meetingId, input.topicId, input.sectionId, position, input.source, false))
    ensures Adds(agenda, after, meetingId, input, middle, position)
  {
  }

  lemma ManualAddPlaces(agenda: Agenda, meetingId: Id, input: TopicInput)
    requires Consistent(agenda) && input.source.Manual?
    ensures var refusal := AddRefusal(agenda, meetingId, input, AppearancesOf(agenda.rows, input.topicId));
            && (refusal.Some? ==> AddTopic(agenda, meetingId, input) == Failed(refusal.value))
            && (refusal.None? ==>
                  && input.topicId in agenda.topics
                  && var n := |SectionIds(WithoutSource(agenda.rows, input.sourceAppearanceId), meetingId,
                                          input.sectionId)|;
                     AddTopic(agenda, meetingId, input) == Place(Reopened(agenda, input.topicId), meetingId, input,
                                                                 n + 1))
  {
    hide Place, AppearancesOf, WithoutSource, SectionIds;
    assert AddRefusal(agenda, meetingId, input, AppearancesOf(agenda.rows, input.topicId)).None? ==>
        input.topicId in agenda.topics;
    hide AddRefusal, Refusal;
  }

  lemma Addable(agenda: Agenda, meetingId: Id, input: TopicInput)
    requires MayAdd(agenda, meetingId, input)
    ensures input.topicId in agenda.topics
    ensures input.sourceAppearanceId.Some? ==> input.sourceAppearanceId.value in agenda.rows
    ensures Reopened(agenda, input.topicId) == agenda.(topics := Reopened(agenda, input.topicId).topics)
    ensures ReopensOnly(agenda.topics, Reopened(agenda, input.topicId).topics, input.topicId)
  {
  }

  /** The move leads to the meeting and section of the request, from its source, to its position if it names one. */
  predicate Serves(move: Move, meetingId: Id, input: TopicInput) {
    && move.meetingId == meetingId && move.sectionId == input.sectionId
    && (input.position.Some? ==> move.position == input.position.value)
    && (input.sourceAppearanceId.None? <==> move.source.None?)
    && (move.source.Some? ==> input.sourceAppearanceId == Some(move.source.value.id))
  }

  lemma {:induction false} FoundExactly(moves: seq<Move>, meetingId: Id, input: TopicInput)
    ensures FindMove(moves, meetingId, input).Some? <==> exists move :: move in moves && Serves(move, meetingId, input)
    ensures FindMove(moves, meetingId, input).Some? ==>
              var move := FindMove(moves, meetingId, input).value; move in moves && Serves(move, meetingId, input)
  {
    if moves != [] {
      FoundExactly(moves[1..], meetingId, input);
      assert moves[0] in moves;
      if move :| move in moves && Serves(move, meetingId, input) {
        assert move == moves[0] || move in moves[1..];
      }
    }
  }

  /** The plan of the moment, made with the topic open, has the move for the request. */
  ghost predicate Plans(agenda: Agenda, meetingId: Id, input: TopicInput, move: Move)
    requires Consistent(agenda) && input.topicId in agenda.topics
  {
    ReopenedIsConsistent(agenda, input.topicId);
    var plan := PlanFor(Reopened(agenda, input.topicId), input.topicId);
    plan.Plan? && move in plan.moves && Serves(move, meetingId, input)
  }

  /** A planned position is within its section, with or without the appearance that is moved. */
  lemma PlannedFits(agenda: Agenda, topicId: Id, move: Move, middle: Rows, source: Option<Id>)
    requires WellFormed(agenda) && topicId in agenda.topics
    requires PlanFor(agenda, topicId).Plan? && move in PlanFor(agenda, topicId).moves
    requires WithoutTaken(agenda.rows, middle, source)
    requires source.Some? && source.value in agenda.rows ==> agenda.rows[source.value].topicId == topicId
    ensures move.position <= |SectionIds(middle, move.meetingId, move.sectionId)| + 1
  {
    var schedule := ScheduleExists(agenda, topicId);
    var reusable := PlanExactly(agenda, topicId, schedule);
    WantedFits(agenda, topicId, move, middle, source);
    hide PlanFor, IsSchedule, Consistent, InPlace, WithoutTaken, SectionIds, SourcesFit;
  }

  lemma WantedFits(agenda: Agenda, topicId: Id, move: Move, middle: Rows, source: Option<Id>)
    requires topicId in agenda.topics && WithoutTaken(agenda.rows, middle, source)
    requires source.Some? && source.value in agenda.rows ==> agenda.rows[source.value].topicId == topicId
    ensures IsWanted(agenda, topicId, move.meetingId, move.sectionId, move.position) ==>
              move.position <= |SectionIds(middle, move.meetingId, move.sectionId)| + 1
  {
    var others := Others(agenda, topicId, move.meetingId, move.sectionId);
    forall id | id in others ensures id in SectionIds(middle, move.meetingId, move.sectionId) {
      assert id in middle;
    }
    SmallerSet(others, SectionIds(middle, move.meetingId, move.sectionId));
  }

  /** A reconciling client's addition succeeds exactly if it may and the plan has a move for it; the row then stands
      where the plan wants it. */
  lemma PlannedAddExactly(agenda: Agenda, meetingId: Id, input: TopicInput) returns (middle: Rows, planned: Move)
    requires WellFormed(agenda) && input.id !in agenda.rows && input.source.Recurrence?
    ensures var outcome := AddTopic(agenda, meetingId, input);
            && (outcome.Done? <==>
                  MayAdd(agenda, meetingId, input) && exists move :: Plans(agenda, meetingId, input, move))
            && (outcome.Done? ==>
                  && Plans(agenda, meetingId, input, planned)
                  && Adds(agenda, outcome.agenda, meetingId, input, middle, planned.position))
  {
    middle, planned := agenda.rows, Move(0, 0, 0, None);
    AdmissionExactly(agenda, meetingId, input);
    hide MayAdd, AppearancesOf, Place, WithoutTaken, PutIn, ReopensOnly, SectionIds, Dense, AddRefusal, WithoutSource,
      PlanFor;
    if MayAdd(agenda, meetingId, input) {
      Addable(agenda, meetingId, input);
      ReopenedIsConsistent(agenda, input.topicId);
      var reopened := Reopened(agenda, input.topicId);
      var plan := PlanFor(reopened, input.topicId);
      if plan.Plan? {
        FoundExactly(plan.moves, meetingId, input);
        if FindMove(plan.moves, meetingId, input).Some? {
          planned := FindMove(plan.moves, meetingId, input).value;
          assert Plans(agenda, meetingId, input, planned);
          middle := PlacedExactly(reopened, meetingId, input, planned.position);
          PlannedFits(reopened, input.topicId, planned, middle, input.sourceAppearanceId);
        }
      }
    }
  }


  // ---------- reordering ----------

  predicate Differ(positions: seq<int>) {
    forall i, j | 0 <= i < j < |positions| :: positions[i] != positions[j]
  }

  predicate Within(positions: seq<int>, n: nat) {
    forall position | position in positions :: 1 <= position <= n
  }

  lemma {:induction false} DifferingCounts(positions: seq<int>)
    requires Differ(positions)
    ensures forall k :: multiset(positions)[k] == if k in positions then 1 else 0
    ensures |set position | position in positions| == |positions|
  {
    if positions != [] {
      var front, last := positions[..|positions| - 1], positions[|positions| - 1];
      DifferingCounts(front);
      assert positions == front + [last];
      assert last !in front;
      assert (set position | position in positions) == (set position | position in front) + {last};
    }
  }

  lemma DifferingIsConsecutive(positions: seq<int>)
    requires Differ(positions) && Within(positions, |positions|)
    ensures Consecutive(positions)
  {
    var n, numbers := |positions|, set position | position in positions;
    OneToCounts(n);
    DifferingCounts(positions);
    SmallerSet(numbers, UpTo(n));
    forall k ensures multiset(positions)[k] == multiset(OneTo(n))[k] {
      assert k in positions <==> k in numbers;
    }
  }

  lemma ConsecutiveDiffers(positions: seq<int>)
    requires Consecutive(positions)
    ensures Differ(positions) && Within(positions, |positions|)
  {
    OneToCounts(|positions|);
    forall position | position in positions ensures 1 <= position <= |positions| {
      assert multiset(positions)[position] > 0;
    }
    forall i, j | 0 <= i < j < |positions| ensures positions[i] != positions[j] {
      assert positions == positions[..j] + [positions[j]] + positions[j + 1..];
      assert positions[i] in positions[..j];
      assert multiset(positions[..j])[positions[i]] > 0;
      assert multiset(positions) == multiset(positions[..j]) + multiset{positions[j]} + multiset(positions[j + 1..]);
      assert multiset(positions)[positions[i]] <= 1;
    }
  }

  predicate Asks(items: seq<OrderItem>, sectionId: Id, i: nat)
    requires i < |items|
  {
    items[i].sectionId == sectionId
  }

  lemma {:induction false} RequestedMembers(items: seq<OrderItem>, sectionId: Id, position: int)
    ensures position in RequestedPositions(items, sectionId) <==>
              exists i :: 0 <= i < |items| && Asks(items, sectionId, i) && items[i].position == position
  {
    if items != [] {
      RequestedMembers(items[1..], sectionId, position);
      if i :| 0 <= i < |items| && Asks(items, sectionId, i) && items[i].position == position {
        assert i > 0 ==> Asks(items[1..], sectionId, i - 1) && items[1..][i - 1].position == position;
      }
      if i :| 0 <= i < |items[1..]| && Asks(items[1..], sectionId, i) && items[1..][i].position == position {
        assert Asks(items, sectionId, i + 1) && items[i + 1].position == position;
      }
      assert Asks(items, sectionId, 0) <==> items[0].sectionId == sectionId;
    }
  }

  /** The items of a section ask for different positions. */
  predicate ItemsDiffer(items: seq<OrderItem>, sectionId: Id) {
    forall i, j | 0 <= i < j < |items| && Asks(items, sectionId, i) && Asks(items, sectionId, j) ::
      items[i].position != items[j].position
  }

  lemma DifferWithFirst(first: int, rest: seq<int>)
    ensures Differ([first] + rest) <==> first !in rest && Differ(rest)
  {
    var all := [first] + rest;
    if Differ(all) {
      forall j | 0 <= j < |rest| ensures rest[j] != first {
        assert all[0] != all[j + 1];
      }
      forall i, j | 0 <= i < j < |rest| ensures rest[i] != rest[j] {
        assert all[i + 1] != all[j + 1];
      }
    }
    if first !in rest && Differ(rest) {
      forall i, j | 0 <= i < j < |all| ensures all[i] != all[j] {
        assert all[j] == rest[j - 1] && (i > 0 ==> all[i] == rest[i - 1]);
      }
    }
  }

  lemma ItemsDifferWithFirst(items: seq<OrderItem>, sectionId: Id)
    requires items != []
    ensures ItemsDiffer(items, sectionId) <==>
              && ItemsDiffer(items[1..], sectionId)
              && (items[0].sectionId == sectionId ==> items[0].position !in RequestedPositions(items[1..], sectionId))
  {
    var rest := items[1..];
    RequestedMembers(rest, sectionId, items[0].position);
    hide RequestedPositions;
    if ItemsDiffer(items, sectionId) {
      forall i, j | 0 <= i < j < |rest| && Asks(rest, sectionId, i) && Asks(rest, sectionId, j)
        ensures rest[i].position != rest[j].position
      {
        assert Asks(items, sectionId, i + 1) && Asks(items, sectionId, j + 1);
      }
      if items[0].sectionId == sectionId {
        forall i | 0 <= i < |rest| && Asks(rest, sectionId, i) ensures rest[i].position != items[0].position {
          assert Asks(items, sectionId, 0) && Asks(items, sectionId, i + 1);
        }
      }
    } else {
      var i, j :| 0 <= i < j < |items| && Asks(items, sectionId, i) && Asks(items, sectionId, j)
                  && items[i].position == items[j].position;
      assert Asks(rest, sectionId, j - 1) && (i > 0 ==> Asks(rest, sectionId, i - 1));
    }
  }

  lemma {:induction false} RequestedDiffer(items: seq<OrderItem>, sectionId: Id)
    ensures Differ(RequestedPositions(items, sectionId)) <==> ItemsDiffer(items, sectionId)
  {
    if items != [] {
      RequestedDiffer(items[1..], sectionId);
      ItemsDifferWithFirst(items, sectionId);
      DifferWithFirst(items[0].position, RequestedPositions(items[1..], sectionId));
      assert [] + RequestedPositions(items[1..], sectionId) == RequestedPositions(items[1..], sectionId);
      hide Differ, ItemsDiffer;
    }
  }

  /** In each section the items ask for different positions from 1 to their number. */
  ghost predicate OrdersSection(items: seq<OrderItem>, sectionId: Id) {
    && (forall i | 0 <= i < |items| && Asks(items, sectionId, i) ::
          1 <= items[i].position <= |RequestedIds(items, sectionId)|)
    && ItemsDiffer(items, sectionId)
  }

  lemma SectionOrderExactly(items: seq<OrderItem>, sectionId: Id)
    requires UniqueItems(items)
    ensures Consecutive(RequestedPositions(items, sectionId)) <==> OrdersSection(items, sectionId)
  {
    var positions := RequestedPositions(items, sectionId);
    RequestedSection(items, sectionId);
    RequestedDiffer(items, sectionId);
    RequestedWithin(items, sectionId, |positions|);
    if Consecutive(positions) {
      ConsecutiveDiffers(positions);
    }
    hide RequestedPositions, UniqueItems, ItemsDiffer, Differ, Consecutive, Within;
    if OrdersSection(items, sectionId) {
      DifferingIsConsecutive(positions);
    }
  }

  lemma RequestedWithin(items: seq<OrderItem>, sectionId: Id, n: nat)
    ensures Within(RequestedPositions(items, sectionId), n) <==>
              forall i | 0 <= i < |items| && Asks(items, sectionId, i) :: 1 <= items[i].position <= n
  {
    var positions := RequestedPositions(items, sectionId);
    if Within(positions, n) {
      forall i | 0 <= i < |items| && Asks(items, sectionId, i) ensures 1 <= items[i].position <= n {
        RequestedMembers(items, sectionId, items[i].position);
        assert items[i].position in positions;
      }
    } else {
      var position :| position in positions && !(1 <= position <= n);
      RequestedMembers(items, sectionId, position);
    }
  }

  /** The request names every row of the meeting once. */
  ghost predicate NamesAll(agenda: Agenda, meetingId: Id, items: seq<OrderItem>) {
    && (forall i, j | 0 <= i < j < |items| :: items[i].id != items[j].id)
    && (forall i | 0 <= i < |items| :: items[i].id in agenda.rows && agenda.rows[items[i].id].meetingId == meetingId)
    && forall id | id in agenda.rows && agenda.rows[id].meetingId == meetingId ::
         exists i :: 0 <= i < |items| && items[i].id == id
  }

  lemma UniqueExactly(items: seq<OrderItem>)
    ensures UniqueItems(items) <==> forall i, j | 0 <= i < j < |items| :: items[i].id != items[j].id
  {
  }

  lemma NamingExactly(agenda: Agenda, meetingId: Id, items: seq<OrderItem>)
    ensures NamesAll(agenda, meetingId, items) <==>
              UniqueItems(items) && ItemIds(items) == MeetingIds(agenda.rows, meetingId)
  {
    hide UniqueItems;
    assert UniqueItems(items) <==> forall i, j | 0 <= i < j < |items| :: items[i].id != items[j].id by {
      UniqueExactly(items);
    }
    if NamesAll(agenda, meetingId, items) {
      forall id ensures id in ItemIds(items) <==> id in MeetingIds(agenda.rows, meetingId) {
      }
    }
    if UniqueItems(items) && ItemIds(items) == MeetingIds(agenda.rows, meetingId) {
      forall i | 0 <= i < |items| ensures items[i].id in MeetingIds(agenda.rows, meetingId) {
        assert items[i].id in ItemIds(items);
      }
      forall id | id in agenda.rows && agenda.rows[id].meetingId == meetingId
        ensures exists i :: 0 <= i < |items| && items[i].id == id
      {
        assert id in MeetingIds(agenda.rows, meetingId);
        assert id in ItemIds(items);
      }
    }
  }

  /** A reorder succeeds exactly if it names every row of the meeting once, in sections that exist, and numbers each of
      them from 1 on. It moves every row to where it is asked for and touches no other column and no other meeting. */
  lemma ReorderExactly(agenda: Agenda, meetingId: Id, items: seq<OrderItem>)
    requires WellFormed(agenda)
    ensures var outcome := Reorder(agenda, meetingId, items);
            && (outcome.Done? <==>
                  && Accepts(agenda, meetingId) && NamesAll(agenda, meetingId, items)
                  && forall i | 0 <= i < |items| ::
                       items[i].sectionId in agenda.sections && OrdersSection(items, items[i].sectionId))
            && (outcome.Done? ==>
                  && outcome.agenda == agenda.(rows := outcome.agenda.rows)
                  && outcome.agenda.rows.Keys == agenda.rows.Keys
                  && (forall i | 0 <= i < |items| && items[i].id in agenda.rows ::
                        outcome.agenda.rows[items[i].id] ==
                        agenda.rows[items[i].id].(sectionId := items[i].sectionId, position := items[i].position))
                  && forall id | id in agenda.rows && agenda.rows[id].meetingId != meetingId ::
                       outcome.agenda.rows[id] == agenda.rows[id])
  {
    RefusalExactly(agenda, meetingId);
    NamingExactly(agenda, meetingId, items);
    OrderIsValidExactly(agenda.rows, meetingId, items);
    ReorderAnswers(agenda, meetingId, items);
    if ValidOrder(agenda.rows, meetingId, items) {
      ReorderedRows(agenda.rows, meetingId, items, Reordered(agenda.rows, items));
    }
    hide Refusal, Accepts, Exists, NamesAll, OrdersSection, Reordered, Dense, Consistent, UniqueItems, ValidOrder,
      ItemIds, MeetingIds, Reorder;
  }

  lemma ReorderAnswers(agenda: Agenda, meetingId: Id, items: seq<OrderItem>)
    ensures var outcome := Reorder(agenda, meetingId, items);
            && (outcome.Done? <==>
                  && Refusal(agenda, meetingId).None? && ValidOrder(agenda.rows, meetingId, items)
                  && forall i | 0 <= i < |items| :: items[i].sectionId in agenda.sections)
            && (outcome.Done? ==> outcome.agenda == agenda.(rows := Reordered(agenda.rows, items)))
  {
    hide Refusal, Reordered, Consecutive, RequestedPositions, UniqueItems;
  }

  lemma OrderIsValidExactly(rows: Rows, meetingId: Id, items: seq<OrderItem>)
    ensures ValidOrder(rows, meetingId, items) <==>
              && UniqueItems(items) && ItemIds(items) == MeetingIds(rows, meetingId)
              && forall i | 0 <= i < |items| :: OrdersSection(items, items[i].sectionId)
  {
    if UniqueItems(items) {
      forall i | 0 <= i < |items|
        ensures Consecutive(RequestedPositions(items, items[i].sectionId)) <==> OrdersSection(items, items[i].sectionId)
      {
        SectionOrderExactly(items, items[i].sectionId);
      }
    }
    hide OrdersSection, Consecutive, RequestedPositions, UniqueItems;
  }

  // ---------- what a user has removed stays away ----------

  /** A change, or the restoring of a skipped appearance. */
  datatype Step = Changing(change: AgendaRuns.Change) | Restoring(meetingId: Id, topicId: Id)

  predicate Admissible(agenda: Agenda, step: Step) {
    step.Changing? ==> AgendaRuns.Admissible(agenda, step.change)
  }

  ghost function Next(agenda: Agenda, step: Step): Agenda
    requires Consistent(agenda)
  {
    match step
    case Changing(change) => AgendaRuns.Next(agenda, change)
    case Restoring(meetingId, topicId) =>
      var outcome := RestoreRecurrence(agenda, meetingId, topicId);
      if outcome.Done? then outcome.agenda else agenda
  }

  lemma StepKeepsWellFormed(agenda: Agenda, step: Step)
    requires WellFormed(agenda) && Admissible(agenda, step)
    ensures WellFormed(Next(agenda, step))
  {
    if step.Changing? {
      AgendaRuns.StepKeepsWellFormed(agenda, step.change);
      hide WellFormed, AgendaRuns.Next;
    }
  }

  /** The topic is skipped in the meeting and has no automatic appearance there. */
  ghost predicate StaysOut(agenda: Agenda, meetingId: Id, topicId: Id) {
    && (topicId, meetingId) in agenda.skips
    && forall id | id in agenda.rows && agenda.rows[id].topicId == topicId && agenda.rows[id].meetingId == meetingId ::
         agenda.rows[id].source.Manual?
  }

  /** Rows keep their topic, meeting and source, and a new one is not an automatic appearance of the topic there. */
  ghost predicate BringsNone(before: Agenda, after: Agenda, meetingId: Id, topicId: Id) {
    && before.skips <= after.skips
    && forall id | id in after.rows && after.rows[id].topicId == topicId && after.rows[id].meetingId == meetingId ::
         || after.rows[id].source.Manual?
         || (id in before.rows && (before.rows[id].topicId, before.rows[id].meetingId, before.rows[id].source) ==
                                  (topicId, meetingId, Recurrence))
  }

  lemma AddBringsNone(agenda: Agenda, meetingId: Id, topicId: Id, target: Id, input: TopicInput, after: Agenda)
    requires WellFormed(agenda) && InputIsValid(input) && input.id !in agenda.rows
        && StaysOut(agenda, meetingId, topicId)
    requires AddTopic(agenda, target, input) == Done(after)
    ensures BringsNone(agenda, after, meetingId, topicId)
  {
    if input.source.Manual? {
      var middle := ManualAddExactly(agenda, target, input);
      var n := |SectionIds(middle, target, input.sectionId)|;
      hide AddTopic, WellFormed, StaysOut, BringsNone, Adds, SectionIds;
      AddedBringsNone(agenda, after, target, input, middle, if input.position.Some? then input.position.value
                                                            else n + 1,
                      meetingId, topicId);
    } else {
      var middle, planned := PlannedAddExactly(agenda, target, input);
      if target == meetingId && input.topicId == topicId {
        PlansAvoidSkipped(agenda, target, input, planned);
      }
      AddedBringsNone(agenda, after, target, input, middle, planned.position, meetingId, topicId);
      hide AddTopic, WellFormed, Plans, Adds;
    }
  }

  lemma AddedBringsNone(agenda: Agenda, after: Agenda, target: Id, input: TopicInput, middle: Rows, position: int,
                        meetingId: Id, topicId: Id)
    requires Adds(agenda, after, target, input, middle, position)
    requires input.source.Manual? || (target, input.topicId) != (meetingId, topicId)
    ensures BringsNone(agenda, after, meetingId, topicId)
  {
    forall id | id in middle
      ensures id in agenda.rows
      ensures (middle[id].topicId, middle[id].meetingId, middle[id].source) ==
              (agenda.rows[id].topicId, agenda.rows[id].meetingId, agenda.rows[id].source)
    {
    }
    hide WithoutTaken, ReopensOnly;
  }

  /** No plan leads to a skipped meeting. */
  lemma PlansAvoidSkipped(agenda: Agenda, meetingId: Id, input: TopicInput, move: Move)
    requires Consistent(agenda) && input.topicId in agenda.topics && Plans(agenda, meetingId, input, move)
    ensures (input.topicId, meetingId) !in agenda.skips
  {
    ReopenedIsConsistent(agenda, input.topicId);
    RecurrenceService.PlanIsSafe(Reopened(agenda, input.topicId), input.topicId);
    hide PlanFor, Consistent, RecurrenceService.MayTouch;
  }

  lemma StepBringsNone(agenda: Agenda, step: Step, meetingId: Id, topicId: Id)
    requires WellFormed(agenda) && Admissible(agenda, step) && StaysOut(agenda, meetingId, topicId)
    requires step != Restoring(meetingId, topicId)
    ensures StaysOut(Next(agenda, step), meetingId, topicId)
  {
    if step.Changing? && AgendaRuns.Attempt(agenda, step.change).Done? {
      var after := AgendaRuns.Attempt(agenda, step.change).agenda;
      match step.change
      case Add(target, input) =>
        AddBringsNone(agenda, meetingId, topicId, target, input, after);
      case Remove(target, id) => RemovalExactly(agenda, target, id);
      case RemovePlanned(target, id) => PlannedRemovalExactly(agenda, target, id);
      case Order(target, items) => OrderBringsNone(agenda, meetingId, topicId, target, items, after);
      hide AddTopic, RemoveTopic, RemoveReconciled, Reorder, WellFormed;
    }
  }

  lemma OrderBringsNone(agenda: Agenda, meetingId: Id, topicId: Id, target: Id, items: seq<OrderItem>, after: Agenda)
    requires WellFormed(agenda) && Reorder(agenda, target, items) == Done(after)
    ensures BringsNone(agenda, after, meetingId, topicId)
  {
    ReorderedColumns(agenda.rows, items);
    hide WellFormed, Refusal, UniqueItems, ValidOrder, Reordered;
  }

  lemma {:induction false} ReorderedColumns(rows: Rows, items: seq<OrderItem>)
    ensures var after := Reordered(rows, items);
            && after.Keys == rows.Keys
            && forall id | id in rows ::
                 after[id] == rows[id].(sectionId := after[id].sectionId, position := after[id].position)
  {
    if items != [] {
      ReorderedColumns(rows, items[1..]);
    }
  }

  ghost predicate AdmissibleRun(agenda: Agenda, steps: seq<Step>)
    requires WellFormed(agenda)
    decreases |steps|
  {
    steps != [] ==>
      && Admissible(agenda, steps[0])
      && (StepKeepsWellFormed(agenda, steps[0]); AdmissibleRun(Next(agenda, steps[0]), steps[1..]))
  }

  ghost function After(agenda: Agenda, steps: seq<Step>): Agenda
    requires WellFormed(agenda) && AdmissibleRun(agenda, steps)
    decreases |steps|
  {
    if steps == [] then agenda
    else StepKeepsWellFormed(agenda, steps[0]); After(Next(agenda, steps[0]), steps[1..])
  }

  lemma {:induction false} RunStaysOut(agenda: Agenda, steps: seq<Step>, meetingId: Id, topicId: Id)
    requires WellFormed(agenda) && AdmissibleRun(agenda, steps) && StaysOut(agenda, meetingId, topicId)
    requires Restoring(meetingId, topicId) !in steps
    ensures StaysOut(After(agenda, steps), meetingId, topicId)
    decreases |steps|
  {
    if steps != [] {
      StepKeepsWellFormed(agenda, steps[0]);
      StepBringsNone(agenda, steps[0], meetingId, topicId);
      hide WellFormed, Next, StaysOut, Admissible;
      RunStaysOut(Next(agenda, steps[0]), steps[1..], meetingId, topicId);
    }
  }

  /** Whatever users and reconciling clients do, an automatic appearance that was removed by a user comes back to its
      meeting only after it was restored. */
  lemma RemovedStaysOut(agenda: Agenda, meetingId: Id, id: Id, after: Agenda, steps: seq<Step>)
    requires WellFormed(agenda) && RemoveTopic(agenda, meetingId, id) == Done(after)
    requires id in agenda.rows && agenda.rows[id].source.Recurrence?
    requires WellFormed(after) ==> AdmissibleRun(after, steps)
    requires Restoring(meetingId, agenda.rows[id].topicId) !in steps
    ensures WellFormed(after) && StaysOut(After(after, steps), meetingId, agenda.rows[id].topicId)
  {
    AgendaRuns.RemovedRow(agenda, meetingId, id, after);
    AgendaRuns.DeletionKeepsWellFormed(agenda, id, after);
    RemovalExactly(agenda, meetingId, id);
    RemovedIsOut(agenda, meetingId, id, after);
    hide WellFormed, RemoveTopic, StaysOut;
    RunStaysOut(after, steps, meetingId, agenda.rows[id].topicId);
  }

  lemma RemovedIsOut(agenda: Agenda, meetingId: Id, id: Id, after: Agenda)
    requires WellFormed(agenda) && id in agenda.rows && agenda.rows[id].meetingId == meetingId
    requires TakenOut(agenda.rows, after.rows, id) && (agenda.rows[id].topicId, meetingId) in after.skips
    ensures StaysOut(after, meetingId, agenda.rows[id].topicId)
  {
  }

  /** Restoring succeeds exactly for a skipped appearance of a meeting that accepts changes, and only forgets the skip.
      */
  lemma RestoringExactly(agenda: Agenda, meetingId: Id, topicId: Id)
    requires Consistent(agenda)
    ensures var outcome := RestoreRecurrence(agenda, meetingId, topicId);
            && (outcome.Done? <==> Accepts(agenda, meetingId) && (topicId, meetingId) in agenda.skips)
            && (outcome.Done? ==>
                  outcome.agenda == agenda.(skips := outcome.agenda.skips)
                  && forall skip :: skip in outcome.agenda.skips <==>
                     skip in agenda.skips && skip != (topicId, meetingId))
  {
    RefusalExactly(agenda, meetingId);
    hide Refusal, Accepts, Exists, Consistent;
  }
}
