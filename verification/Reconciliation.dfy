/** Executing a reconciliation plan step by step against a server that plans afresh before each step
    (frontend/src/api/domain.ts, reconcileRecurringTopic). */
module Reconciliation {
  import opened Options
  import opened CalendarDates
  import opened AgendaPositions
  import opened RecurrenceSchedule
  import opened RecurrencePlanner
  import opened MeetingAgenda

  // ---------- the order of the appearances ----------

  predicate Distinct(ids: seq<Id>) {
    forall i, j | 0 <= i < j < |ids| :: ids[i] != ids[j]
  }

  lemma RefsOfMembers(byDate: seq<Id>, appearances: map<Id, Id>)
    ensures forall ref :: ref in RefsOf(byDate, appearances) <==>
              ref.meetingId in byDate && ref.meetingId in appearances && ref.id == appearances[ref.meetingId]
  {
  }

  /** Dropping a meeting drops exactly its entry. */
  lemma {:induction false} RefsOfWithout(byDate: seq<Id>, appearances: map<Id, Id>, meetingId: Id)
    requires Distinct(byDate) && meetingId in byDate && meetingId in appearances
    ensures var refs := RefsOf(byDate, appearances);
            IndexOf(refs, meetingId) < |refs|
            && RefsOf(byDate, appearances - {meetingId}) == WithoutIndex(refs, IndexOf(refs, meetingId))
  {
    var refs := RefsOf(byDate, appearances);
    var rest := RefsOf(byDate[1..], appearances);
    if byDate[0] == meetingId {
      RefsOfAgree(byDate[1..], appearances, appearances - {meetingId});
      assert WithoutIndex(refs, 0) == rest;
    } else {
      RefsOfWithout(byDate[1..], appearances, meetingId);
      if byDate[0] in appearances {
        LaterIndex(refs[0], rest, meetingId);
      }
    }
  }

  lemma LaterIndex(first: Ref, rest: seq<Ref>, meetingId: Id)
    requires first.meetingId != meetingId && IndexOf(rest, meetingId) < |rest|
    ensures IndexOf([first] + rest, meetingId) == 1 + IndexOf(rest, meetingId)
    ensures WithoutIndex([first] + rest, 1 + IndexOf(rest, meetingId)) ==
            [first] + WithoutIndex(rest, IndexOf(rest, meetingId))
  {
    assert ([first] + rest)[1..] == rest;
  }

  lemma RefsOfAgree(byDate: seq<Id>, left: map<Id, Id>, right: map<Id, Id>)
    requires forall m | m in byDate :: (m in left <==> m in right) && (m in left ==> left[m] == right[m])
    ensures RefsOf(byDate, left) == RefsOf(byDate, right)
  {
    if byDate != [] {
      assert byDate[0] in byDate && forall m | m in byDate[1..] :: m in byDate;
      RefsOfAgree(byDate[1..], left, right);
    }
  }

  // ---------- the first move of a plan ----------

  /** The first target without a stable appearance receives the first move; once it is stable, the rest
      of the plan stays as it was. */
  lemma {:induction false} FirstMove(targets: seq<Target>, reusable: seq<Ref>, sectionId: Id) returns (first: nat)
    requires Assign(targets, reusable, sectionId).0 != []
    ensures first < |targets| && !targets[first].stable
    ensures var (moves, removals) := Assign(targets, reusable, sectionId);
            var source := if reusable == [] then None
                          else Some(reusable[PickIndex(reusable, targets[first].meetingId)]);
            var left := if reusable == [] then []
                        else WithoutIndex(reusable, PickIndex(reusable, targets[first].meetingId));
            && moves[0] == Move(targets[first].meetingId, sectionId, targets[first].position, source)
            && Assign(targets[first := targets[first].(stable := true)], left, sectionId) == (moves[1..], removals)
  {
    if targets[0].stable {
      var next := FirstMove(targets[1..], reusable, sectionId);
      first := next + 1;
      assert targets[first := targets[first].(stable := true)][1..] ==
             targets[1..][next := targets[1..][next].(stable := true)];
    } else {
      first := 0;
      assert targets[0 := targets[0].(stable := true)][1..] == targets[1..];
    }
  }

  function MoveInput(topicId: Id, move: Move, id: Id): TopicInput
    requires move.position >= 0
  {
    TopicInput(id, topicId, move.sectionId, Some(move.position), Recurrence,
               if move.source.Some? then Some(move.source.value.id) else None)
  }

  // ---------- what a step changes for the planner ----------

  /** Movable appearances left some meetings and arrived in others; the topic's other rows stay. */
  ghost predicate RowsRelocated(earlier: map<Id, Id>, now: map<Id, Id>, before: Rows, after: Rows, planned: set<Id>,
                                gone: set<Id>, arrived: map<Id, Id>)
    requires earlier.Values <= before.Keys && now.Values <= after.Keys
  {
    && now == earlier - gone + arrived
    && Movable(now, after, planned) == Movable(earlier, before, planned) - gone + arrived
    && gone <= Movable(earlier, before, planned).Keys
    && earlier.Keys * arrived.Keys <= gone
    && (forall m | m in earlier && m !in gone && m !in arrived :: after[now[m]] == before[earlier[m]])
  }

  ghost predicate Relocated(before: Agenda, after: Agenda, topicId: Id, gone: set<Id>, arrived: map<Id, Id>)
    requires UniqueAppearances(before.rows) && UniqueAppearances(after.rows)
  {
    AppearanceLookup(before.rows, topicId);
    AppearanceLookup(after.rows, topicId);
    && after == before.(rows := after.rows)
    && RowsRelocated(AppearancesOf(before.rows, topicId), AppearancesOf(after.rows, topicId),
                     before.rows, after.rows, PlannedSet(before.meetings), gone, arrived)
  }

  lemma RelocatedFixed(earlier: map<Id, Id>, now: map<Id, Id>, before: Rows, after: Rows, planned: set<Id>,
                       gone: set<Id>, arrived: map<Id, Id>, m: Id)
    requires earlier.Values <= before.Keys && now.Values <= after.Keys
    requires RowsRelocated(earlier, now, before, after, planned, gone, arrived)
    ensures m in now && m !in Movable(now, after, planned) <==> m in earlier && m !in Movable(earlier, before, planned)
    ensures m in now && m !in Movable(now, after, planned) ==> after[now[m]].source == before[earlier[m]].source
  {
    hide Movable;
  }

  lemma RelocatedSlots(before: Agenda, after: Agenda, topicId: Id, gone: set<Id>, arrived: map<Id, Id>)
    requires UniqueAppearances(before.rows) && UniqueAppearances(after.rows)
    requires Relocated(before, after, topicId, gone, arrived)
    ensures SlotsOf(after, topicId) == SlotsOf(before, topicId)
  {
    AppearanceLookup(before.rows, topicId);
    AppearanceLookup(after.rows, topicId);
    forall meeting: Meeting ensures SlotOf(after, topicId, meeting) == SlotOf(before, topicId, meeting) {
      hide Movable, AppearancesOf, RowsRelocated, PlannedSet, Lists;
      RelocatedFixed(AppearancesOf(before.rows, topicId), AppearancesOf(after.rows, topicId), before.rows, after.rows,
                     PlannedSet(before.meetings), gone, arrived, meeting.id);
    }
  }

  /** A target keeps its position and stability when its own appearance and the other rows of its
      section stay, and when its unstable appearance leaves. */
  lemma RelocatedTarget(before: Agenda, after: Agenda, topicId: Id, sectionId: Id, gone: set<Id>,
                        arrived: map<Id, Id>, meetingId: Id)
    requires UniqueAppearances(before.rows) && UniqueAppearances(after.rows) && topicId in before.topics
    requires Relocated(before, after, topicId, gone, arrived) && meetingId !in arrived
    requires meetingId in gone ==> !TargetOf(before, topicId, sectionId, meetingId).stable
    requires OtherRows(before.rows, meetingId, sectionId, MovableOf(before, topicId)) ==
             OtherRows(after.rows, meetingId, sectionId, MovableOf(after, topicId))
    ensures TargetOf(after, topicId, sectionId, meetingId) == TargetOf(before, topicId, sectionId, meetingId)
  {
  }

  /** The target in whose section the appearance arrived at the planned position is stable. */
  lemma ArrivedTarget(before: Agenda, after: Agenda, topicId: Id, sectionId: Id, gone: set<Id>,
                      arrived: map<Id, Id>, meetingId: Id)
    requires UniqueAppearances(before.rows) && UniqueAppearances(after.rows) && topicId in before.topics
    requires Relocated(before, after, topicId, gone, arrived)
    requires meetingId in arrived && arrived[meetingId] in after.rows
    requires OtherRows(before.rows, meetingId, sectionId, MovableOf(before, topicId)) ==
             OtherRows(after.rows, meetingId, sectionId, MovableOf(after, topicId))
    requires after.rows[arrived[meetingId]].sectionId == sectionId
    requires after.rows[arrived[meetingId]].position == TargetOf(before, topicId, sectionId, meetingId).position
    ensures TargetOf(after, topicId, sectionId, meetingId) ==
            TargetOf(before, topicId, sectionId, meetingId).(stable := true)
  {
    assert MovableOf(after, topicId)[meetingId] == arrived[meetingId];
  }

  lemma RelocatedMovable(earlier: map<Id, Id>, now: map<Id, Id>, before: Rows, after: Rows, planned: set<Id>,
                         gone: set<Id>, arrived: map<Id, Id>)
    requires earlier.Values <= before.Keys && now.Values <= after.Keys && now == earlier - gone + arrived
    requires forall m | m in earlier && m !in gone && m !in arrived ::
               after[now[m]] == before[now[m]].(position := after[now[m]].position)
    requires forall m | m in arrived ::
               m in planned && after[now[m]].source.Recurrence? && !after[now[m]].contentEdited
    ensures Movable(now, after, planned) == Movable(earlier, before, planned) - gone + arrived
  {
  }

  lemma DeletedLookup(earlier: map<Id, Id>, now: map<Id, Id>, rows: Rows, after: Rows, id: Id)
    requires id in rows && Lists(earlier, rows, rows[id].topicId) && Lists(now, after, rows[id].topicId)
    requires after.Keys == rows.Keys - {id}
    requires forall other | other in after :: after[other] == rows[other].(position := after[other].position)
    ensures now == earlier - {rows[id].meetingId} + map[]
  {
    forall m | m in earlier && m != rows[id].meetingId ensures m in now && now[m] == earlier[m] {
      assert earlier[m] in after;
    }
    forall m | m in now ensures m in earlier && m != rows[id].meetingId {
      assert now[m] in rows && now[m] != id;
    }
  }

  lemma DeletedRelocates(earlier: map<Id, Id>, now: map<Id, Id>, rows: Rows, after: Rows, planned: set<Id>, id: Id)
    requires id in rows && Lists(earlier, rows, rows[id].topicId) && Lists(now, after, rows[id].topicId)
    requires rows[id].meetingId in Movable(earlier, rows, planned) && after == Deleted(rows, id)
    ensures RowsRelocated(earlier, now, rows, after, planned, {rows[id].meetingId}, map[])
  {
    DeletedRows(rows, id, after);
    DeletedLookup(earlier, now, rows, after, id);
    RelocatedMovable(earlier, now, rows, after, planned, {rows[id].meetingId}, map[]);
  }

  /** Deleting a row leaves the tables well formed. */
  lemma DeletionIsWellFormed(before: Agenda, after: Agenda, id: Id)
    requires WellFormed(before) && id in before.rows && after == before.(rows := Deleted(before.rows, id))
    ensures WellFormed(after)
  {
    DeletedAppearances(before.rows, id, after.rows);
    NewRows(before, after);
  }

  /** Deleting a movable appearance only takes that appearance away from the planner. */
  lemma DeletionRelocates(before: Agenda, after: Agenda, topicId: Id, ref: Ref)
    requires UniqueAppearances(before.rows) && UniqueAppearances(after.rows)
    requires ref.meetingId in MovableOf(before, topicId) && ref.id == MovableOf(before, topicId)[ref.meetingId]
    requires after == before.(rows := Deleted(before.rows, ref.id))
    ensures Relocated(before, after, topicId, {ref.meetingId}, map[])
  {
    AppearanceLookup(before.rows, topicId);
    AppearanceLookup(after.rows, topicId);
    DeletedRelocates(AppearancesOf(before.rows, topicId), AppearancesOf(after.rows, topicId),
                     before.rows, after.rows, PlannedSet(before.meetings), ref.id);
  }

  lemma DeletionKeepsOthers(rows: Rows, ref: Ref, after: Rows, meetingId: Id, sectionId: Id, own: map<Id, Id>)
    requires ref.id in rows && rows[ref.id].meetingId == ref.meetingId && after == Deleted(rows, ref.id)
    requires ref.meetingId in own && own[ref.meetingId] == ref.id
    ensures OtherRows(after, meetingId, sectionId, own - {ref.meetingId}) == OtherRows(rows, meetingId, sectionId, own)
  {
    DeletedRows(rows, ref.id, after);
  }

  /** Moving an appearance, or creating one, takes the source away and adds the new row. */
  lemma PlacedLookup(earlier: map<Id, Id>, now: map<Id, Id>, rows: Rows, after: Rows,
                     source: Option<Id>, id: Id, appearance: Appearance, gone: set<Id>)
    requires id !in rows && Placed(rows, after, source, id, appearance)
    requires Lists(earlier, rows, appearance.topicId) && Lists(now, after, appearance.topicId)
    requires source.Some? ==> source.value in rows && rows[source.value].topicId == appearance.topicId
    requires gone == if source.Some? then {rows[source.value].meetingId} else {}
    requires appearance.meetingId in earlier ==> appearance.meetingId in gone
    ensures now == earlier - gone + map[appearance.meetingId := id]
  {
    forall m | m in earlier && m !in gone ensures m in now && now[m] == earlier[m] {
      assert earlier[m] in after;
    }
    forall m | m in now ensures m == appearance.meetingId || (m in earlier && m !in gone) {
      assert now[m] == id || now[m] in rows;
    }
    assert id in after;
  }

  lemma PlacedRelocates(earlier: map<Id, Id>, now: map<Id, Id>, rows: Rows, after: Rows, planned: set<Id>,
                        source: Option<Id>, id: Id, appearance: Appearance, gone: set<Id>)
    requires id !in rows && Placed(rows, after, source, id, appearance)
    requires Lists(earlier, rows, appearance.topicId) && Lists(now, after, appearance.topicId)
    requires source.Some? ==> source.value in rows && rows[source.value].topicId == appearance.topicId
                              && rows[source.value].meetingId in Movable(earlier, rows, planned)
    requires gone == if source.Some? then {rows[source.value].meetingId} else {}
    requires appearance.meetingId in earlier ==> appearance.meetingId in gone
    requires appearance.meetingId in planned && appearance.source.Recurrence? && !appearance.contentEdited
    ensures RowsRelocated(earlier, now, rows, after, planned, gone, map[appearance.meetingId := id])
  {
    PlacedLookup(earlier, now, rows, after, source, id, appearance, gone);
    forall m | m in earlier && m !in gone && m != appearance.meetingId
      ensures now[m] == earlier[m] && after[now[m]] == rows[earlier[m]]
    {
      assert earlier[m] in rows && rows[earlier[m]].meetingId == m;
      assert source.Some? ==> earlier[m] != source.value;
    }
    RelocatedMovable(earlier, now, rows, after, planned, gone, map[appearance.meetingId := id]);
  }

  /** The rows around the topic's own appearance stay the same in every section. */
  lemma PlacedKeepsOthers(rows: Rows, after: Rows, source: Option<Id>, id: Id, appearance: Appearance,
                          own: map<Id, Id>, gone: set<Id>, meetingId: Id, sectionId: Id)
    requires id !in rows && Placed(rows, after, source, id, appearance)
    requires source.Some? ==> source.value in rows && rows[source.value].meetingId in own
                              && own[rows[source.value].meetingId] == source.value
    requires gone == if source.Some? then {rows[source.value].meetingId} else {}
    requires appearance.meetingId in own ==> appearance.meetingId in gone
    requires forall m | m in own :: own[m] in rows && rows[own[m]].meetingId == m
    ensures OtherRows(after, meetingId, sectionId, own - gone + map[appearance.meetingId := id]) ==
            OtherRows(rows, meetingId, sectionId, own)
  {
    var now := own - gone + map[appearance.meetingId := id];
    var moved := if source.Some? then {source.value} else {};
    assert SectionIds(after, meetingId, sectionId) ==
           SectionIds(rows, meetingId, sectionId) - moved
           + (if appearance.meetingId == meetingId && appearance.sectionId == sectionId then {id} else {});
  }

  // ---------- the situation in which a plan is made ----------

  /** An open topic with meetings to appear in: its section, chosen slots and targets. */
  ghost predicate Planning(agenda: Agenda, topicId: Id, sectionId: Id, desired: seq<Slot>, targets: seq<Target>)
    requires WellFormed(agenda)
  {
    && agenda.meetings != [] && topicId in agenda.topics
    && var topic := agenda.topics[topicId];
       && topic.recurring && topic.status.Open?
       && Greedy(SlotsOf(agenda, topicId), topic.firstDueDate, topic.interval) == Schedule(desired) && desired != []
       && topic.defaultSection == Some(sectionId) && sectionId in agenda.sections
       && targets == TargetsOf(agenda, topicId, sectionId, desired)
  }

  lemma PlanOfPlanning(agenda: Agenda, topicId: Id, sectionId: Id, desired: seq<Slot>, targets: seq<Target>)
    requires WellFormed(agenda) && Planning(agenda, topicId, sectionId, desired, targets)
    ensures var reusable := RefsOf(agenda.byDate, MovableOf(agenda, topicId) - StableIds(targets));
            PlanFor(agenda, topicId) ==
            Plan(Assign(targets, reusable, sectionId).0, Assign(targets, reusable, sectionId).1)
  {
  }

  /** A plan with moves is made in that situation. */
  lemma PlanningOfMoves(agenda: Agenda, topicId: Id) returns (sectionId: Id, desired: seq<Slot>, targets: seq<Target>)
    requires WellFormed(agenda) && PlanFor(agenda, topicId).Plan? && PlanFor(agenda, topicId).moves != []
    ensures Planning(agenda, topicId, sectionId, desired, targets)
  {
    var topic := agenda.topics[topicId];
    desired := Greedy(SlotsOf(agenda, topicId), topic.firstDueDate, topic.interval).slots;
    sectionId := topic.defaultSection.value;
    targets := TargetsOf(agenda, topicId, sectionId, desired);
  }

  /** Chosen meetings are planned, distinct, and hold no appearance but a movable one. */
  lemma DesiredMeetings(agenda: Agenda, topicId: Id, sectionId: Id, desired: seq<Slot>, targets: seq<Target>)
    requires WellFormed(agenda) && Planning(agenda, topicId, sectionId, desired, targets)
    ensures forall i, j | 0 <= i < j < |targets| :: targets[i].meetingId != targets[j].meetingId
    ensures forall i | 0 <= i < |targets| ::
              && targets[i].meetingId in PlannedSet(agenda.meetings)
              && (targets[i].meetingId in AppearancesOf(agenda.rows, topicId) ==>
                    targets[i].meetingId in MovableOf(agenda, topicId))
  {
    var topic := agenda.topics[topicId];
    var slots := SlotsOf(agenda, topicId);
    SlotsAreOrdered(agenda, topicId);
    GreedySelects(slots, topic.firstDueDate, topic.interval);
    forall i | 0 <= i < |targets|
      ensures targets[i].meetingId in PlannedSet(agenda.meetings)
      ensures targets[i].meetingId in AppearancesOf(agenda.rows, topicId) ==>
                targets[i].meetingId in MovableOf(agenda, topicId)
    {
      var k :| 0 <= k < |slots| && slots[k] == desired[i];
      assert slots[k] == SlotOf(agenda, topicId, agenda.meetings[k]);
      assert Eligible(slots[k]);
    }
  }

  lemma MovableLookup(agenda: Agenda, topicId: Id)
    requires UniqueAppearances(agenda.rows)
    ensures forall m | m in MovableOf(agenda, topicId) ::
              && m in PlannedSet(agenda.meetings) && MovableOf(agenda, topicId)[m] in agenda.rows
              && var row := agenda.rows[MovableOf(agenda, topicId)[m]];
                 row.meetingId == m && row.topicId == topicId && row.source.Recurrence? && !row.contentEdited
  {
    AppearanceLookup(agenda.rows, topicId);
  }

  lemma PlannedIsMutable(agenda: Agenda, meetingId: Id)
    requires WellFormed(agenda) && meetingId in PlannedSet(agenda.meetings)
    ensures meetingId in MeetingSet(agenda.meetings) && Refusal(agenda, meetingId) == None
  {
    var i :| 0 <= i < |agenda.meetings| && agenda.meetings[i].status.Planned? && agenda.meetings[i].id == meetingId;
    assert agenda.meetings[i].id in MeetingSet(agenda.meetings);
  }

  // ---------- one move ----------

  /** The source the planner picks for the first unstable target is the target's own appearance if it has one. */
  lemma PickedSource(byDate: seq<Id>, available: map<Id, Id>, meetingId: Id)
    requires Distinct(byDate) && (meetingId in available ==> meetingId in byDate)
    ensures var refs := RefsOf(byDate, available);
            && (refs == [] ==> meetingId !in available)
            && (refs != [] ==>
                  var ref := refs[PickIndex(refs, meetingId)];
                  && ref.meetingId in available && ref.id == available[ref.meetingId] && ref.meetingId in byDate
                  && (meetingId in available ==> ref.meetingId == meetingId)
                  && RefsOf(byDate, available - {ref.meetingId}) == WithoutIndex(refs, PickIndex(refs, meetingId)))
  {
    var refs := RefsOf(byDate, available);
    RefsOfMembers(byDate, available);
    if meetingId in available {
      assert Ref(available[meetingId], meetingId) in refs;
      RefsOfWithout(byDate, available, meetingId);
    } else if refs != [] {
      assert forall k | 0 <= k < |refs| :: refs[k] in refs;
      RefsOfWithout(byDate, available, refs[0].meetingId);
    }
  }

  /** Everything needed of the first move of a plan. */
  ghost predicate IsFirstMove(agenda: Agenda, topicId: Id, sectionId: Id, targets: seq<Target>, first: nat, move: Move)
    requires WellFormed(agenda) && first < |targets|
  {
    var own := MovableOf(agenda, topicId);
    && !targets[first].stable
    && move.meetingId == targets[first].meetingId && move.position == targets[first].position
    && move.sectionId == sectionId
    && (move.source.None? ==> move.meetingId !in own)
    && (move.source.Some? ==>
          var source := move.source.value;
          && source.meetingId in own && own[source.meetingId] == source.id
          && source.meetingId !in StableIds(targets)
          && (move.meetingId in own ==> source.meetingId == move.meetingId))
  }

  /** The server accepts the first move of its own plan. */
  lemma MoveIsAccepted(agenda: Agenda, topicId: Id, move: Move, id: Id)
    requires Consistent(agenda) && topicId in agenda.topics && agenda.topics[topicId].status.Open?
    requires PlanFor(agenda, topicId).Plan? && PlanFor(agenda, topicId).moves != []
    requires move == PlanFor(agenda, topicId).moves[0] && move.position > 0
    requires AddRefusal(agenda, move.meetingId, MoveInput(topicId, move, id), AppearancesOf(agenda.rows, topicId)) ==
        None
    ensures AddTopic(agenda, move.meetingId, MoveInput(topicId, move, id)) ==
            Place(agenda, move.meetingId, MoveInput(topicId, move, id), move.position)
  {
    hide BuildPlan, PlanFor, MovableOf, AppearancesOf, AddRefusal, Place;
    assert Reopened(agenda, topicId) == agenda;
    assert FindMove(PlanFor(agenda, topicId).moves, move.meetingId, MoveInput(topicId, move, id)) == Some(move);
  }

  lemma MovePassesChecks(agenda: Agenda, topicId: Id, move: Move, id: Id)
    requires WellFormed(agenda) && topicId in agenda.topics && move.sectionId in agenda.sections && move.position >= 0
    requires move.meetingId in PlannedSet(agenda.meetings)
    requires move.meetingId in AppearancesOf(agenda.rows, topicId) ==> move.meetingId in MovableOf(agenda, topicId)
    requires move.source.None? ==> move.meetingId !in MovableOf(agenda, topicId)
    requires move.source.Some? ==>
               var source := move.source.value;
               && source.meetingId in MovableOf(agenda, topicId)
               && MovableOf(agenda, topicId)[source.meetingId] == source.id
               && (move.meetingId in MovableOf(agenda, topicId) ==> source.meetingId == move.meetingId)
    ensures AddRefusal(agenda, move.meetingId, MoveInput(topicId, move, id), AppearancesOf(agenda.rows, topicId)) ==
        None
  {
    PlannedIsMutable(agenda, move.meetingId);
    AppearanceLookup(agenda.rows, topicId);
    if move.source.Some? {
      PlannedIsMutable(agenda, move.source.value.meetingId);
    }
  }

  /** The first move leaves the chosen meetings alone and turns its target stable. */
  lemma TargetsAfterMove(before: Agenda, after: Agenda, topicId: Id, sectionId: Id, desired: seq<Slot>,
                         targets: seq<Target>, first: nat, gone: set<Id>, id: Id)
    requires UniqueAppearances(before.rows) && UniqueAppearances(after.rows) && topicId in before.topics
    requires after.topics == before.topics && first < |desired|
        && targets == TargetsOf(before, topicId, sectionId, desired) && !targets[first].stable
    requires forall i, j | 0 <= i < j < |targets| :: targets[i].meetingId != targets[j].meetingId
    requires gone !! StableIds(targets) && id in after.rows
    requires Relocated(before, after, topicId, gone, map[targets[first].meetingId := id])
    requires forall m :: OtherRows(before.rows, m, sectionId, MovableOf(before, topicId)) ==
                         OtherRows(after.rows, m, sectionId, MovableOf(after, topicId))
    requires after.rows[id].sectionId == sectionId && after.rows[id].position == targets[first].position
    ensures TargetsOf(after, topicId, sectionId, desired) == targets[first := targets[first].(stable := true)]
  {
    hide MovableOf, AppearancesOf, OtherRows, Relocated;
    var now := TargetsOf(after, topicId, sectionId, desired);
    var arrived := map[targets[first].meetingId := id];
    forall i | 0 <= i < |targets|
      ensures now[i] == if i == first then targets[i].(stable := true) else targets[i]
    {
      if i != first {
        assert targets[i].stable ==> targets[i].meetingId in StableIds(targets);
        RelocatedTarget(before, after, topicId, sectionId, gone, arrived, targets[i].meetingId);
      } else {
        ArrivedTarget(before, after, topicId, sectionId, gone, arrived, targets[i].meetingId);
      }
    }
  }

  lemma StableAfterMove(targets: seq<Target>, first: nat)
    requires first < |targets|
    ensures StableIds(targets[first := targets[first].(stable := true)]) ==
        StableIds(targets) + {targets[first].meetingId}
  {
    var now := targets[first := targets[first].(stable := true)];
    assert now[first].stable;
    forall i | 0 <= i < |targets| && targets[i].stable ensures targets[i].meetingId in StableIds(now) {
      assert now[i].stable;
    }
  }

  /** The appearances left for later targets once the first move is done. */
  lemma AvailableAfterMove(byDate: seq<Id>, movable: map<Id, Id>, stable: set<Id>, gone: set<Id>, arrived: Id, id: Id)
    requires arrived in movable ==> arrived in stable || arrived in gone
    ensures RefsOf(byDate, movable - gone + map[arrived := id] - (stable + {arrived})) ==
            RefsOf(byDate, movable - stable - gone)
  {
    assert movable - gone + map[arrived := id] - (stable + {arrived}) == movable - stable - gone;
  }

  /** The agenda after the first move. */
  ghost predicate MoveDone(before: Agenda, after: Agenda, topicId: Id, move: Move, id: Id)
    requires UniqueAppearances(before.rows) && UniqueAppearances(after.rows)
  {
    var gone := if move.source.Some? then {move.source.value.meetingId} else {};
    && id in after.rows && after.rows[id].sectionId == move.sectionId && after.rows[id].position == move.position
    && Relocated(before, after, topicId, gone, map[move.meetingId := id])
    && forall m :: OtherRows(before.rows, m, move.sectionId, MovableOf(before, topicId)) ==
                   OtherRows(after.rows, m, move.sectionId, MovableOf(after, topicId))
  }

  /** What the first move turns the agenda into. */
  lemma MoveTakesEffect(before: Agenda, topicId: Id, sectionId: Id, targets: seq<Target>, first: nat, move: Move,
                        id: Id, after: Agenda)
    requires WellFormed(before) && first < |targets| && IsFirstMove(before, topicId, sectionId, targets, first, move)
    requires move.position > 0 && id !in before.rows
    requires move.meetingId in PlannedSet(before.meetings)
    requires move.meetingId in AppearancesOf(before.rows, topicId) ==> move.meetingId in MovableOf(before, topicId)
    requires Place(before, move.meetingId, MoveInput(topicId, move, id), move.position) == Done(after)
    ensures WellFormed(after) && MoveDone(before, after, topicId, move, id)
    ensures after.rows.Keys <= before.rows.Keys + {id}
  {
    var input := MoveInput(topicId, move, id);
    PlannedIsMutable(before, move.meetingId);
    AppearanceLookup(before.rows, topicId);
    PlaceKeepsWellFormed(before, move.meetingId, input, move.position, after);
    AppearanceLookup(after.rows, topicId);
    PlacedIsRelocated(before, after, topicId, move, id);
  }

  lemma PlacedIsRelocated(before: Agenda, after: Agenda, topicId: Id, move: Move, id: Id)
    requires UniqueAppearances(before.rows) && UniqueAppearances(after.rows) && after == before.(rows := after.rows)
    requires id !in before.rows && move.meetingId in PlannedSet(before.meetings)
    requires move.meetingId in AppearancesOf(before.rows, topicId) ==> move.meetingId in MovableOf(before, topicId)
    requires move.source.None? ==> move.meetingId !in MovableOf(before, topicId)
    requires move.source.Some? ==>
               var source := move.source.value;
               && source.meetingId in MovableOf(before, topicId)
               && MovableOf(before, topicId)[source.meetingId] == source.id
               && (move.meetingId in MovableOf(before, topicId) ==> source.meetingId == move.meetingId)
    requires var source := if move.source.Some? then Some(move.source.value.id) else None;
             Placed(before.rows, after.rows, source, id,
                    Appearance(move.meetingId, topicId, move.sectionId, move.position, Recurrence, false))
    ensures MoveDone(before, after, topicId, move, id)
  {
    var source := if move.source.Some? then Some(move.source.value.id) else None;
    var gone := if move.source.Some? then {move.source.value.meetingId} else {};
    var appearance := Appearance(move.meetingId, topicId, move.sectionId, move.position, Recurrence, false);
    AppearanceLookup(before.rows, topicId);
    AppearanceLookup(after.rows, topicId);
    PlacedRelocates(AppearancesOf(before.rows, topicId), AppearancesOf(after.rows, topicId), before.rows, after.rows,
                    PlannedSet(before.meetings), source, id, appearance, gone);
    forall m
      ensures OtherRows(before.rows, m, move.sectionId, MovableOf(before, topicId)) ==
              OtherRows(after.rows, m, move.sectionId, MovableOf(after, topicId))
    {
      PlacedKeepsOthers(before.rows, after.rows, source, id, appearance, MovableOf(before, topicId), gone, m,
                        move.sectionId);
    }
  }

  /** The planned position lies within the section once the source is gone. */
  lemma PositionFits(agenda: Agenda, topicId: Id, sectionId: Id, targets: seq<Target>, first: nat, move: Move, id: Id)
    requires WellFormed(agenda) && topicId in agenda.topics && first < |targets|
    requires targets[first] == TargetOf(agenda, topicId, sectionId, move.meetingId)
    requires IsFirstMove(agenda, topicId, sectionId, targets, first, move)
    ensures move.position > 0
    ensures Place(agenda, move.meetingId, MoveInput(topicId, move, id), move.position).Done?
  {
    hide AppearancesOf, MovableOf, Deleted, Inserted, StableIds;
    var own := MovableOf(agenda, topicId);
    var source := if move.source.Some? then Some(move.source.value.id) else None;
    var rows := WithoutSource(agenda.rows, source);
    MovableLookup(agenda, topicId);
    SectionWithoutSource(agenda.rows, own, move, rows);
    assert move.position <= |OtherRows(agenda.rows, move.meetingId, sectionId, own)| + 1;
    assert DenseSection(rows, move.meetingId, sectionId);
  }

  lemma SectionWithoutSource(rows: Rows, own: map<Id, Id>, move: Move, after: Rows)
    requires UniqueAppearances(rows) && Dense(rows)
    requires forall m | m in own :: own[m] in rows && rows[own[m]].meetingId == m
    requires move.source.None? ==> move.meetingId !in own
    requires move.source.Some? ==>
               && move.source.value.meetingId in own && own[move.source.value.meetingId] == move.source.value.id
               && (move.meetingId in own ==> move.source.value.meetingId == move.meetingId)
    requires after == WithoutSource(rows, if move.source.Some? then Some(move.source.value.id) else None)
    ensures Dense(after)
    ensures SectionIds(after, move.meetingId, move.sectionId) == OtherRows(rows, move.meetingId, move.sectionId, own)
  {
    hide Deleted;
    if move.source.Some? {
      DeletedAppearances(rows, move.source.value.id, after);
      DeletedRows(rows, move.source.value.id, after);
    }
  }

  /** Executing the first move: the server accepts it, and its next plan is the rest of the old one. */
  lemma MoveStep(agenda: Agenda, topicId: Id, id: Id) returns (after: Agenda)
    requires WellFormed(agenda) && PlanFor(agenda, topicId).Plan? && PlanFor(agenda, topicId).moves != []
    requires id !in agenda.rows
    ensures var plan := PlanFor(agenda, topicId);
            && plan.moves[0].position > 0
            && AddTopic(agenda, plan.moves[0].meetingId, MoveInput(topicId, plan.moves[0], id)) == Done(after)
            && WellFormed(after)
            && PlanFor(after, topicId) == Plan(plan.moves[1..], plan.removals)
    ensures after.rows.Keys <= agenda.rows.Keys + {id}
  {
    hide PlanFor, AddTopic, Place, Assign, RefsOf, MovableOf, StableIds, MoveDone, TargetsOf, AddRefusal;
    var plan := PlanFor(agenda, topicId);
    var move := plan.moves[0];
    var sectionId, desired, targets := PlanningOfMoves(agenda, topicId);
    var movable, stable := MovableOf(agenda, topicId), StableIds(targets);
    var reusable := RefsOf(agenda.byDate, movable - stable);
    PlanOfPlanning(agenda, topicId, sectionId, desired, targets);
    DesiredMeetings(agenda, topicId, sectionId, desired, targets);
    var first := FirstMove(targets, reusable, sectionId);
    FirstMoveSource(agenda, topicId, sectionId, desired, targets, first, move);
    PositionFits(agenda, topicId, sectionId, targets, first, move, id);
    MovePassesChecks(agenda, topicId, move, id);
    MoveIsAccepted(agenda, topicId, move, id);
    after := Place(agenda, move.meetingId, MoveInput(topicId, move, id), move.position).agenda;
    MoveTakesEffect(agenda, topicId, sectionId, targets, first, move, id, after);
    PlanAfterMove(agenda, after, topicId, sectionId, desired, targets, first, move, id);
  }

  lemma FirstMoveSource(agenda: Agenda, topicId: Id, sectionId: Id, desired: seq<Slot>, targets: seq<Target>,
                        first: nat, move: Move)
    requires WellFormed(agenda) && Planning(agenda, topicId, sectionId, desired, targets)
    requires first < |targets| && !targets[first].stable
    requires var reusable := RefsOf(agenda.byDate, MovableOf(agenda, topicId) - StableIds(targets));
             move == Move(targets[first].meetingId, sectionId, targets[first].position,
                          if reusable == [] then None
                          else Some(reusable[PickIndex(reusable, targets[first].meetingId)]))
    ensures IsFirstMove(agenda, topicId, sectionId, targets, first, move)
    ensures move.meetingId in PlannedSet(agenda.meetings)
    ensures move.meetingId in AppearancesOf(agenda.rows, topicId) ==> move.meetingId in MovableOf(agenda, topicId)
    ensures targets[first] == TargetOf(agenda, topicId, sectionId, move.meetingId)
    ensures var available := MovableOf(agenda, topicId) - StableIds(targets);
            var reusable := RefsOf(agenda.byDate, available);
            RefsOf(agenda.byDate, available - (if move.source.Some? then {move.source.value.meetingId} else {})) ==
            if reusable == [] then [] else WithoutIndex(reusable, PickIndex(reusable, targets[first].meetingId))
  {
    hide MovableOf, AppearancesOf, RefsOf, PickIndex;
    DesiredMeetings(agenda, topicId, sectionId, desired, targets);
    PlannedIsMutable(agenda, move.meetingId);
    assert move.meetingId !in StableIds(targets);
    PickedSource(agenda.byDate, MovableOf(agenda, topicId) - StableIds(targets), move.meetingId);
    assert MovableOf(agenda, topicId) - StableIds(targets) - {} == MovableOf(agenda, topicId) - StableIds(targets);
  }

  lemma PlanAfterMove(agenda: Agenda, after: Agenda, topicId: Id, sectionId: Id, desired: seq<Slot>,
                      targets: seq<Target>, first: nat, move: Move, id: Id)
    requires WellFormed(agenda) && WellFormed(after) && Planning(agenda, topicId, sectionId, desired, targets)
    requires first < |targets| && IsFirstMove(agenda, topicId, sectionId, targets, first, move)
    requires MoveDone(agenda, after, topicId, move, id)
    ensures var gone := if move.source.Some? then {move.source.value.meetingId} else {};
            var left := RefsOf(agenda.byDate, MovableOf(agenda, topicId) - StableIds(targets) - gone);
            var now := targets[first := targets[first].(stable := true)];
            PlanFor(after, topicId) == Plan(Assign(now, left, sectionId).0, Assign(now, left, sectionId).1)
  {
    var gone := if move.source.Some? then {move.source.value.meetingId} else {};
    var now := targets[first := targets[first].(stable := true)];
    RelocatedSlots(agenda, after, topicId, gone, map[move.meetingId := id]);
    DesiredMeetings(agenda, topicId, sectionId, desired, targets);
    TargetsAfterMove(agenda, after, topicId, sectionId, desired, targets, first, gone, id);
    PlanOfPlanning(after, topicId, sectionId, desired, now);
    StableAfterMove(targets, first);
    AvailableAfterMove(agenda.byDate, MovableOf(agenda, topicId), StableIds(targets), gone, move.meetingId, id);
  }

  // ---------- one removal ----------

  /** Without moves every target is stable and everything else is removed. */
  lemma {:induction false} AssignWithoutMoves(targets: seq<Target>, reusable: seq<Ref>, sectionId: Id)
    ensures Assign(targets, reusable, sectionId).0 == [] <==> forall i | 0 <= i < |targets| :: targets[i].stable
    ensures Assign(targets, reusable, sectionId).0 == [] ==> Assign(targets, reusable, sectionId).1 == reusable
  {
    if targets != [] && targets[0].stable {
      AssignWithoutMoves(targets[1..], reusable, sectionId);
      assert forall i | 1 <= i < |targets| :: targets[i] == targets[1..][i - 1];
    }
  }

  /** The topic is closed or has no meeting to appear in: every movable appearance is removed. */
  ghost predicate ClearsTopic(agenda: Agenda, topicId: Id)
    requires Consistent(agenda)
  {
    && topicId in agenda.topics && agenda.topics[topicId].recurring
    && var topic := agenda.topics[topicId];
       !topic.status.Open? || Greedy(SlotsOf(agenda, topicId), topic.firstDueDate, topic.interval) == Schedule([])
  }

  lemma PlanThatClears(agenda: Agenda, topicId: Id)
    requires Consistent(agenda) && ClearsTopic(agenda, topicId)
    requires agenda.meetings != [] || PlanFor(agenda, topicId).removals != []
    ensures agenda.meetings != []
    ensures PlanFor(agenda, topicId) == Plan([], RefsOf(agenda.byDate, MovableOf(agenda, topicId)))
  {
  }

  lemma PlanningOfRemovals(agenda: Agenda, topicId: Id) returns (sectionId: Id, desired: seq<Slot>,
                           targets: seq<Target>)
    requires WellFormed(agenda) && PlanFor(agenda, topicId).Plan? && PlanFor(agenda, topicId).removals != []
    requires !ClearsTopic(agenda, topicId)
    ensures Planning(agenda, topicId, sectionId, desired, targets)
  {
    var topic := agenda.topics[topicId];
    desired := Greedy(SlotsOf(agenda, topicId), topic.firstDueDate, topic.interval).slots;
    sectionId := topic.defaultSection.value;
    targets := TargetsOf(agenda, topicId, sectionId, desired);
  }

  /** The first entry of the removals is a movable appearance outside the kept meetings, and deleting it
      leaves the other entries. */
  lemma FirstRemoval(byDate: seq<Id>, movable: map<Id, Id>, kept: set<Id>, removals: seq<Ref>)
    requires Distinct(byDate) && removals == RefsOf(byDate, movable - kept) && removals != []
    ensures var ref := removals[0];
            && ref.meetingId in movable && ref.meetingId !in kept && ref.id == movable[ref.meetingId]
            && RefsOf(byDate, movable - {ref.meetingId} + map[] - kept) == removals[1..]
  {
    RefsOfMembers(byDate, movable - kept);
    var ref := removals[0];
    assert ref in removals;
    RefsOfWithout(byDate, movable - kept, ref.meetingId);
    assert movable - kept - {ref.meetingId} == movable - {ref.meetingId} + map[] - kept;
    assert WithoutIndex(removals, 0) == removals[1..];
  }

  lemma RemovalAccepted(agenda: Agenda, topicId: Id, ref: Ref)
    requires Consistent(agenda) && PlanFor(agenda, topicId).Plan? && ref in PlanFor(agenda, topicId).removals
    requires ref.meetingId in MovableOf(agenda, topicId) && MovableOf(agenda, topicId)[ref.meetingId] == ref.id
    requires Refusal(agenda, ref.meetingId) == None
    ensures ref.id in agenda.rows
    ensures RemoveReconciled(agenda, ref.meetingId, ref.id) == Done(agenda.(rows := Deleted(agenda.rows, ref.id)))
  {
    MovableLookup(agenda, topicId);
    hide MovableOf, BuildPlan, Deleted, Consistent;
  }

  lemma PlanAfterRemoval(agenda: Agenda, after: Agenda, topicId: Id, ref: Ref,
                         sectionId: Id, desired: seq<Slot>, targets: seq<Target>)
    requires WellFormed(agenda) && WellFormed(after) && Planning(agenda, topicId, sectionId, desired, targets)
    requires PlanFor(agenda, topicId).moves == []
    requires ref.meetingId in MovableOf(agenda, topicId) && MovableOf(agenda, topicId)[ref.meetingId] == ref.id
    requires ref.meetingId !in StableIds(targets) && after == agenda.(rows := Deleted(agenda.rows, ref.id))
    ensures PlanFor(after, topicId) ==
            Plan([], RefsOf(agenda.byDate, MovableOf(agenda, topicId) - {ref.meetingId} + map[] - StableIds(targets)))
  {
    var movable := MovableOf(agenda, topicId);
    PlanOfPlanning(agenda, topicId, sectionId, desired, targets);
    AssignWithoutMoves(targets, RefsOf(agenda.byDate, movable - StableIds(targets)), sectionId);
    DeletionRelocates(agenda, after, topicId, ref);
    RelocatedSlots(agenda, after, topicId, {ref.meetingId}, map[]);
    MovableLookup(agenda, topicId);
    TargetsAfterRemoval(agenda, after, topicId, ref, sectionId, desired, targets);
    PlanOfPlanning(after, topicId, sectionId, desired, targets);
    AssignWithoutMoves(targets, RefsOf(agenda.byDate, MovableOf(after, topicId) - StableIds(targets)), sectionId);
  }

  lemma TargetsAfterRemoval(before: Agenda, after: Agenda, topicId: Id, ref: Ref,
                            sectionId: Id, desired: seq<Slot>, targets: seq<Target>)
    requires UniqueAppearances(before.rows) && UniqueAppearances(after.rows) && topicId in before.topics
    requires targets == TargetsOf(before, topicId, sectionId, desired) && ref.meetingId !in StableIds(targets)
    requires ref.meetingId in MovableOf(before, topicId) && MovableOf(before, topicId)[ref.meetingId] == ref.id
    requires ref.id in before.rows && before.rows[ref.id].meetingId == ref.meetingId
    requires after == before.(rows := Deleted(before.rows, ref.id))
    requires Relocated(before, after, topicId, {ref.meetingId}, map[])
    requires MovableOf(after, topicId) == MovableOf(before, topicId) - {ref.meetingId} + map[]
    ensures TargetsOf(after, topicId, sectionId, desired) == targets
  {
    hide MovableOf, AppearancesOf, Relocated, OtherRows;
    var now := TargetsOf(after, topicId, sectionId, desired);
    assert MovableOf(after, topicId) == MovableOf(before, topicId) - {ref.meetingId};
    forall i | 0 <= i < |targets| ensures now[i] == targets[i] {
      assert targets[i].stable ==> targets[i].meetingId in StableIds(targets);
      DeletionKeepsOthers(before.rows, ref, after.rows, targets[i].meetingId, sectionId, MovableOf(before, topicId));
      RelocatedTarget(before, after, topicId, sectionId, {ref.meetingId}, map[], targets[i].meetingId);
    }
  }

  /** Executing the first removal of a plan without moves: accepted, and the next plan is the rest. */
  lemma RemovalStep(agenda: Agenda, topicId: Id) returns (after: Agenda)
    requires WellFormed(agenda) && PlanFor(agenda, topicId).Plan?
    requires PlanFor(agenda, topicId).moves == [] && PlanFor(agenda, topicId).removals != []
    ensures var plan := PlanFor(agenda, topicId);
            && RemoveReconciled(agenda, plan.removals[0].meetingId, plan.removals[0].id) == Done(after)
            && WellFormed(after)
            && PlanFor(after, topicId) == Plan([], plan.removals[1..])
  {
    hide PlanFor, RemoveReconciled, MovableOf, ClearsTopic, Deleted, Consistent;
    if ClearsTopic(agenda, topicId) {
      after := ClearingStep(agenda, topicId);
    } else {
      after := PlannedStep(agenda, topicId);
    }
    RemovalIsAccepted(agenda, topicId, PlanFor(agenda, topicId).removals[0]);
  }

  lemma RemovalIsAccepted(agenda: Agenda, topicId: Id, ref: Ref)
    requires Consistent(agenda) && PlanFor(agenda, topicId).Plan? && ref in PlanFor(agenda, topicId).removals
    requires WellFormed(agenda) && ref.meetingId in MovableOf(agenda, topicId)
    requires MovableOf(agenda, topicId)[ref.meetingId] == ref.id
    ensures ref.id in agenda.rows
    ensures RemoveReconciled(agenda, ref.meetingId, ref.id) == Done(agenda.(rows := Deleted(agenda.rows, ref.id)))
  {
    MovableLookup(agenda, topicId);
    PlannedIsMutable(agenda, ref.meetingId);
    RemovalAccepted(agenda, topicId, ref);
  }

  /** The removal takes effect and leaves the rest of the plan. */
  ghost predicate RemovalDone(agenda: Agenda, topicId: Id, removals: seq<Ref>, after: Agenda)
    requires UniqueAppearances(agenda.rows) && removals != []
  {
    && removals[0].meetingId in MovableOf(agenda, topicId)
    && MovableOf(agenda, topicId)[removals[0].meetingId] == removals[0].id
    && removals[0].id in agenda.rows && after == agenda.(rows := Deleted(agenda.rows, removals[0].id))
    && WellFormed(after) && PlanFor(after, topicId) == Plan([], removals[1..])
  }

  lemma ClearingStep(agenda: Agenda, topicId: Id) returns (after: Agenda)
    requires WellFormed(agenda) && ClearsTopic(agenda, topicId)
    requires PlanFor(agenda, topicId).Plan? && PlanFor(agenda, topicId).removals != []
    ensures RemovalDone(agenda, topicId, PlanFor(agenda, topicId).removals, after)
  {
    hide MovableOf, PlanFor, ClearsTopic, RefsOf, Deleted;
    var removals, movable := PlanFor(agenda, topicId).removals, MovableOf(agenda, topicId);
    PlanThatClears(agenda, topicId);
    MovableLookup(agenda, topicId);
    assert movable - {} == movable;
    FirstRemoval(agenda.byDate, movable, {}, removals);
    after := agenda.(rows := Deleted(agenda.rows, removals[0].id));
    PlanAfterClearing(agenda, after, topicId, removals[0]);
    assert movable - {removals[0].meetingId} + map[] - {} == movable - {removals[0].meetingId} + map[];
  }

  lemma PlannedStep(agenda: Agenda, topicId: Id) returns (after: Agenda)
    requires WellFormed(agenda) && !ClearsTopic(agenda, topicId)
    requires PlanFor(agenda, topicId).Plan? && PlanFor(agenda, topicId).moves == []
    requires PlanFor(agenda, topicId).removals != []
    ensures RemovalDone(agenda, topicId, PlanFor(agenda, topicId).removals, after)
  {
    hide MovableOf, PlanFor, ClearsTopic, RefsOf, Planning, Assign, Deleted;
    var removals, movable := PlanFor(agenda, topicId).removals, MovableOf(agenda, topicId);
    var sectionId, desired, targets := PlanningOfRemovals(agenda, topicId);
    PlanOfPlanning(agenda, topicId, sectionId, desired, targets);
    AssignWithoutMoves(targets, RefsOf(agenda.byDate, movable - StableIds(targets)), sectionId);
    FirstRemoval(agenda.byDate, movable, StableIds(targets), removals);
    MovableLookup(agenda, topicId);
    after := agenda.(rows := Deleted(agenda.rows, removals[0].id));
    DeletionIsWellFormed(agenda, after, removals[0].id);
    PlanAfterRemoval(agenda, after, topicId, removals[0], sectionId, desired, targets);
  }

  lemma PlanAfterClearing(agenda: Agenda, after: Agenda, topicId: Id, ref: Ref)
    requires WellFormed(agenda) && ClearsTopic(agenda, topicId)
    requires ref.meetingId in MovableOf(agenda, topicId) && MovableOf(agenda, topicId)[ref.meetingId] == ref.id
    requires ref.id in agenda.rows && after == agenda.(rows := Deleted(agenda.rows, ref.id))
    requires agenda.meetings != []
    ensures WellFormed(after)
    ensures PlanFor(after, topicId) ==
            Plan([], RefsOf(agenda.byDate, MovableOf(agenda, topicId) - {ref.meetingId} + map[]))
  {
    DeletionIsWellFormed(agenda, after, ref.id);
    DeletionRelocates(agenda, after, topicId, ref);
    RelocatedSlots(agenda, after, topicId, {ref.meetingId}, map[]);
    PlanThatClears(after, topicId);
  }
}
