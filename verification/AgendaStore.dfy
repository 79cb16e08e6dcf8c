/** The agenda tables changed in place, and the client that executes a plan against them
    (backend/src/meetings/meetings.service.ts, frontend/src/api/domain.ts). */
module AgendaStore {
  import opened Options
  import opened AgendaPositions
  import opened RecurrenceSchedule
  import opened RecurrencePlanner
  import opened RecurrenceService
  import Service = MeetingAgenda
  import opened Reconciliation

  class Store {
    var meetings: seq<Meeting>
    var byDate: seq<Id>
    var topics: map<Id, Topic>
    var sections: set<Id>
    var rows: Rows
    var skips: set<(Id, Id)>

    function View(): Agenda
      reads this
    {
      Agenda(meetings, byDate, topics, sections, rows, skips)
    }

    /** The rows of a section by position, then id. */
    method OrderedSection(meetingId: Id, sectionId: Id) returns (items: seq<Id>)
      ensures InQueryOrder(rows, SectionIds(rows, meetingId, sectionId), items)
    {
      items := [];
      var ids := SectionIds(rows, meetingId, sectionId);
      var rest := ids;
      while rest != {}
        invariant rest <= ids
        invariant InQueryOrder(rows, ids - rest, items)
        invariant forall done, open | done in ids - rest && open in rest :: Precedes(rows, done, open)
        decreases |rest|
      {
        FirstExists(rows, rest);
        var next :| next in rest && forall other | other in rest && other != next :: Precedes(rows, next, other);
        assert ids - (rest - {next}) == ids - rest + {next};
        items, rest := items + [next], rest - {next};
      }
      assert ids - rest == ids;
    }

    method NormalizeSectionPositions(meetingId: Id, sectionId: Id)
      modifies this`rows
      ensures rows == Renumbered(old(rows), meetingId, sectionId)
    {
      var items := OrderedSection(meetingId, sectionId);
      ghost var before, ids := rows, SectionIds(rows, meetingId, sectionId);
      var index := 0;
      while index < |items|
        invariant index <= |items| && rows.Keys == before.Keys
        invariant forall id | id in rows && id !in items[..index] :: rows[id] == before[id]
        invariant forall k | 0 <= k < index ::
                    items[k] in rows && rows[items[k]] == before[items[k]].(position := Rank(before, ids, items[k]))
      {
        QueryRank(before, ids, items, index);
        assert items[index] !in items[..index];
        if rows[items[index]].position != index + 1 {
          rows := rows[items[index] := rows[items[index]].(position := index + 1)];
        }
        index := index + 1;
      }
      forall id | id in ids ensures rows[id] == before[id].(position := Rank(before, ids, id)) {
        assert id in items;
      }
      assert items[..index] == items;
      RenumberedByRank(before, meetingId, sectionId, ids, rows);
    }

    method RemoveRow(id: Id)
      requires id in rows
      modifies this`rows
      ensures rows == Deleted(old(rows), id)
    {
      var removed := rows[id];
      rows := rows - {id};
      NormalizeSectionPositions(removed.meetingId, removed.sectionId);
    }

    method ShiftFrom(meetingId: Id, sectionId: Id, position: int)
      modifies this`rows
      ensures rows == Shifted(old(rows), meetingId, sectionId, position)
    {
      ghost var before := rows;
      var shifted := set id | id in SectionIds(rows, meetingId, sectionId) && rows[id].position >= position;
      var rest := shifted;
      while rest != {}
        invariant rest <= shifted && rows.Keys == before.Keys
        invariant forall id | id in rows ::
                    rows[id] == if id in shifted - rest then before[id].(position := before[id].position + 1)
                                else before[id]
        decreases |rest|
      {
        var id :| id in rest;
        rows := rows[id := rows[id].(position := rows[id].position + 1)];
        rest := rest - {id};
      }
      ShiftedByOne(before, meetingId, sectionId, position, shifted, rows);
    }

    /** Positions of a section are 1, 2, ... in query order. */
    method SectionIsDense(meetingId: Id, sectionId: Id) returns (dense: bool)
      ensures dense <==> DenseSection(rows, meetingId, sectionId)
    {
      var items := OrderedSection(meetingId, sectionId);
      assert forall k | 0 <= k < |items| :: items[k] in items;
      var index := 0;
      while index < |items| && rows[items[index]].position == index + 1
        invariant index <= |items|
        invariant forall k | 0 <= k < |items| :: items[k] in rows
        invariant forall k | 0 <= k < index :: rows[items[k]].position == k + 1
      {
        index := index + 1;
      }
      QueryOfDense(rows, meetingId, sectionId, items, index);
      return index == |items|;
    }

    /** One transaction; a failure leaves the tables as they were. */
    method AddTopic(meetingId: Id, input: Service.TopicInput) returns (error: Option<Error>)
      requires Consistent(View())
      modifies this
      ensures Service.AddTopic(old(View()), meetingId, input) ==
              if error.None? then Service.Done(View()) else Service.Failed(error.value)
      ensures error.Some? ==> View() == old(View())
    {
      error := Service.AddRefusal(View(), meetingId, input, AppearancesOf(rows, input.topicId));
      if error.Some? {
        return;
      }
      ghost var start := View();
      var savedTopics, savedRows := topics, rows;
      var topic := topics[input.topicId];
      if topic.status == Deferred {
        topics := topics[input.topicId := topic.(status := Open)];
      }
      assert View() == Service.Reopened(start, input.topicId);
      Service.ReopenedIsConsistent(start, input.topicId);
      var recurrencePosition: Option<int> := None;
      if input.source == Recurrence {
        var plan := ComputePlan(View(), input.topicId);
        var planned := if plan.Plan? then Service.FindMove(plan.moves, meetingId, input) else None;
        if planned.None? {
          topics := savedTopics;
          return Some(if plan.Refused? then plan.error else ReconciliationChanged);
        }
        recurrencePosition := Some(planned.value.position);
      }
      error := PlaceRow(meetingId, input, recurrencePosition);
      if error.Some? {
        topics := savedTopics;
      }
    }

    /** Takes the source out, checks the target section and puts the appearance in. */
    method PlaceRow(meetingId: Id, input: Service.TopicInput,
                    recurrencePosition: Option<int>) returns (error: Option<Error>)
      modifies this`rows
      ensures var length := |SectionIds(Service.WithoutSource(old(rows), input.sourceAppearanceId), meetingId,
                                        input.sectionId)|;
              Service.Place(old(View()), meetingId, input,
                            if recurrencePosition.Some? then recurrencePosition.value else length + 1) ==
              if error.None? then Service.Done(View()) else Service.Failed(error.value)
      ensures error.Some? ==> rows == old(rows)
    {
      var savedRows := rows;
      if input.sourceAppearanceId.Some? && input.sourceAppearanceId.value in rows {
        RemoveRow(input.sourceAppearanceId.value);
      }
      var dense := SectionIsDense(meetingId, input.sectionId);
      if !dense {
        rows := savedRows;
        return Some(PositionsInvalid);
      }
      var length := |SectionIds(rows, meetingId, input.sectionId)|;
      var position := if input.position.Some? then input.position.value
                      else if recurrencePosition.Some? then recurrencePosition.value else length + 1;
      if position > length + 1 {
        rows := savedRows;
        return Some(PositionInvalid);
      }
      ShiftFrom(meetingId, input.sectionId, position);
      rows := rows[input.id := Appearance(meetingId, input.topicId, input.sectionId, position, input.source, false)];
      return None;
    }

    /** Removal by a user; an automatic appearance is remembered as skipped. */
    method RemoveTopic(meetingId: Id, id: Id) returns (error: Option<Error>)
      modifies this`rows, this`skips
      ensures Service.RemoveTopic(old(View()), meetingId, id) ==
              if error.None? then Service.Done(View()) else Service.Failed(error.value)
      ensures error.Some? ==> View() == old(View())
    {
      error := Service.Refusal(View(), meetingId);
      if error.Some? {
        return;
      }
      if id !in rows || rows[id].meetingId != meetingId {
        return Some(NotFound);
      }
      if rows[id].source == Recurrence {
        skips := skips + {(rows[id].topicId, meetingId)};
      }
      RemoveRow(id);
    }

    /** A skipped appearance may be planned again. */
    method RestoreRecurrence(meetingId: Id, topicId: Id) returns (error: Option<Error>)
      modifies this`skips
      ensures Service.RestoreRecurrence(old(View()), meetingId, topicId) ==
              if error.None? then Service.Done(View()) else Service.Failed(error.value)
      ensures error.Some? ==> View() == old(View())
    {
      error := Service.Refusal(View(), meetingId);
      if error.Some? {
        return;
      }
      if (topicId, meetingId) !in skips {
        return Some(NotFound);
      }
      skips := skips - {(topicId, meetingId)};
    }

    /** Removal by reconciliation: only what a fresh plan removes. */
    method RemoveReconciledTopic(meetingId: Id, id: Id) returns (error: Option<Error>)
      requires Consistent(View())
      modifies this`rows
      ensures Service.RemoveReconciled(old(View()), meetingId, id) ==
              if error.None? then Service.Done(View()) else Service.Failed(error.value)
      ensures error.Some? ==> View() == old(View())
    {
      error := Service.Refusal(View(), meetingId);
      if error.Some? {
        return;
      }
      if id !in rows || rows[id].meetingId != meetingId || rows[id].source != Recurrence || rows[id].contentEdited {
        return Some(ReconciliationChanged);
      }
      var plan := ComputePlan(View(), rows[id].topicId);
      if plan.Refused? {
        return Some(plan.error);
      }
      if Ref(id, meetingId) !in plan.removals {
        return Some(ReconciliationChanged);
      }
      RemoveRow(id);
    }

    method ReorderTopics(meetingId: Id, items: seq<OrderItem>) returns (error: Option<Error>)
      modifies this`rows
      ensures Service.Reorder(old(View()), meetingId, items) ==
              if error.None? then Service.Done(View()) else Service.Failed(error.value)
      ensures error.Some? ==> View() == old(View())
    {
      error := Service.Refusal(View(), meetingId);
      if error.Some? {
        return;
      }
      if !UniqueItems(items) {
        return Some(PositionsInvalid);
      }
      if ItemIds(items) != MeetingIds(rows, meetingId) {
        return Some(AgendaChanged);
      }
      if exists i | 0 <= i < |items| :: items[i].sectionId !in sections {
        return Some(NotFound);
      }
      if !ValidOrder(rows, meetingId, items) {
        return Some(PositionsInvalid);
      }
      var index := |items|;
      while index > 0
        invariant 0 <= index <= |items|
        invariant rows == Reordered(old(rows), items[index..])
      {
        index := index - 1;
        var item := items[index];
        assert items[index..][1..] == items[index + 1..];
        ReorderedElsewhere(old(rows), items[index + 1..]);
        if item.id in rows {
          rows := rows[item.id := rows[item.id].(sectionId := item.sectionId, position := item.position)];
        }
      }
      assert items[0..] == items;
    }
  }

  /** The client's loop: every move of the plan and then every removal. The server accepts each of them,
      and afterwards nothing is left to reconcile. */
  method ReconcileRecurringTopic(store: Store, topicId: Id, newIds: seq<Id>)
    requires WellFormed(store.View())
    requires PlanFor(store.View(), topicId).Plan? && |newIds| == |PlanFor(store.View(), topicId).moves|
    requires Distinct(newIds) && forall i | 0 <= i < |newIds| :: newIds[i] !in store.rows
    modifies store
    ensures WellFormed(store.View()) && PlanFor(store.View(), topicId) == Plan([], [])
  {
    hide Consistent, Dense, PlanFor, Service.AddTopic, Service.RemoveReconciled;
    var plan := ComputePlan(store.View(), topicId);
    var index := 0;
    while index < |plan.moves|
      invariant index <= |plan.moves|
      invariant WellFormed(store.View()) && PlanFor(store.View(), topicId) == Plan(plan.moves[index..], plan.removals)
      invariant forall i | index <= i < |newIds| :: newIds[i] !in store.rows
    {
      var after := MoveStep(store.View(), topicId, newIds[index]);
      var error := store.AddTopic(plan.moves[index].meetingId, MoveInput(topicId, plan.moves[index], newIds[index]));
      assert error.None? && store.View() == after;
      index := index + 1;
    }
    index := 0;
    while index < |plan.removals|
      invariant index <= |plan.removals|
      invariant WellFormed(store.View()) && PlanFor(store.View(), topicId) == Plan([], plan.removals[index..])
    {
      var after := RemovalStep(store.View(), topicId);
      var error := store.RemoveReconciledTopic(plan.removals[index].meetingId, plan.removals[index].id);
      assert error.None? && store.View() == after;
      index := index + 1;
    }
  }

  lemma RenumberedByRank(rows: Rows, meetingId: Id, sectionId: Id, ids: set<Id>, after: Rows)
    requires ids == SectionIds(rows, meetingId, sectionId) && after.Keys == rows.Keys
    requires forall id | id in ids :: after[id] == rows[id].(position := Rank(rows, ids, id))
    requires forall id | id in rows && id !in ids :: after[id] == rows[id]
    ensures after == Renumbered(rows, meetingId, sectionId)
  {
  }

  lemma ShiftedByOne(rows: Rows, meetingId: Id, sectionId: Id, position: int, shifted: set<Id>, after: Rows)
    requires shifted == set id | id in SectionIds(rows, meetingId, sectionId) && rows[id].position >= position
    requires after.Keys == rows.Keys
    requires forall id | id in rows ::
               after[id] == if id in shifted then rows[id].(position := rows[id].position + 1) else rows[id]
    ensures after == Shifted(rows, meetingId, sectionId, position)
  {
  }

  lemma FirstExists(rows: Rows, ids: set<Id>)
    requires ids != {} && ids <= rows.Keys
    ensures exists next :: next in ids && forall other | other in ids && other != next :: Precedes(rows, next, other)
  {
    var id :| id in ids;
    if ids != {id} {
      FirstExists(rows, ids - {id});
      var next :| next in ids - {id} && forall other | other in ids - {id} && other != next ::
          Precedes(rows, next, other);
      if Precedes(rows, id, next) {
        assert forall other | other in ids && other != id :: other == next || other in ids - {id};
        assert forall other | other in ids && other != id :: Precedes(rows, id, other);
      } else {
        assert forall other | other in ids && other != next :: Precedes(rows, next, other);
      }
    }
  }

  lemma QueryOfDense(rows: Rows, meetingId: Id, sectionId: Id, items: seq<Id>, checked: nat)
    requires InQueryOrder(rows, SectionIds(rows, meetingId, sectionId), items) && checked <= |items|
    requires forall k | 0 <= k < |items| :: items[k] in rows
    requires forall k | 0 <= k < checked :: rows[items[k]].position == k + 1
    requires checked < |items| ==> rows[items[checked]].position != checked + 1
    ensures checked == |items| <==> DenseSection(rows, meetingId, sectionId)
  {
    var ids := SectionIds(rows, meetingId, sectionId);
    assert Elements(items) == ids;
    ElementsCount(items);
    if checked == |items| {
      forall left, right | left in ids && right in ids
        ensures 1 <= rows[left].position <= |ids|
        ensures left != right ==> rows[left].position != rows[right].position
      {
        var i :| 0 <= i < |items| && items[i] == left;
        var j :| 0 <= j < |items| && items[j] == right;
      }
    } else if DenseSection(rows, meetingId, sectionId) {
      QueryRank(rows, ids, items, checked);
      DenseUsesEveryPosition(rows, meetingId, sectionId);
      DenseRankIsPosition(rows, ids, items[checked]);
    }
  }
}
