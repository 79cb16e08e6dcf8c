/** The planner as the service runs it: one pass over the meetings, one pass over the targets
    (backend/src/recurrence/recurrence.service.ts, buildPlan). */
module RecurrenceService {
  import opened Options
  import opened CalendarDates
  import opened AgendaPositions
  import opened RecurrenceSchedule
  import opened RecurrencePlanner

  ghost function Prefixed(desired: seq<Slot>, rest: Schedule): Schedule {
    if rest.Conflict? then Conflict else Schedule(desired + rest.slots)
  }

  method ChooseMeetings(slots: seq<Slot>, firstDueDate: Date, interval: Interval) returns (schedule: Schedule)
    requires forall i | 0 <= i < |slots| :: IsDate(slots[i].date)
    ensures schedule == Greedy(slots, firstDueDate, interval)
  {
    var desired, nextDue, index := [], firstDueDate, 0;
    while index < |slots|
      invariant index <= |slots|
      invariant Greedy(slots, firstDueDate, interval) == Prefixed(desired, Greedy(slots[index..], nextDue, interval))
    {
      var slot, later := slots[index], slots[index + 1..];
      assert slots[index..][1..] == later;
      var due := AddInterval(slot.date, interval);
      if slot.preserved.Kept? {
        if slot.preserved.source.Recurrence? && slot.planned && Before(slot.date, nextDue) {
          return Conflict;
        }
        nextDue := due;
      } else if slot.planned && !Before(slot.date, nextDue) && !slot.skipped {
        var nextPreserved := NextPreserved(later);
        if nextPreserved != [] && Before(nextPreserved[0].date, due) {
          return Conflict;
        }
        var rest := Greedy(later, due, interval);
        assert rest.Schedule? ==> desired + ([slot] + rest.slots) == (desired + [slot]) + rest.slots;
        desired, nextDue := desired + [slot], due;
      }
      index := index + 1;
    }
    return Schedule(desired);
  }

  method AssignSources(targets: seq<Target>, available: seq<Ref>, sectionId: Id)
    returns (moves: seq<Move>, removals: seq<Ref>)
    ensures (moves, removals) == Assign(targets, available, sectionId)
  {
    moves := [];
    var reusable, index := available, 0;
    assert targets[0..] == targets && moves + Assign(targets, available, sectionId).0 == Assign(targets, available, sectionId).0;
    while index < |targets|
      invariant index <= |targets|
      invariant Assign(targets, available, sectionId) ==
                (moves + Assign(targets[index..], reusable, sectionId).0,
                 Assign(targets[index..], reusable, sectionId).1)
    {
      var target := targets[index];
      ghost var rest := targets[index..];
      assert rest[1..] == targets[index + 1..];
      if !target.stable {
        var source: Option<Ref> := None;
        if reusable != [] {
          var pick := PickIndex(reusable, target.meetingId);
          source, reusable := Some(reusable[pick]), WithoutIndex(reusable, pick);
        }
        var move := Move(target.meetingId, sectionId, target.position, source);
        ghost var later := Assign(rest[1..], reusable, sectionId).0;
        assert moves + ([move] + later) == (moves + [move]) + later;
        moves := moves + [move];
      }
      index := index + 1;
    }
    removals := reusable;
    assert moves + [] == moves;
  }

  method ComputePlan(agenda: Agenda, topicId: Id) returns (plan: Plan)
    requires Consistent(agenda)
    ensures plan == PlanFor(agenda, topicId)
  {
    if topicId !in agenda.topics {
      return Refused(NotFound);
    }
    var topic := agenda.topics[topicId];
    if !topic.recurring {
      return Refused(ConfigurationInvalid);
    }
    if agenda.meetings == [] {
      return Plan([], []);
    }
    var movable := MovableOf(agenda, topicId);
    if topic.status != Open {
      return Plan([], RefsOf(agenda.byDate, movable));
    }
    var schedule := ChooseMeetings(SlotsOf(agenda, topicId), topic.firstDueDate, topic.interval);
    if schedule.Conflict? {
      return Refused(EditedAppearanceConflict);
    }
    if schedule.slots == [] {
      return Plan([], RefsOf(agenda.byDate, movable));
    }
    if topic.defaultSection.None? || topic.defaultSection.value !in agenda.sections {
      return Refused(ConfigurationInvalid);
    }
    var targets := TargetsOf(agenda, topicId, topic.defaultSection.value, schedule.slots);
    var moves, removals := AssignSources(targets, RefsOf(agenda.byDate, movable - StableIds(targets)),
                                         topic.defaultSection.value);
    return Plan(moves, removals);
  }

  // ---------- accounting ----------

  ghost function SourcesOf(moves: seq<Move>): seq<Ref> {
    if moves == [] then []
    else if moves[0].source.Some? then [moves[0].source.value] + SourcesOf(moves[1..])
    else SourcesOf(moves[1..])
  }

  ghost function UnstableTargets(targets: seq<Target>): seq<Target> {
    if targets == [] then []
    else if targets[0].stable then UnstableTargets(targets[1..])
    else [targets[0]] + UnstableTargets(targets[1..])
  }

  /** Every available appearance is moved once or removed, and none is removed while a move lacks a source. */
  lemma {:induction false} AssignConserves(targets: seq<Target>, reusable: seq<Ref>, sectionId: Id)
    ensures var (moves, removals) := Assign(targets, reusable, sectionId);
            && multiset(SourcesOf(moves)) + multiset(removals) == multiset(reusable)
            && (removals != [] ==> |SourcesOf(moves)| == |moves|)
  {
    if targets != [] {
      if targets[0].stable || reusable == [] {
        AssignConserves(targets[1..], reusable, sectionId);
      } else {
        var pick := PickIndex(reusable, targets[0].meetingId);
        var moves := Assign(targets, reusable, sectionId).0;
        AssignConserves(targets[1..], WithoutIndex(reusable, pick), sectionId);
        TakenOut(reusable, pick);
        assert moves[1..] == Assign(targets[1..], WithoutIndex(reusable, pick), sectionId).0;
        FirstSource(moves);
      }
    }
  }

  lemma TakenOut(refs: seq<Ref>, index: nat)
    requires index < |refs|
    ensures multiset(refs) == multiset{refs[index]} + multiset(WithoutIndex(refs, index))
  {
    assert refs == refs[..index] + [refs[index]] + refs[index + 1..];
  }

  lemma FirstSource(moves: seq<Move>)
    requires moves != [] && moves[0].source.Some?
    ensures multiset(SourcesOf(moves)) == multiset{moves[0].source.value} + multiset(SourcesOf(moves[1..]))
    ensures |SourcesOf(moves)| == 1 + |SourcesOf(moves[1..])|
  {
  }

  /** Each unstable target receives exactly one move, in order; stable targets receive none. */
  lemma {:induction false} AssignServesTargets(targets: seq<Target>, reusable: seq<Ref>, sectionId: Id)
    ensures var moves := Assign(targets, reusable, sectionId).0;
            && |moves| == |UnstableTargets(targets)|
            && forall k | 0 <= k < |moves| ::
                 var target := UnstableTargets(targets)[k];
                 moves[k] == Move(target.meetingId, sectionId, target.position, moves[k].source)
  {
    if targets != [] {
      AssignServesTargets(
        targets[1..],
        if targets[0].stable || reusable == [] then reusable
        else WithoutIndex(reusable, PickIndex(reusable, targets[0].meetingId)),
        sectionId);
    }
  }

  lemma {:induction false} RefsOfSplit(byDate: seq<Id>, appearances: map<Id, Id>, kept: set<Id>)
    ensures multiset(RefsOf(byDate, appearances)) ==
            multiset(RefsOf(byDate, appearances - kept)) + multiset(RefsOf(byDate,
                                                                           appearances - (appearances.Keys - kept)))
  {
    if byDate != [] {
      RefsOfSplit(byDate[1..], appearances, kept);
    }
  }

  /** The appearances are listed without repetition. */
  lemma {:induction false} RefsOfDistinct(byDate: seq<Id>, appearances: map<Id, Id>)
    requires forall i, j | 0 <= i < j < |byDate| :: byDate[i] != byDate[j]
    ensures forall ref :: multiset(RefsOf(byDate, appearances))[ref] ==
              if ref.meetingId in byDate && ref.meetingId in appearances
                  && appearances[ref.meetingId] == ref.id then 1 else 0
  {
    if byDate != [] {
      RefsOfDistinct(byDate[1..], appearances);
      assert forall m | m in byDate :: m == byDate[0] || m in byDate[1..];
    }
  }

  /** How often an appearance is kept, moved and removed. */
  ghost function Fate(kept: seq<Ref>, moves: seq<Move>, removals: seq<Ref>, ref: Ref): (nat, nat, nat) {
    (multiset(kept)[ref], multiset(SourcesOf(moves))[ref], multiset(removals)[ref])
  }

  /** Each movable appearance of the topic is exactly one of kept, moved once or removed once, and nothing else is. */
  lemma PlanAccounts(agenda: Agenda, topicId: Id, sectionId: Id, desired: seq<Slot>)
    requires Consistent(agenda) && topicId in agenda.topics
    ensures var movable := MovableOf(agenda, topicId);
            var targets := TargetsOf(agenda, topicId, sectionId, desired);
            var (moves, removals) := Assign(targets, RefsOf(agenda.byDate, movable - StableIds(targets)), sectionId);
            var kept := RefsOf(agenda.byDate, movable - (movable.Keys - StableIds(targets)));
            forall ref: Ref ::
              if ref.meetingId in movable && movable[ref.meetingId] == ref.id then
                if ref.meetingId in StableIds(targets) then Fate(kept, moves, removals, ref) == (1, 0, 0)
                else Fate(kept, moves, removals, ref) in {(0, 1, 0), (0, 0, 1)}
              else Fate(kept, moves, removals, ref) == (0, 0, 0)
  {
    var movable := MovableOf(agenda, topicId);
    var targets := TargetsOf(agenda, topicId, sectionId, desired);
    AssignConserves(targets, RefsOf(agenda.byDate, movable - StableIds(targets)), sectionId);
    MovableIsListed(agenda, topicId);
    var (moves, removals) := Assign(targets, RefsOf(agenda.byDate, movable - StableIds(targets)), sectionId);
    hide MovableOf, TargetsOf, StableIds, Assign, RefsOf, Consistent, Fate;
    AccountsForEach(agenda.byDate, movable, StableIds(targets), moves, removals);
  }

  lemma AccountsForEach(byDate: seq<Id>, movable: map<Id, Id>, stable: set<Id>, moves: seq<Move>, removals: seq<Ref>)
    requires forall i, j | 0 <= i < j < |byDate| :: byDate[i] != byDate[j]
    requires forall m | m in movable :: m in byDate
    requires multiset(RefsOf(byDate, movable - stable)) == multiset(SourcesOf(moves)) + multiset(removals)
    ensures var kept := RefsOf(byDate, movable - (movable.Keys - stable));
            forall ref: Ref ::
              if ref.meetingId in movable && movable[ref.meetingId] == ref.id then
                if ref.meetingId in stable then Fate(kept, moves, removals, ref) == (1, 0, 0)
                else Fate(kept, moves, removals, ref) in {(0, 1, 0), (0, 0, 1)}
              else Fate(kept, moves, removals, ref) == (0, 0, 0)
  {
    var available := RefsOf(byDate, movable - stable);
    RefsOfDistinct(byDate, movable - stable);
    RefsOfDistinct(byDate, movable - (movable.Keys - stable));
    hide RefsOf;
    forall ref: Ref
      ensures multiset(SourcesOf(moves))[ref] + multiset(removals)[ref] == multiset(available)[ref]
    {
      assert multiset(available) == multiset(SourcesOf(moves)) + multiset(removals);
    }
  }

  lemma MovableIsListed(agenda: Agenda, topicId: Id)
    requires Consistent(agenda)
    ensures forall m | m in MovableOf(agenda, topicId) :: m in agenda.byDate
    ensures forall i, j | 0 <= i < j < |agenda.byDate| :: agenda.byDate[i] != agenda.byDate[j]
  {
    AppearanceLookup(agenda.rows, topicId);
  }

  // ---------- what a plan may touch ----------

  /** An automatic, unedited appearance of the topic in a planned meeting. */
  ghost predicate MayTouch(agenda: Agenda, topicId: Id, ref: Ref) {
    && ref.id in agenda.rows && ref.meetingId in PlannedSet(agenda.meetings)
    && var row := agenda.rows[ref.id];
       row.meetingId == ref.meetingId && row.topicId == topicId && row.source.Recurrence? && !row.contentEdited
  }

  /** A planned meeting that is not skipped and where the topic has nothing but such an appearance. */
  ghost predicate MayReceive(agenda: Agenda, topicId: Id, meetingId: Id) {
    && meetingId in PlannedSet(agenda.meetings) && (topicId, meetingId) !in agenda.skips
    && forall id | id in agenda.rows && agenda.rows[id].meetingId == meetingId && agenda.rows[id].topicId == topicId ::
         agenda.rows[id].source.Recurrence? && !agenda.rows[id].contentEdited
  }

  lemma {:induction false} AssignStaysWithin(targets: seq<Target>, reusable: seq<Ref>, sectionId: Id)
    ensures var (moves, removals) := Assign(targets, reusable, sectionId);
            && (forall ref | ref in removals :: ref in reusable)
            && forall move | move in moves ::
                 && move.sectionId == sectionId
                 && (exists target :: target in targets && target.meetingId == move.meetingId && target.position == move.position)
                 && (move.source.Some? ==> move.source.value in reusable)
  {
    if targets != [] {
      var rest := if targets[0].stable || reusable == [] then reusable
                  else WithoutIndex(reusable, PickIndex(reusable, targets[0].meetingId));
      AssignStaysWithin(targets[1..], rest, sectionId);
      forall move | move in Assign(targets[1..], rest, sectionId).0
        ensures exists target ::
                  target in targets && target.meetingId == move.meetingId && target.position == move.position
      {
        var target :| target in targets[1..] && target.meetingId == move.meetingId && target.position == move.position;
        assert target in targets;
      }
      assert targets[0] in targets;
    }
  }

  lemma MovableMayBeTouched(agenda: Agenda, topicId: Id, kept: set<Id>)
    requires Consistent(agenda)
    ensures forall ref | ref in RefsOf(agenda.byDate, MovableOf(agenda, topicId) - kept) ::
        MayTouch(agenda, topicId, ref)
  {
    AppearanceLookup(agenda.rows, topicId);
    RefsAreListed(agenda.byDate, MovableOf(agenda, topicId) - kept);
  }

  lemma {:induction false} RefsAreListed(byDate: seq<Id>, appearances: map<Id, Id>)
    ensures forall ref | ref in RefsOf(byDate, appearances) ::
              ref.meetingId in appearances && appearances[ref.meetingId] == ref.id
  {
    if byDate != [] {
      RefsAreListed(byDate[1..], appearances);
    }
  }

  lemma ChosenMayReceive(agenda: Agenda, topicId: Id, slot: Slot)
    requires Consistent(agenda) && slot in SlotsOf(agenda, topicId) && Eligible(slot)
    ensures MayReceive(agenda, topicId, slot.meetingId)
  {
    var slots := SlotsOf(agenda, topicId);
    var i :| 0 <= i < |slots| && slots[i] == slot;
    assert slot == SlotOf(agenda, topicId, agenda.meetings[i]);
    AppearanceLookup(agenda.rows, topicId);
  }

  lemma TargetsMayReceive(agenda: Agenda, topicId: Id, sectionId: Id, desired: seq<Slot>)
    requires Consistent(agenda) && topicId in agenda.topics
    requires (forall slot | slot in desired :: slot in SlotsOf(agenda, topicId) && Eligible(slot))
    ensures forall target | target in TargetsOf(agenda, topicId, sectionId, desired) ::
        MayReceive(agenda, topicId, target.meetingId)
  {
    var targets := TargetsOf(agenda, topicId, sectionId, desired);
    forall target | target in targets ensures MayReceive(agenda, topicId, target.meetingId) {
      var i :| 0 <= i < |targets| && targets[i] == target;
      ChosenMayReceive(agenda, topicId, desired[i]);
    }
  }

  lemma ChosenSlots(agenda: Agenda, topicId: Id)
    requires Consistent(agenda) && topicId in agenda.topics
    requires var topic := agenda.topics[topicId];
             (forall i | 0 <= i < |SlotsOf(agenda, topicId)| :: IsDate(SlotsOf(agenda, topicId)[i].date))
             && Greedy(SlotsOf(agenda, topicId), topic.firstDueDate, topic.interval).Schedule?
    ensures var topic := agenda.topics[topicId];
            forall slot | slot in Greedy(SlotsOf(agenda, topicId), topic.firstDueDate, topic.interval).slots ::
              slot in SlotsOf(agenda, topicId) && Eligible(slot)
  {
    var topic := agenda.topics[topicId];
    SlotsAreOrdered(agenda, topicId);
    hide SlotsOf, Greedy;
    GreedySelects(SlotsOf(agenda, topicId), topic.firstDueDate, topic.interval);
  }

  /** What a plan from the given targets touches. */
  lemma AssignedIsSafe(agenda: Agenda, topicId: Id, sectionId: Id, desired: seq<Slot>)
    requires Consistent(agenda) && topicId in agenda.topics
    requires (forall slot | slot in desired :: slot in SlotsOf(agenda, topicId) && Eligible(slot))
    ensures var targets := TargetsOf(agenda, topicId, sectionId, desired);
            var (moves, removals) := Assign(targets,
                                            RefsOf(agenda.byDate,
                                                   MovableOf(agenda, topicId) - StableIds(targets)), sectionId);
            && (forall ref | ref in removals :: MayTouch(agenda, topicId, ref))
            && forall move | move in moves ::
                 && MayReceive(agenda, topicId, move.meetingId) && move.sectionId == sectionId
                 && (move.source.Some? ==> MayTouch(agenda, topicId, move.source.value))
  {
    var targets := TargetsOf(agenda, topicId, sectionId, desired);
    var available := RefsOf(agenda.byDate, MovableOf(agenda, topicId) - StableIds(targets));
    TargetsMayReceive(agenda, topicId, sectionId, desired);
    MovableMayBeTouched(agenda, topicId, StableIds(targets));
    hide MovableOf, MayReceive, MayTouch, StableIds, Consistent, SlotsOf, TargetsOf, RefsOf, Assign;
    AssignStaysWithin(targets, available, sectionId);
  }

  /** Reconciliation puts the topic only into planned meetings that are not skipped and hold no manual or edited
      appearance of it, and moves or removes nothing but automatic, unedited appearances in planned meetings. */
  lemma PlanIsSafe(agenda: Agenda, topicId: Id)
    requires Consistent(agenda) && PlanFor(agenda, topicId).Plan?
    ensures var plan := PlanFor(agenda, topicId);
            && (forall ref | ref in plan.removals :: MayTouch(agenda, topicId, ref))
            && forall move | move in plan.moves ::
                 && MayReceive(agenda, topicId, move.meetingId)
                     && agenda.topics[topicId].defaultSection == Some(move.sectionId)
                 && (move.source.Some? ==> MayTouch(agenda, topicId, move.source.value))
  {
    var topic, movable := agenda.topics[topicId], MovableOf(agenda, topicId);
    MovableMayBeTouched(agenda, topicId, {});
    assert movable - {} == movable;
    hide MayReceive, MayTouch, MovableOf, StableIds, Assign, RefsOf, Greedy, TargetsOf;
    if agenda.meetings != [] && topic.status.Open? {
      ChosenSlots(agenda, topicId);
      var desired := Greedy(SlotsOf(agenda, topicId), topic.firstDueDate, topic.interval).slots;
      if desired != [] {
        AssignedIsSafe(agenda, topicId, topic.defaultSection.value, desired);
      }
    }
  }
}
