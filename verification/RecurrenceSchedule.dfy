/** The greedy schedule of a Recurring Topic over the ordered meetings
    (backend/src/recurrence/recurrence.service.ts, first half of buildPlan). */
module RecurrenceSchedule {
  import opened CalendarDates
  import opened AgendaPositions

  /** What is known of the topic's appearance in a meeting that reconciliation must not touch. */
  datatype Preserved = Nothing | Kept(source: Source)

  /** One meeting as the planner sees it. */
  datatype Slot = Slot(meetingId: Id, date: Date, planned: bool, preserved: Preserved, skipped: bool)

  datatype Schedule = Schedule(slots: seq<Slot>) | Conflict

  predicate Eligible(slot: Slot) {
    slot.planned && slot.preserved.Nothing? && !slot.skipped
  }

  /** Meetings in date order, each of them once, with real dates. */
  ghost predicate Ordered(slots: seq<Slot>) {
    && (forall i | 0 <= i < |slots| :: IsDate(slots[i].date))
    && (forall i, j | 0 <= i < j < |slots| ::
          !Before(slots[j].date, slots[i].date) && slots[i].meetingId != slots[j].meetingId)
  }

  function NextPreserved(slots: seq<Slot>): seq<Slot> {
    if slots == [] then [] else if slots[0].preserved.Kept? then [slots[0]] else NextPreserved(slots[1..])
  }

  /** The meetings chosen from the remaining slots when the topic is next due on the given date. */
  function Greedy(slots: seq<Slot>, nextDue: Date, interval: Interval): Schedule
    requires forall i | 0 <= i < |slots| :: IsDate(slots[i].date)
  {
    if slots == [] then Schedule([]) else
      var slot, later := slots[0], slots[1..];
      var due := AddInterval(slot.date, interval);
      if slot.preserved.Kept? then
        if slot.preserved.source.Recurrence? && slot.planned && Before(slot.date, nextDue) then Conflict
        else Greedy(later, due, interval)
      else if !slot.planned || Before(slot.date, nextDue) || slot.skipped then Greedy(later, nextDue, interval)
      else if NextPreserved(later) != [] && Before(NextPreserved(later)[0].date, due) then Conflict
      else
        var rest := Greedy(later, due, interval);
        if rest.Conflict? then Conflict else Schedule([slot] + rest.slots)
  }

  // ---------- optimality without preserved appearances ----------

  /** Dates that start on or after the due date and keep the interval from each to the next. */
  ghost predicate Spaced(chosen: seq<Slot>, nextDue: Date, interval: Interval) {
    chosen == []
    || (IsDate(chosen[0].date) && !Before(chosen[0].date, nextDue)
        && Spaced(chosen[1..], AddInterval(chosen[0].date, interval), interval))
  }

  ghost predicate Selection(chosen: seq<Slot>, slots: seq<Slot>) {
    forall i | 0 <= i < |chosen| :: chosen[i] in slots && Eligible(chosen[i])
  }

  lemma {:induction false} SpacedIsLater(chosen: seq<Slot>, nextDue: Date, interval: Interval)
    requires Spaced(chosen, nextDue, interval) && interval.count > 0
    ensures forall i | 0 <= i < |chosen| :: !Before(chosen[i].date, nextDue)
  {
    if chosen != [] {
      AddIntervalIsLater(chosen[0].date, interval);
      SpacedIsLater(chosen[1..], AddInterval(chosen[0].date, interval), interval);
      assert forall i | 1 <= i < |chosen| :: chosen[i] == chosen[1..][i - 1];
    }
  }

  /** The planner's k-th meeting exists and is no later than the k-th of any other valid choice. */
  lemma {:induction false} GreedyStaysAhead(slots: seq<Slot>, nextDue: Date, interval: Interval, other: seq<Slot>)
    requires Ordered(slots) && interval.count > 0
    requires forall i | 0 <= i < |slots| :: slots[i].preserved.Nothing?
    requires Selection(other, slots) && Spaced(other, nextDue, interval)
    ensures Greedy(slots, nextDue, interval).Schedule?
    ensures var chosen := Greedy(slots, nextDue, interval).slots;
            |other| <= |chosen| && forall k | 0 <= k < |other| :: !Before(other[k].date, chosen[k].date)
  {
    assert other != [] ==> other[0] in slots;
    if slots != [] {
      var slot, later := slots[0], slots[1..];
      NothingPreserved(later);
      SpacedIsLater(other, nextDue, interval);
      if !slot.planned || Before(slot.date, nextDue) || slot.skipped {
        assert Selection(other, later);
        GreedyStaysAhead(later, nextDue, interval, other);
      } else {
        var due := AddInterval(slot.date, interval);
        if other == [] {
          GreedyStaysAhead(later, due, interval, []);
        } else {
          OtherChoiceFollows(slots, nextDue, interval, other);
          GreedyStaysAhead(later, due, interval, other[1..]);
          assert !Before(other[0].date, slot.date);
          assert forall k | 1 <= k < |other| :: other[k] == other[1..][k - 1];
        }
      }
    }
  }

  lemma NothingPreserved(slots: seq<Slot>)
    requires forall i | 0 <= i < |slots| :: slots[i].preserved.Nothing?
    ensures NextPreserved(slots) == []
  {
  }

  /** Replacing the first meeting of a choice by an earlier one leaves the rest of the choice valid. */
  lemma OtherChoiceFollows(slots: seq<Slot>, nextDue: Date, interval: Interval, other: seq<Slot>)
    requires Ordered(slots) && interval.count > 0 && slots != [] && other != []
    requires Selection(other, slots) && Spaced(other, nextDue, interval)
    ensures Selection(other[1..], slots[1..])
    ensures Spaced(other[1..], AddInterval(slots[0].date, interval), interval)
  {
    var slot := slots[0];
    assert !Before(other[0].date, slot.date);
    AddIntervalIsMonotone(slot.date, other[0].date, interval);
    AddIntervalIsLater(slot.date, interval);
    assert Spaced(other[1..], AddInterval(slot.date, interval), interval);
    SpacedIsLater(other[1..], AddInterval(slot.date, interval), interval);
    forall i | 0 <= i < |other[1..]|
      ensures other[1..][i] in slots[1..] && Eligible(other[1..][i])
    {
      assert other[1..][i] == other[i + 1];
      assert other[1..][i] != slot;
    }
  }

  // ---------- soundness with preserved appearances ----------

  /** The topic takes place in this meeting, preserved or chosen. */
  ghost predicate Occurs(slot: Slot, chosen: set<Id>) {
    slot.preserved.Kept? || slot.meetingId in chosen
  }

  ghost function ChosenIds(schedule: seq<Slot>): set<Id> {
    set i | 0 <= i < |schedule| :: schedule[i].meetingId
  }

  /** Due date in force when the planner reaches position j. */
  ghost function DueAt(slots: seq<Slot>, chosen: set<Id>, nextDue: Date, interval: Interval, j: nat): Date
    requires j <= |slots| && forall i | 0 <= i < |slots| :: IsDate(slots[i].date)
  {
    if j == 0 then nextDue
    else DueAt(slots[1..], chosen,
               if Occurs(slots[0], chosen) then AddInterval(slots[0].date, interval) else nextDue,
               interval, j - 1)
  }

  /** The due date in force is the interval after the last occurrence, or the start when there is none. */
  lemma {:induction false} DueAtIsLastOccurrence(
    slots: seq<Slot>, chosen: set<Id>, nextDue: Date, interval: Interval, last: int, j: nat)
    requires j <= |slots| && forall i | 0 <= i < |slots| :: IsDate(slots[i].date)
    requires -1 <= last < j && (last >= 0 ==> Occurs(slots[last], chosen))
    requires forall k | last < k < j :: !Occurs(slots[k], chosen)
    ensures DueAt(slots, chosen, nextDue, interval, j) ==
            if last == -1 then nextDue else AddInterval(slots[last].date, interval)
  {
    if j > 0 {
      var due := if Occurs(slots[0], chosen) then AddInterval(slots[0].date, interval) else nextDue;
      DueAtIsLastOccurrence(slots[1..], chosen, due, interval, if last <= 0 then -1 else last - 1, j - 1);
    }
  }

  lemma GreedySelects(slots: seq<Slot>, nextDue: Date, interval: Interval)
    requires Ordered(slots) && Greedy(slots, nextDue, interval).Schedule?
    ensures Selection(Greedy(slots, nextDue, interval).slots, slots)
    ensures forall i, j | 0 <= i < j < |Greedy(slots, nextDue, interval).slots| ::
              Greedy(slots, nextDue, interval).slots[i].meetingId != Greedy(slots, nextDue, interval).slots[j].meetingId
  {
    if slots != [] {
      var slot, due := slots[0], AddInterval(slots[0].date, interval);
      var after := if slot.preserved.Kept? || (Eligible(slot) && !Before(slot.date, nextDue)) then due else nextDue;
      GreedySelects(slots[1..], after, interval);
      var rest := Greedy(slots[1..], after, interval).slots;
      forall i | 0 <= i < |rest| ensures rest[i].meetingId != slot.meetingId {
        var j :| 0 <= j < |slots[1..]| && slots[1..][j] == rest[i];
        assert slots[j + 1] == rest[i];
      }
    }
  }

  /** The tail of the slots whose due date the planner computes after the first slot. */
  ghost function DueAfterFirst(slots: seq<Slot>, nextDue: Date, interval: Interval): Date
    requires slots != [] && IsDate(slots[0].date)
  {
    if slots[0].preserved.Kept? || (Eligible(slots[0]) && !Before(slots[0].date, nextDue))
    then AddInterval(slots[0].date, interval) else nextDue
  }

  /** The set of chosen meetings restricted to the given slots. */
  ghost predicate Chooses(slots: seq<Slot>, nextDue: Date, interval: Interval, chosen: set<Id>)
    requires Ordered(slots)
  {
    && Greedy(slots, nextDue, interval).Schedule?
    && forall i | 0 <= i < |slots| ::
         slots[i].meetingId in chosen <==> slots[i] in Greedy(slots, nextDue, interval).slots
  }

  lemma ChoiceOfTail(slots: seq<Slot>, nextDue: Date, interval: Interval, chosen: set<Id>)
    requires Ordered(slots) && slots != [] && Chooses(slots, nextDue, interval, chosen)
    ensures Chooses(slots[1..], DueAfterFirst(slots, nextDue, interval), interval, chosen)
    ensures slots[0].meetingId in chosen <==> Eligible(slots[0]) && !Before(slots[0].date, nextDue)
  {
    var due := DueAfterFirst(slots, nextDue, interval);
    GreedySelects(slots[1..], due, interval);
    forall i | 0 <= i < |slots[1..]|
      ensures slots[1..][i].meetingId in chosen <==> slots[1..][i] in Greedy(slots[1..], due, interval).slots
    {
      assert slots[1..][i] == slots[i + 1] != slots[0];
    }
    assert forall i | 0 <= i < |slots[1..]| :: slots[1..][i] == slots[i + 1] != slots[0];
    assert slots[0] !in slots[1..];
  }

  lemma {:induction false} ChoiceRespectsDueDate(
    slots: seq<Slot>, nextDue: Date, interval: Interval, chosen: set<Id>, j: nat)
    requires Ordered(slots) && j < |slots| && Chooses(slots, nextDue, interval, chosen)
    ensures slots[j].meetingId in chosen <==>
            Eligible(slots[j]) && !Before(slots[j].date, DueAt(slots, chosen, nextDue, interval, j))
  {
    ChoiceOfTail(slots, nextDue, interval, chosen);
    if j > 0 {
      ChoiceRespectsDueDate(slots[1..], DueAfterFirst(slots, nextDue, interval), interval, chosen, j - 1);
    }
  }

  lemma FirstPreservedIsNext(slots: seq<Slot>, j: nat)
    requires j < |slots| && slots[j].preserved.Kept?
    requires forall k | 0 <= k < j :: slots[k].preserved.Nothing?
    ensures NextPreserved(slots) == [slots[j]]
  {
    if j > 0 {
      FirstPreservedIsNext(slots[1..], j - 1);
    }
  }

  lemma {:induction false} PreservedKeepsDistance(
    slots: seq<Slot>, nextDue: Date, interval: Interval, chosen: set<Id>, last: nat, j: nat)
    requires Ordered(slots) && last < j < |slots| && Chooses(slots, nextDue, interval, chosen)
    requires slots[last].meetingId in chosen && slots[j].preserved.Kept?
    requires forall k | last < k < j :: slots[k].preserved.Nothing?
    ensures !Before(slots[j].date, AddInterval(slots[last].date, interval))
  {
    ChoiceOfTail(slots, nextDue, interval, chosen);
    if last == 0 {
      FirstPreservedIsNext(slots[1..], j - 1);
    } else {
      PreservedKeepsDistance(slots[1..], DueAfterFirst(slots, nextDue, interval), interval, chosen, last - 1, j - 1);
    }
  }

  /** Everything the schedule promises about a meeting, given the previous occurrence of the topic
      (position -1 when there is none before it). */
  lemma ScheduleIsSound(
    slots: seq<Slot>, firstDue: Date, interval: Interval, chosen: set<Id>, last: int, j: nat)
    requires Ordered(slots) && Chooses(slots, firstDue, interval, chosen)
    requires -1 <= last < j < |slots|
    requires last >= 0 ==> Occurs(slots[last], chosen)
    requires forall k | last < k < j :: !Occurs(slots[k], chosen)
    ensures var due := if last == -1 then firstDue else AddInterval(slots[last].date, interval);
            && (slots[j].meetingId in chosen ==> Eligible(slots[j]) && !Before(slots[j].date, due))
            && (slots[j].meetingId !in chosen && Eligible(slots[j]) ==> Before(slots[j].date, due))
            && (slots[j].preserved.Kept? && last >= 0 && slots[last].meetingId in chosen ==>
                  !Before(slots[j].date, due))
  {
    ChoiceRespectsDueDate(slots, firstDue, interval, chosen, j);
    DueAtIsLastOccurrence(slots, chosen, firstDue, interval, last, j);
    if slots[j].preserved.Kept? && last >= 0 && slots[last].meetingId in chosen {
      PreservedKeepsDistance(slots, firstDue, interval, chosen, last, j);
    }
  }

  // ---------- when the planner reports a conflict ----------

  /** The choice without looking for conflicts. */
  function Unchecked(slots: seq<Slot>, nextDue: Date, interval: Interval): seq<Slot>
    requires forall i | 0 <= i < |slots| :: IsDate(slots[i].date)
  {
    if slots == [] then []
    else
      var slot, due := slots[0], AddInterval(slots[0].date, interval);
      if slot.preserved.Kept? then Unchecked(slots[1..], due, interval)
      else if Eligible(slot) && !Before(slot.date, nextDue) then [slot] + Unchecked(slots[1..], due, interval)
      else Unchecked(slots[1..], nextDue, interval)
  }

  lemma {:induction false} GreedyIsUnchecked(slots: seq<Slot>, nextDue: Date, interval: Interval)
    requires Ordered(slots) && Greedy(slots, nextDue, interval).Schedule?
    ensures Greedy(slots, nextDue, interval).slots == Unchecked(slots, nextDue, interval)
  {
    if slots != [] {
      GreedyIsUnchecked(slots[1..], DueAfterFirst(slots, nextDue, interval), interval);
    }
  }

  /** The last occurrence before position j was chosen, not preserved. */
  ghost predicate FollowsChosen(slots: seq<Slot>, chosen: set<Id>, start: bool, j: nat)
    requires j <= |slots|
  {
    if j == 0 then start
    else FollowsChosen(slots[1..], chosen, if Occurs(slots[0], chosen) then slots[0].preserved.Nothing?
                                           else start, j - 1)
  }

  lemma {:induction false} FollowsChosenIsLastOccurrence(slots: seq<Slot>, chosen: set<Id>, start: bool, last: int,
      j: nat)
    requires j <= |slots| && -1 <= last < j && (last >= 0 ==> Occurs(slots[last], chosen))
    requires forall k | last < k < j :: !Occurs(slots[k], chosen)
    ensures FollowsChosen(slots, chosen, start, j) == if last == -1 then start else slots[last].preserved.Nothing?
  {
    if j > 0 {
      var next := if Occurs(slots[0], chosen) then slots[0].preserved.Nothing? else start;
      FollowsChosenIsLastOccurrence(slots[1..], chosen, next, if last <= 0 then -1 else last - 1, j - 1);
    }
  }

  /** A preserved appearance is too early, and either a chosen meeting comes before it or it is itself an
      automatic appearance in a planned meeting. */
  ghost predicate TooEarly(slots: seq<Slot>, chosen: set<Id>, nextDue: Date, interval: Interval, start: bool, j: nat)
    requires j < |slots| && forall i | 0 <= i < |slots| :: IsDate(slots[i].date)
  {
    && slots[j].preserved.Kept? && Before(slots[j].date, DueAt(slots, chosen, nextDue, interval, j))
    && (FollowsChosen(slots, chosen, start, j) || (slots[j].preserved.source.Recurrence? && slots[j].planned))
  }

  ghost predicate PassChooses(slots: seq<Slot>, nextDue: Date, interval: Interval, chosen: set<Id>)
    requires Ordered(slots)
  {
    forall i | 0 <= i < |slots| :: slots[i].meetingId in chosen <==> slots[i] in Unchecked(slots, nextDue, interval)
  }

  lemma {:induction false} UncheckedSelects(slots: seq<Slot>, nextDue: Date, interval: Interval)
    requires Ordered(slots)
    ensures forall slot | slot in Unchecked(slots, nextDue, interval) :: slot in slots
  {
    if slots != [] {
      UncheckedSelects(slots[1..], DueAfterFirst(slots, nextDue, interval), interval);
    }
  }

  lemma PassOfTail(slots: seq<Slot>, nextDue: Date, interval: Interval, chosen: set<Id>)
    requires Ordered(slots) && slots != [] && PassChooses(slots, nextDue, interval, chosen)
    ensures PassChooses(slots[1..], DueAfterFirst(slots, nextDue, interval), interval, chosen)
    ensures slots[0].meetingId in chosen <==> Eligible(slots[0]) && !Before(slots[0].date, nextDue)
  {
    var due := DueAfterFirst(slots, nextDue, interval);
    UncheckedSelects(slots[1..], due, interval);
    forall i | 0 <= i < |slots[1..]|
      ensures slots[1..][i].meetingId in chosen <==> slots[1..][i] in Unchecked(slots[1..], due, interval)
    {
      assert slots[1..][i] == slots[i + 1] != slots[0];
    }
    assert forall i | 0 <= i < |slots[1..]| :: slots[1..][i] == slots[i + 1] != slots[0];
    assert slots[0] !in slots[1..];
  }

  ghost predicate NextIsTooEarly(slots: seq<Slot>, due: Date) {
    NextPreserved(slots) != [] && Before(NextPreserved(slots)[0].date, due)
  }

  lemma {:induction false} NextPreservedIsThere(slots: seq<Slot>)
    ensures forall slot | slot in NextPreserved(slots) :: slot in slots
  {
    if slots != [] && slots[0].preserved.Nothing? {
      NextPreservedIsThere(slots[1..]);
    }
  }

  ghost predicate AnyTooEarly(slots: seq<Slot>, chosen: set<Id>, nextDue: Date, interval: Interval, start: bool)
    requires forall i | 0 <= i < |slots| :: IsDate(slots[i].date)
  {
    exists j | 0 <= j < |slots| :: TooEarly(slots, chosen, nextDue, interval, start, j)
  }

  lemma TooEarlyInTail(slots: seq<Slot>, chosen: set<Id>, nextDue: Date, interval: Interval, start: bool)
    requires Ordered(slots) && slots != []
    ensures var due := if Occurs(slots[0], chosen) then AddInterval(slots[0].date, interval) else nextDue;
            var next := if Occurs(slots[0], chosen) then slots[0].preserved.Nothing? else start;
            AnyTooEarly(slots, chosen, nextDue, interval, start) <==>
            TooEarly(slots, chosen, nextDue, interval, start, 0) || AnyTooEarly(slots[1..], chosen, due, interval, next)
  {
    var due := if Occurs(slots[0], chosen) then AddInterval(slots[0].date, interval) else nextDue;
    var next := if Occurs(slots[0], chosen) then slots[0].preserved.Nothing? else start;
    forall j | 0 < j < |slots|
      ensures TooEarly(slots, chosen, nextDue, interval, start, j) ==
              TooEarly(slots[1..], chosen, due, interval, next, j - 1)
    {
    }
    if j :| 0 <= j < |slots[1..]| && TooEarly(slots[1..], chosen, due, interval, next, j) {
      assert TooEarly(slots, chosen, nextDue, interval, start, j + 1);
    }
  }

  lemma {:induction false} ConflictFrom(slots: seq<Slot>, nextDue: Date, interval: Interval, start: bool,
                                        chosen: set<Id>)
    requires Ordered(slots) && PassChooses(slots, nextDue, interval, chosen)
    ensures Greedy(slots, nextDue, interval).Conflict? || (start && NextIsTooEarly(slots, nextDue)) <==>
            AnyTooEarly(slots, chosen, nextDue, interval, start)
  {
    if slots != [] {
      var slot, later, due := slots[0], slots[1..], DueAfterFirst(slots, nextDue, interval);
      PassOfTail(slots, nextDue, interval, chosen);
      TooEarlyInTail(slots, chosen, nextDue, interval, start);
      hide AnyTooEarly, PassChooses;
      if slot.preserved.Kept? {
        ConflictFrom(later, due, interval, false, chosen);
      } else if Eligible(slot) && !Before(slot.date, nextDue) {
        ConflictFrom(later, due, interval, true, chosen);
        NextPreservedIsThere(later);
        assert NextPreserved(later) != [] ==> NextPreserved(later)[0] in later;
      } else {
        ConflictFrom(later, nextDue, interval, start, chosen);
      }
    }
  }

  lemma {:induction false} PassRespectsDueDate(
    slots: seq<Slot>, nextDue: Date, interval: Interval, chosen: set<Id>, j: nat)
    requires Ordered(slots) && j < |slots| && PassChooses(slots, nextDue, interval, chosen)
    ensures slots[j].meetingId in chosen <==>
            Eligible(slots[j]) && !Before(slots[j].date, DueAt(slots, chosen, nextDue, interval, j))
  {
    PassOfTail(slots, nextDue, interval, chosen);
    if j > 0 {
      PassRespectsDueDate(slots[1..], DueAfterFirst(slots, nextDue, interval), interval, chosen, j - 1);
    }
  }

  /** The topic takes place at position last and then not before j; -1 when it takes place nowhere before j. */
  ghost predicate IsPrevious(slots: seq<Slot>, chosen: set<Id>, last: int, j: nat)
    requires j < |slots|
  {
    -1 <= last < j && (last >= 0 ==> Occurs(slots[last], chosen)) && forall k | last < k < j ::
        !Occurs(slots[k], chosen)
  }

  function DueAfter(slots: seq<Slot>, firstDue: Date, interval: Interval, last: int): Date
    requires -1 <= last < |slots| && forall i | 0 <= i < |slots| :: IsDate(slots[i].date)
  {
    if last == -1 then firstDue else AddInterval(slots[last].date, interval)
  }

  /** A meeting is chosen if and only if it is eligible and not before the due date after the previous occurrence. */
  ghost predicate IsChoice(slots: seq<Slot>, firstDue: Date, interval: Interval, chosen: set<Id>)
    requires forall i | 0 <= i < |slots| :: IsDate(slots[i].date)
  {
    forall last, j | 0 <= j < |slots| && IsPrevious(slots, chosen, last, j) ::
      slots[j].meetingId in chosen <==>
        Eligible(slots[j]) && !Before(slots[j].date, DueAfter(slots, firstDue, interval, last))
  }

  lemma {:induction false} PreviousExists(slots: seq<Slot>, chosen: set<Id>, j: nat) returns (last: int)
    requires j < |slots|
    ensures IsPrevious(slots, chosen, last, j)
  {
    last := -1;
    if k :| 0 <= k < j && Occurs(slots[k], chosen) && forall i | k < i < j :: !Occurs(slots[i], chosen) {
      last := k;
    } else {
      NoLastMeansNone(slots, chosen, j, j);
    }
  }

  lemma {:induction false} NoLastMeansNone(slots: seq<Slot>, chosen: set<Id>, j: nat, n: nat)
    requires n <= j < |slots|
    requires forall k | 0 <= k < j && Occurs(slots[k], chosen) :: exists i :: k < i < j && Occurs(slots[i], chosen)
    ensures forall i | j - n <= i < j :: !Occurs(slots[i], chosen)
  {
    if n > 0 {
      NoLastMeansNone(slots, chosen, j, n - 1);
    }
  }

  /** Two choices agree on every prefix. */
  lemma {:induction false} OneChoice(slots: seq<Slot>, firstDue: Date, interval: Interval, left: set<Id>,
                                     right: set<Id>, n: nat)
    requires Ordered(slots) && n <= |slots|
    requires IsChoice(slots, firstDue, interval, left) && IsChoice(slots, firstDue, interval, right)
    ensures forall i | 0 <= i < n :: slots[i].meetingId in left <==> slots[i].meetingId in right
  {
    if n > 0 {
      OneChoice(slots, firstDue, interval, left, right, n - 1);
      var last := PreviousExists(slots, left, n - 1);
      assert IsPrevious(slots, left, last, n - 1) && IsPrevious(slots, right, last, n - 1);
    }
  }

  /** A preserved appearance is too early after the previous occurrence, which was chosen, unless the appearance is an
      automatic one in a planned meeting. */
  ghost predicate Conflicts(slots: seq<Slot>, firstDue: Date, interval: Interval, chosen: set<Id>, last: int, j: nat)
    requires j < |slots| && forall i | 0 <= i < |slots| :: IsDate(slots[i].date)
  {
    && IsPrevious(slots, chosen, last, j) && slots[j].preserved.Kept?
    && Before(slots[j].date, DueAfter(slots, firstDue, interval, last))
    && ((last >= 0 && slots[last].preserved.Nothing?) || (slots[j].preserved.source.Recurrence? && slots[j].planned))
  }

  lemma TooEarlyIsConflict(slots: seq<Slot>, firstDue: Date, interval: Interval, chosen: set<Id>, last: int, j: nat)
    requires Ordered(slots) && j < |slots| && IsPrevious(slots, chosen, last, j)
    ensures TooEarly(slots, chosen, firstDue, interval, false, j) <==>
            Conflicts(slots, firstDue, interval, chosen, last, j)
  {
    DueAtIsLastOccurrence(slots, chosen, firstDue, interval, last, j);
    FollowsChosenIsLastOccurrence(slots, chosen, false, last, j);
  }

  lemma PassIsChoice(slots: seq<Slot>, firstDue: Date, interval: Interval)
    requires Ordered(slots)
    ensures PassChooses(slots, firstDue, interval, ChosenIds(Unchecked(slots, firstDue, interval)))
    ensures IsChoice(slots, firstDue, interval, ChosenIds(Unchecked(slots, firstDue, interval)))
  {
    var pass := Unchecked(slots, firstDue, interval);
    var chosen := ChosenIds(pass);
    UncheckedSelects(slots, firstDue, interval);
    forall i | 0 <= i < |slots| ensures slots[i].meetingId in chosen <==> slots[i] in pass {
      if slots[i].meetingId in chosen {
        var k :| 0 <= k < |pass| && pass[k].meetingId == slots[i].meetingId;
        assert pass[k] in slots;
      }
    }
    forall last, j | 0 <= j < |slots| && IsPrevious(slots, chosen, last, j)
      ensures slots[j].meetingId in chosen <==>
              Eligible(slots[j]) && !Before(slots[j].date, DueAfter(slots, firstDue, interval, last))
    {
      PassRespectsDueDate(slots, firstDue, interval, chosen, j);
      DueAtIsLastOccurrence(slots, chosen, firstDue, interval, last, j);
    }
  }

  lemma SameChoiceSamePrevious(slots: seq<Slot>, left: set<Id>, right: set<Id>, last: int, j: nat)
    requires j < |slots| && forall i | 0 <= i < |slots| :: slots[i].meetingId in left <==> slots[i].meetingId in right
    ensures IsPrevious(slots, left, last, j) <==> IsPrevious(slots, right, last, j)
  {
    assert forall i | 0 <= i < |slots| :: Occurs(slots[i], left) <==> Occurs(slots[i], right);
  }

  /** The planner reports a conflict if and only if, of the one choice that follows the due dates, some preserved
      appearance comes too early after the previous occurrence of the topic, where either that occurrence was chosen or
      the appearance is an automatic one in a planned meeting. Otherwise it schedules exactly that choice. */
  lemma ConflictExactly(slots: seq<Slot>, firstDue: Date, interval: Interval, chosen: set<Id>)
    requires Ordered(slots) && IsChoice(slots, firstDue, interval, chosen)
    ensures Greedy(slots, firstDue, interval).Conflict? <==>
            exists last, j :: 0 <= j < |slots| && Conflicts(slots, firstDue, interval, chosen, last, j)
    ensures Greedy(slots, firstDue, interval).Schedule? ==>
              forall i | 0 <= i < |slots| ::
                slots[i] in Greedy(slots, firstDue, interval).slots <==> slots[i].meetingId in chosen
  {
    var pass := ChosenIds(Unchecked(slots, firstDue, interval));
    PassIsChoice(slots, firstDue, interval);
    OneChoice(slots, firstDue, interval, pass, chosen, |slots|);
    ConflictFrom(slots, firstDue, interval, false, pass);
    hide Greedy, Unchecked, IsChoice, ChosenIds, TooEarly, DueAfter;
    forall last, j | 0 <= j < |slots|
      ensures Conflicts(slots, firstDue, interval, pass, last, j) <==>
              Conflicts(slots, firstDue, interval, chosen, last, j)
    {
      SameChoiceSamePrevious(slots, pass, chosen, last, j);
    }
    forall j | 0 <= j < |slots|
      ensures TooEarly(slots, pass, firstDue, interval, false, j) <==>
              exists last :: Conflicts(slots, firstDue, interval, pass, last, j)
    {
      var previous := PreviousExists(slots, pass, j);
      TooEarlyIsConflict(slots, firstDue, interval, pass, previous, j);
      if last :| Conflicts(slots, firstDue, interval, pass, last, j) {
        TooEarlyIsConflict(slots, firstDue, interval, pass, last, j);
      }
    }
    if Greedy(slots, firstDue, interval).Conflict? {
      var j :| 0 <= j < |slots| && TooEarly(slots, pass, firstDue, interval, false, j);
      var last :| Conflicts(slots, firstDue, interval, pass, last, j);
      assert Conflicts(slots, firstDue, interval, chosen, last, j);
    } else {
      GreedyIsUnchecked(slots, firstDue, interval);
      forall last, j | 0 <= j < |slots| ensures !Conflicts(slots, firstDue, interval, chosen, last, j) {
        assert !TooEarly(slots, pass, firstDue, interval, false, j);
        assert !Conflicts(slots, firstDue, interval, pass, last, j);
      }
    }
  }

  /** There is such a choice. */
  lemma ChoiceExists(slots: seq<Slot>, firstDue: Date, interval: Interval)
    requires Ordered(slots)
    ensures exists chosen :: IsChoice(slots, firstDue, interval, chosen)
  {
    PassIsChoice(slots, firstDue, interval);
  }
}
