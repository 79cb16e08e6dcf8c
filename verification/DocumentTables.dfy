/** The document, snapshot and update rows changed in place
    (backend/src/meetings/meeting-document.service.ts). Each method is one transaction. */
module DocumentTables {
  import opened Options
  import opened DocumentLog
  import opened DocumentHistory

  datatype Stored = Stored(update: Update, duplicate: bool) | Failed(error: Error)

  class Tables {
    var status: Option<Status>
    var documentId: Option<Id>
    var activeSnapshotId: Option<Id>
    var currentSequence: nat
    var completedSequence: Option<nat>
    var snapshots: map<Id, Snapshot>
    var updates: seq<Update>

    /** The active snapshot is stored, and its clocks are in order. */
    ghost predicate Valid()
      reads this
    {
      activeSnapshotId.Some? ==>
        && documentId.Some? && activeSnapshotId.value in snapshots
        && snapshots[activeSnapshotId.value].id == activeSnapshotId.value
        && IsClockList(snapshots[activeSnapshotId.value].coveredClocks)
    }

    ghost function View(): Workspace
      requires Valid()
      reads this
    {
      Workspace(status, if activeSnapshotId.None? then None
                        else Some(Document(documentId.value, currentSequence, completedSequence,
                                           snapshots[activeSnapshotId.value], updates)))
    }

    method CreateInitial(access: Access, id: Id, snapshotId: Id,
                         envelope: SnapshotEnvelope) returns (error: Option<Error>)
      requires Valid() && documentId.None?
      modifies this
      ensures Valid() && status == old(status)
      ensures var created := DocumentLog.CreateInitial(access, id, snapshotId, envelope);
              error == created.1 && View().document == created.0
    {
      if !access.contentUser {
        return Some(Forbidden);
      }
      if !envelope.decodes {
        return Some(EnvelopeInvalid);
      }
      if !access.epochWritable {
        return Some(EpochInvalid);
      }
      if envelope.documentId != id || envelope.snapshotId != snapshotId || envelope.ockId != access.ockId {
        return Some(ContextInvalid);
      }
      if !envelope.authentic || !IsClockList(envelope.coveredClocks) {
        return Some(EnvelopeInvalid);
      }
      if envelope.parentId != ROOT_SNAPSHOT || envelope.coveredSequence != 0 || |envelope.coveredClocks| != 0
         || envelope.parentDigest != NO_DIGEST {
        return Some(SnapshotParentInvalid);
      }
      documentId, currentSequence, completedSequence, updates := Some(id), 0, None, [];
      snapshots := map[snapshotId := Snapshot(snapshotId, 0, [], envelope)];
      activeSnapshotId := Some(snapshotId);
      return None;
    }

    method FindUpdate(epoch: Id, clock: nat) returns (found: Option<Update>)
      ensures found == Find(updates, epoch, clock)
    {
      var index := 0;
      while index < |updates|
        invariant index <= |updates|
        invariant Find(updates, epoch, clock) == Find(updates[index..], epoch, clock)
      {
        assert updates[index..][1..] == updates[index + 1..];
        if updates[index].epoch == epoch && updates[index].clock == clock {
          return Some(updates[index]);
        }
        index := index + 1;
      }
      return None;
    }

    method LatestClock(epoch: Id) returns (latest: Option<nat>)
      ensures latest == Latest(updates, epoch)
    {
      latest := None;
      var index := |updates|;
      while index > 0
        invariant 0 <= index <= |updates|
        invariant latest == Latest(updates[index..], epoch)
      {
        index := index - 1;
        assert updates[index..][1..] == updates[index + 1..];
        if updates[index].epoch == epoch && (latest.None? || latest.value < updates[index].clock) {
          latest := Some(updates[index].clock);
        }
      }
      assert updates[0..] == updates;
    }

    /** The author's clock in the snapshot's list, zero when it is not listed. */
    method CoveredClock(clocks: seq<(Id, nat)>, epoch: Id) returns (clock: nat)
      requires IsClockList(clocks)
      ensures clock == ClockAt(ClocksOf(clocks), epoch)
    {
      var index := 0;
      while index < |clocks|
        invariant index <= |clocks|
        invariant forall k | 0 <= k < index :: clocks[k].0 != epoch
      {
        if clocks[index].0 == epoch {
          ListedClock(clocks, index);
          return clocks[index].1;
        }
        index := index + 1;
      }
      UnlistedClock(clocks, epoch);
      return 0;
    }

    method AppendUpdate(access: Access, envelope: UpdateEnvelope) returns (result: Stored)
      requires Valid()
      modifies this`currentSequence, this`updates
      ensures Valid()
      ensures match DocumentLog.AppendUpdate(old(View()), access, envelope)
              case Accepted(document, update) =>
                result == Stored(update, false) && View() == old(View()).(document := Some(document))
              case Duplicate(update) => result == Stored(update, true) && View() == old(View())
              case Rejected(error) => result == Failed(error) && View() == old(View())
    {
      var refusal := RefusalOfUpdate(access, envelope);
      if refusal.Some? {
        return Failed(refusal.value);
      }
      var snapshot := snapshots[activeSnapshotId.value];
      var existing := FindUpdate(envelope.epoch, envelope.clock);
      var latest := LatestClock(envelope.epoch);
      var covered := CoveredClock(snapshot.coveredClocks, envelope.epoch);
      if existing.Some? {
        if existing.value.envelope != envelope {
          return Failed(CounterReuse);
        }
        if latest != Some(existing.value.clock) {
          return Failed(UpdateReplay);
        }
        return Stored(existing.value, true);
      }
      if envelope.clock != (if latest.Some? then latest.value else covered) + 1 {
        return Failed(ClockGap);
      }
      currentSequence := currentSequence + 1;
      var update := Update(currentSequence, snapshot.id, envelope.epoch, envelope.clock, envelope);
      updates := updates + [update];
      return Stored(update, false);
    }

    method RefusalOfUpdate(access: Access, envelope: UpdateEnvelope) returns (refusal: Option<Error>)
      requires Valid()
      ensures refusal == UpdateRefusal(View(), access, envelope)
      ensures refusal.None? ==> activeSnapshotId.Some?
    {
      if !access.contentUser {
        return Some(Forbidden);
      }
      if status.None? {
        return Some(NotFound);
      }
      if status.value == Completed {
        return Some(MeetingCompleted);
      }
      if activeSnapshotId.None? {
        return Some(WorkspaceUnavailable);
      }
      if !envelope.decodes {
        return Some(EnvelopeInvalid);
      }
      if !access.epochWritable {
        return Some(EpochInvalid);
      }
      if envelope.documentId != documentId.value || envelope.snapshotId != activeSnapshotId.value
          || envelope.ockId != access.ockId {
        return Some(ContextInvalid);
      }
      return if !envelope.authentic || envelope.clock == 0 then Some(EnvelopeInvalid) else None;
    }

    /** Clocks of the parent snapshot raised by every stored update, in the order of their authors. */
    method ExpectedClocks(parent: Snapshot) returns (expected: seq<(Id, nat)>)
      requires IsClockList(parent.coveredClocks)
      ensures IsClockList(expected) && ClocksOf(expected) == Folded(ClocksOf(parent.coveredClocks), updates)
    {
      var clocks := ClocksOf(parent.coveredClocks);
      ListedArePositive(parent.coveredClocks);
      var index := 0;
      while index < |updates|
        invariant index <= |updates|
        invariant clocks == Folded(ClocksOf(parent.coveredClocks), updates[..index])
        invariant forall epoch | epoch in clocks :: clocks[epoch] > 0
      {
        var update := updates[index];
        assert updates[..index + 1][..index] == updates[..index];
        var current := if update.epoch in clocks then clocks[update.epoch] else 0;
        if update.clock > current {
          clocks := clocks[update.epoch := update.clock];
        }
        index := index + 1;
      }
      assert updates[..index] == updates;
      expected := Sorted(clocks);
    }

    method Compact(access: Access, snapshotId: Id, envelope: SnapshotEnvelope, expectedSequence: Option<nat>)
      returns (error: Option<Error>)
      requires Valid()
      modifies this`activeSnapshotId, this`snapshots, this`updates
      ensures Valid()
      ensures match DocumentLog.Compact(old(View()), access, snapshotId, envelope, expectedSequence)
              case Compacted(document) => error == None && View() == old(View()).(document := Some(document))
              case NotCompacted(refused) => error == Some(refused) && View() == old(View())
    {
      error := RefusalOfSnapshot(access, snapshotId, envelope);
      if error.Some? {
        return;
      }
      var parent := snapshots[activeSnapshotId.value];
      var expected := ExpectedClocks(parent);
      if envelope.coveredClocks != expected && ClocksOf(envelope.coveredClocks) == ClocksOf(expected) {
        OneList(envelope.coveredClocks, expected);
      }
      if envelope.parentId != activeSnapshotId.value || envelope.parentDigest != parent.envelope.digest
         || envelope.coveredSequence != currentSequence
         || (expectedSequence.Some? && envelope.coveredSequence != expectedSequence.value)
         || envelope.coveredClocks != expected {
        return Some(SnapshotParentInvalid);
      }
      snapshots := snapshots[snapshotId := Snapshot(snapshotId, envelope.coveredSequence, envelope.coveredClocks,
                                                    envelope)];
      activeSnapshotId := Some(snapshotId);
      updates := [];
      snapshots := map id | id in snapshots && id == snapshotId :: snapshots[id];
    }

    method RefusalOfSnapshot(access: Access, snapshotId: Id,
                             envelope: SnapshotEnvelope) returns (refusal: Option<Error>)
      requires Valid()
      ensures refusal == SnapshotRefusal(View(), access, snapshotId, envelope)
      ensures refusal.None? ==> activeSnapshotId.Some? && IsClockList(envelope.coveredClocks)
    {
      if !access.contentUser {
        return Some(Forbidden);
      }
      if status.None? {
        return Some(NotFound);
      }
      if status.value == Completed {
        return Some(MeetingCompleted);
      }
      if activeSnapshotId.None? {
        return Some(WorkspaceUnavailable);
      }
      if !envelope.decodes {
        return Some(EnvelopeInvalid);
      }
      if !access.epochWritable {
        return Some(EpochInvalid);
      }
      if envelope.documentId != documentId.value || envelope.snapshotId != snapshotId
          || envelope.ockId != access.ockId {
        return Some(ContextInvalid);
      }
      return if !envelope.authentic || !IsClockList(envelope.coveredClocks) then Some(EnvelopeInvalid) else None;
    }
  }

  predicate IsLeast(keys: set<Id>, least: Id) {
    least in keys && forall other | other in keys :: least <= other
  }

  predicate AllBelow(list: seq<(Id, nat)>, epoch: Id) {
    forall i | 0 <= i < |list| :: list[i].0 < epoch
  }

  /** The entries of a map in ascending order. */
  method Sorted(clocks: Clocks) returns (list: seq<(Id, nat)>)
    requires forall epoch | epoch in clocks :: clocks[epoch] > 0
    ensures IsClockList(list) && ClocksOf(list) == clocks
  {
    list := [];
    var rest := clocks.Keys;
    while rest != {}
      invariant rest <= clocks.Keys && IsClockList(list)
      invariant ClocksOf(list) == clocks - rest
      invariant forall epoch | epoch in rest :: AllBelow(list, epoch)
      decreases |rest|
    {
      hide IsClockList, ClocksOf, IsLeast, AllBelow;
      LeastExists(rest);
      var next :| IsLeast(rest, next);
      assert next in rest by { LeastIsIn(rest, next); }
      ExtendedList(list, next, clocks[next]);
      ExtendedClocks(clocks, list, rest, next);
      forall epoch | epoch in rest - {next} ensures AllBelow(list + [(next, clocks[next])], epoch) {
        NextIsBelow(list, rest, next, clocks[next], epoch);
      }
      list, rest := list + [(next, clocks[next])], rest - {next};
    }
    assert clocks - {} == clocks;
  }

  lemma LeastIsIn(keys: set<Id>, least: Id)
    requires IsLeast(keys, least)
    ensures least in keys
  {
  }

  lemma NextIsBelow(list: seq<(Id, nat)>, rest: set<Id>, next: Id, clock: nat, epoch: Id)
    requires IsLeast(rest, next) && epoch in rest && epoch != next && AllBelow(list, epoch)
    ensures AllBelow(list + [(next, clock)], epoch)
  {
  }

  lemma ExtendedList(list: seq<(Id, nat)>, next: Id, clock: nat)
    requires IsClockList(list) && AllBelow(list, next) && clock > 0
    ensures IsClockList(list + [(next, clock)])
  {
  }

  lemma ExtendedClocks(clocks: Clocks, list: seq<(Id, nat)>, rest: set<Id>, next: Id)
    requires ClocksOf(list) == clocks - rest && next in rest && next in clocks
    ensures ClocksOf(list + [(next, clocks[next])]) == clocks - (rest - {next})
  {
    assert (list + [(next, clocks[next])])[..|list|] == list;
  }

  lemma LeastExists(keys: set<Id>)
    requires keys != {}
    ensures exists least :: IsLeast(keys, least)
  {
    var key :| key in keys;
    var rest, least := keys - {key}, key;
    if rest != {} {
      LeastExists(rest);
      var next :| IsLeast(rest, next);
      least := if key < next then key else next;
    }
    forall other | other in keys ensures least <= other {
      assert other == key || other in rest;
    }
    assert IsLeast(keys, least);
  }

  lemma {:induction false} ListedClock(clocks: seq<(Id, nat)>, i: nat)
    requires IsClockList(clocks) && i < |clocks|
    ensures clocks[i].0 in ClocksOf(clocks) && ClocksOf(clocks)[clocks[i].0] == clocks[i].1
  {
    if i < |clocks| - 1 {
      ListedClock(clocks[..|clocks| - 1], i);
    }
  }

  lemma {:induction false} UnlistedClock(clocks: seq<(Id, nat)>, epoch: Id)
    requires forall i | 0 <= i < |clocks| :: clocks[i].0 != epoch
    ensures epoch !in ClocksOf(clocks)
  {
    if clocks != [] {
      UnlistedClock(clocks[..|clocks| - 1], epoch);
    }
  }

  lemma {:induction false} ListedArePositive(clocks: seq<(Id, nat)>)
    requires IsClockList(clocks)
    ensures forall epoch | epoch in ClocksOf(clocks) :: ClocksOf(clocks)[epoch] > 0 && exists i ::
        0 <= i < |clocks| && clocks[i].0 == epoch
  {
    if clocks != [] {
      var front := clocks[..|clocks| - 1];
      ListedArePositive(front);
      forall epoch | epoch in ClocksOf(clocks) ensures exists i :: 0 <= i < |clocks| && clocks[i].0 == epoch {
        if epoch in ClocksOf(front) {
          var i :| 0 <= i < |front| && front[i].0 == epoch;
          assert clocks[i].0 == epoch;
        } else {
          assert clocks[|clocks| - 1].0 == epoch;
        }
      }
    }
  }

  /** Two ordered lists of the same clocks are the same list. */
  lemma {:induction false} OneList(left: seq<(Id, nat)>, right: seq<(Id, nat)>)
    requires IsClockList(left) && IsClockList(right) && ClocksOf(left) == ClocksOf(right)
    ensures left == right
  {
    if left == [] {
      if right != [] {
        ListedClock(right, 0);
      }
    } else {
      var i := LastOf(left, right);
      var l, r := left[..|left| - 1], right[..|right| - 1];
      UnlistedClock(l, left[|left| - 1].0);
      UnlistedClock(r, right[|right| - 1].0);
      assert ClocksOf(l) == ClocksOf(left) - {left[|left| - 1].0};
      assert ClocksOf(r) == ClocksOf(right) - {right[|right| - 1].0};
      OneList(l, r);
      assert left == l + [left[|left| - 1]] && right == r + [right[|right| - 1]];
    }
  }

  lemma LastOf(left: seq<(Id, nat)>, right: seq<(Id, nat)>) returns (i: nat)
    requires IsClockList(left) && IsClockList(right) && ClocksOf(left) == ClocksOf(right) && left != []
    ensures right != [] && left[|left| - 1] == right[|right| - 1]
  {
    i := |left| - 1;
    ListedClock(left, i);
    ListedArePositive(right);
    var j :| 0 <= j < |right| && right[j].0 == left[i].0;
    ListedClock(right, |right| - 1);
    ListedClock(right, j);
    ListedArePositive(left);
    var k :| 0 <= k < |left| && left[k].0 == right[|right| - 1].0;
    ListedClock(left, k);
  }
}
