/** The log against the history of everything ever accepted (backend/src/meetings/meeting-document.service.ts):
    entry i of the history is the envelope that was given server sequence i + 1. */
module DocumentHistory {
  import opened Options
  import opened DocumentLog

  type History = seq<UpdateEnvelope>

  /** How many updates of an author have been accepted. */
  function Count(history: History, epoch: Id): nat {
    if history == [] then 0
    else Count(history[..|history| - 1], epoch) + (if history[|history| - 1].epoch == epoch then 1 else 0)
  }

  /** Every author's clocks are 1, 2, 3, ... in the order of acceptance. */
  predicate ClocksAreSequential(history: History) {
    forall i | 0 <= i < |history| :: history[i].clock == Count(history[..i], history[i].epoch) + 1
  }

  /** A clock map records the counts of a history. */
  ghost predicate Records(clocks: Clocks, history: History) {
    && (forall epoch :: ClockAt(clocks, epoch) == Count(history, epoch))
    && (forall epoch | epoch in clocks :: clocks[epoch] > 0)
  }

  /** The stored updates are the tail of the history after the snapshot. */
  predicate StoresTail(document: Document, history: History) {
    && |history| == document.currentSequence && document.snapshot.coveredSequence <= |history|
    && |document.updates| == |history| - document.snapshot.coveredSequence
    && forall i | 0 <= i < |document.updates| ::
         && document.updates[i].serverSequence == document.snapshot.coveredSequence + i + 1
         && document.updates[i].snapshotId == document.snapshot.id
         && document.updates[i].envelope == history[document.snapshot.coveredSequence + i]
         && document.updates[i].epoch == document.updates[i].envelope.epoch
         && document.updates[i].clock == document.updates[i].envelope.clock
  }

  ghost predicate LogShape(document: Document, history: History) {
    && StoresTail(document, history) && ClocksAreSequential(history)
    && IsClockList(document.snapshot.coveredClocks)
    && Records(ClocksOf(document.snapshot.coveredClocks), history[..document.snapshot.coveredSequence])
  }

  // ---------- counting ----------

  lemma {:induction false} CountGrows(history: History, shorter: nat, epoch: Id)
    requires shorter <= |history|
    ensures Count(history[..shorter], epoch) <= Count(history, epoch) <= Count(history[..shorter],
                                                                               epoch) + |history| - shorter
  {
    if shorter == |history| {
      assert history[..shorter] == history;
    } else {
      CountGrows(history[..|history| - 1], shorter, epoch);
      assert history[..|history| - 1][..shorter] == history[..shorter];
    }
  }

  /** Among the updates of one author a later one has the larger clock. */
  lemma ClocksIncrease(history: History, i: nat, j: nat)
    requires ClocksAreSequential(history) && i < j < |history| && history[i].epoch == history[j].epoch
    ensures history[i].clock < history[j].clock
  {
    CountGrows(history[..j], i + 1, history[i].epoch);
    assert history[..j][..i + 1] == history[..i + 1] && history[..i + 1][..i] == history[..i];
  }

  /** A clock that was given out stands at exactly one place. */
  lemma {:induction false} ClockWasGiven(history: History, epoch: Id, clock: nat) returns (i: nat)
    requires ClocksAreSequential(history) && 1 <= clock <= Count(history, epoch)
    ensures i < |history| && history[i].epoch == epoch && history[i].clock == clock
    ensures Count(history[..i], epoch) == clock - 1
  {
    var front := history[..|history| - 1];
    if clock <= Count(front, epoch) {
      assert forall k | 0 <= k < |front| :: front[..k] == history[..k];
      i := ClockWasGiven(front, epoch, clock);
      assert front[..i] == history[..i];
    } else {
      i := |history| - 1;
    }
  }

  lemma GivenClocksAreSmall(history: History, i: nat)
    requires ClocksAreSequential(history) && i < |history|
    ensures 1 <= history[i].clock <= Count(history, history[i].epoch)
  {
    CountGrows(history, i + 1, history[i].epoch);
    assert history[..i + 1][..i] == history[..i];
  }

  /** The stored clocks of an author are those above its covered clock. */
  lemma StoredClocks(document: Document, history: History, i: nat)
    requires LogShape(document, history) && i < |document.updates|
    ensures var update := document.updates[i];
            ClockAt(ClocksOf(document.snapshot.coveredClocks), update.epoch) < update.clock <= Count(history, update.epoch)
  {
    var at := document.snapshot.coveredSequence + i;
    GivenClocksAreSmall(history, at);
    CountGrows(history[..at], document.snapshot.coveredSequence, history[at].epoch);
    assert history[..at][..document.snapshot.coveredSequence] == history[..document.snapshot.coveredSequence];
  }

  // ---------- the queries of the log ----------

  lemma {:induction false} FindMeans(updates: seq<Update>, epoch: Id, clock: nat)
    ensures var found := Find(updates, epoch, clock);
            && (found.Some? ==> exists i ::
                  0 <= i < |updates| && updates[i] == found.value && updates[i].epoch == epoch && updates[i].clock == clock)
            && (found.None? ==> forall i | 0 <= i < |updates| :: updates[i].epoch != epoch || updates[i].clock != clock)
  {
    if updates != [] && !(updates[0].epoch == epoch && updates[0].clock == clock) {
      FindMeans(updates[1..], epoch, clock);
      var found := Find(updates, epoch, clock);
      if found.Some? {
        var i :| 0 <= i < |updates[1..]| && updates[1..][i] == found.value && updates[1..][i].epoch == epoch
            && updates[1..][i].clock == clock;
        assert updates[i + 1] == found.value;
      } else {
        assert forall i | 1 <= i < |updates| :: updates[i] == updates[1..][i - 1];
      }
    }
  }

  lemma {:induction false} LatestMeans(updates: seq<Update>, epoch: Id)
    ensures var latest := Latest(updates, epoch);
            && (latest.Some? ==> exists i ::
                  0 <= i < |updates| && updates[i].epoch == epoch && updates[i].clock == latest.value)
            && (forall i | 0 <= i < |updates| && updates[i].epoch == epoch ::
                  latest.Some? && updates[i].clock <= latest.value)
  {
    if updates != [] {
      LatestMeans(updates[1..], epoch);
      var rest, latest := Latest(updates[1..], epoch), Latest(updates, epoch);
      assert forall i | 1 <= i < |updates| :: updates[i] == updates[1..][i - 1];
      if latest.Some? {
        if latest == rest {
          var i :| 0 <= i < |updates[1..]| && updates[1..][i].epoch == epoch && updates[1..][i].clock == rest.value;
          assert updates[i + 1].epoch == epoch && updates[i + 1].clock == latest.value;
        } else {
          assert updates[0].epoch == epoch && updates[0].clock == latest.value;
        }
      }
    }
  }

  /** A clock above the covered one is stored, under the envelope it was given to. */
  lemma ClockIsStored(document: Document, history: History, epoch: Id, clock: nat) returns (i: nat)
    requires LogShape(document, history)
    requires ClockAt(ClocksOf(document.snapshot.coveredClocks), epoch) < clock <= Count(history, epoch)
    ensures i < |document.updates| && document.updates[i].epoch == epoch && document.updates[i].clock == clock
  {
    var covered := document.snapshot.coveredSequence;
    var at := ClockWasGiven(history, epoch, clock);
    if at < covered {
      EarlyClockIsCovered(history, at, covered);
    }
    i := at - covered;
  }

  lemma EarlyClockIsCovered(history: History, at: nat, covered: nat)
    requires ClocksAreSequential(history) && at < covered <= |history|
    ensures history[at].clock <= Count(history[..covered], history[at].epoch)
  {
    CountGrows(history[..covered], at + 1, history[at].epoch);
    assert history[..covered][..at + 1] == history[..at + 1] && history[..at + 1][..at] == history[..at];
  }

  lemma SameClockSameUpdate(document: Document, history: History, i: nat, j: nat)
    requires LogShape(document, history) && i < |document.updates| && j < |document.updates|
    requires document.updates[i].epoch == document.updates[j].epoch
        && document.updates[i].clock == document.updates[j].clock
    ensures i == j
  {
    var covered := document.snapshot.coveredSequence;
    assert history[covered + i] == document.updates[i].envelope && history[covered + j] == document.updates[j].envelope;
    hide ClocksAreSequential, Records, ClocksOf;
    if i < j {
      ClocksIncrease(history, covered + i, covered + j);
    } else if j < i {
      ClocksIncrease(history, covered + j, covered + i);
    }
  }

  /** The base of the next clock is the number of updates the author ever had accepted. */
  lemma BaseClock(document: Document, history: History, epoch: Id)
    requires LogShape(document, history)
    ensures var latest := Latest(document.updates, epoch);
            var covered := ClockAt(ClocksOf(document.snapshot.coveredClocks), epoch);
            && (if latest.Some? then latest.value else covered) == Count(history, epoch)
            && covered <= Count(history, epoch) && (latest.Some? <==> covered < Count(history, epoch))
  {
    var covered := ClockAt(ClocksOf(document.snapshot.coveredClocks), epoch);
    CountGrows(history, document.snapshot.coveredSequence, epoch);
    LatestMeans(document.updates, epoch);
    if covered < Count(history, epoch) {
      var i := ClockIsStored(document, history, epoch, Count(history, epoch));
    }
    var latest := Latest(document.updates, epoch);
    if latest.Some? {
      var i :| 0 <= i < |document.updates| && document.updates[i].epoch == epoch
          && document.updates[i].clock == latest.value;
      StoredClocks(document, history, i);
    }
  }

  // ---------- what an append does, told by the history ----------

  /** The envelope the author's clock was given to, if that update is still stored. */
  ghost predicate IsStored(document: Document, history: History, envelope: UpdateEnvelope) {
    exists i :: document.snapshot.coveredSequence <= i < |history| && history[i] == envelope
  }

  lemma FoundIsStored(document: Document, history: History, epoch: Id, clock: nat)
    requires LogShape(document, history) && Find(document.updates, epoch, clock).Some?
    ensures var existing := Find(document.updates, epoch, clock).value;
            existing.clock == clock && existing.envelope.epoch == epoch && existing.envelope.clock == clock
            && IsStored(document, history, existing.envelope)
    ensures ClockAt(ClocksOf(document.snapshot.coveredClocks), epoch) < clock <= Count(history, epoch)
  {
    hide ClocksAreSequential, Records, ClocksOf;
    var existing := Find(document.updates, epoch, clock).value;
    FindMeans(document.updates, epoch, clock);
    var i :| 0 <= i < |document.updates| && document.updates[i] == existing
             && document.updates[i].epoch == epoch && document.updates[i].clock == clock;
    StoredClocks(document, history, i);
    assert history[document.snapshot.coveredSequence + i] == existing.envelope;
  }

  lemma MissingIsNotStored(document: Document, history: History, epoch: Id, clock: nat)
    requires LogShape(document, history) && Find(document.updates, epoch, clock).None?
    ensures !(ClockAt(ClocksOf(document.snapshot.coveredClocks), epoch) < clock <= Count(history, epoch))
  {
    FindMeans(document.updates, epoch, clock);
    if ClockAt(ClocksOf(document.snapshot.coveredClocks), epoch) < clock <= Count(history, epoch) {
      var i := ClockIsStored(document, history, epoch, clock);
      assert false;
    }
  }

  lemma StoredIsFound(document: Document, history: History, envelope: UpdateEnvelope)
    requires LogShape(document, history) && IsStored(document, history, envelope)
    ensures var existing := Find(document.updates, envelope.epoch, envelope.clock);
            existing.Some? && existing.value.envelope == envelope
  {
    var i :| document.snapshot.coveredSequence <= i < |history| && history[i] == envelope;
    StoredEnvelope(document, history, envelope, i - document.snapshot.coveredSequence);
  }

  lemma FoundByHistory(document: Document, history: History, envelope: UpdateEnvelope)
    requires LogShape(document, history)
    ensures var existing := Find(document.updates, envelope.epoch, envelope.clock);
            && (existing.Some? <==> ClockAt(ClocksOf(document.snapshot.coveredClocks), envelope.epoch) < envelope.clock
                                    <= Count(history, envelope.epoch))
            && (existing.Some? ==> existing.value.clock == envelope.clock)
            && (IsStored(document, history, envelope) <==> existing.Some? && existing.value.envelope == envelope)
  {
    hide LogShape, IsStored, Find, Count, ClocksOf;
    if Find(document.updates, envelope.epoch, envelope.clock).Some? {
      FoundIsStored(document, history, envelope.epoch, envelope.clock);
    } else {
      MissingIsNotStored(document, history, envelope.epoch, envelope.clock);
    }
    if IsStored(document, history, envelope) {
      StoredIsFound(document, history, envelope);
    }
  }

  /** An envelope is accepted exactly when its clock is the author's next one; it is a duplicate exactly when it is
      the author's last accepted one and still stored; other clocks are refused as reuse, replay or gap. */
  lemma AppendByHistory(document: Document, history: History, envelope: UpdateEnvelope)
    requires LogShape(document, history) && envelope.clock > 0
    ensures var n, covered := Count(history, envelope.epoch), ClockAt(ClocksOf(document.snapshot.coveredClocks),
                                    envelope.epoch);
            var stored := IsStored(document, history, envelope);
            && (AppendToLog(document, envelope).Accepted? <==> envelope.clock == n + 1)
            && (AppendToLog(document, envelope).Duplicate? <==> envelope.clock == n && stored)
            && (AppendToLog(document, envelope) == Rejected(UpdateReplay) <==> envelope.clock < n && stored)
            && (AppendToLog(document, envelope) == Rejected(CounterReuse) <==> covered < envelope.clock <= n && !stored)
            && (AppendToLog(document, envelope) == Rejected(ClockGap) <==>
                envelope.clock > n + 1 || envelope.clock <= covered)
            && covered <= n && (stored ==> covered < envelope.clock <= n)
  {
    BaseClock(document, history, envelope.epoch);
    FoundByHistory(document, history, envelope);
    hide LogShape, IsStored, Find, Latest, Count, ClocksOf;
  }

  lemma StoredEnvelope(document: Document, history: History, envelope: UpdateEnvelope, i: nat)
    requires LogShape(document, history) && i < |document.updates| && document.updates[i].envelope == envelope
    ensures Find(document.updates, envelope.epoch, envelope.clock) == Some(document.updates[i])
    ensures ClockAt(ClocksOf(document.snapshot.coveredClocks), envelope.epoch) < envelope.clock <= Count(history, envelope.epoch)
  {
    StoredClocks(document, history, i);
    FindMeans(document.updates, envelope.epoch, envelope.clock);
    var found := Find(document.updates, envelope.epoch, envelope.clock);
    var j :| 0 <= j < |document.updates| && document.updates[j] == found.value
             && document.updates[j].epoch == envelope.epoch && document.updates[j].clock == envelope.clock;
    SameClockSameUpdate(document, history, i, j);
  }
}
