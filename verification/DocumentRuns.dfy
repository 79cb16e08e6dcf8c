/** Any sequence of appends, retries and compactions of one document
    (backend/src/meetings/meeting-document.service.ts). */
module DocumentRuns {
  import opened Options
  import opened DocumentLog
  import opened DocumentHistory

  /** Settling stands for whatever else changes the meeting's status or the completed sequence. */
  datatype Request =
    | Appending(access: Access, update: UpdateEnvelope)
    | Compacting(access: Access, snapshotId: Id, snapshot: SnapshotEnvelope, expectedSequence: Option<nat>)
    | Settling(status: Status, completedSequence: Option<nat>)

  /** The stored workspace with the history of accepted updates. */
  datatype World = World(workspace: Workspace, history: History)

  function Next(world: World, request: Request): World {
    match request
    case Appending(access, envelope) =>
      var append := AppendUpdate(world.workspace, access, envelope);
      if append.Accepted? then
        World(world.workspace.(document := Some(append.document)), world.history + [envelope])
      else world
    case Compacting(access, snapshotId, envelope, expectedSequence) =>
      var compaction := Compact(world.workspace, access, snapshotId, envelope, expectedSequence);
      if compaction.Compacted? then world.(workspace := world.workspace.(document := Some(compaction.document)))
      else world
    case Settling(status, completed) =>
      if world.workspace.document.None? then world
      else world.(workspace := Workspace(Some(status),
                                         Some(world.workspace.document.value.(completedSequence := completed))))
  }

  ghost predicate Shaped(world: World) {
    world.workspace.document.Some? && LogShape(world.workspace.document.value, world.history)
  }

  /** A created document starts with an empty log. */
  lemma CreatedIsShaped(access: Access, documentId: Id, snapshotId: Id, envelope: SnapshotEnvelope)
    requires CreateInitial(access, documentId, snapshotId, envelope).0.Some?
    ensures LogShape(CreateInitial(access, documentId, snapshotId, envelope).0.value, [])
  {
    assert ClocksOf([]) == map[];
    var none: History := [];
    assert none[..0] == none;
  }

  // ---------- appends ----------

  lemma CountOfMore(history: History, envelope: UpdateEnvelope, epoch: Id)
    ensures Count(history + [envelope], epoch) == Count(history, epoch) + (if envelope.epoch == epoch then 1 else 0)
  {
    assert (history + [envelope])[..|history|] == history;
  }

  lemma SequentialMore(history: History, envelope: UpdateEnvelope)
    requires ClocksAreSequential(history) && envelope.clock == Count(history, envelope.epoch) + 1
    ensures ClocksAreSequential(history + [envelope])
  {
    var more := history + [envelope];
    forall i | 0 <= i < |more| ensures more[i].clock == Count(more[..i], more[i].epoch) + 1 {
      assert more[..i] == history[..i];
      assert history[..|history|] == history;
    }
  }

  lemma AppendKeepsTail(document: Document, history: History, envelope: UpdateEnvelope)
    requires StoresTail(document, history) && AppendToLog(document, envelope).Accepted?
    ensures StoresTail(AppendToLog(document, envelope).document, history + [envelope])
  {
    hide Find, Latest, ClocksOf;
  }

  lemma AppendKeepsShape(document: Document, history: History, envelope: UpdateEnvelope)
    requires LogShape(document, history) && envelope.clock > 0 && AppendToLog(document, envelope).Accepted?
    ensures LogShape(AppendToLog(document, envelope).document, history + [envelope])
  {
    AppendByHistory(document, history, envelope);
    hide ClocksAreSequential, StoresTail, Count, Find, Latest, ClocksOf, IsStored, Records;
    SequentialMore(history, envelope);
    AppendKeepsTail(document, history, envelope);
    var covered := document.snapshot.coveredSequence;
    assert covered <= |history| by { TailFits(document, history); }
    assert (history + [envelope])[..covered] == history[..covered];
  }

  lemma TailFits(document: Document, history: History)
    requires StoresTail(document, history)
    ensures document.snapshot.coveredSequence <= |history| == document.currentSequence
  {
  }

  // ---------- compactions ----------

  lemma RaisedRecords(clocks: Clocks, history: History, update: Update)
    requires Records(clocks, history)
    requires update.epoch == update.envelope.epoch && update.clock == Count(history, update.epoch) + 1
    ensures Records(Raised(clocks, update), history + [update.envelope])
  {
    forall epoch ensures ClockAt(Raised(clocks, update), epoch) == Count(history + [update.envelope], epoch) {
      CountOfMore(history, update.envelope, epoch);
      assert ClockAt(clocks, epoch) == Count(history, epoch);
    }
  }

  lemma StoredEntry(document: Document, history: History, i: nat)
    requires LogShape(document, history) && i < |document.updates|
    ensures var at, update := document.snapshot.coveredSequence + i, document.updates[i];
            && at < |history| && update.envelope == history[at] && update.epoch == update.envelope.epoch
            && update.clock == Count(history[..at], update.epoch) + 1
  {
    hide ClocksOf, Records;
  }

  lemma FoldOfNone(document: Document, history: History)
    requires LogShape(document, history)
    ensures document.snapshot.coveredSequence <= |history|
    ensures Records(ClocksOf(document.snapshot.coveredClocks), history[..document.snapshot.coveredSequence])
  {
  }

  /** Folding the stored updates into the covered clocks counts the whole history. */
  lemma {:induction false} FoldCounts(document: Document, history: History, n: nat)
    requires LogShape(document, history) && n <= |document.updates|
    ensures document.snapshot.coveredSequence + n <= |history|
    ensures Records(Folded(ClocksOf(document.snapshot.coveredClocks), document.updates[..n]),
                    history[..document.snapshot.coveredSequence + n])
  {
    hide ClocksOf, Records, LogShape, Count;
    var covered := document.snapshot.coveredSequence;
    FoldOfNone(document, history);
    if n == 0 {
      assert document.updates[..0] == [];
    } else {
      StoredEntry(document, history, n - 1);
      FoldCounts(document, history, n - 1);
      assert document.updates[..n][..n - 1] == document.updates[..n - 1];
      assert history[..covered + n] == history[..covered + n - 1] + [history[covered + n - 1]];
      RaisedRecords(Folded(ClocksOf(document.snapshot.coveredClocks), document.updates[..n - 1]),
                    history[..covered + n - 1], document.updates[n - 1]);
    }
  }

  lemma ServerClocksCount(document: Document, history: History)
    requires LogShape(document, history)
    ensures Records(ServerClocks(document), history)
  {
    FoldCounts(document, history, |document.updates|);
    assert document.updates[..|document.updates|] == document.updates && history[..|history|] == history;
  }

  lemma CompactionKeepsShape(document: Document, history: History, snapshotId: Id, envelope: SnapshotEnvelope,
                             expected: Option<nat>)
    requires LogShape(document, history) && Continues(document, envelope, expected)
    ensures LogShape(CompactedDocument(document, snapshotId, envelope), history)
  {
    ServerClocksCount(document, history);
    assert history[..|history|] == history;
  }

  lemma StepKeepsShape(world: World, request: Request)
    requires Shaped(world)
    ensures Shaped(Next(world, request)) && world.history <= Next(world, request).history
  {
    var document := world.workspace.document.value;
    match request
    case Appending(access, envelope) =>
      if AppendUpdate(world.workspace, access, envelope).Accepted? {
        AppendKeepsShape(document, world.history, envelope);
      }
    case Compacting(access, snapshotId, envelope, expected) =>
      if Compact(world.workspace, access, snapshotId, envelope, expected).Compacted? {
        CompactionKeepsShape(document, world.history, snapshotId, envelope, expected);
      }
    case Settling(status, completed) =>
  }

  // ---------- runs ----------

  function After(world: World, requests: seq<Request>): World
    decreases |requests|
  {
    if requests == [] then world else After(Next(world, requests[0]), requests[1..])
  }

  lemma {:induction false} RunsKeepShape(world: World, requests: seq<Request>)
    requires Shaped(world)
    ensures Shaped(After(world, requests)) && world.history <= After(world, requests).history
    decreases |requests|
  {
    hide LogShape, Next;
    if requests != [] {
      StepKeepsShape(world, requests[0]);
      RunsKeepShape(Next(world, requests[0]), requests[1..]);
    }
  }

  /** Across any run a pair of author and clock has at most one server sequence, which never changes, and
      larger clocks of an author have larger sequences. */
  lemma AtMostOnce(world: World, requests: seq<Request>, i: nat, j: nat)
    requires Shaped(world) && i < |After(world, requests).history| && j < |After(world, requests).history|
    ensures var history := After(world, requests).history;
            && (history[i].epoch == history[j].epoch ==>
                  (history[i].clock == history[j].clock <==> i == j) && (history[i].clock < history[j].clock <==>
                      i < j))
            && (i < |world.history| ==> history[i] == world.history[i])
  {
    RunsKeepShape(world, requests);
    var history := After(world, requests).history;
    assert ClocksAreSequential(history);
    hide LogShape, ClocksAreSequential, After;
    if history[i].epoch == history[j].epoch {
      if i < j {
        ClocksIncrease(history, i, j);
      } else if j < i {
        ClocksIncrease(history, j, i);
      }
    }
  }

  /** An envelope whose clock was used before changes nothing, whatever its content. */
  lemma UsedClockIsHarmless(world: World, access: Access, envelope: UpdateEnvelope)
    requires Shaped(world) && envelope.clock <= Count(world.history, envelope.epoch)
    ensures Next(world, Appending(access, envelope)) == world
  {
    if envelope.clock > 0 {
      AppendByHistory(world.workspace.document.value, world.history, envelope);
    }
    hide LogShape, IsStored, Find, Latest, ClocksOf;
  }

  // ---------- the shape without the history ----------

  ghost function AnyKey(clocks: Clocks): (epoch: Id)
    requires clocks != map[]
    ensures epoch in clocks
  {
    assert clocks.Keys != {};
    var epoch :| epoch in clocks;
    epoch
  }

  ghost function Total(clocks: Clocks): nat {
    if clocks == map[] then 0
    else
      var epoch := AnyKey(clocks);
      clocks[epoch] + Total(clocks - {epoch})
  }

  lemma {:induction false} TotalWithout(clocks: Clocks, epoch: Id)
    requires epoch in clocks
    ensures Total(clocks) == clocks[epoch] + Total(clocks - {epoch})
  {
    var first := AnyKey(clocks);
    if first != epoch {
      TotalWithout(clocks - {first}, epoch);
      TotalWithout(clocks - {epoch}, first);
      assert clocks - {first} - {epoch} == clocks - {epoch} - {first};
    }
  }

  /** The clocks of all authors add up to the number of accepted updates. */
  lemma {:induction false} ClocksAddUp(clocks: Clocks, history: History)
    requires Records(clocks, history)
    ensures Total(clocks) == |history|
  {
    if history == [] {
      assert forall epoch | epoch in clocks :: ClockAt(clocks, epoch) == 0;
      assert clocks == map[];
    } else {
      var epoch, front := history[|history| - 1].epoch, history[..|history| - 1];
      assert ClockAt(clocks, epoch) == Count(front, epoch) + 1;
      var fewer := if clocks[epoch] == 1 then clocks - {epoch} else clocks[epoch := clocks[epoch] - 1];
      forall other ensures ClockAt(fewer, other) == Count(front, other) {
        assert ClockAt(clocks, other) == Count(history, other);
      }
      ClocksAddUp(fewer, front);
      TotalWithout(clocks, epoch);
      if clocks[epoch] != 1 {
        TotalWithout(fewer, epoch);
        assert fewer - {epoch} == clocks - {epoch};
      }
    }
  }

  /** How many of the first n stored updates are an author's. */
  function StoredBefore(updates: seq<Update>, n: nat, epoch: Id): nat
    requires n <= |updates|
  {
    if n == 0 then 0 else StoredBefore(updates, n - 1, epoch) + (if updates[n - 1].epoch == epoch then 1 else 0)
  }

  lemma {:induction false} StoredCounts(document: Document, history: History, n: nat, epoch: Id)
    requires LogShape(document, history) && n <= |document.updates|
    ensures Count(history[..document.snapshot.coveredSequence + n], epoch) ==
            ClockAt(ClocksOf(document.snapshot.coveredClocks), epoch) + StoredBefore(document.updates, n, epoch)
  {
    hide ClocksOf, ClocksAreSequential;
    if n > 0 {
      var at := document.snapshot.coveredSequence + n;
      StoredCounts(document, history, n - 1, epoch);
      assert history[..at][..at - 1] == history[..at - 1];
    }
  }

  /** The stored updates carry the sequences after the covered one up to the current one, each author's clocks
      continue the covered clock one by one, all refer to the active snapshot, and the clocks of all authors
      add up to the current sequence. */
  ghost predicate IsConsecutive(document: Document) {
    var covered, clocks := document.snapshot.coveredSequence, ClocksOf(document.snapshot.coveredClocks);
    && covered + |document.updates| == document.currentSequence
    && (forall i | 0 <= i < |document.updates| ::
          && document.updates[i].serverSequence == covered + i + 1
          && document.updates[i].snapshotId == document.snapshot.id
          && document.updates[i].clock == ClockAt(clocks, document.updates[i].epoch)
                                          + StoredBefore(document.updates, i, document.updates[i].epoch) + 1)
    && Total(clocks) == covered && Total(ServerClocks(document)) == document.currentSequence
  }

  lemma StoredClock(document: Document, history: History, i: nat)
    requires LogShape(document, history) && i < |document.updates|
    ensures document.updates[i].clock == ClockAt(ClocksOf(document.snapshot.coveredClocks), document.updates[i].epoch)
                                         + StoredBefore(document.updates, i, document.updates[i].epoch) + 1
  {
    hide ClocksOf, Records;
    var at := document.snapshot.coveredSequence + i;
    StoredCounts(document, history, i, document.updates[i].epoch);
    assert history[at].clock == Count(history[..at], history[at].epoch) + 1;
  }

  lemma ShapeIsConsecutive(document: Document, history: History)
    requires LogShape(document, history)
    ensures IsConsecutive(document)
  {
    ServerClocksCount(document, history);
    ClocksAddUp(ServerClocks(document), history);
    ClocksAddUp(ClocksOf(document.snapshot.coveredClocks), history[..document.snapshot.coveredSequence]);
    forall i | 0 <= i < |document.updates|
      ensures document.updates[i].clock == ClockAt(ClocksOf(document.snapshot.coveredClocks), document.updates[i].epoch)
                                           + StoredBefore(document.updates, i, document.updates[i].epoch) + 1
    {
      StoredClock(document, history, i);
    }
    hide ClocksOf, ServerClocks, Records, ClocksAreSequential, Count, Total, StoredBefore;
  }

  /** Every reachable state of the log is consecutive. */
  lemma LogIsConsecutive(world: World, requests: seq<Request>)
    requires Shaped(world)
    ensures After(world, requests).workspace.document.Some?
        && IsConsecutive(After(world, requests).workspace.document.value)
  {
    RunsKeepShape(world, requests);
    ShapeIsConsecutive(After(world, requests).workspace.document.value, After(world, requests).history);
  }
}
