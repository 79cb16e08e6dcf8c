/** Many browsers and one server: frames may be lost, repeated and reordered, refreshes may arrive late, and
    compactions replace the log underneath (frontend/src/e2ee/meeting-document-session.ts,
    frontend/src/meetings/workspace/infrastructure.ts, backend/src/meetings/meeting-document.service.ts). */
module Replication {
  import opened Options
  import opened DocumentLog
  import opened DocumentHistory
  import opened DocumentRuns
  import opened DocumentSession
  import Sorting = DocumentTables

  function Operations(history: History): set<Id> {
    set i | 0 <= i < |history| :: history[i].operation
  }

  function AsDocument(workspace: EncryptedWorkspace): Document {
    Document(workspace.documentId, workspace.currentSequence, None, workspace.snapshot, workspace.updates)
  }

  function AsWorkspace(document: Document): EncryptedWorkspace {
    EncryptedWorkspace(document.id, document.snapshot.id, document.currentSequence, document.snapshot, document.updates)
  }

  // ---------- genuine workspaces ----------

  predicate AllOpen(workspace: EncryptedWorkspace) {
    forall i | 0 <= i < |workspace.updates| ::
      UpdateOpens(workspace.updates[i].envelope, workspace.documentId, workspace.activeSnapshotId,
                  workspace.updates[i].epoch, workspace.updates[i].clock)
  }

  /** The workspace is the server's at the time of the given history. */
  ghost predicate IsGenuine(workspace: EncryptedWorkspace, documentId: Id, history: History,
                            snapshots: map<Id, Snapshot>)
  {
    && workspace.documentId == documentId && workspace.activeSnapshotId == workspace.snapshot.id
        && SnapshotOpens(workspace)
    && LogShape(AsDocument(workspace), history) && AllOpen(workspace)
    && workspace.snapshot.id in snapshots && snapshots[workspace.snapshot.id] == workspace.snapshot
  }

  /** No snapshot misses an operation that was accepted before it. */
  ghost predicate SnapshotsKeepAll(snapshots: map<Id, Snapshot>, history: History) {
    forall id | id in snapshots ::
      && snapshots[id].id == id && snapshots[id].coveredSequence <= |history|
      && Operations(history[..snapshots[id].coveredSequence]) <= snapshots[id].envelope.operations
  }

  lemma {:induction false} FilterKeepsAll(updates: seq<Update>, snapshotId: Id)
    requires forall i | 0 <= i < |updates| :: updates[i].snapshotId == snapshotId
    ensures OfSnapshot(updates, snapshotId) == updates
  {
    if updates != [] {
      FilterKeepsAll(updates[..|updates| - 1], snapshotId);
    }
  }

  lemma BootstrapIsWhole(document: Document, history: History)
    requires LogShape(document, history)
    ensures Bootstrap(document) == AsWorkspace(document)
  {
    FilterKeepsAll(document.updates, document.snapshot.id);
  }

  /** Applying the first n updates of a genuine workspace adds the operations after the snapshot. */
  lemma {:induction false} AppliedOperations(workspace: EncryptedWorkspace, history: History, operations: set<Id>,
                                             n: nat)
    requires StoresTail(AsDocument(workspace), history) && AllOpen(workspace) && n <= |workspace.updates|
    ensures var covered := workspace.snapshot.coveredSequence;
            ApplyAll(operations, workspace.updates[..n], workspace.documentId, workspace.activeSnapshotId) ==
            (operations + Operations(history[covered..covered + n]), true)
  {
    var covered := workspace.snapshot.coveredSequence;
    if n == 0 {
      assert workspace.updates[..n] == [];
      NoOperations(history, covered);
      assert operations + Operations(history[covered..covered + n]) == operations;
    } else {
      AppliedOperations(workspace, history, operations, n - 1);
      assert workspace.updates[..n][..n - 1] == workspace.updates[..n - 1];
      OperationsOfMore(history, covered, covered + n - 1);
      assert workspace.updates[n - 1].envelope == history[covered + n - 1];
      assert operations + Operations(history[covered..covered + n - 1]) + {history[covered + n - 1].operation} ==
             operations + Operations(history[covered..covered + n]);
    }
  }

  lemma NoOperations(history: History, at: nat)
    requires at <= |history|
    ensures Operations(history[at..at]) == {}
  {
    assert |history[at..at]| == 0;
  }

  lemma OperationsOfMore(history: History, from: nat, to: nat)
    requires from <= to < |history|
    ensures Operations(history[from..to + 1]) == Operations(history[from..to]) + {history[to].operation}
  {
    var shorter, longer := history[from..to], history[from..to + 1];
    assert longer == shorter + [history[to]];
    forall op | op in Operations(longer) ensures op in Operations(shorter) + {history[to].operation} {
      var i :| 0 <= i < |longer| && longer[i].operation == op;
      assert i < |shorter| ==> shorter[i].operation == op;
    }
    forall op | op in Operations(shorter) ensures op in Operations(longer) {
      var i :| 0 <= i < |shorter| && shorter[i].operation == op;
      assert longer[i].operation == op;
    }
    assert longer[|shorter|].operation == history[to].operation;
  }

  lemma OperationsSplit(history: History, covered: nat, end: nat)
    requires covered <= end <= |history|
    ensures Operations(history[..end]) == Operations(history[..covered]) + Operations(history[covered..end])
  {
    var whole, left, right := history[..end], history[..covered], history[covered..end];
    assert whole == left + right;
    forall op | op in Operations(whole) ensures op in Operations(left) + Operations(right) {
      var i :| 0 <= i < |whole| && whole[i].operation == op;
      assert if i < covered then left[i].operation == op else right[i - covered].operation == op;
    }
    forall op | op in Operations(left) ensures op in Operations(whole) {
      var i :| 0 <= i < |left| && left[i].operation == op;
      assert whole[i].operation == op;
    }
    forall op | op in Operations(right) ensures op in Operations(whole) {
      var i :| 0 <= i < |right| && right[i].operation == op;
      assert whole[covered + i].operation == op;
    }
  }

  lemma {:induction false} MaxedIsRaised(clocks: Clocks, updates: seq<Update>)
    requires forall i | 0 <= i < |updates| :: updates[i].clock > 0
    ensures AllMaxed(clocks, updates) == Folded(clocks, updates)
  {
    if updates != [] {
      MaxedIsRaised(clocks, updates[..|updates| - 1]);
    }
  }

  /** The clocks a browser reads from a workspace count the history, as the server's fold does. */
  lemma WorkspaceClocksCount(workspace: EncryptedWorkspace, history: History)
    requires LogShape(AsDocument(workspace), history)
    ensures Records(WorkspaceClocks(workspace), history)
  {
    var document := AsDocument(workspace);
    forall i | 0 <= i < |workspace.updates| ensures workspace.updates[i].clock > 0 {
      StoredClocks(document, history, i);
    }
    MaxedIsRaised(ClocksOf(workspace.snapshot.coveredClocks), workspace.updates);
    ServerClocksCount(document, history);
  }

  /** The own clock read from a workspace is the clock the map shows. */
  lemma {:induction false} OwnClockIsShown(clocks: Clocks, updates: seq<Update>, epoch: Id)
    ensures OwnClock(ClockAt(clocks, epoch), updates, epoch) == ClockAt(AllMaxed(clocks, updates), epoch)
  {
    if updates != [] {
      OwnClockIsShown(clocks, updates[..|updates| - 1], epoch);
    }
  }

  // ---------- one browser ----------

  /** The browser has not run ahead of the server, and holds its parent snapshot. */
  predicate Anchored(session: Session, documentId: Id, history: History, snapshots: map<Id, Snapshot>) {
    && session.documentId == documentId && session.currentSequence <= |history|
    && session.activeSnapshotId in snapshots
    && session.activeDigest == snapshots[session.activeSnapshotId].envelope.digest
    && snapshots[session.activeSnapshotId].envelope.operations <= session.operations
  }

  /** The browser holds every operation up to its recorded sequence. */
  predicate HoldsPrefix(session: Session, history: History) {
    session.currentSequence <= |history| && Operations(history[..session.currentSequence]) <= session.operations
  }

  ghost predicate ClocksAreExact(session: Session, history: History) {
    session.currentSequence <= |history| && Records(session.authorClocks, history[..session.currentSequence])
  }

  lemma GenuineOperations(workspace: EncryptedWorkspace, documentId: Id, history: History, snapshots: map<Id, Snapshot>,
                          operations: set<Id>)
    requires IsGenuine(workspace, documentId, history, snapshots) && SnapshotsKeepAll(snapshots, history)
    requires workspace.snapshot.envelope.operations <= operations
    ensures var (all, fine) := ApplyAll(operations, workspace.updates, workspace.documentId,
                                        workspace.activeSnapshotId);
            fine && operations <= all && Operations(history) <= all && workspace.currentSequence == |history|
  {
    hide ClocksAreSequential, Records, ClocksOf;
    var covered := workspace.snapshot.coveredSequence;
    AppliedOperations(workspace, history, operations, |workspace.updates|);
    assert workspace.updates[..|workspace.updates|] == workspace.updates;
    OperationsSplit(history, covered, |history|);
    assert history[..|history|] == history;
  }

  /** Opening a document from a genuine workspace. */
  lemma LoadHoldsPrefix(epoch: Id, workspace: EncryptedWorkspace, documentId: Id, history: History,
                        snapshots: map<Id, Snapshot>)
    requires IsGenuine(workspace, documentId, history, snapshots) && SnapshotsKeepAll(snapshots, history)
    ensures Load(epoch, workspace).Some?
    ensures Anchored(Load(epoch, workspace).value, documentId, history, snapshots)
    ensures HoldsPrefix(Load(epoch, workspace).value, history)
    ensures Load(epoch, workspace).value.currentSequence == |history|
        && ClocksAreExact(Load(epoch, workspace).value, history)
    ensures Load(epoch, workspace).value.authorClock == Count(history, epoch)
  {
    OwnClockIsShown(ClocksOf(workspace.snapshot.coveredClocks), workspace.updates, epoch);
    assert Records(WorkspaceClocks(workspace), history) by { WorkspaceClocksCount(workspace, history); }
    assert ClockAt(WorkspaceClocks(workspace), epoch) == Count(history, epoch);
    GenuineOperations(workspace, documentId, history, snapshots, workspace.snapshot.envelope.operations);
    WorkspaceClocksCount(workspace, history);
    assert history[..|history|] == history;
    hide LogShape, Records, SnapshotsKeepAll, ApplyAll, WorkspaceClocks, AllOpen;
  }

  /** The snapshot a workspace came with. */
  function OwnSnapshot(workspace: EncryptedWorkspace): map<Id, Snapshot> {
    map[workspace.snapshot.id := workspace.snapshot]
  }

  /** Refreshing from a genuine workspace, also a late one and also across a compaction. Whatever the browser missed
      before, it then holds its prefix. */
  lemma MergeHoldsPrefix(session: Session, workspace: EncryptedWorkspace, documentId: Id, past: History,
                         history: History,
                         snapshots: map<Id, Snapshot>)
    requires past <= history && OwnSnapshot(workspace).Items <= snapshots.Items
    requires IsGenuine(workspace, documentId, past, OwnSnapshot(workspace))
        && SnapshotsKeepAll(OwnSnapshot(workspace), past)
    requires Anchored(session, documentId, history, snapshots)
    ensures Merge(session, workspace).1
    ensures Anchored(Merge(session, workspace).0, documentId, history, snapshots)
    ensures HoldsPrefix(Merge(session, workspace).0, history) && ClocksAreExact(Merge(session, workspace).0, history)
    ensures session.operations <= Merge(session, workspace).0.operations
        && Merge(session, workspace).0.currentSequence == |past|
  {
    var parent := WithParent(session, workspace);
    assert (workspace.snapshot.id, workspace.snapshot) in OwnSnapshot(workspace).Items;
    assert workspace.snapshot.envelope.operations <= parent.operations;
    GenuineOperations(workspace, documentId, past, OwnSnapshot(workspace), parent.operations);
    WorkspaceClocksCount(workspace, past);
    assert history[..|past|] == past;
    hide LogShape, Records, SnapshotsKeepAll, ApplyAll, WorkspaceClocks, AllOpen, Max3;
  }

  lemma CountOfNext(history: History, n: nat, epoch: Id)
    requires n < |history|
    ensures Count(history[..n + 1], epoch) == Count(history[..n], epoch) + (if history[n].epoch == epoch then 1 else 0)
  {
    assert history[..n + 1][..n] == history[..n];
  }

  /** An update frame is applied only at its turn, and then keeps the prefix. */
  lemma FrameHoldsPrefix(session: Session, sequence: nat, history: History)
    requires HoldsPrefix(session, history) && 1 <= sequence <= |history|
    ensures var envelope := history[sequence - 1];
            HoldsPrefix(ApplyRemote(session, envelope.epoch, envelope.clock, envelope, Some(sequence)).0, history)
  {
    if sequence == session.currentSequence + 1 {
      PrefixOfMore(history, session.currentSequence);
    }
  }

  lemma PrefixOfMore(history: History, n: nat)
    requires n < |history|
    ensures Operations(history[..n + 1]) == Operations(history[..n]) + {history[n].operation}
  {
    OperationsOfMore(history, 0, n);
    assert history[..n + 1] == history[0..n + 1] && history[..n] == history[0..n];
  }

  lemma FrameKeepsClocks(session: Session, sequence: nat, history: History)
    requires ClocksAreSequential(history) && ClocksAreExact(session, history) && 1 <= sequence <= |history|
    ensures var envelope := history[sequence - 1];
            ClocksAreExact(ApplyRemote(session, envelope.epoch, envelope.clock, envelope, Some(sequence)).0, history)
  {
    var envelope := history[sequence - 1];
    var after := ApplyRemote(session, envelope.epoch, envelope.clock, envelope, Some(sequence)).0;
    if after != session {
      forall epoch ensures ClockAt(after.authorClocks, epoch) == Count(history[..sequence], epoch) {
        CountOfNext(history, sequence - 1, epoch);
        assert ClockAt(session.authorClocks, epoch) == Count(history[..sequence - 1], epoch);
      }
    }
  }

  // ---------- acknowledgements ----------

  function Min(a: nat, b: nat): nat {
    if a < b then a else b
  }

  function Max(a: nat, b: nat): nat {
    if a < b then b else a
  }

  /** Every update between two points of the history is by one author. */
  predicate AllBy(history: History, from: nat, to: nat, epoch: Id)
    requires to <= |history|
  {
    forall i | from <= i < to :: history[i].epoch == epoch
  }

  /** Two histories have the same number of updates of every other author. */
  ghost predicate OthersAgree(left: History, right: History, epoch: Id) {
    forall other | other != epoch :: Count(left, other) == Count(right, other)
  }

  lemma {:induction false} SameCountMeansAllBy(history: History, from: nat, to: nat, epoch: Id)
    requires from <= to <= |history|
    ensures AllBy(history, from, to, epoch) <==> OthersAgree(history[..from], history[..to], epoch)
  {
    if from < to {
      SameCountMeansAllBy(history, from, to - 1, epoch);
      forall other
        ensures Count(history[..from], other) <= Count(history[..to - 1], other)
        ensures Count(history[..to], other) == Count(history[..to - 1], other) + (if history[to - 1].epoch ==
            other then 1 else 0)
      {
        CountGrows(history[..to - 1], from, other);
        assert history[..to - 1][..from] == history[..from];
        CountOfNext(history, to - 1, other);
      }
      var last := history[to - 1].epoch;
      assert AllBy(history, from, to, epoch) <==> AllBy(history, from, to - 1, epoch) && last == epoch;
      if last != epoch {
        assert Count(history[..from], last) < Count(history[..to], last);
      } else if other :| other != epoch && Count(history[..from], other) != Count(history[..to - 1], other) {
        assert Count(history[..from], other) != Count(history[..to], other);
      }
    }
  }

  /** An acknowledgement overwrites the sequence. The clocks stay exact if and only if every update between the
      recorded and the acknowledged sequence is the author's own. */
  lemma AcknowledgementIsExact(session: Session, sequence: nat, history: History)
    requires ClocksAreSequential(history) && ClocksAreExact(session, history) && 1 <= sequence <= |history|
    ensures var own := history[sequence - 1];
            var (low, high) := (Min(session.currentSequence, sequence), Max(session.currentSequence, sequence));
            ClocksAreExact(Acknowledge(session, own.epoch, own.clock, sequence), history) <==>
                AllBy(history, low, high, own.epoch)
  {
    var own := history[sequence - 1];
    var (low, high) := (Min(session.currentSequence, sequence), Max(session.currentSequence, sequence));
    var after := Acknowledge(session, own.epoch, own.clock, sequence);
    SameCountMeansAllBy(history, low, high, own.epoch);
    CountOfNext(history, sequence - 1, own.epoch);
    OverwrittenClocks(session.authorClocks, after.authorClocks, own.epoch, history[..session.currentSequence],
                      history[..sequence]);
    hide ClocksAreSequential, Records, AllBy;
  }

  lemma OverwrittenClocks(before: Clocks, after: Clocks, epoch: Id, past: History, acknowledged: History)
    requires Records(before, past) && epoch in after && after[epoch] > 0 && after == before[epoch := after[epoch]]
    requires after[epoch] == Count(acknowledged, epoch)
    ensures Records(after, acknowledged) <==> OthersAgree(past, acknowledged, epoch)
  {
    forall other | other != epoch ensures ClockAt(after, other) == Count(past, other) {
      assert ClockAt(before, other) == Count(past, other);
    }
    if Records(after, acknowledged) {
      forall other | other != epoch ensures Count(past, other) == Count(acknowledged, other) {
        assert ClockAt(after, other) == Count(acknowledged, other);
      }
    }
    if OthersAgree(past, acknowledged, epoch) {
      forall other ensures ClockAt(after, other) == Count(acknowledged, other) {
        if other != epoch {
          assert ClockAt(after, other) == Count(past, other);
        }
      }
      assert Records(after, acknowledged);
    }
  }

  /** The browser already holds all that was accepted from one point of the history to another. */
  predicate HoldsBetween(session: Session, history: History, from: nat, to: nat)
    requires to <= |history|
  {
    forall i | from <= i < to :: history[i].operation in session.operations
  }

  lemma {:induction false} PrefixReaches(operations: set<Id>, history: History, from: nat, to: nat)
    requires from <= to <= |history| && Operations(history[..from]) <= operations
    ensures Operations(history[..to]) <= operations <==> forall i | from <= i < to :: history[i].operation in operations
  {
    if from < to {
      PrefixReaches(operations, history, from, to - 1);
      PrefixOfMore(history, to - 1);
    }
  }

  /** An acknowledgement overwrites the sequence. The browser still holds its prefix if and only if it already holds
      every operation between the recorded and the acknowledged sequence. */
  lemma AcknowledgementHoldsPrefixExactly(session: Session, sequence: nat, history: History)
    requires HoldsPrefix(session, history) && 1 <= sequence <= |history|
    ensures var own := history[sequence - 1];
            HoldsPrefix(Acknowledge(session, own.epoch, own.clock, sequence), history) <==>
                HoldsBetween(session, history, session.currentSequence, sequence)
  {
    if sequence <= session.currentSequence {
      OperationsSplit(history[..session.currentSequence], sequence, session.currentSequence);
      assert history[..session.currentSequence][..sequence] == history[..sequence];
      assert history[..session.currentSequence][..session.currentSequence] == history[..session.currentSequence];
    } else {
      PrefixReaches(session.operations, history, session.currentSequence, sequence);
    }
  }

  /** In server sequence order, or late, the acknowledgement of an own edit keeps the prefix. */
  lemma AcknowledgementInOrder(session: Session, sequence: nat, history: History)
    requires HoldsPrefix(session, history) && 1 <= sequence <= |history|
    requires sequence <= session.currentSequence + 1 && history[sequence - 1].operation in session.operations
    ensures HoldsBetween(session, history, session.currentSequence, sequence)
  {
  }

  // ---------- compaction ----------

  /** Clock maps that count the same history are equal. */
  lemma OneClockMap(left: Clocks, right: Clocks, history: History)
    requires Records(left, history) && Records(right, history)
    ensures left == right
  {
    forall epoch ensures epoch in left <==> epoch in right {
      assert ClockAt(left, epoch) == Count(history, epoch) == ClockAt(right, epoch);
    }
    forall epoch | epoch in left ensures left[epoch] == right[epoch] {
      assert ClockAt(left, epoch) == Count(history, epoch) == ClockAt(right, epoch);
    }
  }

  /** A browser that is up to date with exact clocks makes a snapshot that the server's comparison accepts. */
  lemma ClientCompactionContinues(document: Document, history: History, session: Session, operations: set<Id>,
                                  envelope: SnapshotEnvelope)
    requires LogShape(document, history) && ClocksAreExact(session, history)
        && session.currentSequence == document.currentSequence
    requires session.activeSnapshotId == document.snapshot.id
        && session.activeDigest == document.snapshot.envelope.digest
    requires IsCompaction(session, Some(document.currentSequence), operations, envelope)
    ensures Continues(document, envelope, Some(document.currentSequence))
  {
    assert history[..|history|] == history;
    ServerClocksCount(document, history);
    OneClockMap(session.authorClocks, ServerClocks(document), history);
  }
}
