/** What a browser has after opening, refreshing and receiving, read off the answer of the server update by update
    (frontend/src/e2ee/meeting-document-session.ts). */
module SessionContract {
  import opened Options
  import opened DocumentLog
  import opened DocumentSession
  import opened DocumentHistory
  import opened Replication
  import DocumentContract

  // ---------- operations ----------

  /** The operation of a stored update that opens, with all before it. */
  ghost predicate Applies(updates: seq<Update>, documentId: Id, snapshotId: Id, operation: Id) {
    exists i :: 0 <= i < |updates| && updates[i].envelope.operation == operation && OpenUpTo(updates, documentId, snapshotId, i + 1)
  }

  predicate OpenUpTo(updates: seq<Update>, documentId: Id, snapshotId: Id, n: nat)
    requires n <= |updates|
  {
    forall j | 0 <= j < n :: IsReadable(updates[j], documentId, snapshotId)
  }

  /** The envelope is intact, for this document and snapshot, and of the author and clock it is listed under. */
  predicate IsReadable(update: Update, documentId: Id, snapshotId: Id) {
    var envelope := update.envelope;
    && envelope.decodes && envelope.authentic
    && (envelope.documentId, envelope.snapshotId, envelope.epoch, envelope.clock) ==
       (documentId, snapshotId, update.epoch, update.clock)
  }

  /** Updates are applied up to the first that cannot be opened. */
  lemma {:induction false} AppliesExactly(operations: set<Id>, updates: seq<Update>, documentId: Id, snapshotId: Id)
    ensures ApplyAll(operations, updates, documentId, snapshotId).1 <==>
              OpenUpTo(updates, documentId, snapshotId, |updates|)
    ensures forall operation :: operation in ApplyAll(operations, updates, documentId, snapshotId).0 <==>
              operation in operations || Applies(updates, documentId, snapshotId, operation)
  {
    if updates != [] {
      var n, front := |updates| - 1, updates[..|updates| - 1];
      AppliesExactly(operations, front, documentId, snapshotId);
      var applied := ApplyAll(operations, updates, documentId, snapshotId);
      assert forall i | 0 <= i <= n :: OpenUpTo(front, documentId, snapshotId, i) <==>
                                       OpenUpTo(updates, documentId, snapshotId, i);
      forall operation
        ensures operation in applied.0 <==>
                operation in operations || Applies(updates, documentId, snapshotId, operation)
      {
        FrontApplies(updates, documentId, snapshotId, operation);
      }
    }
  }

  lemma FrontApplies(updates: seq<Update>, documentId: Id, snapshotId: Id, operation: Id)
    requires updates != []
    ensures var n := |updates| - 1;
            Applies(updates, documentId, snapshotId, operation) <==>
              || Applies(updates[..n], documentId, snapshotId, operation)
              || (updates[n].envelope.operation == operation && OpenUpTo(updates, documentId, snapshotId, n + 1))
  {
    var n, front := |updates| - 1, updates[..|updates| - 1];
    assert forall i | 0 <= i <= n :: OpenUpTo(front, documentId, snapshotId, i) <==>
                                     OpenUpTo(updates, documentId, snapshotId, i);
    if Applies(front, documentId, snapshotId, operation) {
      var i :| 0 <= i < n && front[i].envelope.operation == operation && OpenUpTo(front, documentId, snapshotId, i + 1);
      assert updates[i].envelope.operation == operation;
    }
    if Applies(updates, documentId, snapshotId, operation) {
      var i :| && 0 <= i <= n && updates[i].envelope.operation == operation
               && OpenUpTo(updates, documentId, snapshotId, i + 1);
      assert i < n ==> front[i].envelope.operation == operation;
    }
  }

  // ---------- clocks ----------

  /** The greatest of the covered clock and the clocks of an author's updates. */
  ghost predicate IsLastClock(clock: nat, covered: nat, updates: seq<Update>, epoch: Id) {
    && covered <= clock && (forall i | 0 <= i < |updates| && updates[i].epoch == epoch :: updates[i].clock <= clock)
    && (clock == covered || exists i :: 0 <= i < |updates| && updates[i].epoch == epoch && updates[i].clock == clock)
  }

  lemma {:induction false} ClocksExactly(clocks: Clocks, updates: seq<Update>, epoch: Id)
    ensures IsLastClock(ClockAt(AllMaxed(clocks, updates), epoch), ClockAt(clocks, epoch), updates, epoch)
    ensures epoch in AllMaxed(clocks, updates) <==>
              epoch in clocks || exists i :: 0 <= i < |updates| && updates[i].epoch == epoch
  {
    if updates != [] {
      var n, front := |updates| - 1, updates[..|updates| - 1];
      ClocksExactly(clocks, front, epoch);
      var clock := ClockAt(AllMaxed(clocks, updates), epoch);
      if i :| 0 <= i < |front| && front[i].epoch == epoch && front[i].clock == clock {
        assert updates[i].epoch == epoch && updates[i].clock == clock;
      }
      if i :| 0 <= i < |front| && front[i].epoch == epoch {
        assert updates[i].epoch == epoch;
      }
      assert forall i | 0 <= i < n :: front[i] == updates[i];
      assert updates[n].epoch == epoch ==> clock >= updates[n].clock;
    }
  }

  // ---------- opening ----------

  /** Every update of the workspace opens. */
  predicate Opens(workspace: EncryptedWorkspace) {
    OpenUpTo(workspace.updates, workspace.documentId, workspace.activeSnapshotId, |workspace.updates|)
  }

  predicate SnapshotIsReadable(workspace: EncryptedWorkspace) {
    var envelope := workspace.snapshot.envelope;
    && envelope.decodes && envelope.authentic
    && (envelope.documentId, envelope.snapshotId) == (workspace.documentId, workspace.snapshot.id)
  }

  ghost predicate InUpdates(workspace: EncryptedWorkspace, operation: Id) {
    exists i :: 0 <= i < |workspace.updates| && workspace.updates[i].envelope.operation == operation
  }

  /** The clocks are those of the workspace. */
  ghost predicate ReadsClocks(clocks: Clocks, workspace: EncryptedWorkspace) {
    var covered := ClocksOf(workspace.snapshot.coveredClocks);
    forall epoch :: IsLastClock(ClockAt(clocks, epoch), ClockAt(covered, epoch), workspace.updates, epoch)
  }

  lemma OpenedOperations(operations: set<Id>, workspace: EncryptedWorkspace)
    ensures var (all, fine) := ApplyAll(operations, workspace.updates, workspace.documentId,
                                        workspace.activeSnapshotId);
            && (fine <==> Opens(workspace)) && operations <= all
            && (fine ==> forall operation :: operation in all <==>
                operation in operations || InUpdates(workspace, operation))
  {
    AppliesExactly(operations, workspace.updates, workspace.documentId, workspace.activeSnapshotId);
    hide ApplyAll;
    if Opens(workspace) {
      forall operation
        ensures Applies(workspace.updates, workspace.documentId, workspace.activeSnapshotId, operation) <==>
                  InUpdates(workspace, operation)
      {
        if InUpdates(workspace, operation) {
          var i :| 0 <= i < |workspace.updates| && workspace.updates[i].envelope.operation == operation;
          assert OpenUpTo(workspace.updates, workspace.documentId, workspace.activeSnapshotId, i + 1);
        }
      }
    }
  }

  /** A document opens exactly if its snapshot and every update open. It then holds the operations of the snapshot and
      of the updates and no others, and knows each author's last clock. */
  lemma LoadExactly(epoch: Id, workspace: EncryptedWorkspace)
    ensures Load(epoch, workspace).Some? <==> SnapshotIsReadable(workspace) && Opens(workspace)
    ensures Load(epoch, workspace).Some? ==>
              var session := Load(epoch, workspace).value;
              && (session.epoch, session.documentId, session.activeSnapshotId, session.activeDigest,
                  session.currentSequence) ==
                 (epoch, workspace.documentId, workspace.activeSnapshotId, workspace.snapshot.envelope.digest,
                  workspace.currentSequence)
              && (forall operation :: operation in session.operations <==>
                    operation in workspace.snapshot.envelope.operations || InUpdates(workspace, operation))
              && ReadsClocks(session.authorClocks, workspace)
              && session.authorClock == ClockAt(session.authorClocks, epoch)
  {
    OpenedOperations(workspace.snapshot.envelope.operations, workspace);
    ReadExactly(workspace);
    OwnClockIsShown(ClocksOf(workspace.snapshot.coveredClocks), workspace.updates, epoch);
    hide ApplyAll, OwnClock, AllMaxed, ClocksOf, ReadsClocks, InUpdates, Opens;
  }

  lemma ReadExactly(workspace: EncryptedWorkspace)
    ensures ReadsClocks(WorkspaceClocks(workspace), workspace)
  {
    forall epoch
      ensures IsLastClock(ClockAt(WorkspaceClocks(workspace), epoch),
                          ClockAt(ClocksOf(workspace.snapshot.coveredClocks), epoch), workspace.updates, epoch)
    {
      ClocksExactly(ClocksOf(workspace.snapshot.coveredClocks), workspace.updates, epoch);
    }
  }

  /** A refresh goes through exactly if it is for the same document, its updates open, and so does its snapshot if that
      is another one than before. It adds the operations of the answer, those of the snapshot only if it changed, and
      never lowers the own clock. One that fails leaves sequence and clocks. */
  lemma MergeExactly(session: Session, workspace: EncryptedWorkspace)
    ensures var (after, fine) := Merge(session, workspace);
            var replaced := workspace.activeSnapshotId != session.activeSnapshotId;
            && (fine <==> workspace.documentId == session.documentId && (replaced ==> SnapshotIsReadable(workspace)) && Opens(workspace))
            && (after.epoch, after.documentId) == (session.epoch, session.documentId)
            && session.operations <= after.operations
            && (fine ==>
                  && after.currentSequence == workspace.currentSequence
                  && after.activeSnapshotId == workspace.activeSnapshotId
                  && after.activeDigest ==
                     (if replaced then workspace.snapshot.envelope.digest else session.activeDigest)
                  && (forall operation :: operation in after.operations <==>
                        || operation in session.operations || InUpdates(workspace, operation)
                        || (replaced && operation in workspace.snapshot.envelope.operations))
                  && ReadsClocks(after.authorClocks, workspace)
                  && session.authorClock <= after.authorClock
                  && ClockAt(after.authorClocks, session.epoch) <= after.authorClock
                  && after.authorClock in {session.authorClock, ClockAt(after.authorClocks, session.epoch)})
            && (!fine ==>
                  (after.currentSequence, after.authorClocks, after.authorClock) ==
                  (session.currentSequence, session.authorClocks, session.authorClock))
  {
    OpenedOperations(WithParent(session, workspace).operations, workspace);
    ReadExactly(workspace);
    assert IsLastClock(ClockAt(WorkspaceClocks(workspace), session.epoch),
                       ClockAt(ClocksOf(workspace.snapshot.coveredClocks),
                               session.epoch), workspace.updates, session.epoch);
    hide ApplyAll, WorkspaceClocks, ClocksOf, ReadsClocks, InUpdates, Opens;
  }

  /** A refresh that fails keeps what it has applied by then: nothing, if it is for another document or the new snapshot
      cannot be read, otherwise that snapshot and the updates in front of the first unreadable one. */
  lemma FailedMergeExactly(session: Session, workspace: EncryptedWorkspace)
    requires !Merge(session, workspace).1
    ensures var (after, replaced) := (Merge(session, workspace).0,
                                      workspace.activeSnapshotId != session.activeSnapshotId);
            if workspace.documentId != session.documentId || (replaced && !SnapshotIsReadable(workspace)) then after == session
            else
              && after == session.(operations := after.operations, activeSnapshotId := workspace.activeSnapshotId,
                                  activeDigest := if replaced then workspace.snapshot.envelope.digest
                                                  else session.activeDigest)
              && forall operation :: operation in after.operations <==>
                   || operation in session.operations || (replaced && operation in workspace.snapshot.envelope.operations)
                   || Applies(workspace.updates, workspace.documentId, workspace.activeSnapshotId, operation)
  {
    AppliesExactly(WithParent(session, workspace).operations, workspace.updates, workspace.documentId,
                   workspace.activeSnapshotId);
    hide ApplyAll, WorkspaceClocks, ClocksOf, Applies;
  }

  /** The answer read afresh, as a barrier needs it, is what a browser that opens it now gets. */
  lemma CanonicalIsLoaded(epoch: Id, workspace: EncryptedWorkspace)
    ensures Canonical(workspace).Some? <==> Load(epoch, workspace).Some?
    ensures Canonical(workspace).Some? ==> Canonical(workspace).value == Load(epoch, workspace).value.operations
  {
    hide ApplyAll, WorkspaceClocks, OwnClock;
  }

  // ---------- compacting ----------

  /** A permitted browser that is up to date with exact clocks makes a snapshot that the server accepts, every check
      included. */
  lemma CompactionIsAccepted(workspace: Workspace, access: Access, history: History, session: Session,
                             operations: set<Id>, envelope: SnapshotEnvelope, expected: Option<nat>)
    requires DocumentContract.MayWrite(workspace, access) && LogShape(workspace.document.value, history)
    requires var document := workspace.document.value;
             && session.documentId == document.id && session.activeSnapshotId == document.snapshot.id
             && session.activeDigest == document.snapshot.envelope.digest
             && session.currentSequence == document.currentSequence
    requires ClocksAreExact(session, history)
    requires IsCompaction(session, expected, operations, envelope) && envelope.ockId == access.ockId
    ensures envelope.epoch == session.epoch && (expected.Some? ==> expected.value == |history|)
    ensures var compaction := Compact(workspace, access, envelope.snapshotId, envelope, expected);
            && compaction.Compacted? && compaction.document.snapshot.envelope.operations == operations
            && compaction.document.snapshot.id == envelope.snapshotId && compaction.document.updates == []
  {
    assert session.currentSequence == |history|;
    ClientCompactionContinues(workspace.document.value, history, session, operations, envelope);
    hide LogShape, ClocksAreExact, ClocksOf, ServerClocks;
  }
}
