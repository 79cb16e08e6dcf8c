/** Who may change a Meeting document, which changes are accepted, and what an accepted change leaves behind, told by
    the history of everything ever accepted (backend/src/meetings/meeting-document.service.ts). */
module DocumentContract {
  import opened Options
  import opened DocumentLog
  import opened DocumentHistory
  import opened DocumentRuns
  import Replication

  /** The user may read and write content, the author's epoch is still writable, and the Meeting exists, has a document
      and is not completed. */
  predicate MayWrite(workspace: Workspace, access: Access) {
    && access.contentUser && access.epochWritable && workspace.document.Some?
    && (workspace.status == Some(Planned) || workspace.status == Some(InProgress))
  }

  /** The update is well formed and made for this document, its active snapshot and the current Content Key. */
  predicate UpdateBelongs(document: Document, access: Access, envelope: UpdateEnvelope) {
    && envelope.decodes && envelope.authentic
    && (envelope.documentId, envelope.snapshotId, envelope.ockId) == (document.id, document.snapshot.id, access.ockId)
  }

  predicate SnapshotBelongs(document: Document, access: Access, snapshotId: Id, envelope: SnapshotEnvelope) {
    && envelope.decodes && envelope.authentic && IsClockList(envelope.coveredClocks)
    && (envelope.documentId, envelope.snapshotId, envelope.ockId) == (document.id, snapshotId, access.ockId)
  }

  // ---------- appending ----------

  /** An update is accepted exactly if it is permitted, belongs to the document and carries the number of updates its
      author has had accepted, plus one. Nothing else ever changes the tables. */
  lemma AppendExactly(world: World, access: Access, envelope: UpdateEnvelope)
    requires Shaped(world)
    ensures var document, after := world.workspace.document.value, Next(world, Appending(access, envelope));
            var accepted := MayWrite(world.workspace, access) && UpdateBelongs(document, access, envelope)
                            && envelope.clock == Count(world.history, envelope.epoch) + 1;
            && after.history == (if accepted then world.history + [envelope] else world.history)
            && after.workspace.status == world.workspace.status && after.workspace.document.Some?
            && after.workspace.document.value ==
               if accepted then
                 Document(document.id, |world.history| + 1, document.completedSequence, document.snapshot,
                          document.updates + [Update(|world.history| + 1, document.snapshot.id, envelope.epoch,
                                                     envelope.clock,
                                                     envelope)])
               else document
  {
    var document := world.workspace.document.value;
    assert document.currentSequence == |world.history|;
    if envelope.clock > 0 {
      AppendByHistory(document, world.history, envelope);
    }
    hide Shaped, LogShape, Find, Latest, ClocksOf, Count, IsStored;
  }

  /** What the caller is told: the first check that fails, and of the clock whether it was reused for something else, is
      older than the author's last update, or leaves a gap. */
  lemma RefusalExactly(world: World, access: Access, envelope: UpdateEnvelope)
    requires Shaped(world)
    ensures var append := AppendUpdate(world.workspace, access, envelope);
            var document, status := world.workspace.document.value, world.workspace.status;
            var n := Count(world.history, envelope.epoch);
            var covered := ClockAt(ClocksOf(document.snapshot.coveredClocks), envelope.epoch);
            var stored := IsStored(document, world.history, envelope);
            var asked := access.contentUser && status.Some? && !status.value.Completed?;
            var here := (envelope.documentId, envelope.snapshotId, envelope.ockId) ==
                        (document.id, document.snapshot.id, access.ockId);
            var fine := MayWrite(world.workspace, access) && UpdateBelongs(document, access,
                                 envelope) && envelope.clock > 0;
            && (append == Rejected(Forbidden) <==> !access.contentUser)
            && (append == Rejected(NotFound) <==> access.contentUser && status.None?)
            && (append == Rejected(MeetingCompleted) <==> access.contentUser && status == Some(Completed))
            && append != Rejected(WorkspaceUnavailable) && append != Rejected(SnapshotParentInvalid)
            && (append == Rejected(EpochInvalid) <==> asked && envelope.decodes && !access.epochWritable)
            && (append == Rejected(ContextInvalid) <==> asked && envelope.decodes && access.epochWritable && !here)
            && (append == Rejected(EnvelopeInvalid) <==>
                  asked && (!envelope.decodes
                            || (access.epochWritable && here && (!envelope.authentic || envelope.clock == 0))))
            && (append == Rejected(CounterReuse) <==> fine && covered < envelope.clock <= n && !stored)
            && (append == Rejected(UpdateReplay) <==> fine && envelope.clock < n && stored)
            && (append == Rejected(ClockGap) <==> fine && (envelope.clock > n + 1 || envelope.clock <= covered))
            && (append.Duplicate? <==> fine && envelope.clock == n && stored)
  {
    var document := world.workspace.document.value;
    if envelope.clock > 0 {
      AppendByHistory(document, world.history, envelope);
      ClockErrorsOnly(document, envelope);
    }
    hide Shaped, LogShape, AppendToLog, ClocksOf, Count, IsStored;
  }

  lemma ClockErrorsOnly(document: Document, envelope: UpdateEnvelope)
    ensures var append := AppendToLog(document, envelope);
            append.Rejected? ==> append.error in {CounterReuse, UpdateReplay, ClockGap}
  {
  }

  /** A repeated last update is answered with the sequence it got when it was accepted. */
  lemma DuplicateExactly(world: World, access: Access, envelope: UpdateEnvelope)
    requires Shaped(world) && AppendUpdate(world.workspace, access, envelope).Duplicate?
    ensures var update := AppendUpdate(world.workspace, access, envelope).update;
            && 1 <= update.serverSequence <= |world.history| && world.history[update.serverSequence - 1] == envelope
            && update.envelope == envelope && update.epoch == envelope.epoch && update.clock == envelope.clock
  {
    var document := world.workspace.document.value;
    FindMeans(document.updates, envelope.epoch, envelope.clock);
    hide ClocksAreSequential, Records, ClocksOf;
  }

  // ---------- compacting ----------

  /** A snapshot is accepted exactly if it is permitted, belongs to the document, is made on top of the active snapshot
      and counts everything accepted so far; it takes the place of the log. */
  lemma CompactExactly(world: World, access: Access, snapshotId: Id, envelope: SnapshotEnvelope, expected: Option<nat>)
    requires Shaped(world)
    ensures var document := world.workspace.document.value;
            var after := Next(world, Compacting(access, snapshotId, envelope, expected));
            var accepted := MayWrite(world.workspace, access) && SnapshotBelongs(document, access, snapshotId, envelope)
                            && envelope.parentId == document.snapshot.id
                            && envelope.parentDigest == document.snapshot.envelope.digest
                            && envelope.coveredSequence == |world.history|
                            && (expected.Some? ==> expected.value == |world.history|)
                            && Records(ClocksOf(envelope.coveredClocks), world.history);
            && after.history == world.history && after.workspace.status == world.workspace.status
            && after.workspace.document.Some?
            && after.workspace.document.value ==
               if accepted then
                 Document(document.id, |world.history|, document.completedSequence,
                          Snapshot(snapshotId, |world.history|, envelope.coveredClocks, envelope), [])
               else document
  {
    var document := world.workspace.document.value;
    assert document.currentSequence == |world.history|;
    ServerClocksCount(document, world.history);
    hide Shaped, LogShape, ClocksOf, ServerClocks, Records, IsClockList;
    if Records(ClocksOf(envelope.coveredClocks), world.history) {
      Replication.OneClockMap(ClocksOf(envelope.coveredClocks), ServerClocks(document), world.history);
    }
  }

  /** Every check of a snapshot that belongs to the document ends in the same error. */
  lemma NotCompactedExactly(world: World, access: Access, snapshotId: Id, envelope: SnapshotEnvelope,
                            expected: Option<nat>)
    requires Shaped(world) && MayWrite(world.workspace, access)
    ensures var document := world.workspace.document.value;
            var compaction := Compact(world.workspace, access, snapshotId, envelope, expected);
            && (SnapshotBelongs(document, access, snapshotId, envelope) <==>
                  compaction.Compacted? || compaction == NotCompacted(SnapshotParentInvalid))
            && (envelope.decodes && (envelope.documentId, envelope.snapshotId, envelope.ockId) !=
                                    (document.id, snapshotId, access.ockId) <==>
                  compaction == NotCompacted(ContextInvalid))
            && compaction != NotCompacted(Forbidden) && compaction != NotCompacted(EpochInvalid)
            && compaction != NotCompacted(MeetingCompleted) && compaction != NotCompacted(NotFound)
  {
    hide Continues, IsClockList, CompactedDocument;
  }

  // ---------- creating ----------

  /** A document starts with a snapshot of nothing. */
  lemma CreateExactly(access: Access, documentId: Id, snapshotId: Id, envelope: SnapshotEnvelope)
    ensures var (created, error) := CreateInitial(access, documentId, snapshotId, envelope);
            var accepted := access.contentUser && access.epochWritable && envelope.decodes && envelope.authentic
                            && (envelope.documentId, envelope.snapshotId, envelope.ockId) == (documentId, snapshotId, access.ockId)
                            && envelope.parentId == ROOT_SNAPSHOT && envelope.parentDigest == NO_DIGEST
                            && envelope.coveredSequence == 0 && envelope.coveredClocks == [];
            && (accepted <==> created.Some?) && (created.Some? <==> error.None?)
            && (created.Some? ==>
                  created.value == Document(documentId, 0, None, Snapshot(snapshotId, 0, [], envelope), []))
  {
  }

  // ---------- runs ----------

  /** The update was sent by somebody who was permitted to write at that time. */
  ghost predicate SentByPermitted(requests: seq<Request>, envelope: UpdateEnvelope) {
    exists k ::
      && 0 <= k < |requests| && requests[k].Appending? && requests[k].update == envelope
      && requests[k].access.contentUser && requests[k].access.epochWritable
      && requests[k].access.ockId == envelope.ockId
  }

  /** Over every run whatever enters the history was sent by a permitted user under the Content Key of its envelope. */
  lemma {:induction false} HistoryIsPermitted(world: World, requests: seq<Request>, i: nat)
    requires Shaped(world) && |world.history| <= i < |After(world, requests).history|
    ensures SentByPermitted(requests, After(world, requests).history[i])
    decreases |requests|
  {
    hide Shaped, Next;
    var next := Next(world, requests[0]);
    StepKeepsShape(world, requests[0]);
    RunsKeepShape(next, requests[1..]);
    var envelope := After(world, requests).history[i];
    if i < |next.history| {
      assert envelope == next.history[i];
      StepIsPermitted(world, requests[0]);
      assert requests[0].update == envelope;
    } else {
      HistoryIsPermitted(next, requests[1..], i);
      var k :| && 0 <= k < |requests[1..]| && requests[1..][k].Appending? && requests[1..][k].update == envelope
               && requests[1..][k].access.contentUser && requests[1..][k].access.epochWritable
               && requests[1..][k].access.ockId == envelope.ockId;
      assert requests[k + 1].update == envelope;
    }
  }

  /** One request adds at most the update it carries, from a permitted user. */
  lemma StepIsPermitted(world: World, request: Request)
    requires Shaped(world) && Next(world, request).history != world.history
    ensures request.Appending? && Next(world, request).history == world.history + [request.update]
    ensures request.access.contentUser && request.access.epochWritable && request.access.ockId == request.update.ockId
  {
    if request.Appending? {
      AppendExactly(world, request.access, request.update);
    }
    hide Shaped, AppendUpdate, Compact;
  }
}
