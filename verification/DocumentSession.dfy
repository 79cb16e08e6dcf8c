/** One loaded Meeting document in the browser: the operations it holds and the clocks it keeps by hand
    (frontend/src/e2ee/meeting-document-session.ts). A document is the set of operations applied to it. */
module DocumentSession {
  import opened Options
  import opened DocumentLog
  import Sorting = DocumentTables

  /** What the server sends to open or refresh a document. */
  datatype EncryptedWorkspace = EncryptedWorkspace(
    documentId: Id, activeSnapshotId: Id, currentSequence: nat, snapshot: Snapshot, updates: seq<Update>)

  datatype Session = Session(
    epoch: Id, documentId: Id, activeSnapshotId: Id, activeDigest: Id, operations: set<Id>,
    authorClock: nat, currentSequence: nat, authorClocks: Clocks)

  datatype Remote = Applied | DuplicateFrame | Gap | Unreadable

  function OfSnapshot(updates: seq<Update>, snapshotId: Id): seq<Update> {
    if updates == [] then []
    else
      var front := OfSnapshot(updates[..|updates| - 1], snapshotId);
      if updates[|updates| - 1].snapshotId == snapshotId then front + [updates[|updates| - 1]] else front
  }

  /** The server's answer to a bootstrap request. */
  function Bootstrap(document: Document): EncryptedWorkspace {
    EncryptedWorkspace(document.id, document.snapshot.id, document.currentSequence, document.snapshot,
                       OfSnapshot(document.updates, document.snapshot.id))
  }

  predicate SnapshotOpens(workspace: EncryptedWorkspace) {
    var envelope := workspace.snapshot.envelope;
    envelope.decodes && envelope.authentic && envelope.documentId == workspace.documentId
    && envelope.snapshotId == workspace.snapshot.id
  }

  predicate UpdateOpens(envelope: UpdateEnvelope, documentId: Id, snapshotId: Id, epoch: Id, clock: nat) {
    envelope.decodes && envelope.authentic && envelope.documentId == documentId && envelope.snapshotId == snapshotId
    && envelope.epoch == epoch && envelope.clock == clock
  }

  /** Updates are applied in order until one cannot be opened. */
  function ApplyAll(operations: set<Id>, updates: seq<Update>, documentId: Id, snapshotId: Id): (set<Id>, bool) {
    if updates == [] then (operations, true)
    else
      var (earlier, fine) := ApplyAll(operations, updates[..|updates| - 1], documentId, snapshotId);
      var last := updates[|updates| - 1];
      if fine && UpdateOpens(last.envelope, documentId, snapshotId, last.epoch, last.clock)
      then (earlier + {last.envelope.operation}, true)
      else (earlier, false)
  }

  /** All operations of a workspace. */
  function Contents(workspace: EncryptedWorkspace): set<Id> {
    ApplyAll(workspace.snapshot.envelope.operations, workspace.updates, workspace.documentId,
             workspace.activeSnapshotId).0
  }

  /** The document a workspace describes, read afresh; None stands for an exception. */
  function Canonical(workspace: EncryptedWorkspace): Option<set<Id>> {
    if SnapshotOpens(workspace)
       && ApplyAll(workspace.snapshot.envelope.operations, workspace.updates, workspace.documentId,
                   workspace.activeSnapshotId).1
    then Some(Contents(workspace)) else None
  }

  /** The greater of the known and the update's clock. */
  function Maxed(clocks: Clocks, update: Update): Clocks {
    clocks[update.epoch := if ClockAt(clocks, update.epoch) > update.clock then ClockAt(clocks, update.epoch)
                           else update.clock]
  }

  function AllMaxed(clocks: Clocks, updates: seq<Update>): Clocks {
    if updates == [] then clocks
    else Maxed(AllMaxed(clocks, updates[..|updates| - 1]), updates[|updates| - 1])
  }

  function WorkspaceClocks(workspace: EncryptedWorkspace): Clocks {
    AllMaxed(ClocksOf(workspace.snapshot.coveredClocks), workspace.updates)
  }

  /** The own covered clock or the greatest own clock among the updates. */
  function OwnClock(clock: nat, updates: seq<Update>, epoch: Id): nat {
    if updates == [] then clock
    else
      var earlier, last := OwnClock(clock, updates[..|updates| - 1], epoch), updates[|updates| - 1];
      if last.epoch == epoch && last.clock > earlier then last.clock else earlier
  }

  /** None stands for an exception that leaves what was loaded before. */
  function Load(epoch: Id, workspace: EncryptedWorkspace): Option<Session> {
    if !SnapshotOpens(workspace) then None
    else
      var (operations, fine) := ApplyAll(workspace.snapshot.envelope.operations, workspace.updates,
                                         workspace.documentId, workspace.activeSnapshotId);
      if !fine then None
      else
        Some(Session(epoch, workspace.documentId, workspace.activeSnapshotId, workspace.snapshot.envelope.digest,
                     operations,
                     OwnClock(ClockAt(ClocksOf(workspace.snapshot.coveredClocks), epoch), workspace.updates, epoch),
                     workspace.currentSequence, WorkspaceClocks(workspace)))
  }

  /** A changed parent snapshot is applied before anything else. */
  function WithParent(session: Session, workspace: EncryptedWorkspace): Session {
    if workspace.activeSnapshotId == session.activeSnapshotId then session
    else session.(operations := session.operations + workspace.snapshot.envelope.operations,
                  activeSnapshotId := workspace.activeSnapshotId, activeDigest := workspace.snapshot.envelope.digest)
  }

  function Max3(a: nat, b: nat, c: nat): nat {
    var ab := if a > b then a else b;
    if ab > c then ab else c
  }

  /** The session afterwards and whether the merge went through; an exception keeps what was applied by then. */
  function Merge(session: Session, workspace: EncryptedWorkspace): (Session, bool) {
    if workspace.documentId != session.documentId then (session, false)
    else if workspace.activeSnapshotId != session.activeSnapshotId && !SnapshotOpens(workspace) then (session, false)
    else
      var parent := WithParent(session, workspace);
      var (operations, fine) := ApplyAll(parent.operations, workspace.updates, workspace.documentId,
                                         workspace.activeSnapshotId);
      if !fine then (parent.(operations := operations), false)
      else
        var clocks := WorkspaceClocks(workspace);
        (parent.(operations := operations, currentSequence := workspace.currentSequence, authorClocks := clocks,
                 authorClock := Max3(parent.authorClock,
                                     ClockAt(ClocksOf(workspace.snapshot.coveredClocks), session.epoch),
                                     ClockAt(clocks, session.epoch))), true)
  }

  /** An update frame; frames without a sequence skip the order check. */
  function ApplyRemote(session: Session, epoch: Id, clock: nat, envelope: UpdateEnvelope,
                       sequence: Option<nat>): (Session, Remote)
  {
    if sequence.Some? && sequence.value <= session.currentSequence then (session, DuplicateFrame)
    else if sequence.Some? && sequence.value != session.currentSequence + 1 then (session, Gap)
    else if !UpdateOpens(envelope, session.documentId, session.activeSnapshotId, epoch, clock) then (session, Unreadable)
    else
      (session.(operations := session.operations + {envelope.operation},
                authorClocks := session.authorClocks[epoch := clock],
                currentSequence := if sequence.Some? then sequence.value else session.currentSequence), Applied)
  }

  /** Takes clock and sequence of the acknowledgement as they are. */
  function Acknowledge(session: Session, epoch: Id, clock: nat, sequence: nat): Session {
    session.(authorClocks := session.authorClocks[epoch := clock], currentSequence := sequence)
  }

  /** Encrypts an edit under the next own clock. */
  function CreatePending(session: Session, operation: Id, ockId: Id): (Session, UpdateEnvelope) {
    var clock := session.authorClock + 1;
    (session.(authorClock := clock),
     UpdateEnvelope(session.documentId, session.activeSnapshotId, ockId, session.epoch, clock, operation, true, true))
  }

  /** The snapshot a client makes of the given operations. */
  ghost predicate IsCompaction(session: Session, expectedSequence: Option<nat>, operations: set<Id>,
                               envelope: SnapshotEnvelope)
  {
    && (expectedSequence.Some? ==> session.currentSequence == expectedSequence.value)
    && envelope.decodes && envelope.authentic && envelope.epoch == session.epoch
    && envelope.documentId == session.documentId && envelope.parentId == session.activeSnapshotId
    && envelope.parentDigest == session.activeDigest && envelope.coveredSequence == session.currentSequence
    && IsClockList(envelope.coveredClocks) && ClocksOf(envelope.coveredClocks) == session.authorClocks
    && envelope.operations == operations
  }

  function AcceptCompaction(session: Session, envelope: SnapshotEnvelope): Session {
    session.(operations := session.operations + envelope.operations, activeSnapshotId := envelope.snapshotId,
             activeDigest := envelope.digest)
  }

  // ---------- the object ----------

  class LoadedDocument {
    var epoch: Id
    var documentId: Id
    var activeSnapshotId: Id
    var activeDigest: Id
    var operations: set<Id>
    var authorClock: nat
    var currentSequence: nat
    var authorClocks: Clocks

    function View(): Session
      reads this
    {
      Session(epoch, documentId, activeSnapshotId, activeDigest, operations, authorClock, currentSequence, authorClocks)
    }

    static method ApplyUpdates(start: set<Id>, workspace: EncryptedWorkspace) returns (applied: set<Id>, fine: bool)
      ensures (applied, fine) == ApplyAll(start, workspace.updates, workspace.documentId, workspace.activeSnapshotId)
    {
      applied := start;
      var index := 0;
      while index < |workspace.updates|
        invariant index <= |workspace.updates|
        invariant (applied, true) ==
                  ApplyAll(start, workspace.updates[..index], workspace.documentId, workspace.activeSnapshotId)
      {
        var update := workspace.updates[index];
        assert workspace.updates[..index + 1][..index] == workspace.updates[..index];
        if !UpdateOpens(update.envelope, workspace.documentId, workspace.activeSnapshotId, update.epoch, update.clock) {
          UnopenedStops(start, workspace.updates, workspace.documentId, workspace.activeSnapshotId, index);
          return applied, false;
        }
        applied := applied + {update.envelope.operation};
        index := index + 1;
      }
      assert workspace.updates[..index] == workspace.updates;
      return applied, true;
    }

    /** Opens the document afresh; an exception keeps what was loaded before. */
    method LoadWorkspace(workspace: EncryptedWorkspace) returns (fine: bool)
      modifies this
      ensures fine <==> Load(old(epoch), workspace).Some?
      ensures View() == if fine then Load(old(epoch), workspace).value else old(View())
    {
      if !SnapshotOpens(workspace) {
        return false;
      }
      var loaded: set<Id>;
      loaded, fine := ApplyUpdates(workspace.snapshot.envelope.operations, workspace);
      if !fine {
        return;
      }
      var clock, index := ClockAt(ClocksOf(workspace.snapshot.coveredClocks), epoch), 0;
      ghost var covered := clock;
      while index < |workspace.updates|
        invariant index <= |workspace.updates|
        invariant clock == OwnClock(covered, workspace.updates[..index], epoch)
      {
        var update := workspace.updates[index];
        assert workspace.updates[..index + 1][..index] == workspace.updates[..index];
        if update.epoch == epoch && update.clock > clock {
          clock := update.clock;
        }
        index := index + 1;
      }
      assert workspace.updates[..index] == workspace.updates;
      operations, authorClock := loaded, clock;
      documentId, activeSnapshotId := workspace.documentId, workspace.activeSnapshotId;
      activeDigest, currentSequence := workspace.snapshot.envelope.digest, workspace.currentSequence;
      authorClocks := ReadClocks(workspace);
    }

    /** The clock map of a workspace, built entry by entry. */
    static method ReadClocks(workspace: EncryptedWorkspace) returns (clocks: Clocks)
      ensures clocks == WorkspaceClocks(workspace)
    {
      clocks := ClocksOf(workspace.snapshot.coveredClocks);
      var index := 0;
      while index < |workspace.updates|
        invariant index <= |workspace.updates|
        invariant clocks == AllMaxed(ClocksOf(workspace.snapshot.coveredClocks), workspace.updates[..index])
      {
        var update := workspace.updates[index];
        assert workspace.updates[..index + 1][..index] == workspace.updates[..index];
        var known := if update.epoch in clocks then clocks[update.epoch] else 0;
        clocks := clocks[update.epoch := if known > update.clock then known else update.clock];
        index := index + 1;
      }
      assert workspace.updates[..index] == workspace.updates;
    }

    method MergeWorkspace(workspace: EncryptedWorkspace) returns (fine: bool)
      modifies this
      ensures (View(), fine) == Merge(old(View()), workspace)
    {
      if workspace.documentId != documentId {
        return false;
      }
      if workspace.activeSnapshotId != activeSnapshotId {
        if !SnapshotOpens(workspace) {
          return false;
        }
        operations := operations + workspace.snapshot.envelope.operations;
        activeSnapshotId, activeDigest := workspace.activeSnapshotId, workspace.snapshot.envelope.digest;
      }
      operations, fine := ApplyUpdates(operations, workspace);
      if !fine {
        return;
      }
      currentSequence := workspace.currentSequence;
      authorClocks := ReadClocks(workspace);
      authorClock := Max3(authorClock, ClockAt(ClocksOf(workspace.snapshot.coveredClocks), epoch),
                          ClockAt(authorClocks, epoch));
    }

    method ApplyRemoteUpdate(author: Id, clock: nat, envelope: UpdateEnvelope,
                             sequence: Option<nat>) returns (result: Remote)
      modifies this`operations, this`authorClocks, this`currentSequence
      ensures (View(), result) == ApplyRemote(old(View()), author, clock, envelope, sequence)
    {
      if sequence.Some? {
        if sequence.value <= currentSequence {
          return DuplicateFrame;
        }
        if sequence.value != currentSequence + 1 {
          return Gap;
        }
      }
      if !UpdateOpens(envelope, documentId, activeSnapshotId, author, clock) {
        return Unreadable;
      }
      operations := operations + {envelope.operation};
      authorClocks := authorClocks[author := clock];
      if sequence.Some? {
        currentSequence := sequence.value;
      }
      return Applied;
    }

    method AcknowledgeUpdate(author: Id, clock: nat, sequence: nat)
      modifies this`authorClocks, this`currentSequence
      ensures View() == Acknowledge(old(View()), author, clock, sequence)
    {
      authorClocks := authorClocks[author := clock];
      currentSequence := sequence;
    }

    method CreatePendingUpdate(operation: Id, ockId: Id) returns (envelope: UpdateEnvelope)
      modifies this`authorClock
      ensures (View(), envelope) == CreatePending(old(View()), operation, ockId)
    {
      authorClock := authorClock + 1;
      return UpdateEnvelope(documentId, activeSnapshotId, ockId, epoch, authorClock, operation, true, true);
    }

    /** None stands for the exception of a wrong sequence. */
    method CreateCompaction(expectedSequence: Option<nat>, snapshotId: Id, digest: Id, ockId: Id,
                            stable: Option<set<Id>>)
      returns (envelope: Option<SnapshotEnvelope>)
      requires forall author | author in authorClocks :: authorClocks[author] > 0
      ensures envelope.None? <==> expectedSequence.Some? && expectedSequence.value != currentSequence
      ensures envelope.Some? ==>
                && IsCompaction(View(), expectedSequence, if stable.Some? then stable.value
                                                          else operations, envelope.value)
                && (envelope.value.snapshotId, envelope.value.digest, envelope.value.ockId) == (snapshotId, digest, ockId)
    {
      if expectedSequence.Some? && expectedSequence.value != currentSequence {
        return None;
      }
      var clocks := Sorting.Sorted(authorClocks);
      return Some(SnapshotEnvelope(documentId, snapshotId, activeSnapshotId, activeDigest, currentSequence, clocks,
                                   ockId, epoch,
                                   if stable.Some? then stable.value else operations, digest, true, true));
    }
  }

  lemma {:induction false} UnopenedStops(operations: set<Id>, updates: seq<Update>, documentId: Id, snapshotId: Id,
                                         index: nat)
    requires index < |updates| && ApplyAll(operations, updates[..index], documentId, snapshotId).1
    requires !UpdateOpens(updates[index].envelope, documentId, snapshotId, updates[index].epoch, updates[index].clock)
    ensures ApplyAll(operations, updates, documentId, snapshotId) ==
            (ApplyAll(operations, updates[..index], documentId, snapshotId).0, false)
  {
    var front := updates[..|updates| - 1];
    if index < |front| {
      assert front[..index] == updates[..index];
      UnopenedStops(operations, front, documentId, snapshotId, index);
    } else {
      assert front == updates[..index];
    }
  }
}
