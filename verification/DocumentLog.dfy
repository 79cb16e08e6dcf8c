/** The stored log of a Meeting document: appending encrypted updates and replacing them by a snapshot
    (backend/src/meetings/meeting-document.service.ts). An envelope is its validated header and its content;
    the content of an update is one operation, that of a snapshot a set of operations. */
module DocumentLog {
  import opened Options

  type Id = nat

  type Clocks = map<Id, nat>

  /** decodes: it can be parsed; authentic: form, nonce, size and signature are right. */
  datatype UpdateEnvelope = UpdateEnvelope(
    documentId: Id, snapshotId: Id, ockId: Id, epoch: Id, clock: nat, operation: Id, decodes: bool, authentic: bool)

  datatype SnapshotEnvelope = SnapshotEnvelope(
    documentId: Id, snapshotId: Id, parentId: Id, parentDigest: Id, coveredSequence: nat, coveredClocks: seq<(Id, nat)>,
    ockId: Id, epoch: Id, operations: set<Id>, digest: Id, decodes: bool, authentic: bool)

  datatype Update = Update(serverSequence: nat, snapshotId: Id, epoch: Id, clock: nat, envelope: UpdateEnvelope)

  datatype Snapshot = Snapshot(id: Id, coveredSequence: nat, coveredClocks: seq<(Id, nat)>, envelope: SnapshotEnvelope)

  /** The document with its active snapshot and stored updates, in server sequence order. */
  datatype Document = Document(
    id: Id, currentSequence: nat, completedSequence: Option<nat>, snapshot: Snapshot, updates: seq<Update>)

  datatype Status = Planned | InProgress | Completed

  /** A meeting row, if there is one, and its document, if it has an active snapshot. */
  datatype Workspace = Workspace(status: Option<Status>, document: Option<Document>)

  /** What the request's user, the key state and the author's client epoch permit. */
  datatype Access = Access(contentUser: bool, ockId: Id, epochWritable: bool)

  datatype Error = Forbidden | NotFound | MeetingCompleted | WorkspaceUnavailable | EnvelopeInvalid | EpochInvalid
    | ContextInvalid | CounterReuse | UpdateReplay | ClockGap | SnapshotParentInvalid

  const ROOT_SNAPSHOT: Id := 0

  const NO_DIGEST: Id := 0

  // ---------- clocks ----------

  /** Ascending ids, each once, with positive clocks. */
  predicate IsClockList(clocks: seq<(Id, nat)>) {
    && (forall i | 0 <= i < |clocks| :: clocks[i].1 > 0)
    && (forall i, j | 0 <= i < j < |clocks| :: clocks[i].0 < clocks[j].0)
  }

  /** The list read as a map. */
  function ClocksOf(clocks: seq<(Id, nat)>): Clocks {
    if clocks == [] then map[]
    else
      var last := clocks[|clocks| - 1];
      ClocksOf(clocks[..|clocks| - 1])[last.0 := last.1]
  }

  function ClockAt(clocks: Clocks, epoch: Id): nat {
    if epoch in clocks then clocks[epoch] else 0
  }

  /** Raises the author's clock to the update's. */
  function Raised(clocks: Clocks, update: Update): Clocks {
    if update.clock > ClockAt(clocks, update.epoch) then clocks[update.epoch := update.clock] else clocks
  }

  /** Clocks of the parent snapshot and all stored updates. */
  function Folded(clocks: Clocks, updates: seq<Update>): Clocks {
    if updates == [] then clocks
    else Raised(Folded(clocks, updates[..|updates| - 1]), updates[|updates| - 1])
  }

  function ServerClocks(document: Document): Clocks {
    Folded(ClocksOf(document.snapshot.coveredClocks), document.updates)
  }

  // ---------- creation ----------

  function CreateInitial(access: Access, documentId: Id, snapshotId: Id,
                         envelope: SnapshotEnvelope): (Option<Document>, Option<Error>)
  {
    if !access.contentUser then (None, Some(Forbidden))
    else if !envelope.decodes then (None, Some(EnvelopeInvalid))
    else if !access.epochWritable then (None, Some(EpochInvalid))
    else if envelope.documentId != documentId || envelope.snapshotId != snapshotId
        || envelope.ockId != access.ockId then
      (None, Some(ContextInvalid))
    else if !envelope.authentic || !IsClockList(envelope.coveredClocks) then (None, Some(EnvelopeInvalid))
    else if envelope.parentId != ROOT_SNAPSHOT || envelope.coveredSequence != 0 || envelope.coveredClocks != []
            || envelope.parentDigest != NO_DIGEST
    then (None, Some(SnapshotParentInvalid))
    else (Some(Document(documentId, 0, None, Snapshot(snapshotId, 0, [], envelope), [])), None)
  }

  // ---------- appending ----------

  function Find(updates: seq<Update>, epoch: Id, clock: nat): Option<Update> {
    if updates == [] then None
    else if updates[0].epoch == epoch && updates[0].clock == clock then Some(updates[0])
    else Find(updates[1..], epoch, clock)
  }

  /** The greatest stored clock of an author. */
  function Latest(updates: seq<Update>, epoch: Id): Option<nat> {
    if updates == [] then None
    else
      var rest := Latest(updates[1..], epoch);
      if updates[0].epoch != epoch || (rest.Some?
          && rest.value >= updates[0].clock) then rest else Some(updates[0].clock)
  }

  datatype Append = Accepted(document: Document, update: Update) | Duplicate(update: Update) | Rejected(error: Error)

  /** Why an envelope does not get as far as the log. */
  function UpdateRefusal(workspace: Workspace, access: Access, envelope: UpdateEnvelope): Option<Error> {
    if !access.contentUser then Some(Forbidden)
    else if workspace.status.None? then Some(NotFound)
    else if workspace.status.value.Completed? then Some(MeetingCompleted)
    else if workspace.document.None? then Some(WorkspaceUnavailable)
    else if !envelope.decodes then Some(EnvelopeInvalid)
    else if !access.epochWritable then Some(EpochInvalid)
    else if envelope.documentId != workspace.document.value.id
        || envelope.snapshotId != workspace.document.value.snapshot.id
            || envelope.ockId != access.ockId
    then Some(ContextInvalid)
    else if !envelope.authentic || envelope.clock == 0 then Some(EnvelopeInvalid)
    else None
  }

  function NextUpdate(document: Document, envelope: UpdateEnvelope): Update {
    Update(document.currentSequence + 1, document.snapshot.id, envelope.epoch, envelope.clock, envelope)
  }

  function AppendToLog(document: Document, envelope: UpdateEnvelope): Append {
    var existing := Find(document.updates, envelope.epoch, envelope.clock);
    var latest := Latest(document.updates, envelope.epoch);
    var covered := ClockAt(ClocksOf(document.snapshot.coveredClocks), envelope.epoch);
    if existing.Some? then
      if existing.value.envelope != envelope then Rejected(CounterReuse)
      else if latest != Some(existing.value.clock) then Rejected(UpdateReplay)
      else Duplicate(existing.value)
    else if envelope.clock != (if latest.Some? then latest.value else covered) + 1 then Rejected(ClockGap)
    else
      var update := NextUpdate(document, envelope);
      Accepted(document.(currentSequence := document.currentSequence + 1, updates := document.updates + [update]),
               update)
  }

  function AppendUpdate(workspace: Workspace, access: Access, envelope: UpdateEnvelope): Append {
    var refusal := UpdateRefusal(workspace, access, envelope);
    if refusal.Some? then Rejected(refusal.value) else AppendToLog(workspace.document.value, envelope)
  }

  // ---------- compacting ----------

  datatype Compaction = Compacted(document: Document) | NotCompacted(error: Error)

  function SnapshotRefusal(workspace: Workspace, access: Access, snapshotId: Id,
                           envelope: SnapshotEnvelope): Option<Error>
  {
    if !access.contentUser then Some(Forbidden)
    else if workspace.status.None? then Some(NotFound)
    else if workspace.status.value.Completed? then Some(MeetingCompleted)
    else if workspace.document.None? then Some(WorkspaceUnavailable)
    else if !envelope.decodes then Some(EnvelopeInvalid)
    else if !access.epochWritable then Some(EpochInvalid)
    else if envelope.documentId != workspace.document.value.id || envelope.snapshotId != snapshotId
        || envelope.ockId != access.ockId
    then Some(ContextInvalid)
    else if !envelope.authentic || !IsClockList(envelope.coveredClocks) then Some(EnvelopeInvalid)
    else None
  }

  /** The snapshot continues the active one and covers exactly what is stored. */
  predicate Continues(document: Document, envelope: SnapshotEnvelope, expectedSequence: Option<nat>) {
    && envelope.parentId == document.snapshot.id && envelope.parentDigest == document.snapshot.envelope.digest
    && envelope.coveredSequence == document.currentSequence
    && (expectedSequence.Some? ==> envelope.coveredSequence == expectedSequence.value)
    && IsClockList(envelope.coveredClocks) && ClocksOf(envelope.coveredClocks) == ServerClocks(document)
  }

  function CompactedDocument(document: Document, snapshotId: Id, envelope: SnapshotEnvelope): Document {
    document.(snapshot := Snapshot(snapshotId, envelope.coveredSequence, envelope.coveredClocks, envelope),
              updates := [])
  }

  function Compact(workspace: Workspace, access: Access, snapshotId: Id, envelope: SnapshotEnvelope,
                   expectedSequence: Option<nat>): Compaction
  {
    var refusal := SnapshotRefusal(workspace, access, snapshotId, envelope);
    if refusal.Some? then NotCompacted(refusal.value)
    else if !Continues(workspace.document.value, envelope, expectedSequence) then NotCompacted(SnapshotParentInvalid)
    else Compacted(CompactedDocument(workspace.document.value, snapshotId, envelope))
  }
}
