/** Every run of the replicated document: no browser misses an operation below its sequence, and no compaction
    loses an accepted operation (frontend/src/e2ee/meeting-document-session.ts,
    frontend/src/e2ee/meeting-collaboration.ts, backend/src/meetings/meeting-document.service.ts). */
module ReplicationRuns {
  import opened Options
  import opened DocumentLog
  import opened DocumentHistory
  import opened DocumentRuns
  import opened DocumentSession
  import opened Replication

  /** The server's document, what it ever accepted, all snapshots it ever had, every bootstrap answer ever
      given, the sessions of the browsers, and the stable state of each browser that is about to compact.
      Frame s carries entry s of the history. */
  datatype System = System(
    document: Document, history: History, snapshots: map<Id, Snapshot>, answers: set<(EncryptedWorkspace, nat)>,
    sessions: map<Id, Session>, stable: map<Id, set<Id>>)

  datatype Action =
    | Submit(access: Access, status: Status, update: UpdateEnvelope)
    | Replace(client: Id, access: Access, status: Status, snapshotId: Id, snapshot: SnapshotEnvelope,
              expectedSequence: Option<nat>)
    | Answer
    | Open(client: Id, epoch: Id, answer: (EncryptedWorkspace, nat))
    | Refresh(client: Id, answer: (EncryptedWorkspace, nat))
    | Coordinate(client: Id, answer: (EncryptedWorkspace, nat))
    | Release(client: Id)
    | Receive(client: Id, sequence: nat)
    | Confirm(client: Id, sequence: nat)
    | Edit(client: Id, operation: Id)
    | Adopt(client: Id, snapshotId: Id)

  /** Messages are genuine, new snapshots have fresh ids and are made by a session of its stable state. An
      acknowledgement is for an own edit; a browser that compacts has drained and awaits none
      (DrainedClients.DrainedAwaitsNothing). */
  ghost predicate Legal(system: System, action: Action) {
    match action
    case Submit(_, _, _) => true
    case Replace(client, _, _, snapshotId, envelope, expected) =>
      && snapshotId !in system.snapshots && client in system.sessions && client in system.stable
      && IsCompaction(system.sessions[client], expected, system.stable[client], envelope)
    case Answer => true
    case Open(_, _, answer) => answer in system.answers
    case Refresh(client, answer) => client in system.sessions && answer in system.answers
    case Coordinate(client, answer) => client in system.sessions && answer in system.answers
    case Release(_) => true
    case Receive(client, sequence) => client in system.sessions && 1 <= sequence <= |system.history|
    case Confirm(client, sequence) =>
      && client in system.sessions && client !in system.stable && 1 <= sequence <= |system.history|
      && system.history[sequence - 1].epoch == system.sessions[client].epoch
      && system.history[sequence - 1].operation in system.sessions[client].operations
    case Edit(client, _) => client in system.sessions
    case Adopt(client, snapshotId) => client in system.sessions && snapshotId in system.snapshots
  }

  /** What the service stores can be opened by browsers. */
  predicate Acceptable(document: Document, envelope: UpdateEnvelope) {
    envelope.clock > 0 && UpdateOpens(envelope, document.id, document.snapshot.id, envelope.epoch, envelope.clock)
  }

  lemma AcceptedIsAcceptable(document: Document, status: Status, access: Access, envelope: UpdateEnvelope)
    ensures var append := AppendUpdate(Workspace(Some(status), Some(document)), access, envelope);
            append.Accepted? ==> Acceptable(document, envelope) && append == AppendToLog(document, envelope)
  {
    hide AppendToLog;
  }

  lemma CompactedIsGenuine(document: Document, status: Status, access: Access, snapshotId: Id,
                           envelope: SnapshotEnvelope,
                           expected: Option<nat>)
    ensures var compaction := Compact(Workspace(Some(status), Some(document)), access, snapshotId, envelope, expected);
            compaction.Compacted? ==>
              && Continues(document, envelope, expected) && envelope.snapshotId == snapshotId
              && envelope.documentId == document.id && envelope.decodes && envelope.authentic
              && compaction.document == CompactedDocument(document, snapshotId, envelope)
  {
    hide Continues;
  }

  function WithSession(system: System, client: Id, session: Session): System {
    system.(sessions := system.sessions[client := session])
  }

  /** A frame that is applied is applied to the stable state too. */
  function Received(system: System, client: Id, envelope: UpdateEnvelope, sequence: nat): System
    requires client in system.sessions
  {
    var (session, result) := ApplyRemote(system.sessions[client], envelope.epoch, envelope.clock, envelope,
                                         Some(sequence));
    WithSession(system, client, session).(
      stable := if result.Applied? && client in system.stable
                then system.stable[client := system.stable[client] + {envelope.operation}] else system.stable)
  }

  ghost function Next(system: System, action: Action): System
    requires Legal(system, action)
  {
    match action
    case Submit(access, status, envelope) =>
      var append := AppendUpdate(Workspace(Some(status), Some(system.document)), access, envelope);
      if append.Accepted? then system.(document := append.document, history := system.history + [envelope]) else system
    case Replace(_, access, status, snapshotId, envelope, expected) =>
      var compaction := Compact(Workspace(Some(status), Some(system.document)), access, snapshotId, envelope, expected);
      if compaction.Compacted? then
        system.(document := compaction.document,
                snapshots := system.snapshots[snapshotId := compaction.document.snapshot])
      else system
    case Answer => system.(answers := system.answers + {(Bootstrap(system.document), |system.history|)})
    case Open(client, epoch, answer) =>
      var session := Load(epoch, answer.0);
      if session.Some? then WithSession(system, client, session.value).(stable := system.stable - {client}) else system
    case Refresh(client, answer) =>
      WithSession(system, client, Merge(system.sessions[client], answer.0).0).(
        stable := if client in system.stable then system.stable[client := Contents(answer.0)] else system.stable)
    case Coordinate(client, answer) =>
      WithSession(system, client, Merge(system.sessions[client], answer.0).0).(
        stable := system.stable[client := Contents(answer.0)])
    case Release(client) => system.(stable := system.stable - {client})
    case Receive(client, sequence) => Received(system, client, system.history[sequence - 1], sequence)
    case Confirm(client, sequence) =>
      var own := system.history[sequence - 1];
      WithSession(system, client, Acknowledge(system.sessions[client], own.epoch, own.clock, sequence))
    case Edit(client, operation) =>
      var session := system.sessions[client];
      WithSession(system, client, session.(operations := session.operations + {operation}))
    case Adopt(client, snapshotId) =>
      WithSession(system, client, AcceptCompaction(system.sessions[client], system.snapshots[snapshotId].envelope))
  }

  // ---------- what every reachable state has ----------

  predicate SnapshotsAreSound(snapshots: map<Id, Snapshot>) {
    forall id | id in snapshots :: snapshots[id].id == id && snapshots[id].envelope.snapshotId == id
  }

  ghost predicate AnswersAreGenuine(system: System) {
    forall answer | answer in system.answers ::
      && answer.1 <= |system.history|
      && IsGenuine(answer.0, system.document.id, system.history[..answer.1], system.snapshots)
  }

  ghost predicate SessionsAreAnchored(system: System) {
    forall client | client in system.sessions ::
      Anchored(system.sessions[client], system.document.id, system.history, system.snapshots)
  }

  /** A stable state holds every operation up to the recorded sequence of its session. */
  ghost predicate StableIsWhole(system: System) {
    forall client | client in system.stable ::
      client in system.sessions && IsWhole(system.stable[client], system.sessions[client], system.history)
  }

  predicate IsWhole(operations: set<Id>, session: Session, history: History) {
    session.currentSequence <= |history| && Operations(history[..session.currentSequence]) <= operations
  }

  ghost predicate Faithful(system: System) {
    && IsGenuine(AsWorkspace(system.document), system.document.id, system.history, system.snapshots)
    && SnapshotsKeepAll(system.snapshots, system.history) && SnapshotsAreSound(system.snapshots)
    && AnswersAreGenuine(system) && SessionsAreAnchored(system) && StableIsWhole(system)
  }

  // ---------- the server's steps ----------

  /** Nothing genuine stops being so when the history grows and snapshots are added. */
  lemma GrowthKeepsGenuine(workspace: EncryptedWorkspace, documentId: Id, history: History, before: map<Id, Snapshot>,
                           after: map<Id, Snapshot>)
    requires IsGenuine(workspace, documentId, history, before) && before.Keys <= after.Keys
    requires forall id | id in before :: after[id] == before[id]
    ensures IsGenuine(workspace, documentId, history, after)
  {
    hide LogShape;
  }

  lemma GrowthKeepsSnapshots(snapshots: map<Id, Snapshot>, history: History, after: History)
    requires SnapshotsKeepAll(snapshots, history) && history <= after
    ensures SnapshotsKeepAll(snapshots, after)
  {
    forall id | id in snapshots
      ensures Operations(after[..snapshots[id].coveredSequence]) <= snapshots[id].envelope.operations
    {
      assert after[..snapshots[id].coveredSequence] == history[..snapshots[id].coveredSequence];
    }
  }

  lemma GrowthKeepsAnchor(session: Session, documentId: Id, history: History, after: History,
                          before: map<Id, Snapshot>, now: map<Id, Snapshot>)
    requires Anchored(session, documentId, history, before) && history <= after
    requires forall id | id in before :: id in now && now[id] == before[id]
    ensures Anchored(session, documentId, after, now)
  {
  }

  lemma GrowthKeepsWhole(operations: set<Id>, session: Session, history: History, after: History)
    requires IsWhole(operations, session, history) && history <= after
    ensures IsWhole(operations, session, after)
  {
    assert after[..session.currentSequence] == history[..session.currentSequence];
  }

  /** Answers and sessions stay as they should when the server's part moves on. */
  lemma GrowthIsFaithful(system: System, after: System)
    requires Faithful(system) && after.answers == system.answers && after.sessions == system.sessions
    requires after.stable == system.stable
    requires after.document.id == system.document.id && system.history <= after.history
    requires forall id | id in system.snapshots :: id in after.snapshots && after.snapshots[id] == system.snapshots[id]
    requires IsGenuine(AsWorkspace(after.document), after.document.id, after.history, after.snapshots)
    requires SnapshotsKeepAll(after.snapshots, after.history) && SnapshotsAreSound(after.snapshots)
    ensures Faithful(after)
  {
    GrownAnswers(system, after);
    GrownSessions(system, after);
    hide IsGenuine, SnapshotsKeepAll, SnapshotsAreSound, AnswersAreGenuine, SessionsAreAnchored, StableIsWhole;
  }

  lemma GrownAnswers(system: System, after: System)
    requires AnswersAreGenuine(system) && after.answers == system.answers
    requires after.document.id == system.document.id && system.history <= after.history
    requires forall id | id in system.snapshots :: id in after.snapshots && after.snapshots[id] == system.snapshots[id]
    ensures AnswersAreGenuine(after)
  {
    hide LogShape, AllOpen, IsGenuine;
    forall answer | answer in after.answers
      ensures answer.1 <= |after.history|
      ensures IsGenuine(answer.0, after.document.id, after.history[..answer.1], after.snapshots)
    {
      assert after.history[..answer.1] == system.history[..answer.1];
      GrowthKeepsGenuine(answer.0, system.document.id, system.history[..answer.1], system.snapshots, after.snapshots);
    }
  }

  lemma GrownSessions(system: System, after: System)
    requires SessionsAreAnchored(system) && after.sessions == system.sessions
    requires StableIsWhole(system) && after.stable == system.stable
    requires after.document.id == system.document.id && system.history <= after.history
    requires forall id | id in system.snapshots :: id in after.snapshots && after.snapshots[id] == system.snapshots[id]
    ensures SessionsAreAnchored(after) && StableIsWhole(after)
  {
    hide Anchored, IsWhole;
    forall client | client in after.sessions
      ensures Anchored(after.sessions[client], after.document.id, after.history, after.snapshots)
    {
      GrowthKeepsAnchor(system.sessions[client], system.document.id, system.history, after.history, system.snapshots,
                        after.snapshots);
    }
    forall client | client in after.stable
      ensures IsWhole(after.stable[client], after.sessions[client], after.history)
    {
      GrowthKeepsWhole(system.stable[client], system.sessions[client], system.history, after.history);
    }
  }

  lemma SubmitIsFaithful(system: System, access: Access, status: Status, envelope: UpdateEnvelope)
    requires Faithful(system)
    ensures Faithful(Next(system, Submit(access, status, envelope)))
    ensures system.history <= Next(system, Submit(access, status, envelope)).history
  {
    hide IsGenuine, LogShape, SnapshotsKeepAll, SnapshotsAreSound, AnswersAreGenuine, SessionsAreAnchored,
      StableIsWhole, AppendToLog, AppendUpdate, Acceptable;
    AcceptedIsAcceptable(system.document, status, access, envelope);
    if AppendUpdate(Workspace(Some(status), Some(system.document)), access, envelope).Accepted? {
      SubmittedIsGenuine(system.document, system.history, system.snapshots, envelope);
      GrowthKeepsSnapshots(system.snapshots, system.history, system.history + [envelope]);
      GrowthIsFaithful(system, Next(system, Submit(access, status, envelope)));
    }
  }

  lemma SubmittedIsGenuine(document: Document, history: History, snapshots: map<Id, Snapshot>, envelope: UpdateEnvelope)
    requires IsGenuine(AsWorkspace(document), document.id, history, snapshots)
    requires Acceptable(document, envelope) && AppendToLog(document, envelope).Accepted?
    ensures var after := AppendToLog(document, envelope).document;
            after.id == document.id && IsGenuine(AsWorkspace(after), after.id, history + [envelope], snapshots)
  {
    SameShapeBack(document, history);
    AppendKeepsShape(document, history, envelope);
    SameShape(AppendToLog(document, envelope).document, history + [envelope]);
    hide LogShape, Find, Latest, ClocksOf;
  }

  lemma SameShape(document: Document, history: History)
    requires LogShape(document, history)
    ensures LogShape(AsDocument(AsWorkspace(document)), history)
  {
  }

  lemma SameShapeBack(document: Document, history: History)
    requires LogShape(AsDocument(AsWorkspace(document)), history)
    ensures LogShape(document, history)
  {
  }

  /** A compaction that covers all that was accepted keeps every operation of it. */
  lemma ReplaceKeepsOperations(system: System, action: Action)
    requires Faithful(system) && action.Replace? && Legal(system, action)
    requires action.snapshot.coveredSequence == |system.history|
    ensures Operations(system.history) <= action.snapshot.operations
  {
    hide IsGenuine, SnapshotsKeepAll, AnswersAreGenuine, SessionsAreAnchored;
    assert IsWhole(system.stable[action.client], system.sessions[action.client], system.history);
    assert system.history[..|system.history|] == system.history;
  }

  /** The snapshot of an answer keeps all of what was accepted before it, judged by the history of that time. */
  lemma PastSnapshot(system: System, answer: (EncryptedWorkspace, nat))
    requires Faithful(system) && answer in system.answers
    ensures answer.1 <= |system.history|
    ensures var own := OwnSnapshot(answer.0);
            && own.Items <= system.snapshots.Items
            && IsGenuine(answer.0, system.document.id, system.history[..answer.1], own)
            && SnapshotsKeepAll(own, system.history[..answer.1])
  {
    var past, snapshot := system.history[..answer.1], answer.0.snapshot;
    assert IsGenuine(answer.0, system.document.id, past, system.snapshots);
    assert snapshot.coveredSequence <= |past| by { ShapeFits(AsDocument(answer.0), past); }
    assert past[..snapshot.coveredSequence] == system.history[..snapshot.coveredSequence];
    hide LogShape;
  }

  lemma ShapeFits(document: Document, history: History)
    requires LogShape(document, history)
    ensures document.snapshot.coveredSequence <= |history| == document.currentSequence
  {
  }

  lemma ReplaceIsFaithful(system: System, action: Action)
    requires Faithful(system) && action.Replace? && Legal(system, action)
    ensures Faithful(Next(system, action)) && Next(system, action).history == system.history
  {
    hide Compact;
    var compaction := Compact(Workspace(Some(action.status), Some(system.document)), action.access, action.snapshotId,
                              action.snapshot, action.expectedSequence);
    CompactedIsGenuine(system.document, action.status, action.access, action.snapshotId, action.snapshot,
                       action.expectedSequence);
    if compaction.Compacted? {
      var after := Next(system, action);
      SameShapeBack(system.document, system.history);
      ShapeFits(system.document, system.history);
      ReplaceKeepsOperations(system, action);
      CompactionKeepsShape(system.document, system.history, action.snapshotId, action.snapshot,
                           action.expectedSequence);
      ReplacedIsGenuine(system, action.snapshotId, action.snapshot, after);
      hide IsGenuine, LogShape, SnapshotsKeepAll, SnapshotsAreSound, AnswersAreGenuine, SessionsAreAnchored,
        StableIsWhole, Continues;
      GrowthIsFaithful(system, after);
    }
  }

  lemma ReplacedIsGenuine(system: System, snapshotId: Id, envelope: SnapshotEnvelope, after: System)
    requires snapshotId !in system.snapshots && envelope.snapshotId == snapshotId
        && envelope.documentId == system.document.id
    requires envelope.decodes && envelope.authentic && envelope.coveredSequence == |system.history|
    requires Operations(system.history) <= envelope.operations
    requires SnapshotsKeepAll(system.snapshots, system.history) && SnapshotsAreSound(system.snapshots)
    requires var document := CompactedDocument(system.document, snapshotId, envelope);
             LogShape(document, system.history)
             && after == system.(document := document, snapshots := system.snapshots[snapshotId := document.snapshot])
    ensures IsGenuine(AsWorkspace(after.document), after.document.id, after.history, after.snapshots)
    ensures SnapshotsKeepAll(after.snapshots, after.history) && SnapshotsAreSound(after.snapshots)
  {
    SameShape(after.document, after.history);
    assert after.history[..|after.history|] == after.history;
    hide LogShape, Operations;
  }

  lemma AddedAnswer(system: System, answer: (EncryptedWorkspace, nat))
    requires Faithful(system) && answer.1 <= |system.history|
    requires IsGenuine(answer.0, system.document.id, system.history[..answer.1], system.snapshots)
    ensures Faithful(system.(answers := system.answers + {answer}))
  {
    hide IsGenuine, Anchored, IsWhole, SnapshotsKeepAll, SnapshotsAreSound;
  }

  lemma AnswerIsFaithful(system: System)
    requires Faithful(system)
    ensures Faithful(Next(system, Answer))
  {
    SameShapeBack(system.document, system.history);
    hide LogShape, AllOpen, Bootstrap, SessionsAreAnchored, StableIsWhole, SnapshotsKeepAll, AnswersAreGenuine;
    BootstrapIsWhole(system.document, system.history);
    assert system.history[..|system.history|] == system.history;
    hide Faithful, IsGenuine;
    AddedAnswer(system, (Bootstrap(system.document), |system.history|));
  }

  // ---------- the browsers' steps ----------

  /** One session moves on, and with it at most its own stable state. */
  lemma SessionIsFaithful(system: System, client: Id, session: Session, stable: map<Id, set<Id>>)
    requires Faithful(system) && Anchored(session, system.document.id, system.history, system.snapshots)
    requires stable - {client} == system.stable - {client}
    requires client in stable ==> IsWhole(stable[client], session, system.history)
    ensures Faithful(WithSession(system, client, session).(stable := stable))
  {
    var after := WithSession(system, client, session).(stable := stable);
    OtherStable(system.stable, stable, client);
    hide LogShape, Anchored, IsWhole, SnapshotsKeepAll, IsGenuine;
    assert AnswersAreGenuine(after);
    assert SessionsAreAnchored(after);
    forall other | other in stable
      ensures other in after.sessions && IsWhole(stable[other], after.sessions[other], after.history)
    {
      if other != client {
        assert other in system.stable;
      }
    }
  }

  lemma OtherStable(before: map<Id, set<Id>>, after: map<Id, set<Id>>, client: Id)
    requires after - {client} == before - {client}
    ensures forall other | other in after && other != client :: other in before && before[other] == after[other]
  {
    forall other | other in after && other != client ensures other in before && before[other] == after[other] {
      assert other in after - {client};
      assert (after - {client})[other] == (before - {client})[other];
    }
  }

  lemma OpenedSession(system: System, epoch: Id, answer: (EncryptedWorkspace, nat))
    requires Faithful(system) && answer in system.answers
    ensures Load(epoch, answer.0).Some?
    ensures var session := Load(epoch, answer.0).value;
            && Anchored(session, system.document.id, system.history, system.snapshots)
            && HoldsPrefix(session, system.history) && ClocksAreExact(session, system.history)
  {
    var past := system.history[..answer.1];
    PastSnapshot(system, answer);
    LoadHoldsPrefix(epoch, answer.0, system.document.id, past, OwnSnapshot(answer.0));
    assert (answer.0.snapshot.id, answer.0.snapshot) in OwnSnapshot(answer.0).Items;
    hide LogShape, Load, Records, Operations, Faithful, IsGenuine;
    var session := Load(epoch, answer.0).value;
    assert past[..session.currentSequence] == system.history[..session.currentSequence];
  }

  lemma RefreshedSession(system: System, session: Session, answer: (EncryptedWorkspace, nat))
    requires Faithful(system) && answer in system.answers
    requires Anchored(session, system.document.id, system.history, system.snapshots)
    ensures var after := Merge(session, answer.0).0;
            && Anchored(after, system.document.id, system.history, system.snapshots)
            && HoldsPrefix(after, system.history) && ClocksAreExact(after, system.history)
            && IsWhole(Contents(answer.0), after, system.history)
  {
    hide Faithful, IsGenuine, Merge, Anchored, ClocksAreExact, ApplyAll;
    PastSnapshot(system, answer);
    var past := system.history[..answer.1];
    MergeHoldsPrefix(session, answer.0, system.document.id, past, system.history, system.snapshots);
    GenuineOperations(answer.0, system.document.id, past, OwnSnapshot(answer.0), answer.0.snapshot.envelope.operations);
    assert system.history[..|past|] == past;
  }

  lemma AnchoredSession(system: System, client: Id)
    requires Faithful(system) && client in system.sessions
    ensures Anchored(system.sessions[client], system.document.id, system.history, system.snapshots)
    ensures client in system.stable ==> IsWhole(system.stable[client], system.sessions[client], system.history)
  {
    hide Anchored, IsGenuine, IsWhole;
  }

  lemma OpenIsFaithful(system: System, client: Id, epoch: Id, answer: (EncryptedWorkspace, nat))
    requires Faithful(system) && answer in system.answers
    ensures Faithful(Next(system, Open(client, epoch, answer)))
  {
    hide Faithful, Load, Anchored, ClocksAreExact, HoldsPrefix, IsWhole;
    OpenedSession(system, epoch, answer);
    assert (system.stable - {client}) - {client} == system.stable - {client};
    SessionIsFaithful(system, client, Load(epoch, answer.0).value, system.stable - {client});
  }

  lemma RefreshIsFaithful(system: System, client: Id, answer: (EncryptedWorkspace, nat))
    requires Faithful(system) && answer in system.answers && client in system.sessions
    ensures Faithful(Next(system, Refresh(client, answer))) && Faithful(Next(system, Coordinate(client, answer)))
  {
    hide Faithful, Merge, Anchored, ClocksAreExact, HoldsPrefix, IsWhole, Contents;
    AnchoredSession(system, client);
    RefreshedSession(system, system.sessions[client], answer);
    var session, coordinated := Merge(system.sessions[client], answer.0).0, system.stable[client := Contents(answer.0)];
    assert coordinated - {client} == system.stable - {client};
    SessionIsFaithful(system, client, session, coordinated);
    SessionIsFaithful(system, client, session, if client in system.stable then coordinated else system.stable);
  }

  lemma ReleaseIsFaithful(system: System, client: Id)
    requires Faithful(system)
    ensures Faithful(Next(system, Release(client)))
  {
    hide IsGenuine, SnapshotsKeepAll, SnapshotsAreSound, IsWhole, Anchored;
  }

  /** A frame that is applied completes session and stable state by the same operation. */
  lemma FrameKeepsWhole(session: Session, operations: set<Id>, sequence: nat, history: History)
    requires IsWhole(operations, session, history) && 1 <= sequence <= |history|
    ensures var envelope := history[sequence - 1];
            var (after, result) := ApplyRemote(session, envelope.epoch, envelope.clock, envelope, Some(sequence));
            IsWhole(if result.Applied? then operations + {envelope.operation} else operations, after, history)
  {
    if sequence == session.currentSequence + 1 {
      PrefixOfMore(history, session.currentSequence);
    }
  }

  lemma FrameKeepsAnchor(session: Session, sequence: nat, documentId: Id, history: History,
                         snapshots: map<Id, Snapshot>)
    requires Anchored(session, documentId, history, snapshots) && 1 <= sequence <= |history|
    ensures var envelope := history[sequence - 1];
            Anchored(ApplyRemote(session, envelope.epoch, envelope.clock, envelope, Some(sequence)).0, documentId,
                     history, snapshots)
  {
  }

  lemma ReceiveIsFaithful(system: System, client: Id, sequence: nat)
    requires Faithful(system) && client in system.sessions && 1 <= sequence <= |system.history|
    ensures Faithful(Next(system, Receive(client, sequence)))
  {
    hide Faithful, ApplyRemote, Anchored, IsWhole;
    AnchoredSession(system, client);
    FrameKeepsAnchor(system.sessions[client], sequence, system.document.id, system.history, system.snapshots);
    if client in system.stable {
      FrameKeepsWhole(system.sessions[client], system.stable[client], sequence, system.history);
    }
    var after := Received(system, client, system.history[sequence - 1], sequence);
    assert after.stable - {client} == system.stable - {client};
    SessionIsFaithful(system, client, after.sessions[client], after.stable);
  }

  /** Taking over a sequence, editing and adopting an own snapshot. */
  lemma OwnStepKeepsAnchor(session: Session, sequence: nat, operation: Id, snapshot: Snapshot, documentId: Id,
                           history: History,
                           snapshots: map<Id, Snapshot>)
    requires Anchored(session, documentId, history, snapshots)
    ensures 1 <= sequence <= |history| ==>
              var own := history[sequence - 1];
              Anchored(Acknowledge(session, own.epoch, own.clock, sequence), documentId, history, snapshots)
    ensures Anchored(session.(operations := session.operations + {operation}), documentId, history, snapshots)
    ensures snapshot.id in snapshots && snapshots[snapshot.id] == snapshot && snapshot.envelope.snapshotId == snapshot.id ==>
              Anchored(AcceptCompaction(session, snapshot.envelope), documentId, history, snapshots)
  {
  }

  lemma ConfirmIsFaithful(system: System, client: Id, sequence: nat)
    requires Faithful(system) && Legal(system, Confirm(client, sequence))
    ensures Faithful(Next(system, Confirm(client, sequence)))
  {
    hide Faithful, Anchored, IsWhole;
    AnchoredSession(system, client);
    OwnStepKeepsAnchor(system.sessions[client], sequence, 0, system.document.snapshot, system.document.id,
                       system.history, system.snapshots);
    var own := system.history[sequence - 1];
    SessionIsFaithful(system, client, Acknowledge(system.sessions[client], own.epoch, own.clock, sequence),
                      system.stable);
  }

  lemma SameSequence(system: System, client: Id, session: Session)
    requires Faithful(system) && client in system.sessions
    requires session.currentSequence == system.sessions[client].currentSequence
    ensures client in system.stable ==> IsWhole(system.stable[client], session, system.history)
  {
    AnchoredSession(system, client);
    hide Faithful, Operations;
  }

  lemma EditIsFaithful(system: System, client: Id, operation: Id)
    requires Faithful(system) && client in system.sessions
    ensures Faithful(Next(system, Edit(client, operation)))
  {
    hide Faithful, Anchored, IsWhole;
    var session := system.sessions[client];
    var after := session.(operations := session.operations + {operation});
    AnchoredSession(system, client);
    SameSequence(system, client, after);
    OwnStepKeepsAnchor(session, 0, operation, system.document.snapshot, system.document.id, system.history,
                       system.snapshots);
    SessionIsFaithful(system, client, after, system.stable);
  }

  lemma AdoptIsFaithful(system: System, client: Id, snapshotId: Id)
    requires Faithful(system) && client in system.sessions && snapshotId in system.snapshots
    ensures Faithful(Next(system, Adopt(client, snapshotId)))
  {
    hide Faithful, Anchored, IsWhole;
    var session, snapshot := system.sessions[client], system.snapshots[snapshotId];
    var after := AcceptCompaction(session, snapshot.envelope);
    SoundSnapshot(system, snapshotId);
    AnchoredSession(system, client);
    SameSequence(system, client, after);
    OwnStepKeepsAnchor(session, 0, 0, snapshot, system.document.id, system.history, system.snapshots);
    SessionIsFaithful(system, client, after, system.stable);
  }

  lemma SoundSnapshot(system: System, snapshotId: Id)
    requires Faithful(system) && snapshotId in system.snapshots
    ensures system.snapshots[snapshotId].id == snapshotId == system.snapshots[snapshotId].envelope.snapshotId
  {
  }

  lemma StepIsFaithful(system: System, action: Action)
    requires Faithful(system) && Legal(system, action)
    ensures Faithful(Next(system, action)) && system.history <= Next(system, action).history
  {
    StepKeepsHistory(system, action);
    hide Faithful, Next;
    match action
    case Submit(access, status, envelope) => SubmitIsFaithful(system, access, status, envelope);
    case Replace(_, _, _, _, _, _) => ReplaceIsFaithful(system, action);
    case Answer => AnswerIsFaithful(system);
    case Open(client, epoch, answer) => OpenIsFaithful(system, client, epoch, answer);
    case Refresh(client, answer) => RefreshIsFaithful(system, client, answer);
    case Coordinate(client, answer) => RefreshIsFaithful(system, client, answer);
    case Release(client) => ReleaseIsFaithful(system, client);
    case Receive(client, sequence) => ReceiveIsFaithful(system, client, sequence);
    case Confirm(client, sequence) => ConfirmIsFaithful(system, client, sequence);
    case Edit(client, operation) => EditIsFaithful(system, client, operation);
    case Adopt(client, snapshotId) => AdoptIsFaithful(system, client, snapshotId);
  }

  lemma StepKeepsHistory(system: System, action: Action)
    requires Legal(system, action)
    ensures system.history <= Next(system, action).history
    ensures !action.Submit? ==> Next(system, action).history == system.history
  {
    hide Legal, AppendUpdate, Compact, Load, Merge, ApplyRemote, Contents, Bootstrap;
  }

  // ---------- runs ----------

  ghost predicate LegalRun(system: System, actions: seq<Action>)
    decreases |actions|
  {
    actions != [] ==> Legal(system, actions[0]) && LegalRun(Next(system, actions[0]), actions[1..])
  }

  ghost function After(system: System, actions: seq<Action>): System
    requires LegalRun(system, actions)
    decreases |actions|
  {
    if actions == [] then system else After(Next(system, actions[0]), actions[1..])
  }

  lemma {:induction false} RunsAreFaithful(system: System, actions: seq<Action>)
    requires Faithful(system) && LegalRun(system, actions)
    ensures Faithful(After(system, actions)) && system.history <= After(system, actions).history
    decreases |actions|
  {
    hide Faithful, Next, Legal;
    if actions != [] {
      StepIsFaithful(system, actions[0]);
      RunsAreFaithful(Next(system, actions[0]), actions[1..]);
    }
  }

  /** Whatever was ever accepted is in what a browser gets that opens the document now, compactions or not, and in
      whatever order acknowledgements came. */
  lemma NothingAcceptedIsLost(system: System, actions: seq<Action>, epoch: Id)
    requires Faithful(system) && LegalRun(system, actions)
    ensures var after := After(system, actions);
            var session := Load(epoch, Bootstrap(after.document));
            session.Some? && session.value.currentSequence == |after.history|
            && forall i | 0 <= i < |after.history| :: after.history[i].operation in session.value.operations
  {
    RunsAreFaithful(system, actions);
    hide After;
    var after := After(system, actions);
    SameShapeBack(after.document, after.history);
    BootstrapIsWhole(after.document, after.history);
    LoadHoldsPrefix(epoch, AsWorkspace(after.document), after.document.id, after.history, after.snapshots);
    assert after.history[..|after.history|] == after.history;
    hide LogShape, IsGenuine, Load, SnapshotsKeepAll;
  }

  // ---------- what the browsers hold ----------

  /** Every browser holds all operations whose sequence is at most its recorded one. */
  ghost predicate SessionsHoldPrefix(system: System) {
    forall client | client in system.sessions :: HoldsPrefix(system.sessions[client], system.history)
  }

  /** An acknowledgement passes over no operation that the browser does not hold. */
  predicate InTurn(system: System, action: Action) {
    action.Confirm? && action.client in system.sessions && action.sequence <= |system.history| ==>
      var session := system.sessions[action.client];
      HoldsBetween(session, system.history, session.currentSequence, action.sequence)
  }

  lemma GrowthKeepsPrefixes(system: System, after: System)
    requires SessionsHoldPrefix(system) && after.sessions == system.sessions && system.history <= after.history
    ensures SessionsHoldPrefix(after)
  {
    forall client | client in after.sessions ensures HoldsPrefix(after.sessions[client], after.history) {
      var n := after.sessions[client].currentSequence;
      assert after.history[..n] == system.history[..n];
    }
  }

  lemma SessionKeepsPrefixes(system: System, after: System, client: Id)
    requires SessionsHoldPrefix(system) && after.history == system.history && client in after.sessions
    requires after.sessions == system.sessions[client := after.sessions[client]]
    ensures SessionsHoldPrefix(after) <==> HoldsPrefix(after.sessions[client], system.history)
  {
    hide HoldsPrefix;
  }

  lemma AdoptHoldsPrefix(session: Session, envelope: SnapshotEnvelope, operation: Id, history: History)
    requires HoldsPrefix(session, history)
    ensures HoldsPrefix(AcceptCompaction(session, envelope), history)
    ensures HoldsPrefix(session.(operations := session.operations + {operation}), history)
  {
  }

  /** A refresh makes up for whatever the browser has missed. */
  lemma RefreshHoldsPrefix(system: System, action: Action)
    requires Faithful(system) && Legal(system, action) && (action.Open? || action.Refresh? || action.Coordinate?)
    ensures var after := Next(system, action);
            && action.client in after.sessions && HoldsPrefix(after.sessions[action.client], after.history)
            && after.sessions == system.sessions[action.client := after.sessions[action.client]]
  {
    hide Faithful, HoldsPrefix, Anchored, ClocksAreExact, IsWhole, Load, Merge, Contents;
    if action.Open? {
      OpenedSession(system, action.epoch, action.answer);
    } else {
      AnchoredSession(system, action.client);
      RefreshedSession(system, system.sessions[action.client], action.answer);
    }
  }

  /** One step makes a browser miss an operation below its sequence if and only if it is an acknowledgement that passes
      over one. */
  lemma StepHoldsPrefixExactly(system: System, action: Action)
    requires Faithful(system) && Legal(system, action) && SessionsHoldPrefix(system)
    ensures SessionsHoldPrefix(Next(system, action)) <==> InTurn(system, action)
  {
    var after := Next(system, action);
    StepKeepsHistory(system, action);
    if action.Open? || action.Refresh? || action.Coordinate? {
      RefreshHoldsPrefix(system, action);
      hide Next, Legal, Faithful;
      SessionKeepsPrefixes(system, after, action.client);
    } else if action.Receive? || action.Confirm? || action.Edit? || action.Adopt? {
      OwnStepHoldsPrefixExactly(system, action);
    } else {
      SameSessions(system, action);
      hide Next, Legal, Faithful;
      GrowthKeepsPrefixes(system, after);
    }
  }

  lemma SameSessions(system: System, action: Action)
    requires Legal(system, action) && (action.Submit? || action.Replace? || action.Answer? || action.Release?)
    ensures Next(system, action).sessions == system.sessions
  {
    hide AppendUpdate, Compact, Bootstrap;
  }

  lemma OwnStepHoldsPrefixExactly(system: System, action: Action)
    requires Legal(system, action) && SessionsHoldPrefix(system)
    requires action.Receive? || action.Confirm? || action.Edit? || action.Adopt?
    ensures SessionsHoldPrefix(Next(system, action)) <==> InTurn(system, action)
  {
    hide HoldsPrefix, ApplyRemote, AcceptCompaction, IsCompaction;
    var after := Next(system, action);
    var session := system.sessions[action.client];
    match action {
      case Receive(_, sequence) => FrameHoldsPrefix(session, sequence, system.history);
      case Confirm(_, sequence) => AcknowledgementHoldsPrefixExactly(session, sequence, system.history);
      case Edit(_, operation) =>
        AdoptHoldsPrefix(session, system.document.snapshot.envelope, operation, system.history);
      case Adopt(_, snapshotId) => AdoptHoldsPrefix(session, system.snapshots[snapshotId].envelope, 0, system.history);
    }
    SessionKeepsPrefixes(system, after, action.client);
  }

  ghost predicate RunInTurn(system: System, actions: seq<Action>)
    requires LegalRun(system, actions)
    decreases |actions|
  {
    actions != [] ==> InTurn(system, actions[0]) && RunInTurn(Next(system, actions[0]), actions[1..])
  }

  ghost predicate PrefixesThroughout(system: System, actions: seq<Action>)
    requires LegalRun(system, actions)
    decreases |actions|
  {
    SessionsHoldPrefix(system) && (actions != [] ==> PrefixesThroughout(Next(system, actions[0]), actions[1..]))
  }

  /** Throughout a run every browser holds its prefix if and only if no acknowledgement passes over an operation that
      its browser does not hold. */
  lemma {:induction false} PrefixesExactly(system: System, actions: seq<Action>)
    requires Faithful(system) && SessionsHoldPrefix(system) && LegalRun(system, actions)
    ensures PrefixesThroughout(system, actions) <==> RunInTurn(system, actions)
    decreases |actions|
  {
    hide Faithful, SessionsHoldPrefix, Next, Legal, InTurn;
    if actions != [] {
      StepIsFaithful(system, actions[0]);
      StepHoldsPrefixExactly(system, actions[0]);
      if InTurn(system, actions[0]) {
        PrefixesExactly(Next(system, actions[0]), actions[1..]);
      } else {
        assert !PrefixesThroughout(Next(system, actions[0]), actions[1..]);
      }
    }
  }

  lemma {:induction false} PrefixesAtEnd(system: System, actions: seq<Action>)
    requires LegalRun(system, actions) && PrefixesThroughout(system, actions)
    ensures SessionsHoldPrefix(After(system, actions))
    decreases |actions|
  {
    if actions != [] {
      hide SessionsHoldPrefix, Next, Legal;
      PrefixesAtEnd(Next(system, actions[0]), actions[1..]);
    }
  }

  /** Update frames may be lost, repeated and reordered, refreshes may be late and compactions may come in between: a
      browser whose acknowledgements pass over nothing holds all operations up to its recorded sequence. */
  lemma BrowsersHoldTheirPrefix(system: System, actions: seq<Action>, client: Id)
    requires Faithful(system) && SessionsHoldPrefix(system) && LegalRun(system, actions) && RunInTurn(system, actions)
    requires client in After(system, actions).sessions
    ensures var after := After(system, actions);
            var session := after.sessions[client];
            && session.currentSequence <= |after.history|
            && forall i | 0 <= i < session.currentSequence :: after.history[i].operation in session.operations
  {
    PrefixesExactly(system, actions);
    PrefixesAtEnd(system, actions);
    hide After, RunInTurn, PrefixesThroughout;
    var after := After(system, actions);
    var session := after.sessions[client];
    assert HoldsPrefix(session, after.history);
    forall i | 0 <= i < session.currentSequence ensures after.history[i].operation in session.operations {
      assert after.history[..session.currentSequence][i].operation == after.history[i].operation;
    }
  }

  /** Acknowledgements that do not run ahead of the recorded sequence pass over nothing. */
  lemma OrderedIsInTurn(system: System, action: Action)
    requires Legal(system, action) && action.Confirm? && SessionsHoldPrefix(system)
    requires action.sequence <= system.sessions[action.client].currentSequence + 1
    ensures InTurn(system, action)
  {
    AcknowledgementInOrder(system.sessions[action.client], action.sequence, system.history);
  }

  // ---------- an acknowledgement that overtakes a frame ----------

  lemma {:induction false} RunExtended(system: System, actions: seq<Action>, action: Action)
    requires LegalRun(system, actions) && Legal(After(system, actions), action)
    ensures LegalRun(system, actions + [action])
    ensures After(system, actions + [action]) == Next(After(system, actions), action)
    decreases |actions|
  {
    hide Legal, Next;
    if actions == [] {
      assert ([action])[1..] == [];
      assert actions + [action] == [action];
      assert LegalRun(Next(system, action), []);
      assert After(Next(system, action), []) == Next(system, action);
    } else {
      RunExtended(Next(system, actions[0]), actions[1..], action);
      assert (actions + [action])[1..] == actions[1..] + [action];
    }
  }

  const PERMITTED := Access(true, 3, true)

  function FirstSnapshot(): SnapshotEnvelope {
    SnapshotEnvelope(1, 2, ROOT_SNAPSHOT, NO_DIGEST, 0, [], 3, 4, {}, 5, true, true)
  }

  /** The first update of an author. */
  function FirstUpdate(epoch: Id, operation: Id): UpdateEnvelope {
    UpdateEnvelope(1, 2, 3, epoch, 1, operation, true, true)
  }

  function OneUpdate(): Document {
    Document(1, 1, None, Snapshot(2, 0, [], FirstSnapshot()), [Update(1, 2, 20, 1, FirstUpdate(20, 12))])
  }

  /** The created document after the updates of two authors. */
  function TwoUpdates(): Document {
    Document(1, 2, None, Snapshot(2, 0, [], FirstSnapshot()),
             [Update(1, 2, 20, 1, FirstUpdate(20, 12)), Update(2, 2, 10, 1, FirstUpdate(10, 11))])
  }

  function CreatedDocument(): System {
    var snapshot := Snapshot(2, 0, [], FirstSnapshot());
    System(Document(1, 0, None, snapshot, []), [], map[2 := snapshot], {}, map[], map[])
  }

  lemma CreatedDocumentIsCreated()
    ensures CreateInitial(PERMITTED, 1, 2, FirstSnapshot()).0 == Some(CreatedDocument().document)
    ensures Faithful(CreatedDocument()) && SessionsHoldPrefix(CreatedDocument()) && ClocksExact(CreatedDocument())
  {
    hide Faithful;
    CreatedIsFaithful(PERMITTED, 1, 2, FirstSnapshot());
  }

  /** What the server answers about the created document. */
  function FirstAnswer(): (EncryptedWorkspace, nat) {
    (EncryptedWorkspace(1, 2, 0, Snapshot(2, 0, [], FirstSnapshot()), []), 0)
  }

  /** The created document, opened by browser 7, which has made edit 11. */
  function OneBrowser(): System {
    CreatedDocument().(answers := {FirstAnswer()}, sessions := map[7 := Session(10, 1, 2, 5, {11}, 0, 0, map[])])
  }

  const OPENING: seq<Action> := [Answer, Open(7, 10, FirstAnswer()), Edit(7, 11)]

  lemma BrowserOpens()
    ensures var answered := CreatedDocument().(answers := {FirstAnswer()});
            var loaded := answered.(sessions := map[7 := Session(10, 1, 2, 5, {}, 0, 0, map[])]);
            && Next(CreatedDocument(), Answer) == answered
            && Legal(answered, Open(7, 10, FirstAnswer())) && Next(answered, Open(7, 10, FirstAnswer())) == loaded
            && Legal(loaded, Edit(7, 11)) && Next(loaded, Edit(7, 11)) == OneBrowser()
  {
    assert Bootstrap(CreatedDocument().document) == FirstAnswer().0;
    assert Load(10, FirstAnswer().0) == Some(Session(10, 1, 2, 5, {}, 0, 0, map[]));
    assert {} + {11} == {11};
  }

  lemma OneBrowserIsReached()
    ensures LegalRun(CreatedDocument(), OPENING) && After(CreatedDocument(), OPENING) == OneBrowser()
  {
    BrowserOpens();
    hide Next, CreatedDocument, OneBrowser, FirstAnswer;
    var start, answer := CreatedDocument(), FirstAnswer();
    RunExtended(start, [], Answer);
    RunExtended(start, [] + [Answer], Open(7, 10, answer));
    RunExtended(start, [] + [Answer] + [Open(7, 10, answer)], Edit(7, 11));
    assert OPENING == [] + [Answer] + [Open(7, 10, answer)] + [Edit(7, 11)];
  }

  lemma BothAreAccepted()
    ensures var (start, first, second) := (OneBrowser(), FirstUpdate(20, 12), FirstUpdate(10, 11));
            var one := start.(document := OneUpdate(), history := [first]);
            && Next(start, Submit(PERMITTED, InProgress, first)) == one
            && Next(one, Submit(PERMITTED, InProgress, second)) == start.(document := TwoUpdates(),
                                                                          history := [first, second])
  {
  }

  lemma FrameIsDropped()
    ensures var two := OneBrowser().(document := TwoUpdates(), history := [FirstUpdate(20, 12), FirstUpdate(10, 11)]);
            && Legal(two, Confirm(7, 2)) && Legal(Next(two, Confirm(7, 2)), Receive(7, 1))
            && var after := Next(Next(two, Confirm(7, 2)), Receive(7, 1));
               && after.history == two.history && 7 in after.sessions
               && after.sessions[7].currentSequence == 2 && after.sessions[7].operations == {11}
  {
  }

  /** A browser that lacks an operation below its sequence got there by an acknowledgement out of turn. */
  lemma LackingIsOutOfTurn(system: System, actions: seq<Action>, client: Id, i: nat)
    requires Faithful(system) && SessionsHoldPrefix(system) && LegalRun(system, actions)
    requires var after := After(system, actions);
             && client in after.sessions && i < |after.history| && i < after.sessions[client].currentSequence
             && after.history[i].operation !in after.sessions[client].operations
    ensures !RunInTurn(system, actions)
  {
    if RunInTurn(system, actions) {
      hide Faithful, SessionsHoldPrefix, After, LegalRun, RunInTurn;
      BrowsersHoldTheirPrefix(system, actions, client);
    }
  }

  /** A document is created and opened, two updates are accepted, and the acknowledgement of the own one, the second,
      comes before the frame of the first: the frame is dropped as a duplicate. The browser records sequence 2 without
      operation 12, until it refreshes. */
  lemma OvertakingAcknowledgementLosesFrame() returns (actions: seq<Action>)
    ensures CreateInitial(PERMITTED, 1, 2, FirstSnapshot()).0 == Some(CreatedDocument().document)
    ensures Faithful(CreatedDocument()) && SessionsHoldPrefix(CreatedDocument())
    ensures LegalRun(CreatedDocument(), actions) && !RunInTurn(CreatedDocument(), actions)
    ensures actions == OPENING + [Submit(PERMITTED, InProgress, FirstUpdate(20, 12))]
                       + [Submit(PERMITTED, InProgress, FirstUpdate(10, 11))] + [Confirm(7, 2)] + [Receive(7, 1)]
    ensures var after := After(CreatedDocument(), actions);
            && 7 in after.sessions && after.sessions[7].currentSequence == 2 == |after.history|
            && after.history[0].operation == 12 && 12 !in after.sessions[7].operations
  {
    hide Next, Faithful, SessionsHoldPrefix, OneBrowser, TwoUpdates, OneUpdate, CreatedDocument;
    var start := CreatedDocument();
    actions := OPENING;
    CreatedDocumentIsCreated();
    OneBrowserIsReached();
    BothAreAccepted();
    FrameIsDropped();
    RunExtended(start, actions, Submit(PERMITTED, InProgress, FirstUpdate(20, 12)));
    actions := actions + [Submit(PERMITTED, InProgress, FirstUpdate(20, 12))];
    RunExtended(start, actions, Submit(PERMITTED, InProgress, FirstUpdate(10, 11)));
    actions := actions + [Submit(PERMITTED, InProgress, FirstUpdate(10, 11))];
    RunExtended(start, actions, Confirm(7, 2));
    actions := actions + [Confirm(7, 2)];
    RunExtended(start, actions, Receive(7, 1));
    actions := actions + [Receive(7, 1)];
    LackingIsOutOfTurn(start, actions, 7, 0);
  }

  // ---------- clocks over runs ----------

  /** Acknowledgements leave no update of somebody else between the recorded and the acknowledged sequence. */
  predicate AcknowledgesExactly(system: System, action: Action) {
    action.Confirm? && action.client in system.sessions ==>
      var current := system.sessions[action.client].currentSequence;
      Max(current, action.sequence) <= |system.history| ==>
        AllBy(system.history, Min(current, action.sequence), Max(current, action.sequence),
              system.sessions[action.client].epoch)
  }

  ghost predicate ClocksExact(system: System) {
    forall client | client in system.sessions :: ClocksAreExact(system.sessions[client], system.history)
  }

  lemma GrowthKeepsClocks(system: System, after: System)
    requires ClocksExact(system) && after.sessions == system.sessions && system.history <= after.history
    ensures ClocksExact(after)
  {
    hide Records;
    forall client | client in after.sessions ensures ClocksAreExact(after.sessions[client], after.history) {
      var n := system.sessions[client].currentSequence;
      assert after.history[..n] == system.history[..n];
    }
  }

  lemma SessionKeepsClocks(system: System, after: System, client: Id)
    requires ClocksExact(system) && after.history == system.history && client in after.sessions
    requires after.sessions == system.sessions[client := after.sessions[client]]
    ensures ClocksExact(after) <==> ClocksAreExact(after.sessions[client], system.history)
  {
    hide ClocksAreExact;
  }

  lemma RefreshKeepsClocks(system: System, action: Action)
    requires Faithful(system) && Legal(system, action) && (action.Open? || action.Refresh? || action.Coordinate?)
    ensures var after := Next(system, action);
            && action.client in after.sessions && ClocksAreExact(after.sessions[action.client], system.history)
            && after.sessions == system.sessions[action.client := after.sessions[action.client]]
  {
    hide Faithful, HoldsPrefix, Anchored, ClocksAreExact, IsWhole, Load, Merge, Contents;
    if action.Open? {
      OpenedSession(system, action.epoch, action.answer);
    } else {
      AnchoredSession(system, action.client);
      RefreshedSession(system, system.sessions[action.client], action.answer);
    }
  }

  lemma OwnStepKeepsClocksExactly(system: System, action: Action)
    requires ClocksAreSequential(system.history) && Legal(system, action) && ClocksExact(system)
    requires action.Receive? || action.Confirm? || action.Edit? || action.Adopt?
    ensures ClocksExact(Next(system, action)) <==> AcknowledgesExactly(system, action)
  {
    hide ClocksAreSequential, ApplyRemote, AcceptCompaction, IsCompaction, Records;
    var after := Next(system, action);
    var session := system.sessions[action.client];
    match action {
      case Receive(_, sequence) => FrameKeepsClocks(session, sequence, system.history);
      case Confirm(_, sequence) => AcknowledgementIsExact(session, sequence, system.history);
      case _ => AdoptKeepsClocks(system, action);
    }
    hide Legal, AllBy, ClocksAreExact;
    SessionKeepsClocks(system, after, action.client);
  }

  lemma AdoptKeepsClocks(system: System, action: Action)
    requires Legal(system, action) && (action.Edit? || action.Adopt?) && ClocksExact(system)
    ensures ClocksAreExact(Next(system, action).sessions[action.client], system.history)
  {
    hide Records;
  }

  /** One step spoils a clock map if and only if it is an acknowledgement with somebody else's update in between. */
  lemma StepKeepsClocksExactly(system: System, action: Action)
    requires Faithful(system) && ClocksExact(system) && Legal(system, action)
    ensures ClocksExact(Next(system, action)) <==> AcknowledgesExactly(system, action)
  {
    var after := Next(system, action);
    StepKeepsHistory(system, action);
    if action.Open? || action.Refresh? || action.Coordinate? {
      RefreshKeepsClocks(system, action);
      hide Next, Legal, Faithful;
      SessionKeepsClocks(system, after, action.client);
    } else if action.Receive? || action.Confirm? || action.Edit? || action.Adopt? {
      SequentialHistory(system);
      OwnStepKeepsClocksExactly(system, action);
    } else {
      SameSessions(system, action);
      hide Next, Legal, Faithful;
      GrowthKeepsClocks(system, after);
    }
  }

  lemma SequentialHistory(system: System)
    requires Faithful(system)
    ensures ClocksAreSequential(system.history)
  {
  }

  ghost predicate ExactRun(system: System, actions: seq<Action>)
    requires LegalRun(system, actions)
    decreases |actions|
  {
    actions != [] ==> AcknowledgesExactly(system, actions[0]) && ExactRun(Next(system, actions[0]), actions[1..])
  }

  /** After opening, refreshing, update frames and acknowledgements in server sequence order, the clock map of each
      browser counts the history; one that is up to date therefore makes snapshots the server accepts. */
  lemma {:induction false} IncrementalClocksAgree(system: System, actions: seq<Action>)
    requires Faithful(system) && ClocksExact(system) && LegalRun(system, actions) && ExactRun(system, actions)
    ensures Faithful(After(system, actions)) && ClocksExact(After(system, actions))
    decreases |actions|
  {
    hide Faithful, ClocksExact, Next, Legal, AcknowledgesExactly;
    if actions != [] {
      StepIsFaithful(system, actions[0]);
      StepKeepsClocksExactly(system, actions[0]);
      IncrementalClocksAgree(Next(system, actions[0]), actions[1..]);
    }
  }

  lemma UpToDateCompactionIsAccepted(system: System, actions: seq<Action>, client: Id, operations: set<Id>,
                                     envelope: SnapshotEnvelope)
    requires Faithful(system) && ClocksExact(system) && LegalRun(system, actions) && ExactRun(system, actions)
    requires client in After(system, actions).sessions
    requires var after := After(system, actions);
             var session := after.sessions[client];
             && session.currentSequence == after.document.currentSequence
                 && session.activeSnapshotId == after.document.snapshot.id
             && IsCompaction(session, Some(after.document.currentSequence), operations, envelope)
    ensures Continues(After(system, actions).document, envelope, Some(After(system, actions).document.currentSequence))
  {
    IncrementalClocksAgree(system, actions);
    hide After;
    var after := After(system, actions);
    var session := after.sessions[client];
    SameShapeBack(after.document, after.history);
    AnchoredSession(after, client);
    assert after.snapshots[after.document.snapshot.id] == after.document.snapshot;
    ClientCompactionContinues(after.document, after.history, session, operations, envelope);
  }

  /** A created document with no browser yet. */
  lemma CreatedIsFaithful(access: Access, documentId: Id, snapshotId: Id, envelope: SnapshotEnvelope)
    requires CreateInitial(access, documentId, snapshotId, envelope).0.Some?
    ensures var document := CreateInitial(access, documentId, snapshotId, envelope).0.value;
            var system := System(document, [], map[snapshotId := document.snapshot], {}, map[], map[]);
            Faithful(system) && SessionsHoldPrefix(system) && ClocksExact(system)
  {
    var document := CreateInitial(access, documentId, snapshotId, envelope).0.value;
    CreatedIsShaped(access, documentId, snapshotId, envelope);
    SameShape(document, []);
    var none: History := [];
    assert Operations(none[..0]) == {};
    hide LogShape;
  }
}
