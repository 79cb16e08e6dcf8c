/** Nothing foreign gets into a snapshot or a browser: over every run a snapshot holds exactly what was accepted up to
    the sequence it covers, and a browser holds besides only its own edits
    (frontend/src/e2ee/meeting-document-session.ts, frontend/src/e2ee/meeting-collaboration.ts). */
module ReplicationContents {
  import opened Options
  import opened DocumentLog
  import opened DocumentHistory
  import opened DocumentSession
  import opened Replication
  import opened ReplicationRuns

  /** What the first snapshot of the document held is in every later one. */
  ghost predicate SnapshotsAreExact(system: System, first: set<Id>) {
    forall id | id in system.snapshots ::
      && system.snapshots[id].coveredSequence <= |system.history|
      && system.snapshots[id].envelope.operations ==
         first + Operations(system.history[..system.snapshots[id].coveredSequence])
  }

  /** The copy of the document made for a compaction holds nothing that the server has not accepted. */
  ghost predicate StableIsAccepted(system: System, first: set<Id>) {
    forall client | client in system.stable ::
      first <= system.stable[client] <= first + Operations(system.history)
  }

  type Edits = map<Id, set<Id>>

  function EditsBy(edits: Edits, client: Id): set<Id> {
    if client in edits then edits[client] else {}
  }

  /** Records who made an edit. */
  function Edited(edits: Edits, action: Action): Edits {
    if action.Edit? then edits[action.client := EditsBy(edits, action.client) + {action.operation}] else edits
  }

  ghost predicate SessionsAreOwn(system: System, first: set<Id>, edits: Edits) {
    forall client | client in system.sessions ::
      system.sessions[client].operations <= first + Operations(system.history) + EditsBy(edits, client)
  }

  ghost predicate Exact(system: System, first: set<Id>, edits: Edits) {
    SnapshotsAreExact(system, first) && StableIsAccepted(system, first) && SessionsAreOwn(system, first, edits)
  }

  // ---------- answers ----------

  lemma OperationsGrow(history: History, n: nat)
    requires n <= |history|
    ensures Operations(history[..n]) <= Operations(history)
  {
    forall operation | operation in Operations(history[..n]) ensures operation in Operations(history) {
      var i :| 0 <= i < n && history[..n][i].operation == operation;
      assert history[i].operation == operation;
    }
  }

  /** The part of a genuine answer that matters here. */
  ghost predicate HoldsExactly(workspace: EncryptedWorkspace, past: History, first: set<Id>) {
    && StoresTail(AsDocument(workspace), past) && AllOpen(workspace)
    && workspace.snapshot.envelope.operations == first + Operations(past[..workspace.snapshot.coveredSequence])
  }

  lemma AnswerHoldsExactly(system: System, first: set<Id>, answer: (EncryptedWorkspace, nat))
    requires Faithful(system) && SnapshotsAreExact(system, first) && answer in system.answers
    ensures answer.1 <= |system.history| && HoldsExactly(answer.0, system.history[..answer.1], first)
  {
    hide Operations, SnapshotOpens, AllOpen, ClocksAreSequential, Records, ClocksOf, SnapshotsKeepAll,
      SnapshotsAreSound, SessionsAreAnchored, StableIsWhole;
    var snapshot, past := answer.0.snapshot, system.history[..answer.1];
    assert IsGenuine(answer.0, system.document.id, past, system.snapshots);
    assert past[..snapshot.coveredSequence] == system.history[..snapshot.coveredSequence];
    assert system.snapshots[snapshot.id] == snapshot;
  }

  /** Reading an answer adds what was accepted before it was given, and nothing else. */
  lemma AnswerAdds(workspace: EncryptedWorkspace, past: History, first: set<Id>, operations: set<Id>)
    requires HoldsExactly(workspace, past, first)
    ensures workspace.snapshot.envelope.operations <= first + Operations(past)
    ensures var (all, fine) := ApplyAll(operations, workspace.updates, workspace.documentId,
                                        workspace.activeSnapshotId);
            && fine && operations <= all <= operations + Operations(past)
            && workspace.snapshot.envelope.operations + all == first + Operations(past) + operations
  {
    var covered := workspace.snapshot.coveredSequence;
    AppliedOperations(workspace, past, operations, |workspace.updates|);
    assert workspace.updates[..|workspace.updates|] == workspace.updates;
    OperationsSplit(past, covered, |past|);
    assert past[..|past|] == past;
    hide ApplyAll, AllOpen, Operations;
  }

  // ---------- steps ----------

  /** The server accepts an update. */
  lemma SubmitIsExact(system: System, action: Action, first: set<Id>, edits: Edits)
    requires Exact(system, first, edits) && action.Submit?
    ensures Exact(Next(system, action), first, edits)
  {
    hide AppendUpdate, EditsBy;
    AppendExtends(system, action);
    var after := Next(system, action);
    OperationsGrow(after.history, |system.history|);
    assert after.history[..|system.history|] == system.history;
    hide Operations;
    forall id | id in after.snapshots
      ensures after.snapshots[id].coveredSequence <= |after.history|
      ensures after.snapshots[id].envelope.operations ==
              first + Operations(after.history[..after.snapshots[id].coveredSequence])
    {
      var covered := after.snapshots[id].coveredSequence;
      assert after.history[..covered] == system.history[..covered];
    }
  }

  lemma AppendExtends(system: System, action: Action)
    requires action.Submit?
    ensures var after := Next(system, action);
            && system.history <= after.history
            && (after.snapshots, after.answers, after.sessions, after.stable) ==
               (system.snapshots, system.answers, system.sessions, system.stable)
  {
    hide AppendUpdate;
  }

  /** A snapshot holds what the browser's stable state holds. If it is accepted, that is everything accepted and nothing
      else. */
  lemma ReplacedExactly(system: System, action: Action, first: set<Id>)
    requires Faithful(system) && StableIsAccepted(system, first) && action.Replace? && Legal(system, action)
    ensures var after := Next(system, action);
            && (after.history, after.answers, after.sessions, after.stable) ==
               (system.history, system.answers, system.sessions, system.stable)
            && (after.snapshots == system.snapshots
                || (after.snapshots == system.snapshots[action.snapshotId := after.snapshots[action.snapshotId]]
                    && var snapshot := after.snapshots[action.snapshotId];
                       snapshot.coveredSequence == |system.history|
                       && snapshot.envelope.operations == first + Operations(system.history)))
  {
    CompactedIsGenuine(system.document, action.status, action.access, action.snapshotId, action.snapshot,
                       action.expectedSequence);
    SequenceOfDocument(system);
    if action.snapshot.coveredSequence == |system.history| {
      ReplaceKeepsOperations(system, action);
    }
    hide Compact, Faithful, Operations;
    assert first <= action.snapshot.operations <= first + Operations(system.history);
  }

  lemma SequenceOfDocument(system: System)
    requires Faithful(system)
    ensures system.document.currentSequence == |system.history|
  {
    ShapeFits(AsDocument(AsWorkspace(system.document)), system.history);
  }

  lemma ReplaceIsExact(system: System, action: Action, first: set<Id>, edits: Edits)
    requires Faithful(system) && Exact(system, first, edits) && action.Replace? && Legal(system, action)
    ensures Exact(Next(system, action), first, edits)
  {
    ReplacedExactly(system, action, first);
    hide Next, Faithful, Operations, EditsBy, Legal;
    MoreSnapshots(system, Next(system, action), action.snapshotId, first, edits);
  }

  lemma MoreSnapshots(system: System, after: System, snapshotId: Id, first: set<Id>, edits: Edits)
    requires Exact(system, first, edits)
    requires (after.history, after.sessions, after.stable) == (system.history, system.sessions, system.stable)
    requires forall id | id in after.snapshots && id != snapshotId ::
               id in system.snapshots && after.snapshots[id] == system.snapshots[id]
    requires after.snapshots == system.snapshots
               || (snapshotId in after.snapshots
                   && after.snapshots[snapshotId].coveredSequence == |system.history|
                   && after.snapshots[snapshotId].envelope.operations == first + Operations(system.history))
    ensures Exact(after, first, edits)
  {
    hide Operations, EditsBy;
    assert system.history[..|system.history|] == system.history;
  }

  /** One session moves on, and with it at most its own stable state. */
  lemma SessionIsExact(system: System, after: System, client: Id, first: set<Id>, edits: Edits, now: Edits)
    requires Exact(system, first, edits)
    requires after.history == system.history && after.snapshots == system.snapshots
    requires client in after.sessions
    requires after.sessions == system.sessions[client := after.sessions[client]]
    requires after.sessions[client].operations <= first + Operations(system.history) + EditsBy(now, client)
    requires forall other | other in after.stable ::
               || (other in system.stable && after.stable[other] == system.stable[other])
               || first <= after.stable[other] <= first + Operations(system.history)
    requires forall other | other != client :: EditsBy(now, other) == EditsBy(edits, other)
    ensures Exact(after, first, now)
  {
    hide Operations, EditsBy;
  }

  lemma OpenIsExact(system: System, action: Action, first: set<Id>, edits: Edits)
    requires Faithful(system) && Exact(system, first, edits) && Legal(system, action) && action.Open?
    ensures Exact(Next(system, action), first, edits)
  {
    var past := system.history[..action.answer.1];
    AnswerHoldsExactly(system, first, action.answer);
    OperationsGrow(system.history, action.answer.1);
    AnswerAdds(action.answer.0, past, first, action.answer.0.snapshot.envelope.operations);
    hide Faithful, Operations, EditsBy, ApplyAll, HoldsExactly, WorkspaceClocks, OwnClock, Exact;
    var after := Next(system, action);
    if after != system {
      SessionIsExact(system, after, action.client, first, edits, edits);
    }
  }

  /** What a refresh leaves in the session and in the stable state. */
  lemma RefreshedHolds(system: System, first: set<Id>, edits: Edits, client: Id, answer: (EncryptedWorkspace, nat))
    requires Faithful(system) && Exact(system, first, edits) && client in system.sessions && answer in system.answers
    ensures Merge(system.sessions[client], answer.0).0.operations <=
            first + Operations(system.history) + EditsBy(edits, client)
    ensures first <= Contents(answer.0) <= first + Operations(system.history)
  {
    var past, session := system.history[..answer.1], system.sessions[client];
    AnswerHoldsExactly(system, first, answer);
    OperationsGrow(system.history, answer.1);
    AnswerAdds(answer.0, past, first, answer.0.snapshot.envelope.operations);
    AnswerAdds(answer.0, past, first, session.operations);
    AnswerAdds(answer.0, past, first, session.operations + answer.0.snapshot.envelope.operations);
    hide Faithful, Operations, EditsBy, ApplyAll, HoldsExactly, WorkspaceClocks;
    assert first <= answer.0.snapshot.envelope.operations by { FirstInSnapshot(answer.0, past, first); }
  }

  lemma FirstInSnapshot(workspace: EncryptedWorkspace, past: History, first: set<Id>)
    requires HoldsExactly(workspace, past, first)
    ensures first <= workspace.snapshot.envelope.operations
  {
    hide Operations;
  }

  /** A browser refreshes, for a compaction or without. */
  lemma RefreshIsExact(system: System, action: Action, first: set<Id>, edits: Edits)
    requires Faithful(system) && Exact(system, first, edits) && Legal(system, action)
    requires action.Refresh? || action.Coordinate?
    ensures Exact(Next(system, action), first, edits)
  {
    RefreshedHolds(system, first, edits, action.client, action.answer);
    RefreshMoves(system, action);
    hide Faithful, Operations, EditsBy, Exact, Merge, Contents, Next, Legal;
    SessionIsExact(system, Next(system, action), action.client, first, edits, edits);
  }

  lemma RefreshMoves(system: System, action: Action)
    requires Legal(system, action) && (action.Refresh? || action.Coordinate?)
    ensures var after, client := Next(system, action), action.client;
            && (after.history, after.snapshots) == (system.history, system.snapshots)
            && client in system.sessions && client in after.sessions
            && after.sessions == system.sessions[client := after.sessions[client]]
            && after.sessions[client] == Merge(system.sessions[client], action.answer.0).0
            && (after.stable == system.stable || after.stable == system.stable[client := Contents(action.answer.0)])
  {
    hide Merge, Contents;
  }

  lemma ReceiveIsExact(system: System, action: Action, first: set<Id>, edits: Edits)
    requires Exact(system, first, edits) && Legal(system, action) && action.Receive?
    ensures Exact(Next(system, action), first, edits)
  {
    assert system.history[action.sequence - 1].operation in Operations(system.history);
    hide Operations, EditsBy;
    assert system.sessions[action.client].operations <=
           first + Operations(system.history) + EditsBy(edits, action.client);
    SessionIsExact(system, Next(system, action), action.client, first, edits, edits);
  }

  lemma AdoptIsExact(system: System, action: Action, first: set<Id>, edits: Edits)
    requires Exact(system, first, edits) && Legal(system, action) && action.Adopt?
    ensures Exact(Next(system, action), first, edits)
  {
    OperationsGrow(system.history, system.snapshots[action.snapshotId].coveredSequence);
    hide Operations, EditsBy;
    SessionIsExact(system, Next(system, action), action.client, first, edits, edits);
  }

  lemma EditsOfOthers(edits: Edits, action: Action)
    requires action.Confirm? || action.Edit?
    ensures forall other | other != action.client :: EditsBy(Edited(edits, action), other) == EditsBy(edits, other)
    ensures action.Edit? ==>
              EditsBy(Edited(edits, action), action.client) == EditsBy(edits, action.client) + {action.operation}
  {
  }

  /** A browser takes an acknowledgement, edits or leaves its barrier. */
  lemma MoveIsExact(system: System, action: Action, first: set<Id>, edits: Edits)
    requires Exact(system, first, edits) && Legal(system, action)
    requires action.Answer? || action.Release? || action.Confirm? || action.Edit?
    ensures Exact(Next(system, action), first, Edited(edits, action))
  {
    hide Operations, Bootstrap, EditsBy;
    if action.Confirm? || action.Edit? {
      EditsOfOthers(edits, action);
      SessionIsExact(system, Next(system, action), action.client, first, edits, Edited(edits, action));
    }
  }

  lemma StepIsExact(system: System, action: Action, first: set<Id>, edits: Edits)
    requires Faithful(system) && Legal(system, action) && Exact(system, first, edits)
    ensures Exact(Next(system, action), first, Edited(edits, action))
  {
    hide Faithful, Exact, Next, Legal;
    match action
    case Submit(_, _, _) => SubmitIsExact(system, action, first, edits);
    case Replace(_, _, _, _, _, _) => ReplaceIsExact(system, action, first, edits);
    case Open(_, _, _) => OpenIsExact(system, action, first, edits);
    case Refresh(_, _) => RefreshIsExact(system, action, first, edits);
    case Coordinate(_, _) => RefreshIsExact(system, action, first, edits);
    case Receive(_, _) => ReceiveIsExact(system, action, first, edits);
    case Adopt(_, _) => AdoptIsExact(system, action, first, edits);
    case _ => MoveIsExact(system, action, first, edits);
  }

  // ---------- runs ----------

  function AllEdited(edits: Edits, actions: seq<Action>): Edits
    decreases |actions|
  {
    if actions == [] then edits else AllEdited(Edited(edits, actions[0]), actions[1..])
  }

  lemma {:induction false} RunsAreExact(system: System, actions: seq<Action>, first: set<Id>, edits: Edits)
    requires Faithful(system) && LegalRun(system, actions) && Exact(system, first, edits)
    ensures Faithful(After(system, actions)) && Exact(After(system, actions), first, AllEdited(edits, actions))
    decreases |actions|
  {
    hide Faithful, Exact, Next, Legal;
    if actions != [] {
      StepIsFaithful(system, actions[0]);
      StepIsExact(system, actions[0], first, edits);
      RunsAreExact(Next(system, actions[0]), actions[1..], first, Edited(edits, actions[0]));
    }
  }

  /** After any run a browser that opens the document gets what the first snapshot held and what was accepted since: no
      more, whatever was edited elsewhere and never accepted, and no less. */
  lemma OpenedIsExact(system: System, actions: seq<Action>, first: set<Id>, edits: Edits, epoch: Id)
    requires Faithful(system) && LegalRun(system, actions) && Exact(system, first, edits)
    ensures var after := After(system, actions);
            var session := Load(epoch, Bootstrap(after.document));
            session.Some? && session.value.operations == first + Operations(after.history)
  {
    RunsAreExact(system, actions, first, edits);
    hide After, AllEdited;
    var after := After(system, actions);
    LoadedIsExact(after, first, AllEdited(edits, actions), epoch);
  }

  lemma LoadedIsExact(system: System, first: set<Id>, edits: Edits, epoch: Id)
    requires Faithful(system) && Exact(system, first, edits)
    ensures var session := Load(epoch, Bootstrap(system.document));
            session.Some? && session.value.operations == first + Operations(system.history)
  {
    DocumentHolds(system, first);
    AnswerAdds(AsWorkspace(system.document), system.history, first, system.document.snapshot.envelope.operations);
    hide Faithful, Operations, ApplyAll, HoldsExactly, WorkspaceClocks, OwnClock, Exact, Bootstrap;
  }

  lemma DocumentHolds(system: System, first: set<Id>)
    requires Faithful(system) && SnapshotsAreExact(system, first)
    ensures Bootstrap(system.document) == AsWorkspace(system.document) && SnapshotOpens(AsWorkspace(system.document))
    ensures HoldsExactly(AsWorkspace(system.document), system.history, first)
  {
    SameShapeBack(system.document, system.history);
    BootstrapIsWhole(system.document, system.history);
    hide Operations, AllOpen, ClocksAreSequential, Records, ClocksOf, SnapshotsKeepAll, SnapshotsAreSound,
      SessionsAreAnchored, StableIsWhole, AnswersAreGenuine, Bootstrap;
    assert system.snapshots[system.document.snapshot.id] == system.document.snapshot;
  }

  /** After any run a browser holds nothing but what the first snapshot held, what was accepted and what it edited
      itself. */
  lemma BrowsersHoldNothingElse(system: System, actions: seq<Action>, first: set<Id>, edits: Edits, client: Id)
    requires Faithful(system) && LegalRun(system, actions) && Exact(system, first, edits)
    requires client in After(system, actions).sessions
    ensures After(system, actions).sessions[client].operations <=
            first + Operations(After(system, actions).history) + EditsBy(AllEdited(edits, actions), client)
  {
    RunsAreExact(system, actions, first, edits);
    hide After, AllEdited, Operations, EditsBy;
  }

  /** A created document without browsers satisfies what the runs start from. */
  lemma CreatedIsExact(system: System, snapshot: Snapshot)
    requires system.history == [] && system.stable == map[] && system.sessions == map[]
    requires system.snapshots == map[snapshot.id := snapshot] && snapshot.coveredSequence == 0
    ensures Exact(system, snapshot.envelope.operations, map[])
  {
    assert Operations(system.history[..0]) == {};
  }
}
