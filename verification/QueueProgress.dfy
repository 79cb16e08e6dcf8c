/** That the queue of local edits gets somewhere: what waits is sent whenever there is a connection, and a server that
    accepts updates empties the queue (frontend/src/e2ee/meeting-collaboration.ts). */
module QueueProgress {
  import opened Options
  import opened DocumentLog
  import opened DocumentHistory
  import DocumentRuns
  import opened DocumentSession
  import opened CollaborationQueue
  import opened StopAndWait
  import opened DeliveryRuns
  import opened DrainedClients

  // ---------- the head is on its way ----------

  /** With a connection the head of the queue is sent and unanswered. */
  predicate HeadIsSent(provider: Provider) {
    provider.authenticated && provider.pending != [] ==> provider.sent == {provider.pending[0]}
  }

  /** What is remembered as sent was put on the wire. */
  predicate SentIsOnWire(system: System) {
    system.provider.sent <= system.wire
  }

  lemma FlushSendsHeadNow(provider: Provider)
    requires provider.sent == {} || HeadIsSent(provider.(authenticated := true))
    ensures HeadIsSent(Flush(provider).0)
    ensures forall envelope | envelope in Flush(provider).0.sent && envelope !in provider.sent ::
              UpdateFrame(envelope) in Flush(provider).1
    ensures Flush(provider).0 == provider.(sent := Flush(provider).0.sent)
  {
  }

  lemma ReportKeepsHead(provider: Provider)
    requires HeadIsSent(provider)
    ensures HeadIsSent(ReportDrained(provider).0)
    ensures ReportDrained(provider).0 == provider.(drained := ReportDrained(provider).0.drained)
  {
  }

  /** What is new among the remembered updates is among the frames. */
  predicate SendsNew(before: Provider, after: Provider, frames: seq<Frame>) {
    HeadIsSent(after) && forall envelope | envelope in after.sent && envelope !in before.sent ::
        UpdateFrame(envelope) in frames
  }

  lemma SendingKeepsHead(provider: Provider)
    requires provider.sent == {} || HeadIsSent(provider.(authenticated := true))
    ensures SendsNew(provider, FlushAndReport(provider).0, FlushAndReport(provider).1)
  {
    FlushSendsHeadNow(provider);
    ReportKeepsHead(Flush(provider).0);
    hide Flush, ReportDrained;
  }

  /** Nothing but the head is ever remembered as sent. */
  predicate OnlyHead(provider: Provider) {
    forall envelope | envelope in provider.sent :: provider.pending != [] && envelope == provider.pending[0]
  }

  lemma HeadOrNothing(provider: Provider)
    requires OnlyHead(provider)
    ensures provider.sent == {} || (provider.pending != [] && provider.sent == {provider.pending[0]})
  {
    if provider.sent != {} {
      var envelope :| envelope in provider.sent;
      assert provider.sent == {provider.pending[0]};
    }
  }

  lemma EncryptSendsHead(provider: Provider, session: Session, ockId: Id, early: bool)
    requires provider.encrypting != [] && HeadIsSent(provider) && OnlyHead(provider)
    ensures var (after, _, frames) := EncryptNext(provider, session, ockId, early); SendsNew(provider, after, frames)
    ensures SendsNew(provider, FailNext(provider).0, FailNext(provider).1)
  {
    var rest := provider.(encrypting := provider.encrypting[1..]);
    var queued := rest.(pending := rest.pending + [CreatePending(session, provider.encrypting[0], ockId).1]);
    HeadOrNothing(provider);
    SendingKeepsHead(queued);
    ReportKeepsHead(rest.(paused := rest.paused + [provider.encrypting[0]]));
    ReportKeepsHead(rest);
    hide FlushAndReport, ReportDrained;
  }

  lemma AcknowledgedSendsHead(provider: Provider, session: Session, envelope: UpdateEnvelope, sequence: nat)
    requires HeadIsSent(provider) && OnlyHead(provider)
    ensures var (after, _, frames) := Acknowledged(provider, session, envelope, sequence); SendsNew(provider, after, frames)
  {
    var settled := provider.(pending := WithoutFirst(provider.pending, envelope), sent := provider.sent - {envelope});
    HeadOrNothing(provider);
    if provider.sent != {} && envelope != provider.pending[0] {
      assert settled.sent == provider.sent && settled.pending[0] == provider.pending[0];
    } else {
      assert settled.sent == {};
    }
    SendingKeepsHead(settled);
    var (reported, frames) := FlushAndReport(settled);
    RequestIsSilent(reported, sequence);
    hide FlushAndReport, RequestCompaction, WithoutFirst;
  }

  lemma ReleaseSendsHeadNow(provider: Provider, barrierId: Id)
    requires (HeadIsSent(provider) || (provider.authenticated && provider.sent == {})) && OnlyHead(provider)
    ensures var (after, frames) := ReleaseBarrier(provider, barrierId);
            && (forall envelope | envelope in after.sent && envelope !in provider.sent ::
                  UpdateFrame(envelope) in frames)
            && OnlyHead(after) && after.pending == provider.pending && after.authenticated == provider.authenticated
            && (HeadIsSent(provider) ==> HeadIsSent(after))
  {
    var free := provider.(barrier := None, drained := false, paused := [], barrierDocument := None, compacting := false,
                          trigger := None);
    HeadOrNothing(provider);
  }

  lemma OnlineSendsHead(provider: Provider, serverBarrier: Option<Id>)
    requires HeadIsSent(provider) && OnlyHead(provider)
    ensures SendsNew(provider, Authenticated(provider, serverBarrier).0, Authenticated(provider, serverBarrier).1)
  {
    var online := provider.(authenticated := true);
    HeadOrNothing(provider);
    var (released, before) :=
      if online.barrier.Some? && serverBarrier != online.barrier then ReleaseBarrier(online, online.barrier.value)
      else (online, []);
    if online.barrier.Some? {
      ReleaseSendsHeadNow(online, online.barrier.value);
    }
    hide ReleaseBarrier;
    HeadOrNothing(released);
    FlushSendsHeadNow(released);
    hide Flush;
  }

  lemma RefreshSendsHead(provider: Provider, session: Session, workspace: EncryptedWorkspace)
    requires HeadIsSent(provider) && provider.synchronizing > 0
    ensures var (after, _, frames) := RefreshEnds(provider, session, workspace); SendsNew(provider, after, frames)
  {
    var ended := provider.(synchronizing := provider.synchronizing - 1);
    ReportKeepsHead(if provider.barrier.Some? then ended.(barrierDocument := Canonical(workspace)) else ended);
    hide ReportDrained, Merge, Canonical;
  }

  lemma QuietKeepsHead(system: System, action: Action)
    requires Legal(system, action) && HeadIsSent(system.provider)
    requires action.Edit? || action.Remote? || action.Handle? || action.Foreign? || action.RefreshBegins? || action.BarrierStarts?
             || action.SequenceHeard? || action.Close? || action.Dispose?
    ensures HeadIsSent(Next(system, action).provider) && Next(system, action).provider.sent <= system.provider.sent
  {
    hide Answer, ApplyRemote;
  }

  lemma OnlyHeadInStep(system: System)
    requires InStep(system)
    ensures OnlyHead(system.provider)
  {
  }

  /** Whatever happens, with a connection the head is sent, and a step that remembers an update as sent does send it. */
  lemma StepSendsHead(system: System, action: Action)
    requires InStep(system) && Legal(system, action) && HeadIsSent(system.provider)
    ensures SendsNew(system.provider, Next(system, action).provider, FramesOf(system, action))
  {
    OnlyHeadInStep(system);
    hide InStep, HeadIsSent, LocalUpdate, EncryptNext, FailNext, Acknowledged, Authenticated, RefreshEnds,
      UpdateArrives, ReleaseBarrier, ReportDrained, Sent, Answer;
    match action
    case Encrypt(ockId, early) => EncryptSendsHead(system.provider, system.session, ockId, early);
    case EncryptFails => EncryptSendsHead(system.provider, system.session, 0, false);
    case Deliver((envelope, sequence)) => AcknowledgedSendsHead(system.provider, system.session, envelope, sequence);
    case Online(serverBarrier) => OnlineSendsHead(system.provider, serverBarrier);
    case Refreshed(workspace, _) => RefreshSendsHead(system.provider, system.session, workspace);
    case BarrierEnds(barrierId) => ReleaseSendsHeadNow(system.provider, barrierId);
    case Nudge => ReportKeepsHead(system.provider);
    case _ => QuietKeepsHead(system, action);
  }

  lemma StepKeepsWire(system: System, action: Action)
    requires InStep(system) && Legal(system, action) && HeadIsSent(system.provider) && SentIsOnWire(system)
    ensures SentIsOnWire(Next(system, action))
  {
    var after := Next(system, action);
    StepSendsHead(system, action);
    FramesAreTheWire(system, action);
    hide InStep, Legal, Next, FramesOf;
    forall envelope | envelope in after.provider.sent ensures envelope in after.wire {
      if envelope !in system.provider.sent {
        FrameIsSent(FramesOf(system, action), envelope);
      }
    }
  }

  lemma FrameIsSent(frames: seq<Frame>, envelope: UpdateEnvelope)
    requires UpdateFrame(envelope) in frames
    ensures envelope in Sent(frames)
  {
  }

  /** After any run from a document just opened, a connected client has its head sent and on the wire. */
  lemma {:induction false} RunSendsHead(system: System, actions: seq<Action>)
    requires InStep(system) && HeadIsSent(system.provider) && SentIsOnWire(system) && LegalRun(system, actions)
    ensures var after := After(system, actions);
            && HeadIsSent(after.provider) && SentIsOnWire(after)
            && (after.provider.authenticated && after.provider.pending != [] ==> after.provider.pending[0] in after.wire)
    decreases |actions|
  {
    hide InStep, Next, Legal, IsPast;
    if actions != [] {
      StepStaysInStep(system, actions[0]);
      StepSendsHead(system, actions[0]);
      StepKeepsWire(system, actions[0]);
      RunSendsHead(Next(system, actions[0]), actions[1..]);
    }
  }

  // ---------- the updates fit the document ----------

  /** Created updates name the document and snapshot that the server has open. */
  predicate CreatedFit(system: System) {
    && system.session.documentId == system.document.id && system.session.activeSnapshotId == system.document.snapshot.id
    && forall i | 0 <= i < |system.created| ::
         var envelope := system.created[i];
         && envelope.documentId == system.document.id && envelope.snapshotId == system.document.snapshot.id
         && envelope.decodes && envelope.authentic
  }

  lemma RefreshKeepsDocument(provider: Provider, session: Session, workspace: EncryptedWorkspace)
    requires provider.synchronizing > 0 && workspace.activeSnapshotId == session.activeSnapshotId
    ensures var next := RefreshEnds(provider, session, workspace).1;
            next.documentId == session.documentId && next.activeSnapshotId == session.activeSnapshotId
  {
    hide ApplyAll, WorkspaceClocks, ReportDrained;
  }

  lemma EncryptFits(system: System, ockId: Id, early: bool)
    requires CreatedFit(system) && system.provider.encrypting != []
    ensures CreatedFit(Next(system, Encrypt(ockId, early)))
  {
    hide FlushAndReport, ReportDrained, Sent;
  }

  lemma AppendKeepsSnapshot(system: System, access: Access, status: Option<Status>, envelope: UpdateEnvelope)
    ensures var answer := Answer(system, access, status, envelope);
            answer.Accepted? ==>
              answer.document.id == system.document.id && answer.document.snapshot == system.document.snapshot
  {
    hide Find, Latest, UpdateRefusal;
  }

  lemma StepFits(system: System, action: Action)
    requires Legal(system, action) && CreatedFit(system)
    ensures CreatedFit(Next(system, action))
  {
    hide LocalUpdate, EncryptNext, FailNext, FlushAndReport, RequestCompaction, Authenticated, RefreshEnds,
      ReleaseBarrier, ReportDrained, Sent, WithoutFirst, Answer, UpdateOpens;
    match action
    case Encrypt(ockId, early) => EncryptFits(system, ockId, early);
    case Refreshed(workspace, _) => RefreshKeepsDocument(system.provider, system.session, workspace);
    case Handle(access, status, envelope) => AppendKeepsSnapshot(system, access, status, envelope);
    case Foreign(access, status, envelope) => AppendKeepsSnapshot(system, access, status, envelope);
    case _ =>
  }

  lemma {:induction false} RunFits(system: System, actions: seq<Action>)
    requires CreatedFit(system) && LegalRun(system, actions)
    ensures CreatedFit(After(system, actions))
    decreases |actions|
  {
    hide CreatedFit, Next, Legal, IsPast;
    if actions != [] {
      StepFits(system, actions[0]);
      RunFits(Next(system, actions[0]), actions[1..]);
    }
  }

  // ---------- the queue empties ----------

  /** The client is connected, the Meeting not completed, and the author may write under the key of all that waits. */
  predicate IsReady(system: System, access: Access, status: Status) {
    && system.provider.authenticated && !system.provider.stopped
    && access.contentUser && access.epochWritable && !status.Completed?
    && forall i | 0 <= i < |system.provider.pending| :: system.provider.pending[i].ockId == access.ockId
  }

  /** The server answers the head with a sequence: it accepts it, or has it already. */
  lemma HeadIsAnswered(system: System, access: Access, status: Status)
    requires InStep(system) && HeadIsSent(system.provider) && SentIsOnWire(system) && CreatedFit(system)
    requires IsReady(system, access, status) && system.provider.pending != []
    ensures var head := system.provider.pending[0];
            && head in system.wire
            && exists sequence :: (head, sequence) in Next(system, Handle(access, Some(status), head)).acknowledgements
    ensures var after := Next(system, Handle(access, Some(status), system.provider.pending[0]));
            after.provider == system.provider && after.session == system.session && after.created == system.created
  {
    var head := system.provider.pending[0];
    SentUpdatesAreRecognised(system, head);
    HeadIsCreated(system);
    var answer := Answer(system, access, Some(status), head);
    assert answer == AppendToLog(system.document, head);
    hide InStep, AppendToLog;
    var sequence := answer.update.serverSequence;
    assert (head, sequence) in Next(system, Handle(access, Some(status), head)).acknowledgements;
  }

  /** The head is the next or the last of the author's updates on the server. */
  lemma HeadIsCreated(system: System)
    requires InStep(system) && CreatedFit(system) && system.provider.pending != []
    ensures var head := system.provider.pending[0];
            && head in system.created && head.clock > 0
            && head.clock >= system.base + |Own(system.history, system.start, system.session.epoch)|
            && head.documentId == system.document.id && head.snapshotId == system.document.snapshot.id
            && head.decodes && head.authentic
  {
    var head := system.provider.pending[0];
    assert Waiting(system)[0] == head && head == system.created[Settled(system)];
    hide LogShape, Own;
  }

  /** Its acknowledgement takes it out of the queue, and the client stays connected. */
  lemma DeliveryShortens(system: System, acknowledgement: (UpdateEnvelope, nat))
    requires InStep(system) && acknowledgement in system.acknowledgements && system.provider.pending != []
    requires acknowledgement.0 == system.provider.pending[0] && !system.provider.stopped
    ensures var after := Next(system, Deliver(acknowledgement));
            && after.provider.pending == system.provider.pending[1..] && after.created == system.created
            && after.provider.authenticated == system.provider.authenticated && !after.provider.stopped
  {
    hide InStep, Sent;
  }

  /** What holds in every state of a run. */
  ghost predicate IsUnderWay(system: System) {
    InStep(system) && HeadIsSent(system.provider) && SentIsOnWire(system) && CreatedFit(system)
  }

  lemma StepIsUnderWay(system: System, action: Action)
    requires IsUnderWay(system) && Legal(system, action) && IsPast(system, action)
    ensures IsUnderWay(Next(system, action))
  {
    StepStaysInStep(system, action);
    StepSendsHead(system, action);
    StepKeepsWire(system, action);
    StepFits(system, action);
    hide InStep, Next, HeadIsSent, SentIsOnWire, CreatedFit, FramesOf, Legal, IsPast;
  }

  lemma HeadIsHandled(system: System, access: Access, status: Status) returns (sequence: nat)
    requires IsUnderWay(system) && IsReady(system, access, status) && system.provider.pending != []
    ensures var handle := Handle(access, Some(status), system.provider.pending[0]);
            && Legal(system, handle) && IsPast(system, handle)
            && var handled := Next(system, handle);
               && IsUnderWay(handled) && (system.provider.pending[0], sequence) in handled.acknowledgements
               && handled.provider == system.provider && handled.created == system.created
  {
    HeadIsAnswered(system, access, status);
    var handle := Handle(access, Some(status), system.provider.pending[0]);
    sequence :| (system.provider.pending[0], sequence) in Next(system, handle).acknowledgements;
    StepIsUnderWay(system, handle);
    hide InStep, Next, HeadIsSent, SentIsOnWire, CreatedFit, IsReady;
  }

  lemma HeadIsDelivered(system: System, access: Access, status: Status, acknowledgement: (UpdateEnvelope, nat))
    requires IsUnderWay(system) && IsReady(system, access, status) && acknowledgement in system.acknowledgements
    requires system.provider.pending != [] && acknowledgement.0 == system.provider.pending[0]
    ensures var deliver := Deliver(acknowledgement);
            && Legal(system, deliver) && IsPast(system, deliver)
            && var delivered := Next(system, deliver);
               && IsUnderWay(delivered) && IsReady(delivered, access, status) && delivered.created == system.created
               && delivered.provider.pending == system.provider.pending[1..]
  {
    DeliveryShortens(system, acknowledgement);
    StepIsUnderWay(system, Deliver(acknowledgement));
    hide InStep, Next, HeadIsSent, SentIsOnWire, CreatedFit;
  }

  lemma SameQueueIsReady(system: System, after: System, access: Access, status: Status)
    requires IsReady(system, access, status) && after.provider == system.provider
    ensures IsReady(after, access, status)
  {
  }

  lemma NothingToDo(system: System, access: Access, status: Status)
    requires IsUnderWay(system) && IsReady(system, access, status) && system.provider.pending == []
    ensures LegalRun(system, []) && After(system, []) == system
    ensures Own(system.history, system.start, system.session.epoch) == system.created
  {
    EmptyIsSettled(system);
  }

  lemma TwoMore(system: System, first: Action, second: Action, rest: seq<Action>)
    requires Legal(system, first) && IsPast(system, first)
    requires Legal(Next(system, first), second) && IsPast(Next(system, first), second)
    requires LegalRun(Next(Next(system, first), second), rest)
    ensures LegalRun(system, [first, second] + rest)
    ensures After(system, [first, second] + rest) == After(Next(Next(system, first), second), rest)
  {
    hide Legal, IsPast, Next;
    var actions := [first, second] + rest;
    assert actions[1..] == [second] + rest && actions[1..][1..] == rest;
    assert LegalRun(Next(system, first), actions[1..]);
    assert After(Next(system, first), actions[1..]) == After(Next(Next(system, first), second), rest);
  }

  /** With a connection, a Meeting in progress and the right to write there is a way to empty the queue: the server
      handles what is sent, and its answers arrive. Then it has every created edit. */
  lemma {:induction false} QueueEmpties(system: System, access: Access, status: Status) returns (actions: seq<Action>)
    requires IsUnderWay(system) && IsReady(system, access, status)
    ensures LegalRun(system, actions) && |actions| == 2 * |system.provider.pending|
    ensures forall i | 0 <= i < |actions| :: actions[i].Handle? || actions[i].Deliver?
    ensures var after := After(system, actions);
            && after.provider.pending == [] && after.created == system.created
            && Own(after.history, after.start, after.session.epoch) == system.created
    decreases |system.provider.pending|
  {
    hide IsUnderWay, Next, Own, IsReady, Legal, IsPast, LegalRun, After;
    if system.provider.pending == [] {
      actions := [];
      NothingToDo(system, access, status);
    } else {
      var head := system.provider.pending[0];
      var sequence := HeadIsHandled(system, access, status);
      var handle, deliver := Handle(access, Some(status), head), Deliver((head, sequence));
      var handled := Next(system, handle);
      SameQueueIsReady(system, handled, access, status);
      HeadIsDelivered(handled, access, status, (head, sequence));
      var rest := QueueEmpties(Next(handled, deliver), access, status);
      TwoMore(system, handle, deliver, rest);
      actions := [handle, deliver] + rest;
    }
  }

  /** So it is after any run from there. */
  lemma {:induction false} RunIsUnderWay(system: System, actions: seq<Action>)
    requires IsUnderWay(system) && LegalRun(system, actions)
    ensures IsUnderWay(After(system, actions))
    decreases |actions|
  {
    hide IsUnderWay, Next, Legal, IsPast;
    if actions != [] {
      StepIsUnderWay(system, actions[0]);
      RunIsUnderWay(Next(system, actions[0]), actions[1..]);
    }
  }

  /** A document just opened satisfies everything the runs start from. */
  lemma OpenedSends(document: Document, history: History, session: Session)
    requires LogShape(document, history) && session.authorClock == Count(history, session.epoch)
    requires session.documentId == document.id && session.activeSnapshotId == document.snapshot.id
    ensures var system := System(session.authorClock, |history|, NewProvider(), session, [], [], [], multiset{},
                                 document, history, {}, {});
            IsUnderWay(system)
  {
    OpenedIsInStep(document, history, session, NewProvider());
    hide InStep;
  }

  // ---------- every edit arrives ----------

  /** Edits are kept back by a barrier alone. */
  predicate KeepsBackForBarrier(provider: Provider) {
    provider.barrier.None? ==> provider.paused == []
  }

  lemma SendingKeepsBarrier(provider: Provider)
    ensures FlushAndReport(provider).0 ==
            provider.(sent := FlushAndReport(provider).0.sent, drained := FlushAndReport(provider).0.drained)
    ensures ReportDrained(provider).0 == provider.(drained := ReportDrained(provider).0.drained)
  {
  }

  lemma ReleaseFreesEdits(provider: Provider, barrierId: Id)
    requires KeepsBackForBarrier(provider)
    ensures KeepsBackForBarrier(ReleaseBarrier(provider, barrierId).0)
  {
  }

  lemma EncryptKeepsBack(provider: Provider, session: Session, ockId: Id, early: bool)
    requires provider.encrypting != [] && KeepsBackForBarrier(provider)
    ensures KeepsBackForBarrier(EncryptNext(provider, session, ockId, early).0)
    ensures KeepsBackForBarrier(FailNext(provider).0)
  {
    var rest, operation := provider.(encrypting := provider.encrypting[1..]), provider.encrypting[0];
    SendingKeepsBarrier(rest.(pending := rest.pending + [CreatePending(session, operation, ockId).1]));
    SendingKeepsBarrier(rest.(paused := rest.paused + [operation]));
    SendingKeepsBarrier(rest);
    hide FlushAndReport, ReportDrained;
  }

  lemma AcknowledgedKeepsBarrier(provider: Provider, session: Session, envelope: UpdateEnvelope, sequence: nat)
    ensures var after := Acknowledged(provider, session, envelope, sequence).0;
            after == provider.(pending := after.pending, sent := after.sent, drained := after.drained,
                               compacting := after.compacting, trigger := after.trigger)
  {
    SendingKeepsBarrier(provider.(pending := WithoutFirst(provider.pending, envelope),
                                  sent := provider.sent - {envelope}));
    hide FlushAndReport, WithoutFirst;
  }

  lemma RefreshKeepsBarrier(provider: Provider, session: Session, workspace: EncryptedWorkspace)
    requires provider.synchronizing > 0
    ensures var after := RefreshEnds(provider, session, workspace).0;
            after.barrier == provider.barrier && after.paused == provider.paused
  {
    hide ReportDrained, Merge, Canonical;
    var ended := provider.(synchronizing := provider.synchronizing - 1);
    SendingKeepsBarrier(if provider.barrier.Some? then ended.(barrierDocument := Canonical(workspace)) else ended);
  }

  lemma StepKeepsBack(system: System, action: Action)
    requires Legal(system, action) && KeepsBackForBarrier(system.provider)
    ensures KeepsBackForBarrier(Next(system, action).provider)
  {
    hide EncryptNext, FailNext, Acknowledged, Authenticated, RefreshEnds, ReportDrained, ReleaseBarrier, Sent, Answer,
      ApplyRemote;
    match action
    case Encrypt(ockId, early) => EncryptKeepsBack(system.provider, system.session, ockId, early);
    case EncryptFails => EncryptKeepsBack(system.provider, system.session, 0, false);
    case Deliver((envelope, sequence)) => AcknowledgedKeepsBarrier(system.provider, system.session, envelope, sequence);
    case Online(serverBarrier) => OnlineFreesEdits(system.provider, serverBarrier);
    case Refreshed(workspace, _) => RefreshKeepsBarrier(system.provider, system.session, workspace);
    case BarrierEnds(barrierId) => ReleaseFreesEdits(system.provider, barrierId);
    case Nudge => SendingKeepsBarrier(system.provider);
    case _ =>
  }

  lemma OnlineFreesEdits(provider: Provider, serverBarrier: Option<Id>)
    requires KeepsBackForBarrier(provider)
    ensures KeepsBackForBarrier(Authenticated(provider, serverBarrier).0)
  {
    var online := provider.(authenticated := true);
    if online.barrier.Some? {
      ReleaseFreesEdits(online, online.barrier.value);
    }
    hide ReleaseBarrier;
  }

  lemma {:induction false} RunKeepsBack(system: System, actions: seq<Action>)
    requires LegalRun(system, actions) && KeepsBackForBarrier(system.provider)
    ensures KeepsBackForBarrier(After(system, actions).provider)
    decreases |actions|
  {
    hide KeepsBackForBarrier, Next, Legal, IsPast;
    if actions != [] {
      StepKeepsBack(system, actions[0]);
      RunKeepsBack(Next(system, actions[0]), actions[1..]);
    }
  }

  /** The barrier is the same, no edit was made or dropped, and only a compaction has kept more back. */
  predicate SameSetting(before: System, after: System) {
    && after.provider.barrier == before.provider.barrier
    && after.provider.forCompletion == before.provider.forCompletion
    && after.provider.synchronizing == before.provider.synchronizing
    && after.edits == before.edits && after.dropped == before.dropped
    && (before.provider.barrier.None? || before.provider.forCompletion ==>
        after.provider.paused == before.provider.paused)
  }

  lemma EncryptedProvider(provider: Provider, session: Session, ockId: Id)
    requires provider.encrypting != [] && !provider.stopped
    ensures var after := EncryptNext(provider, session, ockId, false).0;
            && after.encrypting == provider.encrypting[1..] && after.barrier == provider.barrier
            && after.forCompletion == provider.forCompletion && after.synchronizing == provider.synchronizing
            && after.authenticated == provider.authenticated && !after.stopped
            && (provider.barrier.None? || provider.forCompletion ==> after.paused == provider.paused)
            && (after.pending == provider.pending
                || exists operation :: after.pending == provider.pending + [CreatePending(session, operation, ockId).1])
  {
    var rest, operation := provider.(encrypting := provider.encrypting[1..]), provider.encrypting[0];
    SendingKeepsBarrier(rest.(pending := rest.pending + [CreatePending(session, operation, ockId).1]));
    SendingKeepsBarrier(rest.(paused := rest.paused + [operation]));
    hide FlushAndReport, ReportDrained;
  }

  /** The next edit can be encrypted under the key in force. */
  lemma EncryptionQueues(system: System, access: Access, status: Status)
    requires IsUnderWay(system) && IsReady(system, access, status) && system.provider.encrypting != []
    ensures var encrypt := Encrypt(access.ockId, false);
            && Legal(system, encrypt) && IsPast(system, encrypt)
            && var after := Next(system, encrypt);
               && IsUnderWay(after) && IsReady(after, access, status) && SameSetting(system, after)
               && after.provider.encrypting == system.provider.encrypting[1..]
  {
    StepIsUnderWay(system, Encrypt(access.ockId, false));
    hide IsUnderWay, EncryptNext, Sent;
    EncryptedProvider(system.provider, system.session, access.ockId);
  }

  lemma OneMore(system: System, first: Action, rest: seq<Action>)
    requires Legal(system, first) && IsPast(system, first) && LegalRun(Next(system, first), rest)
    ensures LegalRun(system, [first] + rest) && After(system, [first] + rest) == After(Next(system, first), rest)
  {
    hide Legal, IsPast, Next;
    assert ([first] + rest)[1..] == rest;
  }

  lemma NoAction(system: System)
    ensures LegalRun(system, []) && After(system, []) == system
  {
  }

  lemma {:induction false} AllEncrypted(system: System, access: Access, status: Status) returns (actions: seq<Action>)
    requires IsUnderWay(system) && IsReady(system, access, status)
    ensures LegalRun(system, actions) && forall i | 0 <= i < |actions| :: actions[i].Encrypt?
    ensures var after := After(system, actions);
            IsUnderWay(after) && IsReady(after, access, status) && SameSetting(system,
                                                                               after) && after.provider.encrypting == []
    decreases |system.provider.encrypting|
  {
    hide IsUnderWay, IsReady, Next, Legal, IsPast, LegalRun, After;
    actions := [];
    NoAction(system);
    if system.provider.encrypting != [] {
      EncryptionQueues(system, access, status);
      var encrypt := Encrypt(access.ockId, false);
      var rest := AllEncrypted(Next(system, encrypt), access, status);
      OneMore(system, encrypt, rest);
      actions := [encrypt] + rest;
    }
  }

  lemma {:induction false} RunThenRun(system: System, first: seq<Action>, second: seq<Action>)
    requires LegalRun(system, first) && LegalRun(After(system, first), second)
    ensures LegalRun(system, first + second) && After(system, first + second) == After(After(system, first), second)
    decreases |first|
  {
    hide Legal, IsPast, Next;
    if first == [] {
      assert first + second == second;
    } else {
      RunThenRun(Next(system, first[0]), first[1..], second);
      assert (first + second)[1..] == first[1..] + second;
    }
  }

  /** Handling and delivering touches the queue alone. */
  predicate SameBesidesQueue(before: System, after: System) {
    && after.provider.encrypting == before.provider.encrypting && after.provider.paused == before.provider.paused
    && after.provider.authenticated == before.provider.authenticated
    && after.provider.stopped == before.provider.stopped
    && SameSetting(before, after)
  }

  lemma {:induction false} ServingKeepsEdits(system: System, actions: seq<Action>)
    requires LegalRun(system, actions) && forall i | 0 <= i < |actions| :: actions[i].Handle? || actions[i].Deliver?
    ensures SameBesidesQueue(system, After(system, actions))
    decreases |actions|
  {
    if actions != [] {
      ServingStep(system, actions[0]);
      hide Next, Legal, IsPast;
      ServingKeepsEdits(Next(system, actions[0]), actions[1..]);
    }
  }

  lemma ServingStep(system: System, action: Action)
    requires Legal(system, action) && (action.Handle? || action.Deliver?)
    ensures SameBesidesQueue(system, Next(system, action))
  {
    if action.Deliver? {
      AcknowledgedKeepsBarrier(system.provider, system.session, action.acknowledgement.0, action.acknowledgement.1);
    }
    hide Acknowledged, Sent, Answer;
  }

  /** What remains to be done for all that waits: encrypt it, handle it and deliver the answers. */
  lemma AllServed(system: System, access: Access, status: Status) returns (actions: seq<Action>)
    requires IsUnderWay(system) && IsReady(system, access, status)
    ensures LegalRun(system, actions)
    ensures forall i | 0 <= i < |actions| :: actions[i].Encrypt? || actions[i].Handle? || actions[i].Deliver?
    ensures var after := After(system, actions);
            && after.provider.encrypting == [] && after.provider.pending == [] && after.provider.authenticated
            && SameSetting(system, after) && Own(after.history, after.start, after.session.epoch) == after.created
  {
    var encrypted := AllEncrypted(system, access, status);
    var middle := After(system, encrypted);
    assert middle.provider.authenticated && !middle.provider.stopped;
    hide IsUnderWay, IsReady, LegalRun, After, Own;
    var served := QueueEmpties(middle, access, status);
    ServingKeepsEdits(middle, served);
    RunThenRun(system, encrypted, served);
    actions := encrypted + served;
  }

  /** Without a barrier every edit ever made can reach the server: after such a run it has each of them exactly once,
      but for those dropped before. */
  lemma EveryEditArrives(system: System, access: Access, status: Status) returns (actions: seq<Action>)
    requires IsUnderWay(system) && IsReady(system, access, status) && Conserved(system)
    requires KeepsBackForBarrier(system.provider) && system.provider.barrier.None?
    ensures LegalRun(system, actions)
    ensures forall i | 0 <= i < |actions| :: actions[i].Encrypt? || actions[i].Handle? || actions[i].Deliver?
    ensures var after := After(system, actions);
            after.edits == system.edits && multiset(system.edits) == multiset(Arrived(after)) + system.dropped
  {
    actions := AllServed(system, access, status);
    RunsConserve(system, actions);
    hide IsUnderWay, IsReady, LegalRun, After, Own, OperationsOf;
  }

  /** Under a barrier a connected client can report itself drained, unless it keeps edits back from a completion. */
  lemma BarrierDrains(system: System, access: Access, status: Status) returns (actions: seq<Action>)
    requires IsUnderWay(system) && IsReady(system, access, status)
    requires system.provider.barrier.Some? && system.provider.synchronizing == 0
    requires system.provider.forCompletion ==> system.provider.paused == []
    ensures LegalRun(system, actions) && After(system, actions).provider.drained
  {
    hide IsReady, Own, LegalRun, After, Next, InStep, HeadIsSent, SentIsOnWire, CreatedFit;
    var served := AllServed(system, access, status);
    var middle := After(system, served);
    RunIsUnderWay(system, served);
    OnlyHeadInStep(middle);
    NudgeReports(middle);
    NoAction(Next(middle, Nudge));
    OneMore(middle, Nudge, []);
    assert [Nudge] + [] == [Nudge];
    RunThenRun(system, served, [Nudge]);
    actions := served + [Nudge];
  }

  lemma NudgeReports(system: System)
    requires OnlyHead(system.provider) && system.provider.barrier.Some? && system.provider.synchronizing == 0
    requires system.provider.encrypting == [] && system.provider.pending == [] && system.provider.authenticated
    requires system.provider.forCompletion ==> system.provider.paused == []
    ensures Next(system, Nudge).provider.drained
    ensures system.provider.drained
            || DrainedFrame(system.provider.barrier.value, system.provider.forCompletion) in FramesOf(system, Nudge)
  {
    HeadOrNothing(system.provider);
  }
}
