/** The remaining steps of the queue and whole runs of it
    (frontend/src/e2ee/meeting-collaboration.ts, backend/src/meetings/meeting-document.service.ts). */
module DeliveryRuns {
  import opened Options
  import opened DocumentLog
  import opened DocumentHistory
  import DocumentRuns
  import opened DocumentSession
  import opened CollaborationQueue
  import opened StopAndWait

  // ---------- encryption ----------

  /** The system with one more edit in the queue. */
  function Enqueued(system: System, provider: Provider, envelope: UpdateEnvelope): System {
    system.(provider := provider.(pending := provider.pending + [envelope]),
            session := system.session.(authorClock := system.session.authorClock + 1), created := system.created + [envelope])
  }

  lemma EnqueuedInStep(system: System, provider: Provider, envelope: UpdateEnvelope)
    requires InStep(system) && provider == system.provider.(encrypting := provider.encrypting)
    requires !provider.drained && !provider.stopped
    requires envelope.epoch == system.session.epoch && envelope.clock == system.session.authorClock + 1
    ensures InStep(Enqueued(system, provider, envelope))
  {
    var after := Enqueued(system, provider, envelope);
    EnqueuedQueue(system, after, provider, envelope);
    EnqueuedSent(system, after, envelope);
    assert after.created[..|system.created|] == system.created;
    hide LogShape, Own, Count, QueueHoldsRest, OnlyHeadSent, AcknowledgementsAreTrue;
  }

  lemma EnqueuedQueue(system: System, after: System, provider: Provider, envelope: UpdateEnvelope)
    requires QueueHoldsRest(system) && provider == system.provider.(encrypting := provider.encrypting)
        && !provider.stopped
    requires after == Enqueued(system, provider, envelope)
    ensures QueueHoldsRest(after) && Settled(after) == Settled(system)
    ensures system.provider.pending != [] ==> after.provider.pending[0] == system.provider.pending[0]
  {
    hide Own;
    assert system.abandoned == [] && Waiting(after) == Waiting(system) + [envelope];
    assert after.created[Settled(after)..] == system.created[Settled(system)..] + [envelope];
  }

  lemma EnqueuedSent(system: System, after: System, envelope: UpdateEnvelope)
    requires OnlyHeadSent(system) && AcknowledgementsAreTrue(system) && Settled(after) == Settled(system)
    requires after == system.(provider := after.provider, session := after.session,
                              created := system.created + [envelope])
    requires after.provider.sent == system.provider.sent && after.session.epoch == system.session.epoch
    requires after.provider.pending == system.provider.pending + [envelope]
    ensures OnlyHeadSent(after) && AcknowledgementsAreTrue(after)
  {
    hide Own, Settled;
  }

  lemma EncryptStep(system: System, ockId: Id, early: bool)
    requires InStep(system) && system.provider.encrypting != []
    ensures InStep(Next(system, Encrypt(ockId, early)))
  {
    SilentBefore(system);
    assert !system.provider.drained && !system.provider.stopped;
    hide InStep, Next, IsSilent;
    if system.provider.barrier.Some? && !system.provider.forCompletion && !early {
      EncryptKeepsBack(system, ockId);
    } else {
      EncryptQueues(system, ockId, early);
    }
  }

  lemma EncryptKeepsBack(system: System, ockId: Id)
    requires InStep(system) && system.provider.encrypting != [] && !system.provider.drained && !system.provider.stopped
    requires system.provider.barrier.Some? && !system.provider.forCompletion
    ensures InStep(Next(system, Encrypt(ockId, false)))
  {
    SilentBefore(system);
    hide InStep, ReportDrained, Sent;
    var provider := system.provider;
    var paused := provider.(encrypting := provider.encrypting[1..],
                            paused := provider.paused + [provider.encrypting[0]]);
    ReportSendsNothing(paused);
    QueueStep(system, ReportDrained(paused).0, system.session, ReportDrained(paused).1);
  }

  lemma EncryptQueues(system: System, ockId: Id, early: bool)
    requires InStep(system) && system.provider.encrypting != [] && !system.provider.drained && !system.provider.stopped
    requires system.provider.barrier.None? || system.provider.forCompletion || early
    ensures InStep(Next(system, Encrypt(ockId, early)))
  {
    hide InStep, FlushAndReport, Sent;
    var rest := system.provider.(encrypting := system.provider.encrypting[1..]);
    var (session, envelope) := CreatePending(system.session, system.provider.encrypting[0], ockId);
    EnqueuedInStep(system, rest, envelope);
    SendingStaysInStep(Enqueued(system, rest, envelope), session);
  }

  lemma EncryptFailsStep(system: System)
    requires InStep(system) && system.provider.encrypting != []
    ensures InStep(Next(system, EncryptFails))
  {
    var next := system.(dropped := Next(system, EncryptFails).dropped);
    SameWithEdits(system, system.edits, next.dropped);
    hide InStep, ReportDrained;
    SilentBefore(next);
    var rest := system.provider.(encrypting := system.provider.encrypting[1..]);
    ReportSendsNothing(rest);
    var (provider, frames) := FailNext(system.provider);
    QueueStep(next, provider, system.session, frames);
  }

  /** Sending the head and reporting to the barrier keep the system in step. */
  lemma SendingStaysInStep(system: System, session: Session)
    requires InStep(system) && session.epoch == system.session.epoch
        && session.authorClock == system.session.authorClock
    ensures var (reported, frames) := FlushAndReport(system.provider);
            InStep(system.(provider := reported, session := session, wire := system.wire + Sent(frames)))
  {
    hide InStep;
    SilentBefore(system);
    var (flushed, updates) := Flush(system.provider);
    FlushSendsHead(system.provider);
    ReportSendsNothing(flushed);
    var (reported, reports) := ReportDrained(flushed);
    SentOfBoth(updates, reports);
    hide Flush, ReportDrained;
    QueueStep(system, reported, session, updates + reports);
  }

  // ---------- acknowledgements ----------

  lemma {:induction false} NotInQueue(pending: seq<UpdateEnvelope>, envelope: UpdateEnvelope)
    requires envelope !in pending
    ensures WithoutFirst(pending, envelope) == pending
  {
    if pending != [] {
      NotInQueue(pending[1..], envelope);
    }
  }

  /** The queue after an acknowledgement. */
  function WithoutAcknowledged(system: System, envelope: UpdateEnvelope): System {
    system.(provider := system.provider.(pending := WithoutFirst(system.provider.pending, envelope),
                                         sent := system.provider.sent - {envelope}))
  }

  lemma AcknowledgedInStep(system: System, acknowledgement: (UpdateEnvelope, nat))
    requires InStep(system) && acknowledgement in system.acknowledgements && !system.provider.stopped
    ensures InStep(WithoutAcknowledged(system, acknowledgement.0))
  {
    var after := WithoutAcknowledged(system, acknowledgement.0);
    hide CreatedInOrder, ServerHasPrefix, QueueHoldsRest, AcknowledgementsAreTrue, OnlyHeadSent, IsSilent, WithoutFirst;
    DisposedParts(system, after);
    AcknowledgedQueue(system, acknowledgement);
  }

  lemma AcknowledgedQueue(system: System, acknowledgement: (UpdateEnvelope, nat))
    requires CreatedInOrder(system) && QueueHoldsRest(system) && OnlyHeadSent(system) && AcknowledgementsAreTrue(system)
    requires acknowledgement in system.acknowledgements && !system.provider.stopped && IsSilent(system.provider)
    ensures var after := WithoutAcknowledged(system, acknowledgement.0);
            QueueHoldsRest(after) && OnlyHeadSent(after) && IsSilent(after.provider)
  {
    hide Own;
    var envelope, k := acknowledgement.0, Settled(system);
    var after := WithoutAcknowledged(system, envelope);
    assert IsCreated(system, envelope, |Own(system.history, system.start, system.session.epoch)|);
    assert system.abandoned == [] && Waiting(system) == system.provider.pending && Waiting(after) == after.provider.pending;
    if envelope.clock == system.base + k + 1 {
      assert system.provider.pending[0] == envelope;
      assert after.provider.pending == system.created[k + 1..];
    } else {
      forall i | 0 <= i < |system.provider.pending| ensures system.provider.pending[i] != envelope {
        assert system.provider.pending[i] == system.created[k + i];
      }
      NotInQueue(system.provider.pending, envelope);
      assert system.provider.sent - {envelope} == system.provider.sent;
    }
  }

  lemma DeliverStep(system: System, acknowledgement: (UpdateEnvelope, nat))
    requires InStep(system) && acknowledgement in system.acknowledgements && !system.provider.stopped
    ensures InStep(Next(system, Deliver(acknowledgement)))
  {
    hide InStep, FlushAndReport, WithoutFirst, RequestCompaction, Sent, IsSilent;
    AcknowledgedInStep(system, acknowledgement);
    var (envelope, sequence) := acknowledgement;
    var session := Acknowledge(system.session, envelope.epoch, envelope.clock, sequence);
    var settled := WithoutAcknowledged(system, envelope);
    SendingStaysInStep(settled, session);
    var (provider, frames) := FlushAndReport(settled.provider);
    var sent := settled.(provider := provider, session := session, wire := system.wire + Sent(frames));
    RequestStaysInStep(sent, sequence);
    SentOfBoth(frames, RequestCompaction(provider, sequence).1);
    assert Sent(frames) + {} == Sent(frames);
    assert Next(system, Deliver(acknowledgement)) == sent.(provider := RequestCompaction(provider, sequence).0);
  }

  lemma RequestStaysInStep(system: System, sequence: nat)
    requires InStep(system)
    ensures InStep(system.(provider := RequestCompaction(system.provider, sequence).0))
    ensures Sent(RequestCompaction(system.provider, sequence).1) == {}
  {
    SilentBefore(system);
    RequestIsSilent(system.provider, sequence);
    hide InStep, RequestCompaction, Sent;
    QuietStep(system, RequestCompaction(system.provider, sequence).0, system.session);
  }

  lemma RequestIsSilent(provider: Provider, sequence: nat)
    ensures var (after, frames) := RequestCompaction(provider, sequence);
            && after == provider.(compacting := after.compacting, trigger := after.trigger) && Sent(frames) == {}
            && (IsSilent(provider) ==> IsSilent(after))
  {
  }

  // ---------- the server ----------

  /** What an accepted update adds to the author's part. */
  lemma AcceptedExtendsOwn(system: System, envelope: UpdateEnvelope)
    requires InStep(system) && envelope.clock > 0 && AppendToLog(system.document, envelope).Accepted?
    requires envelope.epoch == system.session.epoch ==> IsCreated(system, envelope, Settled(system) + 1)
    ensures var own := Own(system.history, system.start, system.session.epoch);
            var more := Own(system.history + [envelope], system.start, system.session.epoch);
            if envelope.epoch == system.session.epoch then
              |own| == Settled(system) < |system.created| && system.created[|own|] == envelope
                  && more == own + [envelope]
            else more == own
  {
    AppendByHistory(system.document, system.history, envelope);
    OwnCounts(system.history, system.start, system.session.epoch);
    OwnOfMore(system.history, system.start, system.session.epoch, envelope);
    hide LogShape, Own, Count, Find, Latest, IsStored, ClocksOf, AppendToLog;
  }

  lemma GrownServer(system: System, after: System, envelope: UpdateEnvelope)
    requires ServerHasPrefix(system)
        && after == system.(document := after.document, history := system.history + [envelope])
    requires LogShape(after.document, after.history) && after.document.snapshot == system.document.snapshot
    requires var own := Own(system.history, system.start, system.session.epoch);
             var more := Own(after.history, system.start, system.session.epoch);
             more == own || (|own| < |system.created| && more == own + [system.created[|own|]])
    ensures ServerHasPrefix(after)
  {
    hide LogShape, Own, Count;
    assert after.history[..system.start] == system.history[..system.start];
    PrefixGrows(Own(system.history, system.start, system.session.epoch),
                Own(after.history, system.start, system.session.epoch),
                system.created);
  }

  lemma PrefixGrows(own: seq<UpdateEnvelope>, more: seq<UpdateEnvelope>, created: seq<UpdateEnvelope>)
    requires own <= created
    requires more == own || (|own| < |created| && more == own + [created[|own|]])
    ensures more <= created
  {
  }

  lemma GrownAcknowledgements(system: System, after: System, envelope: UpdateEnvelope)
    requires AcknowledgementsAreTrue(system)
        && after == system.(document := after.document, history := system.history + [envelope])
    requires |Own(system.history, system.start, system.session.epoch)| <=
             |Own(after.history, system.start, system.session.epoch)|
    ensures AcknowledgementsAreTrue(after)
  {
    hide Own;
  }

  lemma SameQueue(system: System, after: System)
    requires CreatedInOrder(system) && OnlyHeadSent(system) && IsSilent(system.provider)
    requires after == system.(document := after.document, history := after.history)
    ensures CreatedInOrder(after) && OnlyHeadSent(after) && IsSilent(after.provider)
  {
  }

  lemma GrownQueue(system: System, after: System, envelope: UpdateEnvelope)
    requires QueueHoldsRest(system)
        && after == system.(document := after.document, history := system.history + [envelope])
    requires var own := Own(system.history, system.start, system.session.epoch);
             var more := Own(after.history, system.start, system.session.epoch);
             more == own || (|own| == Settled(system) && more == own + [envelope])
    ensures QueueHoldsRest(after)
  {
    hide Own;
  }

  lemma GrownHistory(system: System, document: Document, envelope: UpdateEnvelope)
    requires InStep(system) && envelope.clock > 0
    requires AppendToLog(system.document, envelope).Accepted?
        && document == AppendToLog(system.document, envelope).document
    requires envelope.epoch == system.session.epoch ==> IsCreated(system, envelope, Settled(system) + 1)
    ensures InStep(system.(document := document, history := system.history + [envelope]))
    ensures envelope.epoch == system.session.epoch ==>
              IsCreated(system, envelope, |Own(system.history + [envelope], system.start, system.session.epoch)|)
  {
    var after := system.(document := document, history := system.history + [envelope]);
    AcceptedExtendsOwn(system, envelope);
    assert LogShape(system.document, system.history) && document.snapshot == system.document.snapshot;
    hide ServerHasPrefix, QueueHoldsRest, AcknowledgementsAreTrue, CreatedInOrder, OnlyHeadSent, IsSilent, Own,
      LogShape, IsCreated, AppendToLog, Find, Latest, Count;
    DocumentRuns.AppendKeepsShape(system.document, system.history, envelope);
    GrownServer(system, after, envelope);
    GrownAcknowledgements(system, after, envelope);
    GrownQueue(system, after, envelope);
    SameQueue(system, after);
    if envelope.epoch == system.session.epoch {
      CreatedNext(system, envelope, Settled(system));
    }
  }

  lemma CreatedNext(system: System, envelope: UpdateEnvelope, n: nat)
    requires IsCreated(system, envelope, n + 1)
    ensures forall m: int | m >= n + 1 :: IsCreated(system, envelope, m)
  {
  }

  /** The service refuses an update before it reaches the log, or the log answers. */
  lemma AnswerOfLog(system: System, access: Access, status: Option<Status>, envelope: UpdateEnvelope)
    ensures var answer := Answer(system, access, status, envelope);
            answer.Rejected? || (answer == AppendToLog(system.document, envelope) && envelope.clock > 0)
  {
    hide AppendToLog;
  }

  lemma ForeignStep(system: System, access: Access, status: Option<Status>, envelope: UpdateEnvelope)
    requires InStep(system) && envelope.epoch != system.session.epoch
    ensures InStep(Next(system, Foreign(access, status, envelope)))
  {
    hide InStep, Answer, AppendToLog;
    AnswerOfLog(system, access, status, envelope);
    if Answer(system, access, status, envelope).Accepted? {
      GrownHistory(system, AppendToLog(system.document, envelope).document, envelope);
    }
  }

  lemma WithAcknowledgement(system: System, acknowledgement: (UpdateEnvelope, nat))
    requires InStep(system)
    requires IsCreated(system, acknowledgement.0, |Own(system.history, system.start, system.session.epoch)|)
    requires 1 <= acknowledgement.1 <= |system.history| && system.history[acknowledgement.1 - 1] == acknowledgement.0
    ensures InStep(system.(acknowledgements := system.acknowledgements + {acknowledgement}))
  {
    OneMoreAcknowledgement(system, acknowledgement);
    OnlyAcknowledgementsDiffer(system, system.(acknowledgements := system.acknowledgements + {acknowledgement}));
    hide CreatedInOrder, ServerHasPrefix, QueueHoldsRest, AcknowledgementsAreTrue, OnlyHeadSent, IsSilent;
  }

  lemma OneMoreAcknowledgement(system: System, acknowledgement: (UpdateEnvelope, nat))
    requires AcknowledgementsAreTrue(system)
    requires IsCreated(system, acknowledgement.0, |Own(system.history, system.start, system.session.epoch)|)
    requires 1 <= acknowledgement.1 <= |system.history| && system.history[acknowledgement.1 - 1] == acknowledgement.0
    ensures AcknowledgementsAreTrue(system.(acknowledgements := system.acknowledgements + {acknowledgement}))
  {
    hide Own;
  }

  lemma OnlyAcknowledgementsDiffer(system: System, after: System)
    requires CreatedInOrder(system) && ServerHasPrefix(system) && QueueHoldsRest(system) && OnlyHeadSent(system)
    requires after == system.(acknowledgements := after.acknowledgements)
    ensures CreatedInOrder(after) && ServerHasPrefix(after) && QueueHoldsRest(after) && OnlyHeadSent(after)
  {
    hide LogShape, Own, Count;
  }

  /** A duplicate is acknowledged under the sequence it has. */
  lemma DuplicateIsStored(document: Document, history: History, envelope: UpdateEnvelope)
    requires LogShape(document, history) && AppendToLog(document, envelope).Duplicate?
    ensures var update := AppendToLog(document, envelope).update;
            1 <= update.serverSequence <= |history| && history[update.serverSequence - 1] == envelope
  {
    hide ClocksAreSequential, Records, ClocksOf;
    FindMeans(document.updates, envelope.epoch, envelope.clock);
    var update := AppendToLog(document, envelope).update;
    var i :| 0 <= i < |document.updates| && document.updates[i] == update
             && document.updates[i].epoch == envelope.epoch && document.updates[i].clock == envelope.clock;
    assert history[document.snapshot.coveredSequence + i] == update.envelope;
  }

  lemma AcceptedStep(system: System, envelope: UpdateEnvelope)
    requires InStep(system) && envelope in system.wire && AppendToLog(system.document, envelope).Accepted?
    ensures InStep(Handled(system, envelope, AppendToLog(system.document, envelope)))
  {
    SentByAuthor(system, envelope);
    var (document, update) := (AppendToLog(system.document, envelope).document,
                               AppendToLog(system.document, envelope).update);
    var grown := system.(document := document, history := system.history + [envelope]);
    GrownHistory(system, document, envelope);
    assert update.serverSequence == |grown.history|;
    hide InStep, LogShape, Own, Find, Latest;
    WithAcknowledgement(grown, (envelope, update.serverSequence));
  }

  lemma SentByAuthor(system: System, envelope: UpdateEnvelope)
    requires InStep(system) && envelope in system.wire
    ensures IsCreated(system, envelope, Settled(system) + 1) && envelope.epoch == system.session.epoch
        && envelope.clock > 0
    ensures |system.history| == system.document.currentSequence
  {
    DocumentRuns.TailFits(system.document, system.history);
  }

  lemma DuplicateStep(system: System, envelope: UpdateEnvelope)
    requires InStep(system) && envelope in system.wire && AppendToLog(system.document, envelope).Duplicate?
    ensures InStep(Handled(system, envelope, AppendToLog(system.document, envelope)))
  {
    SentByAuthor(system, envelope);
    SentUpdatesAreRecognised(system, envelope);
    DuplicateIsStored(system.document, system.history, envelope);
    var update := AppendToLog(system.document, envelope).update;
    hide InStep, LogShape, Own, Find, Latest, AppendToLog;
    WithAcknowledgement(system, (envelope, update.serverSequence));
  }

  lemma HandleStep(system: System, access: Access, status: Option<Status>, envelope: UpdateEnvelope)
    requires InStep(system) && envelope in system.wire
    ensures InStep(Next(system, Handle(access, status, envelope)))
  {
    hide InStep, AppendToLog, Answer;
    AnswerOfLog(system, access, status, envelope);
    if Answer(system, access, status, envelope).Accepted? {
      AcceptedStep(system, envelope);
    } else if Answer(system, access, status, envelope).Duplicate? {
      DuplicateStep(system, envelope);
    }
  }

  // ---------- runs ----------

  lemma StepStaysInStep(system: System, action: Action)
    requires InStep(system) && Legal(system, action) && IsPast(system, action)
    ensures InStep(Next(system, action))
  {
    hide InStep, LogShape, LocalUpdate, EncryptNext, Handled, Acknowledged, Authenticated, Merge, UpdateArrives,
      ReleaseBarrier, ReportDrained, RefreshEnds, FailNext, Stop;
    match action
    case Edit(operation) => LocalStep(system, operation);
    case Encrypt(ockId, early) => EncryptStep(system, ockId, early);
    case EncryptFails => EncryptFailsStep(system);
    case Handle(access, status, envelope) => HandleStep(system, access, status, envelope);
    case Foreign(access, status, envelope) => ForeignStep(system, access, status, envelope);
    case Deliver(acknowledgement) => DeliverStep(system, acknowledgement);
    case Online(serverBarrier) => OnlineStep(system, serverBarrier);
    case Refreshed(workspace, past) => RefreshStep(system, workspace, past);
    case Remote(sequence) => RemoteStep(system, sequence);
    case BarrierEnds(barrierId) => ReleaseStep(system, barrierId);
    case Nudge => NudgeStep(system);
    case Dispose => DisposeStep(system);
    case _ => SilentActionStep(system, action);
  }

  ghost predicate LegalRun(system: System, actions: seq<Action>)
    decreases |actions|
  {
    actions != [] ==>
      Legal(system, actions[0]) && IsPast(system, actions[0]) && LegalRun(Next(system, actions[0]), actions[1..])
  }

  ghost function After(system: System, actions: seq<Action>): System
    requires LegalRun(system, actions)
    decreases |actions|
  {
    if actions == [] then system else After(Next(system, actions[0]), actions[1..])
  }

  /** Through any loss, delay, repetition, reordering and reconnect the queue and the server stay in step: the
      server has a prefix of the created edits and the queue the rest, overlapping in at most the head. */
  lemma {:induction false} RunsStayInStep(system: System, actions: seq<Action>)
    requires InStep(system) && LegalRun(system, actions)
    ensures InStep(After(system, actions))
    decreases |actions|
  {
    hide InStep, Next, Legal, IsPast;
    if actions != [] {
      StepStaysInStep(system, actions[0]);
      RunsStayInStep(Next(system, actions[0]), actions[1..]);
    }
  }

  /** The place of a created edit in the history. */
  lemma EditStandsOnce(system: System, i: nat) returns (at: nat)
    requires InStep(system) && i < |Own(system.history, system.start, system.session.epoch)|
    ensures i < |system.created| && at < |system.history| && system.history[at] == system.created[i]
    ensures forall other | 0 <= other < |system.history| && system.history[other] == system.created[i] :: other == at
  {
    at := OwnStandsAt(system.history, system.start, system.session.epoch, i);
    SequentialServer(system);
    hide LogShape, Own, ClocksAreSequential;
    forall other | 0 <= other < |system.history| && system.history[other] == system.created[i] ensures other == at {
      Ordered(system.history, other, at);
    }
  }

  lemma CreatedEdit(system: System, i: nat)
    requires InStep(system) && i < Settled(system)
    ensures i < |system.created| && i < |Own(system.history, system.start, system.session.epoch)|
    ensures system.created[i].epoch == system.session.epoch && system.created[i].clock == system.base + i + 1
  {
  }

  lemma SettledEdit(system: System, i: nat) returns (sequence: nat)
    requires InStep(system) && i < Settled(system)
    ensures i < |system.created| && 1 <= sequence <= |system.history|
        && system.history[sequence - 1] == system.created[i]
    ensures forall at | 0 <= at < |system.history| && system.history[at] == system.created[i] :: at == sequence - 1
    ensures forall j, at | 0 <= j < i && 0 <= at < |system.history| && system.history[at] == system.created[j] ::
              at < sequence - 1
  {
    hide InStep, ClocksAreSequential, Own;
    CreatedEdit(system, i);
    var place := EditStandsOnce(system, i);
    sequence := place + 1;
    SequentialServer(system);
    forall j, at | 0 <= j < i && 0 <= at < |system.history| && system.history[at] == system.created[j]
      ensures at < sequence - 1
    {
      CreatedEdit(system, j);
      Ordered(system.history, at, place);
    }
  }

  /** After any run every edit that left the queue by acknowledgement has exactly one server sequence, after those of
      all edits created before it. */
  lemma EditsGetOneSequence(system: System, actions: seq<Action>, i: nat) returns (sequence: nat)
    requires InStep(system) && LegalRun(system, actions)
    requires i < Settled(After(system, actions))
    ensures var after := After(system, actions);
            && i < |after.created| && 1 <= sequence <= |after.history|
            && after.history[sequence - 1] == after.created[i]
            && (forall at | 0 <= at < |after.history| && after.history[at] == after.created[i] :: at == sequence - 1)
            && (forall j, at | 0 <= j < i && 0 <= at < |after.history| && after.history[at] == after.created[j] ::
                  at < sequence - 1)
  {
    hide InStep, After, LegalRun;
    RunsStayInStep(system, actions);
    sequence := SettledEdit(After(system, actions), i);
  }

  lemma SequentialServer(system: System)
    requires InStep(system)
    ensures ClocksAreSequential(system.history)
  {
  }

  lemma Ordered(history: History, a: nat, b: nat)
    requires ClocksAreSequential(history) && a < |history| && b < |history| && history[a].epoch == history[b].epoch
    ensures history[a].clock < history[b].clock ==> a < b
    ensures history[a].clock == history[b].clock ==> a == b
  {
    if a < b {
      ClocksIncrease(history, a, b);
    } else if b < a {
      ClocksIncrease(history, b, a);
    }
  }

  /** Nothing waits: the server has every created edit. */
  lemma EmptyIsSettled(system: System)
    requires InStep(system) && system.provider.pending == [] && !system.provider.stopped
    ensures Own(system.history, system.start, system.session.epoch) == system.created
    ensures system.session.authorClock == Count(system.history, system.session.epoch)
  {
    hide LogShape;
    OwnCounts(system.history, system.start, system.session.epoch);
  }

  /** A client that has reported itself drained has no created edit that the server lacks. */
  lemma DrainedIsSettled(system: System, actions: seq<Action>)
    requires InStep(system) && LegalRun(system, actions)
    requires After(system, actions).provider.drained && !After(system, actions).provider.stopped
    ensures var after := After(system, actions);
            Own(after.history, after.start, after.session.epoch) == after.created
            && after.session.authorClock == Count(after.history, after.session.epoch)
  {
    RunsStayInStep(system, actions);
    SilentBefore(After(system, actions));
    EmptyIsSettled(After(system, actions));
    hide After, LegalRun, LogShape, InStep;
  }

  lemma {:induction false} RunsConserve(system: System, actions: seq<Action>)
    requires Conserved(system) && LegalRun(system, actions)
    ensures Conserved(After(system, actions))
    decreases |actions|
  {
    hide Conserved, Next, Legal, IsPast;
    if actions != [] {
      StepConserves(system, actions[0]);
      RunsConserve(Next(system, actions[0]), actions[1..]);
    }
  }

  /** What the server has of the edits made here. */
  function Arrived(system: System): seq<Id> {
    OperationsOf(Own(system.history, system.start, system.session.epoch))
  }

  /** Whatever happens on the way, every edit is waiting, kept back, created or dropped, each once; for a drained client
      every edit that is not kept back or dropped is on the server, exactly once. */
  lemma NoEditIsLost(system: System, actions: seq<Action>)
    requires InStep(system) && Conserved(system) && LegalRun(system, actions)
    ensures var after := After(system, actions);
            && Conserved(after)
            && (after.provider.drained && !after.provider.stopped ==>
                  multiset(after.edits) == multiset(Arrived(after)) + multiset(after.provider.paused) + after.dropped)
  {
    RunsConserve(system, actions);
    RunsStayInStep(system, actions);
    hide After, LegalRun, LogShape, OperationsOf;
    var after := After(system, actions);
    if after.provider.drained && !after.provider.stopped {
      SilentBefore(after);
      EmptyIsSettled(after);
      hide InStep;
    }
  }

  /** A client that confirms the sequence of a completion is at that sequence, and all its edits are on the server but
      those whose encryption failed. */
  lemma ConfirmedIsSettled(system: System, actions: seq<Action>, barrierId: Id, sequence: nat)
    requires InStep(system) && Conserved(system) && LegalRun(system, actions)
    requires SequenceConfirmed(After(system, actions).provider, After(system, actions).session, barrierId,
                               sequence) != []
    ensures var after := After(system, actions);
            && after.session.currentSequence == sequence
            && Own(after.history, after.start, after.session.epoch) == after.created
            && multiset(after.edits) == multiset(Arrived(after)) + after.dropped
  {
    RunsConserve(system, actions);
    RunsStayInStep(system, actions);
    hide After, LegalRun, LogShape, OperationsOf, InStep;
    EmptyIsSettled(After(system, actions));
  }

  /** Only a failed encryption or the disposal of the provider drops an edit. */
  lemma OnlyFailuresDrop(system: System, action: Action)
    requires InStep(system) && Legal(system, action)
    ensures system.dropped <= Next(system, action).dropped
    ensures Next(system, action).dropped != system.dropped ==> action.EncryptFails? || action.Dispose?
  {
    SilentBefore(system);
    hide InStep, EncryptNext, FailNext, Answer, Merge, ApplyRemote, Flush, ReportDrained, Acknowledged, Authenticated;
  }

  /** A document just opened, with an empty queue. */
  lemma OpenedIsInStep(document: Document, history: History, session: Session, provider: Provider)
    requires LogShape(document, history) && session.authorClock == Count(history, session.epoch)
    requires provider == NewProvider()
    ensures var system := System(session.authorClock, |history|, provider, session, [], [], [], multiset{}, document,
                                 history, {}, {});
            InStep(system) && Conserved(system)
  {
    DocumentRuns.TailFits(document, history);
    assert history[..|history|] == history;
    var system := System(session.authorClock, |history|, provider, session, [], [], [], multiset{}, document, history,
                         {}, {});
    assert ServerHasPrefix(system);
    hide ServerHasPrefix, LogShape, Count;
  }
}
