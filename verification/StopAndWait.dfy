/** One browser's queue against the server: frames and acknowledgements may be lost, delayed, repeated and
    reordered, connections come and go, other authors write in between. Within one client epoch and one active
    snapshot every queued edit gets exactly one server sequence, in queue order
    (frontend/src/e2ee/meeting-collaboration.ts, backend/src/meetings/meeting-document.service.ts). */
module StopAndWait {
  import opened Options
  import opened DocumentLog
  import opened DocumentHistory
  import opened DocumentRuns
  import opened DocumentSession
  import opened CollaborationQueue
  import Replication

  /** edits lists every operation ever made here, created every edit ever encrypted, wire every update ever sent,
      acknowledgements every one ever given; abandoned holds created edits and dropped other edits that were given up.
      base is the author's clock and start the length of the history when the epoch's queue began. */
  datatype System = System(
    base: nat, start: nat, provider: Provider, session: Session, edits: seq<Id>, created: seq<UpdateEnvelope>,
    abandoned: seq<UpdateEnvelope>, dropped: multiset<Id>,
    document: Document, history: History, wire: set<UpdateEnvelope>, acknowledgements: set<(UpdateEnvelope, nat)>)

  datatype Action =
    | Edit(operation: Id)
    | Encrypt(ockId: Id, early: bool)
    | EncryptFails
    | Handle(access: Access, status: Option<Status>, envelope: UpdateEnvelope)
    | Foreign(access: Access, status: Option<Status>, envelope: UpdateEnvelope)
    | Deliver(acknowledgement: (UpdateEnvelope, nat))
    | Close
    | Online(serverBarrier: Option<Id>)
    | RefreshBegins
    | Refreshed(workspace: EncryptedWorkspace, past: nat)
    | Remote(sequence: nat)
    | BarrierStarts(barrierId: Id, forCompletion: bool)
    | BarrierEnds(barrierId: Id)
    | SequenceHeard(barrierId: Id)
    | Nudge
    | Dispose

  /** A disposed provider takes no frames. */
  predicate Legal(system: System, action: Action) {
    match action
    case Encrypt(_, _) => system.provider.encrypting != []
    case EncryptFails => system.provider.encrypting != []
    case Handle(_, _, envelope) => envelope in system.wire
    case Foreign(_, _, envelope) => envelope.epoch != system.session.epoch
    case Deliver(acknowledgement) => acknowledgement in system.acknowledgements && !system.provider.stopped
    case Online(_) => !system.provider.stopped
    case Refreshed(workspace, past) =>
      && system.provider.synchronizing > 0
      && past <= |system.history| && workspace.activeSnapshotId == system.session.activeSnapshotId
    case Remote(sequence) => 1 <= sequence <= |system.history| && !system.provider.stopped
    case BarrierStarts(_, _) => !system.provider.stopped
    case _ => true
  }

  /** A refresh answer shows the server as it was at some earlier time. */
  ghost predicate IsPast(system: System, action: Action)
    requires Legal(system, action)
  {
    action.Refreshed? ==> LogShape(Replication.AsDocument(action.workspace), system.history[..action.past])
  }

  function Sent(frames: seq<Frame>): set<UpdateEnvelope> {
    set i | 0 <= i < |frames| && frames[i].UpdateFrame? :: frames[i].envelope
  }

  function WithProvider(system: System, step: (Provider, seq<Frame>)): System {
    system.(provider := step.0, wire := system.wire + Sent(step.1))
  }

  /** The service's answer to an update at this moment. */
  function Answer(system: System, access: Access, status: Option<Status>, envelope: UpdateEnvelope): Append {
    AppendUpdate(Workspace(status, Some(system.document)), access, envelope)
  }

  function Handled(system: System, envelope: UpdateEnvelope, answer: Append): System {
    match answer
    case Accepted(document, update) =>
      system.(document := document, history := system.history + [envelope],
              acknowledgements := system.acknowledgements + {(envelope, update.serverSequence)})
    case Duplicate(update) =>
      system.(acknowledgements := system.acknowledgements + {(envelope, update.serverSequence)})
    case Rejected(_) => system
  }

  /** The edits left without encryption are dropped, the queue is abandoned. */
  function Disposed(system: System): System {
    var provider := system.provider;
    system.(provider := Stop(provider), abandoned := provider.pending + system.abandoned,
            dropped := system.dropped + multiset(provider.encrypting) + multiset(provider.paused))
  }

  function WithSession(system: System, step: (Provider, Session, seq<Frame>)): System {
    system.(provider := step.0, session := step.1, wire := system.wire + Sent(step.2))
  }

  function Next(system: System, action: Action): System
    requires Legal(system, action)
  {
    match action
    case Edit(operation) =>
      WithProvider(system.(edits := if system.provider.stopped then system.edits else system.edits + [operation],
                           session := system.session.(operations := system.session.operations + {operation})),
                   LocalUpdate(system.provider, operation))
    case Encrypt(ockId, early) =>
      var (provider, session, frames) := EncryptNext(system.provider, system.session, ockId, early);
      WithSession(system, (provider, session, frames)).(
        created := if session == system.session then system.created
                   else system.created + [CreatePending(system.session, system.provider.encrypting[0], ockId).1],
        dropped := if system.provider.stopped then system.dropped + multiset{system.provider.encrypting[0]}
                   else system.dropped)
    case EncryptFails =>
      WithProvider(system.(dropped := system.dropped + multiset{system.provider.encrypting[0]}),
                   FailNext(system.provider))
    case Handle(access, status, envelope) => Handled(system, envelope, Answer(system, access, status, envelope))
    case Foreign(access, status, envelope) =>
      var append := Answer(system, access, status, envelope);
      if append.Accepted? then system.(document := append.document, history := system.history + [envelope]) else system
    case Deliver((envelope, sequence)) =>
      WithSession(system, Acknowledged(system.provider, system.session, envelope, sequence))
    case Close => system.(provider := ConnectionClosed(system.provider))
    case Online(serverBarrier) => WithProvider(system, Authenticated(system.provider, serverBarrier))
    case RefreshBegins => system.(provider := system.provider.(synchronizing := system.provider.synchronizing + 1))
    case Refreshed(workspace, _) => WithSession(system, RefreshEnds(system.provider, system.session, workspace))
    case Remote(sequence) =>
      var envelope := system.history[sequence - 1];
      WithSession(system,
                  UpdateArrives(system.provider, system.session, envelope.epoch, envelope.clock, envelope,
                                Some(sequence)))
    case BarrierStarts(barrierId, forCompletion) =>
      system.(provider := StartBarrier(system.provider, barrierId, forCompletion, system.session.operations))
    case BarrierEnds(barrierId) => WithProvider(system, ReleaseBarrier(system.provider, barrierId))
    case SequenceHeard(barrierId) => system.(provider := SequenceArrives(system.provider, barrierId))
    case Nudge => WithProvider(system, ReportDrained(system.provider))
    case Dispose => Disposed(system)
  }

  // ---------- the author's part of the history ----------

  /** The author's updates since the start, in server order. */
  function Own(history: History, start: nat, epoch: Id): seq<UpdateEnvelope> {
    if |history| <= start then []
    else
      var earlier, last := Own(history[..|history| - 1], start, epoch), history[|history| - 1];
      if last.epoch == epoch then earlier + [last] else earlier
  }

  lemma {:induction false} OwnCounts(history: History, start: nat, epoch: Id)
    requires start <= |history|
    ensures |Own(history, start, epoch)| == Count(history, epoch) - Count(history[..start], epoch)
  {
    if |history| == start {
      assert history[..start] == history;
    } else {
      OwnCounts(history[..|history| - 1], start, epoch);
      assert history[..|history| - 1][..start] == history[..start];
    }
  }

  lemma OwnOfMore(history: History, start: nat, epoch: Id, envelope: UpdateEnvelope)
    requires start <= |history|
    ensures Own(history + [envelope], start, epoch) ==
            if envelope.epoch == epoch then Own(history, start, epoch) + [envelope] else Own(history, start, epoch)
  {
    assert (history + [envelope])[..|history|] == history;
  }

  /** Entry i of the author's part stands somewhere after the start. */
  lemma {:induction false} OwnStandsAt(history: History, start: nat, epoch: Id, i: nat) returns (at: nat)
    requires i < |Own(history, start, epoch)|
    ensures start <= at < |history| && history[at] == Own(history, start, epoch)[i]
  {
    var front := history[..|history| - 1];
    if i < |Own(front, start, epoch)| {
      at := OwnStandsAt(front, start, epoch, i);
    } else {
      at := |history| - 1;
    }
  }

  // ---------- the invariant ----------

  /** How many of the created edits have been acknowledged. */
  function Settled(system: System): int {
    |system.created| - |Waiting(system)|
  }

  /** What has not been acknowledged: the queue, or what was left of it. */
  function Waiting(system: System): seq<UpdateEnvelope> {
    system.provider.pending + system.abandoned
  }

  /** An edit created among the first n. */
  predicate IsCreated(system: System, envelope: UpdateEnvelope, n: int) {
    system.base < envelope.clock <= system.base + n && envelope.clock - system.base <= |system.created|
    && system.created[envelope.clock - system.base - 1] == envelope
  }

  predicate CreatedInOrder(system: System) {
    && system.session.authorClock == system.base + |system.created|
    && forall i | 0 <= i < |system.created| ::
         system.created[i].epoch == system.session.epoch && system.created[i].clock == system.base + i + 1
  }

  /** The server has a prefix of the created edits, ... */
  ghost predicate ServerHasPrefix(system: System) {
    && LogShape(system.document, system.history)
    && system.document.snapshot.coveredSequence <= system.start <= |system.history|
    && Count(system.history[..system.start], system.session.epoch) == system.base
    && Own(system.history, system.start, system.session.epoch) <= system.created
  }

  /** ... the queue holds the rest, and at most its head is on the server already. */
  predicate QueueHoldsRest(system: System) {
    && 0 <= Settled(system) && Waiting(system) == system.created[Settled(system)..]
    && (system.abandoned != [] ==> system.provider.stopped)
    && Settled(system) <= |Own(system.history, system.start, system.session.epoch)| <= Settled(system) + 1
  }

  /** Nothing behind the head was ever sent. */
  predicate OnlyHeadSent(system: System) {
    && (forall envelope | envelope in system.wire :: IsCreated(system, envelope, Settled(system) + 1))
    && (forall envelope | envelope in system.provider.sent ::
          system.provider.pending != [] && envelope == system.provider.pending[0])
  }

  /** Acknowledgements name what the server has. */
  predicate AcknowledgementsAreTrue(system: System) {
    forall acknowledgement | acknowledgement in system.acknowledgements ::
      && IsCreated(system, acknowledgement.0, |Own(system.history, system.start, system.session.epoch)|)
      && 1 <= acknowledgement.1 <= |system.history| && system.history[acknowledgement.1 - 1] == acknowledgement.0
  }

  /** A drained client has nothing left to send, and a disposed one nothing at all. */
  predicate IsSilent(provider: Provider) {
    && (provider.drained ==> provider.barrier.Some? && provider.pending == [] && provider.sent == {} && provider.encrypting == [])
    && (provider.stopped ==> provider.pending == [] && provider.sent == {} && provider.encrypting == [] && provider.paused == []
                             && !provider.authenticated)
  }

  ghost predicate InStep(system: System) {
    CreatedInOrder(system) && ServerHasPrefix(system) && QueueHoldsRest(system) && OnlyHeadSent(system)
    && AcknowledgementsAreTrue(system) && IsSilent(system.provider)
  }

  // ---------- what the server says to the queue ----------

  lemma OwnIsStored(system: System, envelope: UpdateEnvelope)
    requires CreatedInOrder(system) && ServerHasPrefix(system)
    requires IsCreated(system, envelope, |Own(system.history, system.start, system.session.epoch)|)
    ensures IsStored(system.document, system.history, envelope)
  {
    hide LogShape;
    var at := OwnStandsAt(system.history, system.start, system.session.epoch, envelope.clock - system.base - 1);
  }

  /** Of all updates ever sent the server accepts only the head of the queue, and only once: again it is the
      latest duplicate, and anything older is a replay. None is a gap or a reused counter. */
  lemma SentUpdatesAreRecognised(system: System, envelope: UpdateEnvelope)
    requires InStep(system) && envelope in system.wire
    ensures var m := |Own(system.history, system.start, system.session.epoch)|;
            var append := AppendToLog(system.document, envelope);
            && (append.Accepted? <==> envelope.clock == system.base + m + 1)
            && (append.Duplicate? <==> envelope.clock == system.base + m)
            && (append == Rejected(UpdateReplay) <==> envelope.clock < system.base + m)
            && (append.Accepted? || append.Duplicate? || append == Rejected(UpdateReplay))
            && (append.Accepted? ==> Waiting(system) != [] && envelope == Waiting(system)[0])
  {
    var m := |Own(system.history, system.start, system.session.epoch)|;
    OwnCounts(system.history, system.start, system.session.epoch);
    assert IsCreated(system, envelope, Settled(system) + 1);
    AppendByHistory(system.document, system.history, envelope);
    if envelope.clock <= system.base + m {
      OwnIsStored(system, envelope);
    }
    hide LogShape, Count, Find, Latest, IsStored, ClocksOf, Own, AppendToLog;
  }

  /** Whenever the head of the queue is sent, the server has its clock or the one before. */
  lemma HeadIsNextOrLatest(system: System)
    requires InStep(system) && Waiting(system) != []
    ensures var n, head := Count(system.history, system.session.epoch), Waiting(system)[0];
            head.clock == n + 1 || head.clock == n
  {
    OwnCounts(system.history, system.start, system.session.epoch);
    hide LogShape, Count, Own;
  }

  // ---------- the client's steps ----------

  /** Flushing sends the head or nothing. */
  lemma FlushSendsHead(provider: Provider)
    requires forall envelope | envelope in provider.sent :: provider.pending != [] && envelope == provider.pending[0]
    ensures var (after, frames) := Flush(provider);
            && after == provider.(sent := after.sent)
            && (forall envelope | envelope in after.sent :: provider.pending != [] && envelope == provider.pending[0])
            && (forall envelope | envelope in Sent(frames) :: provider.pending != [] && envelope == provider.pending[0])
            && (provider.pending == [] ==> after == provider && frames == [])
  {
  }

  lemma NoFrames()
    ensures Sent([]) == {}
  {
  }

  lemma SentOfBoth(left: seq<Frame>, right: seq<Frame>)
    ensures Sent(left + right) == Sent(left) + Sent(right)
  {
    forall envelope | envelope in Sent(left) + Sent(right) ensures envelope in Sent(left + right) {
      if envelope in Sent(left) {
        var i :| 0 <= i < |left| && left[i].UpdateFrame? && left[i].envelope == envelope;
        assert (left + right)[i] == left[i];
      } else {
        var i :| 0 <= i < |right| && right[i].UpdateFrame? && right[i].envelope == envelope;
        assert (left + right)[|left| + i] == right[i];
      }
    }
  }

  lemma ReportSendsNothing(provider: Provider)
    ensures var (after, frames) := ReportDrained(provider);
            Sent(frames) == {} && after == provider.(drained := after.drained)
            && (IsSilent(provider) ==> IsSilent(after))
  {
  }

  /** A step that keeps the queue and sends at most its head. */
  lemma QueueStep(system: System, provider: Provider, session: Session, frames: seq<Frame>)
    requires InStep(system) && provider.pending == system.provider.pending && IsSilent(provider)
    requires provider.stopped == system.provider.stopped
    requires session.epoch == system.session.epoch && session.authorClock == system.session.authorClock
    requires forall envelope | envelope in Sent(frames) :: provider.pending != [] && envelope == provider.pending[0]
    requires forall envelope | envelope in provider.sent :: provider.pending != [] && envelope == provider.pending[0]
    ensures InStep(system.(provider := provider, session := session, wire := system.wire + Sent(frames)))
  {
    var after := system.(provider := provider, session := session, wire := system.wire + Sent(frames));
    SameQueueParts(system, after);
    SentIsHead(system, after, Sent(frames));
    hide LogShape, Sent, Own, Count, CreatedInOrder, ServerHasPrefix, AcknowledgementsAreTrue, IsSilent, QueueHoldsRest,
      OnlyHeadSent;
  }

  lemma SentIsHead(system: System, after: System, sent: set<UpdateEnvelope>)
    requires OnlyHeadSent(system) && QueueHoldsRest(system) && Settled(after) == Settled(system)
    requires after == system.(provider := after.provider, session := after.session, wire := system.wire + sent)
    requires after.provider.pending == system.provider.pending
    requires forall envelope | envelope in sent :: after.provider.pending != [] && envelope == after.provider.pending[0]
    requires forall envelope | envelope in after.provider.sent ::
               after.provider.pending != [] && envelope == after.provider.pending[0]
    requires CreatedInOrder(system)
    ensures OnlyHeadSent(after)
  {
    hide Own;
    forall envelope | envelope in sent ensures IsCreated(after, envelope, Settled(after) + 1) {
      assert envelope == Waiting(after)[0] == after.created[Settled(after)];
    }
  }

  lemma SameQueueParts(system: System, after: System)
    requires CreatedInOrder(system) && ServerHasPrefix(system) && QueueHoldsRest(system)
        && AcknowledgementsAreTrue(system)
    requires after == system.(provider := after.provider, session := after.session, wire := after.wire)
    requires after.provider.pending == system.provider.pending && after.provider.stopped == system.provider.stopped
    requires after.session.epoch == system.session.epoch && after.session.authorClock == system.session.authorClock
    ensures CreatedInOrder(after) && ServerHasPrefix(after) && QueueHoldsRest(after) && AcknowledgementsAreTrue(after)
    ensures Settled(after) == Settled(system)
  {
    hide LogShape, Own, Count;
  }

  lemma LocalStep(system: System, operation: Id)
    requires InStep(system)
    ensures InStep(Next(system, Edit(operation)))
  {
    var after := Next(system, Edit(operation));
    var next := system.(edits := after.edits);
    var (provider, frames) := LocalUpdate(system.provider, operation);
    SameWithEdits(system, next.edits, system.dropped);
    hide InStep;
    SilentBefore(next);
    assert Sent(frames) == {};
    QueueStep(next, provider, after.session, frames);
    assert after == next.(provider := provider, session := after.session, wire := system.wire + Sent(frames));
  }

  lemma SameWithEdits(system: System, edits: seq<Id>, dropped: multiset<Id>)
    requires InStep(system)
    ensures InStep(system.(edits := edits, dropped := dropped))
  {
    hide LogShape, Own, Count;
  }

  lemma SilentBefore(system: System)
    requires InStep(system)
    ensures IsSilent(system.provider)
    ensures forall envelope | envelope in system.provider.sent ::
              system.provider.pending != [] && envelope == system.provider.pending[0]
  {
  }

  /** A step of the provider that sends nothing. */
  lemma QuietStep(system: System, provider: Provider, session: Session)
    requires InStep(system) && provider.pending == system.provider.pending && IsSilent(provider)
    requires provider.stopped == system.provider.stopped && provider.sent <= system.provider.sent
    requires session.epoch == system.session.epoch && session.authorClock == system.session.authorClock
    ensures InStep(system.(provider := provider, session := session))
  {
    hide InStep;
    SilentBefore(system);
    NoFrames();
    assert system.wire + {} == system.wire;
    QueueStep(system, provider, session, []);
  }

  lemma SilentActionStep(system: System, action: Action)
    requires InStep(system) && Legal(system, action)
    requires action.BarrierStarts? || action.Close? || action.RefreshBegins? || action.SequenceHeard?
    ensures InStep(Next(system, action))
  {
    SilentBefore(system);
    hide InStep;
    QuietStep(system, Next(system, action).provider, system.session);
  }

  lemma ArrivalIsSilent(provider: Provider, session: Session, envelope: UpdateEnvelope, sequence: nat)
    requires IsSilent(provider)
    ensures var (after, next, frames) :=
              UpdateArrives(provider, session, envelope.epoch, envelope.clock, envelope, Some(sequence));
            && after.pending == provider.pending && after.sent == provider.sent && after.stopped == provider.stopped
            && after.encrypting == provider.encrypting && after.paused == provider.paused
            && IsSilent(after) && Sent(frames) == {} && next.epoch == session.epoch
            && next.authorClock == session.authorClock
  {
    hide UpdateOpens;
  }

  lemma RemoteStep(system: System, sequence: nat)
    requires InStep(system) && Legal(system, Remote(sequence))
    ensures InStep(Next(system, Remote(sequence)))
  {
    hide InStep, UpdateArrives, IsSilent, Sent;
    SilentBefore(system);
    var envelope := system.history[sequence - 1];
    ArrivalIsSilent(system.provider, system.session, envelope, sequence);
    var (provider, session, frames) :=
      UpdateArrives(system.provider, system.session, envelope.epoch, envelope.clock, envelope, Some(sequence));
    assert system.wire + {} == system.wire;
    QuietStep(system, provider, session);
  }

  lemma DisposedParts(system: System, after: System)
    requires CreatedInOrder(system) && ServerHasPrefix(system) && AcknowledgementsAreTrue(system)
    requires after == system.(provider := after.provider, abandoned := after.abandoned, dropped := after.dropped)
    ensures CreatedInOrder(after) && ServerHasPrefix(after) && AcknowledgementsAreTrue(after)
  {
    hide LogShape, Own, Count;
  }

  lemma DisposedQueue(system: System, after: System)
    requires QueueHoldsRest(system) && OnlyHeadSent(system) && IsSilent(system.provider)
    requires after == system.(provider := Stop(system.provider), abandoned := Waiting(system), dropped := after.dropped)
    ensures QueueHoldsRest(after) && OnlyHeadSent(after) && IsSilent(after.provider)
  {
    hide Own;
    assert Waiting(after) == Waiting(system);
  }

  lemma DisposeStep(system: System)
    requires InStep(system)
    ensures InStep(Next(system, Dispose))
  {
    hide CreatedInOrder, ServerHasPrefix, QueueHoldsRest, AcknowledgementsAreTrue, OnlyHeadSent, IsSilent;
    DisposedParts(system, Next(system, Dispose));
    DisposedQueue(system, Next(system, Dispose));
  }

  lemma NudgeStep(system: System)
    requires InStep(system)
    ensures InStep(Next(system, Nudge))
  {
    hide InStep, ReportDrained;
    SilentBefore(system);
    ReportSendsNothing(system.provider);
    QueueStep(system, ReportDrained(system.provider).0, system.session, ReportDrained(system.provider).1);
  }

  lemma ReleaseSendsHead(provider: Provider, barrierId: Id)
    requires IsSilent(provider)
    requires forall envelope | envelope in provider.sent :: provider.pending != [] && envelope == provider.pending[0]
    ensures var (after, frames) := ReleaseBarrier(provider, barrierId);
            && after.pending == provider.pending && after.stopped == provider.stopped && IsSilent(after)
            && (forall envelope | envelope in after.sent :: provider.pending != [] && envelope == provider.pending[0])
            && (forall envelope | envelope in Sent(frames) :: provider.pending != [] && envelope == provider.pending[0])
  {
    FlushSendsHead(provider.(barrier := None, drained := false, paused := [], barrierDocument := None,
                             compacting := false,
                             trigger := None));
    hide Flush;
  }

  lemma ReleaseStep(system: System, barrierId: Id)
    requires InStep(system)
    ensures InStep(Next(system, BarrierEnds(barrierId)))
  {
    hide InStep, ReleaseBarrier;
    SilentBefore(system);
    ReleaseSendsHead(system.provider, barrierId);
    var (provider, frames) := ReleaseBarrier(system.provider, barrierId);
    QueueStep(system, provider, system.session, frames);
    assert Next(system, BarrierEnds(barrierId)) ==
           system.(provider := provider, session := system.session, wire := system.wire + Sent(frames));
  }

  lemma AuthenticatedSendsHead(provider: Provider, serverBarrier: Option<Id>)
    requires IsSilent(provider) && !provider.stopped
    requires forall envelope | envelope in provider.sent :: provider.pending != [] && envelope == provider.pending[0]
    ensures var (after, frames) := Authenticated(provider, serverBarrier);
            && after.pending == provider.pending && after.stopped == provider.stopped && IsSilent(after)
            && (forall envelope | envelope in after.sent :: provider.pending != [] && envelope == provider.pending[0])
            && (forall envelope | envelope in Sent(frames) :: provider.pending != [] && envelope == provider.pending[0])
  {
    var online := provider.(authenticated := true);
    var (released, before) :=
      if online.barrier.Some? && serverBarrier != online.barrier then ReleaseBarrier(online, online.barrier.value)
      else (online, []);
    NoFrames();
    if online.barrier.Some? {
      ReleaseSendsHead(online, online.barrier.value);
    }
    hide ReleaseBarrier, Flush;
    FlushSendsHead(released);
    SentOfBoth(before, Flush(released).1);
  }

  /** A refresh never moves the own clock: the server knows no own update that was not created here. */
  lemma RefreshKeepsClock(system: System, workspace: EncryptedWorkspace, past: nat)
    requires InStep(system) && past <= |system.history| && workspace.activeSnapshotId == system.session.activeSnapshotId
    requires LogShape(Replication.AsDocument(workspace), system.history[..past])
    ensures var session := Merge(system.session, workspace).0;
            session.epoch == system.session.epoch && session.authorClock == system.session.authorClock
  {
    var epoch := system.session.epoch;
    Replication.WorkspaceClocksCount(workspace, system.history[..past]);
    assert ClockAt(WorkspaceClocks(workspace), epoch) == Count(system.history[..past], epoch);
    BaseClock(Replication.AsDocument(workspace), system.history[..past], epoch);
    CountGrows(system.history, past, epoch);
    OwnCounts(system.history, system.start, epoch);
    hide LogShape, Count, WorkspaceClocks, ApplyAll, ClocksOf, Own;
  }

  lemma OnlineStep(system: System, serverBarrier: Option<Id>)
    requires InStep(system) && !system.provider.stopped
    ensures InStep(Next(system, Online(serverBarrier)))
  {
    hide InStep, Authenticated;
    SilentBefore(system);
    AuthenticatedSendsHead(system.provider, serverBarrier);
    var (provider, frames) := Authenticated(system.provider, serverBarrier);
    QueueStep(system, provider, system.session, frames);
    assert Next(system, Online(serverBarrier)) ==
           system.(provider := provider, session := system.session, wire := system.wire + Sent(frames));
  }

  lemma RefreshIsSilent(provider: Provider, session: Session, workspace: EncryptedWorkspace)
    requires IsSilent(provider) && provider.synchronizing > 0
    ensures var (after, next, frames) := RefreshEnds(provider, session, workspace);
            && after.pending == provider.pending && after.sent == provider.sent && after.stopped == provider.stopped
            && IsSilent(after) && Sent(frames) == {} && (next == session || next == Merge(session, workspace).0)
  {
    hide Merge, Canonical, ReportDrained;
    var ended := provider.(synchronizing := provider.synchronizing - 1);
    ReportSendsNothing(if provider.barrier.Some? then ended.(barrierDocument := Canonical(workspace)) else ended);
  }

  lemma RefreshStep(system: System, workspace: EncryptedWorkspace, past: nat)
    requires InStep(system) && Legal(system, Refreshed(workspace, past))
    requires LogShape(Replication.AsDocument(workspace), system.history[..past])
    ensures InStep(Next(system, Refreshed(workspace, past)))
  {
    RefreshKeepsClock(system, workspace, past);
    hide InStep, Merge, LogShape, RefreshEnds, IsSilent, Sent;
    SilentBefore(system);
    RefreshIsSilent(system.provider, system.session, workspace);
    assert system.wire + {} == system.wire;
    var (next, session, frames) := RefreshEnds(system.provider, system.session, workspace);
    QuietStep(system, next, session);
  }

  // ---------- no edit is lost ----------

  function OperationsOf(created: seq<UpdateEnvelope>): seq<Id> {
    seq(|created|, i requires 0 <= i < |created| => created[i].operation)
  }

  /** Every edit made is waiting for encryption, kept back by a barrier, created or dropped, and each of them once. */
  ghost predicate Conserved(system: System) {
    multiset(system.edits) ==
    multiset(system.provider.encrypting) + multiset(system.provider.paused) + multiset(OperationsOf(system.created))
    + system.dropped
  }

  lemma OneMoreCreated(created: seq<UpdateEnvelope>, envelope: UpdateEnvelope)
    ensures multiset(OperationsOf(created + [envelope])) ==
        multiset(OperationsOf(created)) + multiset{envelope.operation}
  {
    assert OperationsOf(created + [envelope]) == OperationsOf(created) + [envelope.operation];
  }

  predicate KeepsEdits(before: Provider, after: Provider) {
    after.encrypting == before.encrypting && after.paused == before.paused && after.stopped == before.stopped
  }

  lemma FlushKeepsEdits(provider: Provider)
    ensures KeepsEdits(provider, Flush(provider).0) && KeepsEdits(provider, ReportDrained(provider).0)
  {
  }

  lemma SendingKeepsEdits(provider: Provider, envelope: UpdateEnvelope, session: Session, sequence: nat)
    ensures KeepsEdits(provider, FlushAndReport(provider).0) && KeepsEdits(provider, ReportDrained(provider).0)
    ensures KeepsEdits(provider, Acknowledged(provider, session, envelope, sequence).0)
  {
    var settled := provider.(pending := WithoutFirst(provider.pending, envelope), sent := provider.sent - {envelope});
    hide Flush, ReportDrained, WithoutFirst;
    FlushKeepsEdits(provider);
    FlushKeepsEdits(Flush(provider).0);
    FlushKeepsEdits(settled);
    FlushKeepsEdits(Flush(settled).0);
  }

  /** Encryption takes the first edit out of the queue and creates it, keeps it back or drops it. */
  lemma EncryptMovesOne(provider: Provider, session: Session, ockId: Id, early: bool)
    requires provider.encrypting != []
    ensures var (after, next, _) := EncryptNext(provider, session, ockId, early);
            && after.stopped == provider.stopped && (provider.stopped ==> next == session)
            && multiset(after.encrypting) + multiset(after.paused)
               + (if next == session && !provider.stopped then multiset{} else multiset{provider.encrypting[0]}) ==
               multiset(provider.encrypting) + multiset(provider.paused)
  {
    var encrypting := provider.encrypting;
    assert encrypting == [encrypting[0]] + encrypting[1..];
    var rest := provider.(encrypting := encrypting[1..]);
    var (next, envelope) := CreatePending(session, encrypting[0], ockId);
    var queued, paused := rest.(pending := rest.pending + [envelope]), rest.(paused := rest.paused + [encrypting[0]]);
    SendingKeepsEdits(queued, envelope, session, 0);
    SendingKeepsEdits(paused, envelope, session, 0);
    hide FlushAndReport, ReportDrained;
  }

  lemma EncryptConserves(system: System, ockId: Id, early: bool)
    requires Conserved(system) && system.provider.encrypting != []
    ensures Conserved(Next(system, Encrypt(ockId, early)))
  {
    EncryptMovesOne(system.provider, system.session, ockId, early);
    OneMoreCreated(system.created, CreatePending(system.session, system.provider.encrypting[0], ockId).1);
    hide OperationsOf, Sent, EncryptNext;
  }

  lemma FailureConserves(system: System)
    requires Conserved(system) && system.provider.encrypting != []
    ensures Conserved(Next(system, EncryptFails))
  {
    hide OperationsOf, Sent, ReportDrained;
    var encrypting := system.provider.encrypting;
    assert encrypting == [encrypting[0]] + encrypting[1..];
    FlushKeepsEdits(system.provider.(encrypting := encrypting[1..]));
  }

  lemma DisposalConserves(system: System)
    requires Conserved(system)
    ensures Conserved(Next(system, Dispose))
  {
    hide OperationsOf;
  }

  lemma ReleaseConserves(provider: Provider, barrierId: Id)
    ensures var after := ReleaseBarrier(provider, barrierId).0;
            && multiset(after.encrypting) + multiset(after.paused) ==
                multiset(provider.encrypting) + multiset(provider.paused)
            && after.stopped == provider.stopped
  {
  }

  lemma AuthenticatedConserves(provider: Provider, serverBarrier: Option<Id>)
    ensures var after := Authenticated(provider, serverBarrier).0;
            && multiset(after.encrypting) + multiset(after.paused) ==
                multiset(provider.encrypting) + multiset(provider.paused)
            && after.stopped == provider.stopped
  {
    var online := provider.(authenticated := true);
    if online.barrier.Some? {
      ReleaseConserves(online, online.barrier.value);
    }
    hide ReleaseBarrier;
  }

  lemma LocalUpdateQueuesOne(provider: Provider, operation: Id)
    ensures var after := LocalUpdate(provider, operation).0;
            multiset(after.encrypting) + multiset(after.paused) ==
            multiset(provider.encrypting) + multiset(provider.paused) + (if provider.stopped then multiset{}
                                                                         else multiset{operation})
  {
    var after := LocalUpdate(provider, operation).0;
    if !provider.stopped && provider.barrier.Some? {
      assert multiset(after.paused) == multiset(provider.paused) + multiset{operation};
    } else if !provider.stopped {
      assert multiset(after.encrypting) == multiset(provider.encrypting) + multiset{operation};
    }
  }

  lemma EditConserves(system: System, operation: Id)
    requires Conserved(system)
    ensures Conserved(Next(system, Edit(operation)))
  {
    LocalUpdateQueuesOne(system.provider, operation);
    hide OperationsOf, Sent, LocalUpdate;
  }

  lemma KeptIsConserved(system: System, after: System)
    requires Conserved(system) && KeepsEdits(system.provider, after.provider)
    requires after.edits == system.edits && after.created == system.created && after.dropped == system.dropped
    ensures Conserved(after)
  {
    hide OperationsOf;
  }

  lemma StepConserves(system: System, action: Action)
    requires Conserved(system) && Legal(system, action)
    ensures Conserved(Next(system, action))
  {
    hide Conserved, OperationsOf, Sent, Authenticated, ReleaseBarrier, EncryptNext, Answer, Merge, ApplyRemote, Flush,
      ReportDrained, Acknowledged, LocalUpdate, FlushAndReport, FailNext, Stop, Canonical;
    match action
    case Edit(operation) => EditConserves(system, operation);
    case Encrypt(ockId, early) => EncryptConserves(system, ockId, early);
    case EncryptFails => FailureConserves(system);
    case Dispose => DisposalConserves(system);
    case Online(serverBarrier) =>
      AuthenticatedConserves(system.provider, serverBarrier);
      MovedIsConserved(system, Next(system, action));
    case BarrierEnds(barrierId) =>
      ReleaseConserves(system.provider, barrierId);
      MovedIsConserved(system, Next(system, action));
    case Deliver((envelope, sequence)) =>
      SendingKeepsEdits(system.provider, envelope, system.session, sequence);
      KeptIsConserved(system, Next(system, action));
    case Refreshed(workspace, _) =>
      RefreshKeepsEdits(system.provider, system.session, workspace);
      KeptIsConserved(system, Next(system, action));
    case Nudge =>
      SendingKeepsEdits(system.provider, UpdateEnvelope(0, 0, 0, 0, 0, 0, false, false), system.session, 0);
      KeptIsConserved(system, Next(system, action));
    case _ => KeptIsConserved(system, Next(system, action));
  }

  lemma RefreshKeepsEdits(provider: Provider, session: Session, workspace: EncryptedWorkspace)
    requires provider.synchronizing > 0
    ensures KeepsEdits(provider, RefreshEnds(provider, session, workspace).0)
  {
    hide Merge, Canonical;
  }

  lemma MovedIsConserved(system: System, after: System)
    requires Conserved(system) && after.provider.stopped == system.provider.stopped
    requires multiset(after.provider.encrypting) + multiset(after.provider.paused) ==
             multiset(system.provider.encrypting) + multiset(system.provider.paused)
    requires after.edits == system.edits && after.created == system.created && after.dropped == system.dropped
    ensures Conserved(after)
  {
    hide OperationsOf;
  }
}
