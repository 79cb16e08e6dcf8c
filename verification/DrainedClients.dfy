/** What a drained client can still expect from its connection: nothing
    (frontend/src/e2ee/meeting-collaboration.ts). On one connection each update that is sent is answered at most
    once, and no answer arrives after the connection has closed. */
module DrainedClients {
  import opened Options
  import opened DocumentLog
  import opened DocumentSession
  import opened CollaborationQueue
  import opened StopAndWait
  import opened DeliveryRuns

  /** What the provider sends in a step. */
  function FramesOf(system: System, action: Action): seq<Frame>
    requires Legal(system, action)
  {
    match action
    case Edit(operation) => LocalUpdate(system.provider, operation).1
    case Encrypt(ockId, early) => EncryptNext(system.provider, system.session, ockId, early).2
    case EncryptFails => FailNext(system.provider).1
    case Deliver((envelope, sequence)) => Acknowledged(system.provider, system.session, envelope, sequence).2
    case Online(serverBarrier) => Authenticated(system.provider, serverBarrier).1
    case Refreshed(workspace, _) => RefreshEnds(system.provider, system.session, workspace).2
    case Remote(sequence) =>
      var envelope := system.history[sequence - 1];
      UpdateArrives(system.provider, system.session, envelope.epoch, envelope.clock, envelope, Some(sequence)).2
    case BarrierEnds(barrierId) => ReleaseBarrier(system.provider, barrierId).1
    case Nudge => ReportDrained(system.provider).1
    case _ => []
  }

  /** The updates sent on the present connection whose answer has not arrived on it. */
  function Awaited(open: set<UpdateEnvelope>, system: System, action: Action): set<UpdateEnvelope>
    requires Legal(system, action)
  {
    match action
    case Close => {}
    case Dispose => {}
    case Deliver((envelope, _)) => open - {envelope} + Sent(FramesOf(system, action))
    case _ => open + Sent(FramesOf(system, action))
  }

  lemma FramesAreTheWire(system: System, action: Action)
    requires Legal(system, action)
    ensures Next(system, action).wire == system.wire + Sent(FramesOf(system, action))
  {
    hide LocalUpdate, EncryptNext, FailNext, Acknowledged, Authenticated, RefreshEnds, UpdateArrives, ReleaseBarrier,
      ReportDrained, Sent, Answer;
    NoFrames();
    assert system.wire + {} == system.wire;
  }

  /** Whatever a step sends is remembered as sent, and only an answer makes it forget one. */
  predicate Tracks(before: set<UpdateEnvelope>, after: Provider, frames: seq<Frame>) {
    before <= after.sent && Sent(frames) <= after.sent
  }

  lemma FlushTracks(provider: Provider)
    ensures Tracks(provider.sent, Flush(provider).0, Flush(provider).1)
    ensures Tracks(provider.sent, ReportDrained(provider).0, ReportDrained(provider).1)
  {
  }

  lemma BothTrack(provider: Provider)
    ensures Tracks(provider.sent, FlushAndReport(provider).0, FlushAndReport(provider).1)
  {
    hide Flush, ReportDrained, Sent;
    FlushTracks(provider);
    FlushTracks(Flush(provider).0);
    SentOfBoth(Flush(provider).1, ReportDrained(Flush(provider).0).1);
  }

  lemma EncryptTracks(provider: Provider, session: Session, ockId: Id, early: bool)
    requires provider.encrypting != []
    ensures var (after, _, frames) := EncryptNext(provider, session, ockId, early); Tracks(provider.sent, after, frames)
    ensures Tracks(provider.sent, FailNext(provider).0, FailNext(provider).1)
  {
    var rest := provider.(encrypting := provider.encrypting[1..]);
    hide FlushAndReport, ReportDrained, Sent;
    NoFrames();
    BothTrack(rest.(pending := rest.pending + [CreatePending(session, provider.encrypting[0], ockId).1]));
    FlushTracks(rest.(paused := rest.paused + [provider.encrypting[0]]));
    FlushTracks(rest);
  }

  lemma AcknowledgedTracks(provider: Provider, session: Session, envelope: UpdateEnvelope, sequence: nat)
    ensures var (after, _, frames) := Acknowledged(provider, session, envelope, sequence);
            Tracks(provider.sent - {envelope}, after, frames)
  {
    var settled := provider.(pending := WithoutFirst(provider.pending, envelope), sent := provider.sent - {envelope});
    hide FlushAndReport, RequestCompaction, Sent, WithoutFirst;
    BothTrack(settled);
    var (reported, frames) := FlushAndReport(settled);
    RequestIsSilent(reported, sequence);
    SentOfBoth(frames, RequestCompaction(reported, sequence).1);
  }

  lemma ReleaseTracks(provider: Provider, barrierId: Id)
    ensures Tracks(provider.sent, ReleaseBarrier(provider, barrierId).0, ReleaseBarrier(provider, barrierId).1)
  {
    hide Flush;
    NoFrames();
    FlushTracks(provider.(barrier := None, drained := false, paused := [], barrierDocument := None, compacting := false,
                          trigger := None));
  }

  lemma AuthenticatedTracks(provider: Provider, serverBarrier: Option<Id>)
    ensures Tracks(provider.sent, Authenticated(provider, serverBarrier).0, Authenticated(provider, serverBarrier).1)
  {
    var online := provider.(authenticated := true);
    var (released, before) :=
      if online.barrier.Some? && serverBarrier != online.barrier then ReleaseBarrier(online, online.barrier.value)
      else (online, []);
    NoFrames();
    if online.barrier.Some? {
      ReleaseTracks(online, online.barrier.value);
    }
    hide ReleaseBarrier, Flush, Sent;
    FlushTracks(released);
    SentOfBoth(before, Flush(released).1);
  }

  lemma RefreshTracks(provider: Provider, session: Session, workspace: EncryptedWorkspace)
    requires provider.synchronizing > 0
    ensures var (after, _, frames) := RefreshEnds(provider, session, workspace); Tracks(provider.sent, after, frames)
  {
    hide Merge, Canonical, ReportDrained, Sent;
    NoFrames();
    var ended := provider.(synchronizing := provider.synchronizing - 1);
    FlushTracks(if provider.barrier.Some? then ended.(barrierDocument := Canonical(workspace)) else ended);
  }

  lemma QuietlyTracks(system: System, action: Action)
    requires Legal(system, action)
    requires action.Edit? || action.Remote? || action.Handle? || action.Foreign? || action.RefreshBegins? || action.BarrierStarts?
             || action.SequenceHeard?
    ensures Tracks(system.provider.sent, Next(system, action).provider, FramesOf(system, action))
  {
    hide Answer, ApplyRemote;
  }

  /** An update whose answer is awaited is one that the provider remembers as sent. */
  lemma StepAwaitsSent(open: set<UpdateEnvelope>, system: System, action: Action)
    requires Legal(system, action) && open <= system.provider.sent
    ensures Awaited(open, system, action) <= Next(system, action).provider.sent
  {
    hide LocalUpdate, EncryptNext, FailNext, Acknowledged, Authenticated, RefreshEnds, UpdateArrives, ReleaseBarrier,
      ReportDrained, Sent, Answer;
    match action
    case Encrypt(ockId, early) => EncryptTracks(system.provider, system.session, ockId, early);
    case EncryptFails => EncryptTracks(system.provider, system.session, 0, false);
    case Deliver((envelope, sequence)) => AcknowledgedTracks(system.provider, system.session, envelope, sequence);
    case Online(serverBarrier) => AuthenticatedTracks(system.provider, serverBarrier);
    case Refreshed(workspace, _) => RefreshTracks(system.provider, system.session, workspace);
    case BarrierEnds(barrierId) => ReleaseTracks(system.provider, barrierId);
    case Nudge => FlushTracks(system.provider);
    case Close =>
    case Dispose =>
    case _ => QuietlyTracks(system, action);
  }

  ghost function AwaitedAfter(open: set<UpdateEnvelope>, system: System, actions: seq<Action>): set<UpdateEnvelope>
    requires LegalRun(system, actions)
    decreases |actions|
  {
    if actions == [] then open
    else AwaitedAfter(Awaited(open, system, actions[0]), Next(system, actions[0]), actions[1..])
  }

  lemma {:induction false} RunAwaitsSent(open: set<UpdateEnvelope>, system: System, actions: seq<Action>)
    requires LegalRun(system, actions) && open <= system.provider.sent
    ensures AwaitedAfter(open, system, actions) <= After(system, actions).provider.sent
    decreases |actions|
  {
    if actions != [] {
      hide Legal, IsPast, Next, Awaited;
      StepAwaitsSent(open, system, actions[0]);
      RunAwaitsSent(Awaited(open, system, actions[0]), Next(system, actions[0]), actions[1..]);
    }
  }

  /** After any run a client that has reported itself drained awaits no answer on its connection: until it leaves the
      barrier or reconnects, no acknowledgement changes its recorded sequence. */
  lemma DrainedAwaitsNothing(system: System, actions: seq<Action>)
    requires InStep(system) && LegalRun(system, actions) && After(system, actions).provider.drained
    ensures AwaitedAfter({}, system, actions) == {}
  {
    RunsStayInStep(system, actions);
    RunAwaitsSent({}, system, actions);
    hide InStep, After, LegalRun, AwaitedAfter;
    SilentBefore(After(system, actions));
  }
}
