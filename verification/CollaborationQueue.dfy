/** The queue of local edits in the browser: encrypt in order, send one at a time, keep until acknowledged, and
    fall silent for a barrier (frontend/src/e2ee/meeting-collaboration.ts). */
module CollaborationQueue {
  import opened Options
  import opened DocumentLog
  import opened DocumentSession

  /** encrypting holds the edits waiting for encryption, paused those kept back by a barrier. authenticated means an
      open, accepted connection; synchronizing counts the refreshes under way; barrierDocument is the copy of the
      document from which a snapshot would be made. */
  datatype Provider = Provider(
    pending: seq<UpdateEnvelope>, sent: set<UpdateEnvelope>, encrypting: seq<Id>, paused: seq<Id>,
    barrier: Option<Id>, forCompletion: bool, drained: bool, authenticated: bool, stopped: bool,
    synchronizing: nat, compacting: bool, trigger: Option<nat>, barrierDocument: Option<set<Id>>)

  datatype Frame =
    | UpdateFrame(envelope: UpdateEnvelope)
    | DrainedFrame(barrierId: Id, forCompletion: bool)
    | FailedFrame(barrierId: Id, forCompletion: bool)
    | ConfirmedFrame(barrierId: Id, sequence: nat)
    | RequestFrame(sequence: nat)

  function NewProvider(): Provider {
    Provider([], {}, [], [], None, false, false, false, false, 0, false, None, None)
  }

  // ---------- steps ----------

  /** The first pending update goes out when nothing is unacknowledged. */
  function Flush(provider: Provider): (Provider, seq<Frame>) {
    if !provider.authenticated || provider.sent != {} || provider.pending == [] then (provider, [])
    else (provider.(sent := {provider.pending[0]}), [UpdateFrame(provider.pending[0])])
  }

  predicate MayReportDrained(provider: Provider) {
    && provider.barrier.Some? && !provider.drained && provider.synchronizing == 0
    && provider.encrypting == [] && provider.pending == [] && provider.sent == {}
    && !(provider.forCompletion && provider.paused != []) && provider.authenticated
  }

  function ReportDrained(provider: Provider): (Provider, seq<Frame>) {
    if !MayReportDrained(provider) then (provider, [])
    else (provider.(drained := true), [DrainedFrame(provider.barrier.value, provider.forCompletion)])
  }

  function FlushAndReport(provider: Provider): (Provider, seq<Frame>) {
    var (flushed, updates) := Flush(provider);
    var (reported, reports) := ReportDrained(flushed);
    (reported, updates + reports)
  }

  function LocalUpdate(provider: Provider, operation: Id): (Provider, seq<Frame>) {
    if provider.stopped then (provider, [])
    else if provider.barrier.Some? then
      (provider.(paused := provider.paused + [operation]),
       if provider.forCompletion && provider.authenticated then [FailedFrame(provider.barrier.value, true)] else [])
    else (provider.(encrypting := provider.encrypting + [operation]), [])
  }

  /** The next edit of the encryption queue is done. One whose encryption began before a compaction barrier is queued
      all the same. */
  function EncryptNext(provider: Provider, session: Session, ockId: Id, early: bool): (Provider, Session, seq<Frame>)
    requires provider.encrypting != []
  {
    var operation, rest := provider.encrypting[0], provider.(encrypting := provider.encrypting[1..]);
    if provider.stopped then (rest, session, [])
    else if provider.barrier.Some? && !provider.forCompletion && !early then
      var (reported, frames) := ReportDrained(rest.(paused := rest.paused + [operation]));
      (reported, session, frames)
    else
      var (next, envelope) := CreatePending(session, operation, ockId);
      var (reported, frames) := FlushAndReport(rest.(pending := rest.pending + [envelope]));
      (reported, next, frames)
  }

  /** The next edit of the encryption queue cannot be encrypted and is given up. */
  function FailNext(provider: Provider): (Provider, seq<Frame>)
    requires provider.encrypting != []
  {
    var rest := provider.(encrypting := provider.encrypting[1..]);
    if provider.stopped then (rest, []) else ReportDrained(rest)
  }

  function WithoutFirst(pending: seq<UpdateEnvelope>, envelope: UpdateEnvelope): seq<UpdateEnvelope> {
    if pending == [] then []
    else if pending[0] == envelope then pending[1..]
    else [pending[0]] + WithoutFirst(pending[1..], envelope)
  }

  /** At every hundredth sequence the client asks for a compaction. */
  function RequestCompaction(provider: Provider, sequence: nat): (Provider, seq<Frame>) {
    if provider.barrier.Some? || sequence % 100 != 0 || provider.compacting then (provider, [])
    else (provider.(compacting := true, trigger := Some(sequence)),
          if provider.authenticated then [RequestFrame(sequence)] else [])
  }

  function Acknowledged(provider: Provider, session: Session, envelope: UpdateEnvelope,
                        sequence: nat): (Provider, Session, seq<Frame>)
  {
    var settled := provider.(pending := WithoutFirst(provider.pending, envelope), sent := provider.sent - {envelope});
    var (reported, frames) := FlushAndReport(settled);
    var (requested, requests) := RequestCompaction(reported, sequence);
    (requested, Acknowledge(session, envelope.epoch, envelope.clock, sequence), frames + requests)
  }

  /** An update frame reaches the document and its copy; a gap fails the barrier or starts a refresh. */
  function UpdateArrives(provider: Provider, session: Session, epoch: Id, clock: nat, envelope: UpdateEnvelope,
                         sequence: Option<nat>)
    : (Provider, Session, seq<Frame>)
  {
    var (next, result) := ApplyRemote(session, epoch, clock, envelope, sequence);
    match result
    case Applied =>
      (provider.(barrierDocument := if provider.barrierDocument.Some? then Some(provider.barrierDocument.value + {envelope.operation})
                                    else None), next, [])
    case Gap =>
      if provider.barrier.Some? && provider.authenticated then (provider, next,
                                                                [FailedFrame(provider.barrier.value, false)])
      else (provider.(synchronizing := provider.synchronizing + 1), next, [])
    case _ => (provider, next, [])
  }

  function ConnectionClosed(provider: Provider): Provider {
    provider.(authenticated := false, sent := {}, compacting := false)
  }

  /** The document is copied when the barrier starts. */
  function StartBarrier(provider: Provider, barrierId: Id, forCompletion: bool, operations: set<Id>): Provider {
    if provider.barrier.Some? then provider
    else provider.(barrier := Some(barrierId), forCompletion := forCompletion, drained := false,
                   barrierDocument := Some(operations))
  }

  /** Edits kept back go into the encryption queue again. */
  function ReleaseBarrier(provider: Provider, barrierId: Id): (Provider, seq<Frame>) {
    if provider.barrier != Some(barrierId) then (provider, [])
    else
      var free := provider.(barrier := None, drained := false, paused := [], barrierDocument := None,
                            compacting := false,
                            trigger := None);
      if provider.paused == [] then Flush(free)
      else (free.(encrypting := free.encrypting + provider.paused), [])
  }

  /** The connection is accepted, with the barrier the server knows of, after a refresh. */
  function Authenticated(provider: Provider, serverBarrier: Option<Id>): (Provider, seq<Frame>) {
    var online := provider.(authenticated := true);
    var (released, before) :=
      if online.barrier.Some? && serverBarrier != online.barrier then ReleaseBarrier(online, online.barrier.value)
      else (online, []);
    var (flushed, updates) := Flush(released);
    (flushed, before + updates)
  }

  /** A refresh ends: the answer is merged, and under a barrier it becomes the copy of the document. A refresh that
      fails closes the connection. */
  function RefreshEnds(provider: Provider, session: Session,
                       workspace: EncryptedWorkspace): (Provider, Session, seq<Frame>)
    requires provider.synchronizing > 0
  {
    var ended := provider.(synchronizing := provider.synchronizing - 1);
    var canonical := Canonical(workspace);
    var (merged, fine) := if canonical.Some? then Merge(session, workspace) else (session, false);
    if !fine then (ended.(authenticated := false), merged, [])
    else
      var (reported, frames) :=
        ReportDrained(if provider.barrier.Some? then ended.(barrierDocument := canonical) else ended);
      (reported, merged, frames)
  }

  predicate HasPending(provider: Provider) {
    provider.encrypting != [] || provider.pending != [] || provider.sent != {} || provider.paused != []
  }

  /** A drained client that hears of a completion's sequence refreshes first ... */
  function SequenceArrives(provider: Provider, barrierId: Id): Provider {
    if provider.barrier != Some(barrierId) || !provider.drained then provider
    else provider.(synchronizing := provider.synchronizing + 1)
  }

  /** ... and then confirms it if it has no change left and is at that sequence. */
  function SequenceConfirmed(provider: Provider, session: Session, barrierId: Id, sequence: nat): seq<Frame> {
    if provider.stopped || HasPending(provider) || provider.synchronizing > 0 || session.currentSequence != sequence
       || !provider.authenticated
    then []
    else [ConfirmedFrame(barrierId, sequence)]
  }

  /** Everything that has not been acknowledged is given up. */
  function Stop(provider: Provider): Provider {
    provider.(stopped := true, authenticated := false, pending := [], sent := {}, encrypting := [], paused := [],
              barrierDocument := None)
  }

  // ---------- the object ----------

  class CollaborationProvider {
    var pending: seq<UpdateEnvelope>
    var sent: set<UpdateEnvelope>
    var encrypting: seq<Id>
    var paused: seq<Id>
    var barrier: Option<Id>
    var forCompletion: bool
    var drained: bool
    var authenticated: bool
    var stopped: bool
    var synchronizing: nat
    var compacting: bool
    var trigger: Option<nat>
    var barrierDocument: Option<set<Id>>
    var frames: seq<Frame>
    const document: LoadedDocument

    constructor (document: LoadedDocument)
      ensures View() == NewProvider() && frames == []
      ensures this.document == document
    {
      pending, sent, encrypting, paused := [], {}, [], [];
      barrier, forCompletion, drained, authenticated, stopped := None, false, false, false, false;
      synchronizing, compacting, trigger, barrierDocument := 0, false, None, None;
      frames := [];
      this.document := document;
    }

    function View(): Provider
      reads this
    {
      Provider(pending, sent, encrypting, paused, barrier, forCompletion, drained, authenticated, stopped,
               synchronizing, compacting, trigger, barrierDocument)
    }

    method SendHead()
      modifies this`sent, this`frames
      ensures View() == Flush(old(View())).0 && frames == old(frames) + Flush(old(View())).1
    {
      if !authenticated {
        return;
      }
      var index := 0;
      while index < |pending| && pending[index] in sent
        invariant index <= |pending|
        invariant sent == {} ==> index == 0
      {
        index := index + 1;
      }
      if index < |pending| && sent == {} {
        frames := frames + [UpdateFrame(pending[index])];
        sent := sent + {pending[index]};
      }
    }

    method AcknowledgeBarrierWhenDrained()
      modifies this`drained, this`frames
      ensures View() == ReportDrained(old(View())).0 && frames == old(frames) + ReportDrained(old(View())).1
    {
      if barrier.None? || drained || synchronizing != 0 || |encrypting| != 0 || |pending| != 0 || |sent| != 0
         || (forCompletion && |paused| > 0) || !authenticated {
        return;
      }
      drained := true;
      frames := frames + [DrainedFrame(barrier.value, forCompletion)];
    }

    method SendAndReport()
      modifies this`sent, this`drained, this`frames
      ensures View() == FlushAndReport(old(View())).0 && frames == old(frames) + FlushAndReport(old(View())).1
    {
      hide Flush, ReportDrained;
      SendHead();
      AcknowledgeBarrierWhenDrained();
    }

    method OnLocalUpdate(operation: Id)
      modifies this`paused, this`encrypting, this`frames
      ensures View() == LocalUpdate(old(View()), operation).0
          && frames == old(frames) + LocalUpdate(old(View()), operation).1
    {
      if stopped {
        return;
      }
      if barrier.Some? {
        paused := paused + [operation];
        if forCompletion && authenticated {
          frames := frames + [FailedFrame(barrier.value, true)];
        }
        return;
      }
      encrypting := encrypting + [operation];
    }

    /** early says whether the encryption had begun when a compaction barrier started. */
    method OnEncrypted(ockId: Id, early: bool)
      requires encrypting != []
      modifies this`pending, this`sent, this`encrypting, this`paused, this`drained, this`frames, document`authorClock
      ensures var (provider, session, outgoing) := EncryptNext(old(View()), old(document.View()), ockId, early);
              View() == provider && document.View() == session && frames == old(frames) + outgoing
    {
      hide FlushAndReport, ReportDrained;
      var operation := encrypting[0];
      if stopped {
        encrypting := encrypting[1..];
        return;
      }
      if barrier.Some? && !forCompletion && !early {
        paused := paused + [operation];
        encrypting := encrypting[1..];
        AcknowledgeBarrierWhenDrained();
        return;
      }
      var envelope := document.CreatePendingUpdate(operation, ockId);
      encrypting, pending := encrypting[1..], pending + [envelope];
      SendAndReport();
    }

    method OnEncryptionFailed()
      requires encrypting != []
      modifies this`encrypting, this`drained, this`frames
      ensures View() == FailNext(old(View())).0 && frames == old(frames) + FailNext(old(View())).1
    {
      encrypting := encrypting[1..];
      if !stopped {
        AcknowledgeBarrierWhenDrained();
      }
    }

    method RemovePending(envelope: UpdateEnvelope)
      modifies this`pending
      ensures pending == WithoutFirst(old(pending), envelope)
    {
      var index := 0;
      while index < |pending| && pending[index] != envelope
        invariant index <= |pending|
        invariant WithoutFirst(pending, envelope) == pending[..index] + WithoutFirst(pending[index..], envelope)
      {
        assert pending[index..][1..] == pending[index + 1..];
        assert pending[..index + 1] == pending[..index] + [pending[index]];
        index := index + 1;
      }
      if index < |pending| {
        assert pending[index..][1..] == pending[index + 1..];
        pending := pending[..index] + pending[index + 1..];
      }
    }

    method RequestCompactionWhenDue(sequence: nat)
      modifies this`compacting, this`trigger, this`frames
      ensures View() == RequestCompaction(old(View()), sequence).0
          && frames == old(frames) + RequestCompaction(old(View()), sequence).1
    {
      if barrier.None? && sequence % 100 == 0 && !compacting {
        compacting, trigger := true, Some(sequence);
        if authenticated {
          frames := frames + [RequestFrame(sequence)];
        }
      }
    }

    method OnAcknowledged(envelope: UpdateEnvelope, sequence: nat)
      modifies this`pending, this`sent, this`drained, this`compacting, this`trigger, this`frames
      modifies document`authorClocks, document`currentSequence
      ensures var (provider, session, outgoing) := Acknowledged(old(View()), old(document.View()), envelope, sequence);
              View() == provider && document.View() == session && frames == old(frames) + outgoing
    {
      hide FlushAndReport, RequestCompaction;
      RemovePending(envelope);
      sent := sent - {envelope};
      document.AcknowledgeUpdate(envelope.epoch, envelope.clock, sequence);
      SendAndReport();
      RequestCompactionWhenDue(sequence);
    }

    method OnUpdate(epoch: Id, clock: nat, envelope: UpdateEnvelope, sequence: Option<nat>)
      modifies this`barrierDocument, this`synchronizing, this`frames
      modifies document`operations, document`authorClocks, document`currentSequence
      ensures var (provider, session, outgoing) :=
                UpdateArrives(old(View()), old(document.View()), epoch, clock, envelope, sequence);
              View() == provider && document.View() == session && frames == old(frames) + outgoing
    {
      var result := document.ApplyRemoteUpdate(epoch, clock, envelope, sequence);
      if result == Applied && barrierDocument.Some? {
        barrierDocument := Some(barrierDocument.value + {envelope.operation});
      }
      if result == Gap {
        if barrier.Some? && authenticated {
          frames := frames + [FailedFrame(barrier.value, false)];
        } else {
          synchronizing := synchronizing + 1;
        }
      }
    }

    method OnClosed()
      modifies this`authenticated, this`sent, this`compacting
      ensures View() == ConnectionClosed(old(View()))
    {
      authenticated := false;
      compacting := false;
      sent := {};
    }

    method OnBarrier(barrierId: Id, completion: bool)
      modifies this`barrier, this`forCompletion, this`drained, this`barrierDocument
      ensures View() == StartBarrier(old(View()), barrierId, completion, document.operations)
    {
      if barrier.None? {
        barrier, forCompletion, drained := Some(barrierId), completion, false;
        barrierDocument := Some(document.operations);
      }
    }

    method OnReleased(barrierId: Id)
      modifies this`barrier, this`drained, this`paused, this`encrypting, this`sent, this`frames
      modifies this`barrierDocument, this`compacting, this`trigger
      ensures View() == ReleaseBarrier(old(View()), barrierId).0
          && frames == old(frames) + ReleaseBarrier(old(View()), barrierId).1
    {
      if barrier != Some(barrierId) {
        return;
      }
      var plaintext := paused;
      paused, barrier, drained := [], None, false;
      barrierDocument, compacting, trigger := None, false, None;
      if |plaintext| == 0 {
        SendHead();
        return;
      }
      var index := 0;
      while index < |plaintext|
        invariant index <= |plaintext| && encrypting == old(encrypting) + plaintext[..index]
        invariant (pending, sent, paused, barrier, forCompletion, drained, authenticated, stopped) ==
                  (old(pending), old(sent), [], None, old(forCompletion), false, old(authenticated), old(stopped))
        invariant (synchronizing, compacting, trigger, barrierDocument) == (old(synchronizing), false, None, None)
        invariant frames == old(frames)
      {
        encrypting := encrypting + [plaintext[index]];
        index := index + 1;
      }
    }

    method OnAuthenticated(serverBarrier: Option<Id>)
      modifies this`authenticated, this`barrier, this`drained, this`paused, this`encrypting, this`sent, this`frames
      modifies this`barrierDocument, this`compacting, this`trigger
      ensures View() == Authenticated(old(View()), serverBarrier).0
      ensures frames == old(frames) + Authenticated(old(View()), serverBarrier).1
    {
      hide Flush, ReleaseBarrier;
      authenticated := true;
      if barrier.Some? && serverBarrier != barrier {
        OnReleased(barrier.value);
      }
      SendHead();
    }

    method OnRefreshStarts()
      modifies this`synchronizing
      ensures View() == old(View()).(synchronizing := old(synchronizing) + 1)
    {
      synchronizing := synchronizing + 1;
    }

    method OnRefreshEnds(workspace: EncryptedWorkspace)
      requires synchronizing > 0
      modifies this`synchronizing, this`authenticated, this`drained, this`barrierDocument, this`frames, document
      ensures var (provider, session, outgoing) := RefreshEnds(old(View()), old(document.View()), workspace);
              View() == provider && document.View() == session && frames == old(frames) + outgoing
    {
      hide ReportDrained, Merge, ApplyAll, SnapshotOpens;
      synchronizing := synchronizing - 1;
      if !SnapshotOpens(workspace) {
        authenticated := false;
        return;
      }
      var canonical, fine := LoadedDocument.ApplyUpdates(workspace.snapshot.envelope.operations, workspace);
      if fine {
        fine := document.MergeWorkspace(workspace);
      }
      if !fine {
        authenticated := false;
        return;
      }
      if barrier.Some? {
        barrierDocument := Some(canonical);
      }
      AcknowledgeBarrierWhenDrained();
    }

    method OnCompletionSequence(barrierId: Id)
      modifies this`synchronizing
      ensures View() == SequenceArrives(old(View()), barrierId)
    {
      if barrier == Some(barrierId) && drained {
        OnRefreshStarts();
      }
    }

    method ConfirmSequence(barrierId: Id, sequence: nat)
      modifies this`frames
      ensures frames == old(frames) + SequenceConfirmed(old(View()), old(document.View()), barrierId, sequence)
      ensures View() == old(View())
    {
      if stopped || |encrypting| > 0 || |pending| > 0 || |sent| > 0 || |paused| > 0 || synchronizing > 0
         || document.currentSequence != sequence || !authenticated {
        return;
      }
      frames := frames + [ConfirmedFrame(barrierId, sequence)];
    }

    method Destroy()
      modifies this`stopped, this`authenticated, this`pending, this`sent, this`encrypting, this`paused, this`barrierDocument
      ensures View() == Stop(old(View()))
    {
      stopped, authenticated := true, false;
      encrypting := [];
      pending, sent, paused, barrierDocument := [], {}, [], None;
    }
  }
}
