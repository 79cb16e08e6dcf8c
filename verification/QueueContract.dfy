/** What each event does to the queue of local edits, the barrier and the copy of the document, and when something is
    sent for it (frontend/src/e2ee/meeting-collaboration.ts). */
module QueueContract {
  import opened Options
  import opened DocumentLog
  import opened DocumentSession
  import opened CollaborationQueue
  import opened DocumentHistory
  import opened Replication
  import SessionContract

  /** A new provider takes edits once it is connected, has nothing outstanding and has asked for nothing. */
  lemma NewProviderExactly()
    ensures var provider := NewProvider();
            && NothingOutstanding(provider) && provider.paused == [] && provider.barrier.None? && !provider.drained
            && !provider.authenticated && !provider.stopped && !provider.compacting && provider.trigger.None?
            && provider.barrierDocument.None? && !provider.forCompletion
  {
  }

  // ---------- edits ----------

  /** An edit waits for encryption, or is kept back under a barrier and fails a completion. */
  lemma EditExactly(provider: Provider, operation: Id)
    requires !provider.stopped
    ensures var (after, frames) := LocalUpdate(provider, operation);
            && (provider.barrier.None? ==>
                  after == provider.(encrypting := provider.encrypting + [operation]) && frames == [])
            && (provider.barrier.Some? ==> after == provider.(paused := provider.paused + [operation]))
            && (provider.barrier.Some? ==>
                  if provider.forCompletion && provider.authenticated then
                    frames == [FailedFrame(provider.barrier.value, true)]
                  else frames == [])
  {
  }

  /** A disposed provider takes no edits. */
  lemma NoEditAfterDisposal(provider: Provider, operation: Id)
    requires provider.stopped
    ensures LocalUpdate(provider, operation) == (provider, [])
  {
  }

  /** An encrypted edit joins the queue under the next clock of the author, unless a compaction barrier stood before its
      encryption began. */
  lemma EncryptionExactly(provider: Provider, session: Session, ockId: Id, early: bool)
    requires provider.encrypting != [] && !provider.stopped
    ensures var (after, next, frames) := EncryptNext(provider, session, ockId, early);
            var operation := provider.encrypting[0];
            && after.encrypting == provider.encrypting[1..]
            && if provider.barrier.Some? && !provider.forCompletion && !early then
                 && after.paused == provider.paused + [operation] && after.pending == provider.pending
                 && next == session
               else
                 && after.paused == provider.paused && |after.pending| == |provider.pending| + 1
                 && after.pending[..|provider.pending|] == provider.pending
                 && var envelope := after.pending[|provider.pending|];
                    && envelope.operation == operation && envelope.epoch == session.epoch
                    && envelope.decodes && envelope.authentic
                    && envelope.clock == session.authorClock + 1 == next.authorClock
                    && envelope.documentId == session.documentId && envelope.snapshotId == session.activeSnapshotId
                    && envelope.ockId == ockId && next == session.(authorClock := next.authorClock)
  {
  }

  /** An edit that cannot be encrypted is neither queued nor kept back. */
  lemma FailureExactly(provider: Provider)
    requires provider.encrypting != []
    ensures var after := FailNext(provider).0;
            after == provider.(encrypting := provider.encrypting[1..], drained := after.drained)
  {
  }

  // ---------- barriers ----------

  /** A client without a barrier takes the announced one and copies its document. */
  lemma BarrierStartsExactly(provider: Provider, barrierId: Id, forCompletion: bool, operations: set<Id>)
    ensures var after := StartBarrier(provider, barrierId, forCompletion, operations);
            if provider.barrier.Some? then after == provider
            else
              && after.barrier == Some(barrierId) && after.forCompletion == forCompletion && !after.drained
              && after.barrierDocument == Some(operations)
              && (after.pending, after.sent, after.encrypting, after.paused, after.authenticated, after.stopped,
                  after.synchronizing) ==
                 (provider.pending, provider.sent, provider.encrypting, provider.paused, provider.authenticated,
                  provider.stopped,
                  provider.synchronizing)
  {
  }

  /** The end of its barrier frees the client: what was kept back waits for encryption again, behind what waits already,
      and another compaction may be asked for. */
  lemma BarrierEndsExactly(provider: Provider, barrierId: Id)
    ensures var (after, frames) := ReleaseBarrier(provider, barrierId);
            if provider.barrier != Some(barrierId) then after == provider && frames == []
            else
              && after.barrier == None && !after.drained && after.paused == [] && after.barrierDocument == None
              && !after.compacting && after.trigger == None
              && after.encrypting == provider.encrypting + provider.paused && after.pending == provider.pending
              && after.authenticated == provider.authenticated && after.stopped == provider.stopped
              && after.synchronizing == provider.synchronizing
  {
  }

  /** Reports are made after the last encryption, acknowledgement or refresh, and when asked, if nothing is outstanding.
      */
  predicate NothingOutstanding(provider: Provider) {
    && provider.encrypting == [] && provider.pending == [] && provider.sent == {} && provider.synchronizing == 0
    && (provider.forCompletion ==> provider.paused == [])
  }

  lemma ReportExactly(provider: Provider)
    ensures var (after, frames) := ReportDrained(provider);
            var reports := provider.barrier.Some? && !provider.drained && provider.authenticated && NothingOutstanding(provider);
            && after == provider.(drained := provider.drained || reports)
            && frames == if reports then [DrainedFrame(provider.barrier.value, provider.forCompletion)] else []
  {
  }

  /** After each of these events a connected client under a barrier has reported if nothing is outstanding. */
  lemma ReportsInTime(provider: Provider, session: Session, ockId: Id, early: bool, envelope: UpdateEnvelope,
                      sequence: nat)
    requires !provider.stopped
    ensures var after := Acknowledged(provider, session, envelope, sequence).0;
            after.barrier.Some? && after.authenticated && NothingOutstanding(after) ==> after.drained
    ensures provider.encrypting != [] ==>
              var after := EncryptNext(provider, session, ockId, early).0;
              after.barrier.Some? && after.authenticated && NothingOutstanding(after) ==> after.drained
    ensures provider.encrypting != [] ==>
              var after := FailNext(provider).0;
              after.barrier.Some? && after.authenticated && NothingOutstanding(after) ==> after.drained
  {
    hide WithoutFirst;
  }

  // ---------- acknowledgements ----------

  /** A client asks for a compaction exactly when an acknowledged sequence is a multiple of a hundred, it knows of no
      barrier and has not asked yet. */
  lemma RequestExactly(provider: Provider, session: Session, envelope: UpdateEnvelope, sequence: nat)
    ensures var (after, next, frames) := Acknowledged(provider, session, envelope, sequence);
            var asks := sequence % 100 == 0 && provider.barrier.None? && !provider.compacting;
            && (RequestFrame(sequence) in frames <==> asks && provider.authenticated)
            && after.compacting == (provider.compacting || asks)
            && (asks ==> after.trigger == Some(sequence)) && (!asks ==> after.trigger == provider.trigger)
            && next.currentSequence == sequence && envelope.epoch in next.authorClocks
            && next.authorClocks[envelope.epoch] == envelope.clock
  {
    hide WithoutFirst;
  }

  // ---------- update frames and refreshes ----------

  /** The next frame reaches the document and its copy; an old one changes nothing; a gap fails the barrier, or starts a
      refresh when there is none or no connection. */
  lemma FrameExactly(provider: Provider, session: Session, epoch: Id, clock: nat, envelope: UpdateEnvelope,
                     sequence: nat)
    requires UpdateOpens(envelope, session.documentId, session.activeSnapshotId, epoch, clock)
    ensures var (after, next, frames) := UpdateArrives(provider, session, epoch, clock, envelope, Some(sequence));
            && (sequence <= session.currentSequence ==> after == provider && next == session && frames == [])
            && (sequence == session.currentSequence + 1 ==>
                  && next.operations == session.operations + {envelope.operation} && next.currentSequence == sequence
                  && epoch in next.authorClocks && next.authorClocks[epoch] == clock && frames == []
                  && (provider.barrierDocument.None? ==> after == provider)
                  && (provider.barrierDocument.Some? ==>
                        after == provider.(barrierDocument := Some(provider.barrierDocument.value + {envelope.operation}))))
            && (sequence > session.currentSequence + 1 ==>
                  && next == session
                  && if provider.barrier.Some? && provider.authenticated then
                       after == provider && frames == [FailedFrame(provider.barrier.value, false)]
                     else after == provider.(synchronizing := provider.synchronizing + 1) && frames == [])
  {
  }

  /** A refresh that can be read brings the session up to date, and under a barrier the copy is what the server has. One
      that cannot ends the connection. */
  lemma RefreshExactly(provider: Provider, session: Session, workspace: EncryptedWorkspace)
    requires provider.synchronizing > 0
    ensures var (after, next, frames) := RefreshEnds(provider, session, workspace);
            var readable := Canonical(workspace).Some? && Merge(session, workspace).1;
            && after.synchronizing == provider.synchronizing - 1
            && (readable ==> next == Merge(session, workspace).0 && after.authenticated == provider.authenticated)
            && (readable && provider.barrier.Some? ==> after.barrierDocument == Canonical(workspace))
            && (!(readable && provider.barrier.Some?) ==> after.barrierDocument == provider.barrierDocument)
            && (!readable ==> !after.authenticated && frames == [])
            && (Canonical(workspace).None? ==> next == session)
            && (readable && after.barrier.Some? && after.authenticated && NothingOutstanding(after) ==> after.drained)
            && (after.pending, after.sent, after.encrypting, after.paused, after.barrier, after.stopped) ==
               (provider.pending, provider.sent, provider.encrypting, provider.paused, provider.barrier,
                provider.stopped)
  {
    hide Merge, Canonical;
  }

  // ---------- completion ----------

  /** A drained client refreshes once more when it hears the sequence of its barrier. */
  lemma SequenceHeardExactly(provider: Provider, barrierId: Id)
    ensures var after := SequenceArrives(provider, barrierId);
            && after == provider.(synchronizing := after.synchronizing)
            && after.synchronizing ==
               provider.synchronizing + (if provider.barrier == Some(barrierId) && provider.drained then 1 else 0)
  {
  }

  /** It confirms exactly if it is connected, has nothing outstanding or kept back and stands at the sequence. */
  lemma ConfirmationExactly(provider: Provider, session: Session, barrierId: Id, sequence: nat)
    ensures SequenceConfirmed(provider, session, barrierId, sequence) ==
            if !provider.stopped && provider.authenticated && session.currentSequence == sequence
               && provider.encrypting == [] && provider.pending == [] && provider.sent == {} && provider.paused == []
               && provider.synchronizing == 0
            then [ConfirmedFrame(barrierId, sequence)] else []
  {
  }

  // ---------- connections ----------

  /** An accepted connection is in use, and a barrier the server does not know is left. */
  lemma OnlineExactly(provider: Provider, serverBarrier: Option<Id>)
    ensures var after := Authenticated(provider, serverBarrier).0;
            && after.authenticated && after.stopped == provider.stopped && after.pending == provider.pending
            && after.synchronizing == provider.synchronizing
            && if provider.barrier.Some? && provider.barrier != serverBarrier then
                 && after.barrier == None && after.paused == [] && !after.drained && after.barrierDocument == None
                 && after.encrypting == provider.encrypting + provider.paused
               else
                 && after.barrier == provider.barrier && after.paused == provider.paused
                 && after.drained == provider.drained
                 && after.encrypting == provider.encrypting && after.barrierDocument == provider.barrierDocument
  {
    hide Flush;
    FlushTouchesSent(provider.(authenticated := true));
    var free := provider.(authenticated := true, barrier := None, drained := false, paused := [],
                          barrierDocument := None,
                          compacting := false, trigger := None);
    FlushTouchesSent(free);
    FlushTouchesSent(Flush(free).0);
    FlushTouchesSent(free.(encrypting := free.encrypting + provider.paused));
  }

  lemma FlushTouchesSent(provider: Provider)
    ensures Flush(provider).0 == provider.(sent := Flush(provider).0.sent)
  {
  }

  /** A lost connection forgets what was sent and asked, not what waits. */
  lemma ClosedExactly(provider: Provider)
    ensures var after := ConnectionClosed(provider);
            !after.authenticated && after.sent == {} && !after.compacting
            && after == provider.(authenticated := false, sent := {}, compacting := false)
  {
  }

  /** Disposal gives everything up. */
  lemma DisposalExactly(provider: Provider)
    ensures var after := Stop(provider);
            && after.stopped && !after.authenticated && after.barrierDocument == None
            && after.pending == [] && after.sent == {} && after.encrypting == [] && after.paused == []
  {
  }

  // ---------- gaps ----------

  /** A frame that leaves a gap is not lost: it starts a refresh, and a genuine answer from after it gives the session
      its operation and all before it. */
  lemma GapIsRepaired(provider: Provider, session: Session, envelope: UpdateEnvelope, sequence: nat,
                      workspace: EncryptedWorkspace, past: History, history: History, snapshots: map<Id, Snapshot>)
    requires provider.barrier.None? || !provider.authenticated
    requires sequence > session.currentSequence + 1
    requires past <= history && OwnSnapshot(workspace).Items <= snapshots.Items
    requires IsGenuine(workspace, session.documentId, past, OwnSnapshot(workspace))
        && SnapshotsKeepAll(OwnSnapshot(workspace), past)
    requires Anchored(session, session.documentId, history, snapshots)
    requires sequence <= |past| && past[sequence - 1] == envelope
    ensures var waiting := UpdateArrives(provider, session, envelope.epoch, envelope.clock, envelope, Some(sequence)).0;
            && waiting == provider.(synchronizing := provider.synchronizing + 1)
            && var (after, next, frames) := RefreshEnds(waiting, session, workspace);
               && after.synchronizing == provider.synchronizing && after.authenticated == provider.authenticated
               && next.currentSequence == |past| && envelope.operation in next.operations && HoldsPrefix(next, history)
  {
    var waiting := provider.(synchronizing := provider.synchronizing + 1);
    GapWaits(provider, session, envelope, sequence);
    MergeHoldsPrefix(session, workspace, session.documentId, past, history, snapshots);
    LoadHoldsPrefix(session.epoch, workspace, session.documentId, past, OwnSnapshot(workspace));
    SessionContract.CanonicalIsLoaded(session.epoch, workspace);
    RefreshExactly(waiting, session, workspace);
    hide IsGenuine, Anchored, SnapshotsKeepAll, Merge, Load, Canonical, UpdateArrives, RefreshEnds, ClocksAreExact;
    var merged := Merge(session, workspace).0;
    assert history[..|past|] == past;
    assert past[..|past|] == past;
    assert envelope.operation in Operations(history[..merged.currentSequence]);
  }

  lemma GapWaits(provider: Provider, session: Session, envelope: UpdateEnvelope, sequence: nat)
    requires provider.barrier.None? || !provider.authenticated
    requires sequence > session.currentSequence + 1
    ensures UpdateArrives(provider, session, envelope.epoch, envelope.clock, envelope, Some(sequence)).0 ==
            provider.(synchronizing := provider.synchronizing + 1)
  {
  }
}
