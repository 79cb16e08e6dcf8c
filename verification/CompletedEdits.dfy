/** What a completed Meeting holds: every edit that a participant had made when it confirmed
    (backend/src/meetings/meeting-compaction-coordinator.ts, backend/src/meetings/meetings.service.ts,
    frontend/src/e2ee/meeting-collaboration.ts). */
module CompletedEdits {
  import opened Options
  import opened DocumentLog
  import opened DocumentHistory
  import DocumentRuns
  import Queue = CollaborationQueue
  import opened StopAndWait
  import Delivery = DeliveryRuns
  import Barriers = CompactionBarriers
  import Coordination = BarrierRuns
  import Safety = BarrierSafety
  import Quiescence = CompletionQuiescence
  import Agreement = CompletionAgreement
  import Completing = MeetingCompletion

  // ---------- one client ----------

  /** A client that sends a confirmation after some actions and goes on with others. */
  datatype Client = Client(start: System, before: seq<Action>, after: seq<Action>)

  ghost predicate Runs(client: Client) {
    && InStep(client.start) && Conserved(client.start) && Delivery.LegalRun(client.start, client.before)
    && Delivery.LegalRun(Delivery.After(client.start, client.before), client.after)
  }

  /** The client when it confirms. */
  ghost function Confirming(client: Client): System
    requires Runs(client)
  {
    Delivery.After(client.start, client.before)
  }

  ghost predicate Confirmed(client: Client, barrierId: Id, sequence: nat) {
    Runs(client) && Queue.SequenceConfirmed(Confirming(client).provider, Confirming(client).session, barrierId,
                                            sequence) != []
  }

  /** The history at the end. */
  ghost function FinalHistory(client: Client): History
    requires Runs(client)
  {
    Delivery.After(Confirming(client), client.after).history
  }

  lemma StepKeepsHistory(system: System, action: Action)
    requires Legal(system, action)
    ensures system.history <= Next(system, action).history
    ensures Next(system, action).session.epoch == system.session.epoch
  {
    hide Queue.LocalUpdate, Queue.FlushAndReport, Queue.ReportDrained, Queue.Authenticated, Queue.ReleaseBarrier,
      Queue.Flush, Queue.RequestCompaction, Sent, Queue.WithoutFirst;
  }

  lemma {:induction false} HistoryGrows(system: System, actions: seq<Action>)
    requires Delivery.LegalRun(system, actions)
    ensures system.history <= Delivery.After(system, actions).history
    decreases |actions|
  {
    if actions != [] {
      hide Next, Legal, IsPast;
      StepKeepsHistory(system, actions[0]);
      HistoryGrows(Next(system, actions[0]), actions[1..]);
    }
  }

  /** The history has the edit under the author's epoch. */
  ghost predicate Holds(history: History, epoch: Id, operation: Id) {
    exists k :: 0 <= k < |history| && history[k].epoch == epoch && history[k].operation == operation
  }

  lemma {:induction false} OwnIsHeld(history: History, start: nat, epoch: Id, operation: Id)
    requires operation in OperationsOf(Own(history, start, epoch))
    ensures Holds(history, epoch, operation)
  {
    var i :| 0 <= i < |Own(history, start, epoch)| && Own(history, start, epoch)[i].operation == operation;
    var at := OwnStandsAt(history, start, epoch, i);
    OwnIsByAuthor(history, start, epoch, i);
    assert history[at].epoch == epoch && history[at].operation == operation;
  }

  lemma {:induction false} OwnIsByAuthor(history: History, start: nat, epoch: Id, i: nat)
    requires i < |Own(history, start, epoch)|
    ensures Own(history, start, epoch)[i].epoch == epoch
  {
    if i < |Own(history[..|history| - 1], start, epoch)| {
      OwnIsByAuthor(history[..|history| - 1], start, epoch, i);
    }
  }

  /** A client that has confirmed a sequence finds every edit it had made by then in the history, for ever, but for
      those whose encryption failed. */
  lemma ConfirmedEditsStay(client: Client, barrierId: Id, sequence: nat, operation: Id)
    requires Confirmed(client, barrierId, sequence) && operation in Confirming(client).edits
    ensures operation in Confirming(client).dropped
            || Holds(FinalHistory(client), Confirming(client).session.epoch, operation)
  {
    var now := Confirming(client);
    Delivery.ConfirmedIsSettled(client.start, client.before, barrierId, sequence);
    HistoryGrows(now, client.after);
    hide Runs, FinalHistory, Own;
    assert multiset(now.edits)[operation] > 0;
    if operation !in now.dropped {
      assert operation in Delivery.Arrived(now);
      OwnIsHeld(now.history, now.start, now.session.epoch, operation);
      var k :| 0 <= k < |now.history| && now.history[k].epoch == now.session.epoch && now.history[k].operation == operation;
      assert FinalHistory(client)[k] == now.history[k];
    }
  }

  // ---------- all participants ----------

  /** Each confirmation of the barrier was sent by a client of that participant, and all clients see the same history
      in the end. */
  ghost predicate Sends(clients: map<nat, Client>, events: seq<Coordination.Event>, d: Id, barrierId: Id,
                        history: History)
  {
    forall i | 0 <= i < |events| && events[i].Confirms? && events[i].documentId == d && events[i].barrierId == barrierId ::
      && i in clients && Confirmed(clients[i], barrierId, events[i].sequence) && FinalHistory(clients[i]) == history
  }

  /** The client with the given confirmation has all its edits in the history. */
  ghost predicate AllHeld(client: Client, history: History)
    requires Runs(client)
  {
    forall operation | operation in Confirming(client).edits && operation !in Confirming(client).dropped ::
      Holds(history, Confirming(client).session.epoch, operation)
  }

  /** When a Meeting is completed under the barrier of a coordinator run, each participant of the barrier has sent a
      confirmation for it, and whatever it had edited by then is in the history that is final from now on, but for edits
      whose encryption failed. */
  lemma CompletedHoldsEdits(homes: Coordination.Homes, events: seq<Coordination.Event>, d: Id,
                            clients: map<nat, Client>, history: History, site: Completing.Site,
                            submission: Completing.Submission, after: Completing.Site, participant: Id)
    returns (i: nat)
    requires Coordination.Injective(homes) && Safety.LegalRun(homes, Quiescence.START, events)
    requires var state := Safety.After(homes, Quiescence.START, events).state;
             && d in state.barriers && state.barriers[d].intention.Completion? && Barriers.IsLocked(state.barriers[d])
             && participant in state.barriers[d].participants
             && Sends(clients, events, d, state.barriers[d].id, history)
    requires Completing.CompletedBy(site, d, submission, true) == Completing.Done(after)
    requires submission.meetingId in site.documents && LogShape(site.documents[submission.meetingId], history)
    ensures i < |events| && events[i].Confirms? && events[i].documentId == d && events[i].participant == participant
    ensures i in clients && Runs(clients[i]) && AllHeld(clients[i], history)
    ensures Completing.IsFinal(after, submission.meetingId) && |history| == submission.sequence
  {
    Completing.CompletionIsFinal(site, d, submission, true, after);
    DocumentRuns.TailFits(site.documents[submission.meetingId], history);
    i := ParticipantHasConfirmed(homes, events, d, participant);
    hide LogShape, Completing.CompletedBy, Safety.After, Safety.LegalRun;
    var barrierId, client := events[i].barrierId, clients[i];
    forall operation | operation in Confirming(client).edits && operation !in Confirming(client).dropped
      ensures Holds(history, Confirming(client).session.epoch, operation)
    {
      ConfirmedEditsStay(client, barrierId, events[i].sequence, operation);
    }
  }

  lemma ParticipantHasConfirmed(homes: Coordination.Homes, events: seq<Coordination.Event>, d: Id, participant: Id)
    returns (i: nat)
    requires Coordination.Injective(homes) && Safety.LegalRun(homes, Quiescence.START, events)
    requires var state := Safety.After(homes, Quiescence.START, events).state;
             && d in state.barriers && state.barriers[d].intention.Completion? && Barriers.IsLocked(state.barriers[d])
             && participant in state.barriers[d].participants
    ensures i < |events|
    ensures Agreement.IsConfirmation(events[i], d, Safety.After(homes, Quiescence.START, events).state.barriers[d].id,
                                     participant)
  {
    Quiescence.StartIsQuiet(homes);
    Safety.RunsAreSound(homes, Quiescence.START, events);
    hide Safety.After, Safety.LegalRun;
    var state := Safety.After(homes, Quiescence.START, events).state;
    Coordination.FoundIsSound(homes, state, d);
    Agreement.ConfirmedHasSent(homes, Quiescence.START, events, d, participant);
    i :| 0 <= i < |events| && Agreement.IsConfirmation(events[i], d, state.barriers[d].id, participant);
  }
}
