/** The key tables changed in place by the ceremony service (backend/src/e2ee/e2ee.service.ts). Each method
    is one transaction: a failure leaves the tables as they were. */
module CeremonyService {
  import opened Options
  import Spec = KeyCeremony
  import opened KeyCeremony
  import opened CeremonyRuns

  class KeyTables {
    var keys: KeyState
    var ceremonies: map<Id, Ceremony>
    var wrappers: Wrappers
    var users: map<Id, UserRow>

    function View(): Tables
      reads this
    {
      Tables(keys, ceremonies, wrappers, users)
    }

    /** Takes an expired ceremony out of the way; an unexpired one blocks. */
    method ReleaseExpired(now: Time) returns (blocked: bool)
      requires AtMostOneOpen(ceremonies)
      modifies this`ceremonies
      ensures blocked <==> Blocked(old(ceremonies), now)
      ensures ceremonies == if blocked then old(ceremonies) else WithOpenAborted(old(ceremonies))
    {
      blocked := false;
      var open := OpenIds(ceremonies);
      if open == {} {
        NothingExpired(ceremonies);
      } else {
        var active :| active in open;
        blocked := ceremonies[active].expiresAt > now;
        OnlyOpen(ceremonies, active, now);
        if !blocked {
          ceremonies := ceremonies[active := ceremonies[active].(state := Aborted)];
        }
      }
    }

    method StartRecovery(caller: Caller, id: Id, expectedGeneration: int, slot: Envelope, fingerprint: Fingerprint,
                         now: Time)
      returns (error: Option<Error>)
      requires AtMostOneOpen(ceremonies) && id !in ceremonies
      modifies this`ceremonies
      ensures Spec.StartRecovery(old(View()), caller, id, expectedGeneration, slot, fingerprint, now) ==
              if error.None? then Done(View()) else Failed(error.value)
      ensures error.Some? ==> View() == old(View())
    {
      if !caller.keyOperator {
        return Some(Forbidden);
      }
      var saved := ceremonies;
      var blocked := ReleaseExpired(now);
      if blocked {
        return Some(Concurrent);
      }
      error := RecoveryRefusal(keys, expectedGeneration, slot, fingerprint);
      if error.Some? {
        ceremonies := saved;
        return;
      }
      ceremonies := ceremonies[id := NewCeremony(caller, RecoveryCandidate(keys, slot), fingerprint, now)];
    }

    /** Every historical wrapper must wrap its own key under the new Root Key. */
    method CheckHistorical(candidate: Candidate) returns (error: Option<Error>)
      ensures error == HistoricalRefusal(candidate.historical, candidate, keys)
    {
      var index := 0;
      while index < |candidate.historical|
        invariant index <= |candidate.historical|
        invariant HistoricalRefusal(candidate.historical, candidate, keys) ==
                  HistoricalRefusal(candidate.historical[index..], candidate, keys)
      {
        var entry := candidate.historical[index];
        assert candidate.historical[index..][1..] == candidate.historical[index + 1..];
        if !entry.wrapper.kind.Content? {
          return Some(EnvelopeInvalid);
        }
        if entry.wrapper.organization != keys.organization || entry.wrapper.primaryKey != candidate.orkId
           || entry.wrapper.wrappedKey != entry.ockId || entry.ockId == candidate.ockId {
          return Some(ContextInvalid);
        }
        index := index + 1;
      }
      return None;
    }

    method ValidateCandidate(candidate: Candidate) returns (error: Option<Error>)
      ensures error == CandidateRefusal(candidate, keys, wrappers)
    {
      if !Approved(candidate.operation, candidate.reason) {
        return Some(CandidateInvalid);
      }
      if !candidate.shared.kind.Shared? || !candidate.recovery.kind.Recovery? || !candidate.content.kind.Content? {
        return Some(EnvelopeInvalid);
      }
      if !ContextMatches(candidate, keys) {
        return Some(ContextInvalid);
      }
      if !MatchesOperation(candidate, keys) {
        return Some(CandidateInvalid);
      }
      error := CheckHistorical(candidate);
      if error.Some? || candidate.orkId == keys.orkId {
        return;
      }
      var required := RequiredHistorical(keys, wrappers, candidate.ockId);
      var supplied: map<Id, int> := map[];
      var index := 0;
      while index < |candidate.historical|
        invariant index <= |candidate.historical|
        invariant supplied == SuppliedHistorical(candidate.historical[..index])
      {
        var entry := candidate.historical[index];
        assert candidate.historical[..index + 1][..index] == candidate.historical[..index];
        supplied := supplied[entry.ockId := entry.ockEpoch];
        index := index + 1;
      }
      assert candidate.historical[..index] == candidate.historical;
      if |required| != |supplied| || exists ockId | ockId in required ::
           ockId !in supplied || supplied[ockId] != required[ockId] {
        return Some(HistoricalWrappersRequired);
      }
    }

    method StartKeyCeremony(caller: Caller, id: Id, candidate: Candidate, now: Time) returns (error: Option<Error>)
      requires AtMostOneOpen(ceremonies) && id !in ceremonies
      modifies this`ceremonies
      ensures Spec.StartKeyCeremony(old(View()), caller, id, candidate, now) ==
              if error.None? then Done(View()) else Failed(error.value)
      ensures error.Some? ==> View() == old(View())
    {
      if !caller.keyOperator {
        return Some(Forbidden);
      }
      var saved := ceremonies;
      var blocked := ReleaseExpired(now);
      if blocked {
        return Some(Concurrent);
      }
      if keys.generation != candidate.expectedGeneration {
        ceremonies := saved;
        return Some(KeyStateStale);
      }
      error := ValidateCandidate(candidate);
      if error.Some? {
        ceremonies := saved;
        return;
      }
      ceremonies := ceremonies[id := NewCeremony(caller, candidate, OfCandidate(candidate), now)];
    }

    /** An ineligible operator aborts the ceremony; the request that fails then takes this back. */
    method AssertOperatorsEligible(id: Id) returns (eligible: bool)
      requires id in ceremonies
      modifies this`ceremonies
      ensures eligible <==> OperatorsEligible(users, old(ceremonies)[id])
      ensures ceremonies ==
              if eligible then old(ceremonies) else old(ceremonies)[id := old(ceremonies)[id].(state := Aborted)]
    {
      eligible := OperatorsEligible(users, ceremonies[id]);
      if !eligible {
        ceremonies := ceremonies[id := ceremonies[id].(state := Aborted)];
      }
    }

    method ApproveRecovery(caller: Caller, id: Id, fingerprint: Fingerprint, now: Time) returns (error: Option<Error>)
      modifies this`ceremonies
      ensures Spec.Approve(old(View()), caller, id, fingerprint, now) ==
              if error.None? then Done(View()) else Failed(error.value)
      ensures error.Some? ==> View() == old(View())
    {
      if !caller.keyOperator {
        return Some(Forbidden);
      }
      if id !in ceremonies {
        return Some(NotFound);
      }
      var ceremony := ceremonies[id];
      if ceremony.expiresAt <= now {
        return Some(Expired);
      }
      if ceremony.state != Pending {
        return Some(StateInvalid);
      }
      if ceremony.initiator.id == caller.operator.id {
        return Some(DistinctOperatorRequired);
      }
      var saved := ceremonies;
      var eligible := AssertOperatorsEligible(id);
      if !eligible {
        ceremonies := saved;
        return Some(OperatorIneligible);
      }
      if fingerprint.NotADigest? {
        return Some(CandidateInvalid);
      }
      if ceremony.fingerprint != fingerprint {
        return Some(CandidateMismatch);
      }
      ceremony := ceremony.(approver := Some(caller.operator), approverConfirmedAt := Some(now));
      ceremony := ceremony.(state := Ready);
      ceremonies := ceremonies[id := ceremony];
      return None;
    }

    method InsertWrapper(orkId: Id, ockId: Id, epoch: int, wrapper: Envelope)
      modifies this`wrappers
      ensures wrappers == Upsert(old(wrappers), orkId, ockId, epoch, wrapper)
    {
      if (orkId, ockId) in wrappers {
        wrappers := wrappers[(orkId, ockId) := wrappers[(orkId, ockId)].(wrapper := wrapper)];
      } else {
        wrappers := wrappers[(orkId, ockId) := Row(epoch, wrapper)];
      }
    }

    /** The current wrapper and every historical one under the new keys. */
    method StoreWrappers(candidate: Candidate)
      modifies this`wrappers
      ensures wrappers == UpsertAll(Upsert(old(wrappers), candidate.orkId, candidate.ockId, candidate.ockEpoch,
                                           candidate.content),
                                    candidate.orkId, candidate.historical)
    {
      InsertWrapper(candidate.orkId, candidate.ockId, candidate.ockEpoch, candidate.content);
      ghost var first := wrappers;
      var index := 0;
      while index < |candidate.historical|
        invariant index <= |candidate.historical|
        invariant wrappers == UpsertAll(first, candidate.orkId, candidate.historical[..index])
      {
        var entry := candidate.historical[index];
        assert candidate.historical[..index + 1][..index] == candidate.historical[..index];
        InsertWrapper(candidate.orkId, entry.ockId, entry.ockEpoch, entry.wrapper);
        index := index + 1;
      }
      assert candidate.historical[..index] == candidate.historical;
    }

    method ActivateRecovery(caller: Caller, id: Id, now: Time) returns (error: Option<Error>, generation: int)
      modifies this
      ensures Spec.Activate(old(View()), caller, id, now) ==
              if error.None? then Reported(View(), generation) else Refused(error.value)
      ensures error.Some? ==> View() == old(View())
    {
      error, generation := None, 0;
      if !caller.keyOperator {
        return Some(Forbidden), 0;
      }
      if id !in ceremonies {
        return Some(NotFound), 0;
      }
      var ceremony := ceremonies[id];
      if IsRepeat(ceremony) {
        if !IsParticipant(ceremony, caller) {
          return Some(Forbidden), 0;
        }
        return None, ceremony.activatedGeneration.value;
      }
      if ceremony.expiresAt <= now {
        return Some(Expired), 0;
      }
      if ceremony.state != Ready || ceremony.approver.None? {
        return Some(StateInvalid), 0;
      }
      if !IsParticipant(ceremony, caller) {
        return Some(Forbidden), 0;
      }
      var saved := ceremonies;
      var eligible := AssertOperatorsEligible(id);
      if !eligible {
        ceremonies := saved;
        return Some(OperatorIneligible), 0;
      }
      if !RecentlyConfirmed(ceremony.initiatorConfirmedAt, now) || !RecentlyConfirmed(ceremony.approverConfirmedAt, now) {
        return Some(ConfirmationRequired), 0;
      }
      if keys.generation != ceremony.candidate.expectedGeneration {
        return Some(CompareAndSwapLost), 0;
      }
      var candidate, previousOrkId, previousOckId := ceremony.candidate, keys.orkId, keys.ockId;
      keys := keys.(shared := candidate.shared, recovery := candidate.recovery, content := candidate.content);
      keys := keys.(orkId := candidate.orkId, ockId := candidate.ockId, ockEpoch := candidate.ockEpoch);
      if candidate.custodyCopies == 2 {
        keys := keys.(custodyBy := ceremony.initiator.id, custodyAt := now);
      }
      keys := keys.(generation := keys.generation + 1);
      if keys.orkId != previousOrkId || keys.ockId != previousOckId {
        StoreWrappers(candidate);
      }
      users := SessionsEnded(users);
      ceremonies := ceremonies[id := ceremony.(state := Activated, activatedGeneration := Some(keys.generation))];
      generation := keys.generation;
    }

    method AbortRecovery(caller: Caller, id: Id) returns (error: Option<Error>)
      modifies this`ceremonies
      ensures Spec.Abort(old(View()), caller, id) == if error.None? then Done(View()) else Failed(error.value)
      ensures error.Some? ==> View() == old(View())
    {
      if !caller.keyOperator {
        return Some(Forbidden);
      }
      if id !in ceremonies {
        return Some(NotFound);
      }
      if ceremonies[id].state == Activated || ceremonies[id].state == Aborted {
        return None;
      }
      if !IsParticipant(ceremonies[id], caller) {
        return Some(Forbidden);
      }
      ceremonies := ceremonies[id := ceremonies[id].(state := Aborted)];
      return None;
    }

    method ConfirmRecoveryPresence(caller: Caller, id: Id, now: Time) returns (error: Option<Error>)
      modifies this`ceremonies
      ensures Spec.ConfirmPresence(old(View()), caller, id, now) ==
          if error.None? then Done(View()) else Failed(error.value)
      ensures error.Some? ==> View() == old(View())
    {
      if !caller.keyOperator {
        return Some(Forbidden);
      }
      if id !in ceremonies {
        return Some(NotFound);
      }
      var ceremony := ceremonies[id];
      if ceremony.expiresAt <= now {
        return Some(Expired);
      }
      if ceremony.state == Pending {
        if !IsSession(ceremony.initiator, caller) {
          return Some(Forbidden);
        }
        ceremonies := ceremonies[id := ceremony.(initiatorConfirmedAt := Some(now))];
      } else if ceremony.state == Ready {
        if IsSession(ceremony.initiator, caller) {
          ceremonies := ceremonies[id := ceremony.(initiatorConfirmedAt := Some(now))];
        } else if ceremony.approver.Some? && IsSession(ceremony.approver.value, caller) {
          ceremonies := ceremonies[id := ceremony.(approverConfirmedAt := Some(now))];
        } else {
          return Some(Forbidden);
        }
      }
      return None;
    }
  }

  lemma NothingExpired(ceremonies: map<Id, Ceremony>)
    requires OpenIds(ceremonies) == {}
    ensures WithOpenAborted(ceremonies) == ceremonies && forall now :: !Blocked(ceremonies, now)
  {
    forall id | id in ceremonies ensures !IsOpen(ceremonies[id]) {
      assert id !in OpenIds(ceremonies);
    }
  }

  lemma OnlyOpen(ceremonies: map<Id, Ceremony>, active: Id, now: Time)
    requires AtMostOneOpen(ceremonies) && active in OpenIds(ceremonies)
    ensures Blocked(ceremonies, now) <==> ceremonies[active].expiresAt > now
    ensures WithOpenAborted(ceremonies) == ceremonies[active := ceremonies[active].(state := Aborted)]
  {
  }
}
