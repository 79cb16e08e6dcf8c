/** Whole runs of key ceremonies: who may activate, how often, and that no Content Key is ever lost
    (backend/src/e2ee/e2ee.service.ts). */
module CeremonyRuns {
  import opened Options
  import opened KeyCeremony

  // ---------- steps ----------

  /** One request as one transaction; users may be changed by the administration at any time. */
  datatype Request =
    | Recover(caller: Caller, id: Id, expectedGeneration: int, slot: Envelope, fingerprint: Fingerprint, now: Time)
    | Rotate(caller: Caller, id: Id, candidate: Candidate, now: Time)
    | Approval(caller: Caller, id: Id, fingerprint: Fingerprint, now: Time)
    | Activating(caller: Caller, id: Id, now: Time)
    | Aborting(caller: Caller, id: Id)
    | Presence(caller: Caller, id: Id, now: Time)
    | UserChange(id: Id, row: UserRow)

  function Committed(before: Tables, outcome: Outcome): Tables {
    if outcome.Done? then outcome.tables else before
  }

  function Next(tables: Tables, request: Request): Tables {
    match request
    case Recover(caller, id, expectedGeneration, slot, fingerprint, now) =>
      Committed(tables, StartRecovery(tables, caller, id, expectedGeneration, slot, fingerprint, now))
    case Rotate(caller, id, candidate, now) => Committed(tables, StartKeyCeremony(tables, caller, id, candidate, now))
    case Approval(caller, id, fingerprint, now) => Committed(tables, Approve(tables, caller, id, fingerprint, now))
    case Activating(caller, id, now) =>
      var activation := Activate(tables, caller, id, now);
      if activation.Reported? then activation.tables else tables
    case Aborting(caller, id) => Committed(tables, Abort(tables, caller, id))
    case Presence(caller, id, now) => Committed(tables, ConfirmPresence(tables, caller, id, now))
    case UserChange(id, row) => tables.(users := tables.users[id := row])
  }

  /** Generated ceremony ids do not repeat. */
  predicate FreshId(tables: Tables, request: Request) {
    request.Recover? || request.Rotate? ==> request.id !in tables.ceremonies
  }

  // ---------- the ceremony state machine ----------

  function ActivatedIds(ceremonies: map<Id, Ceremony>): set<Id> {
    set id | id in ceremonies && ceremonies[id].state.Activated?
  }

  predicate CeremonyIsSound(ceremony: Ceremony, generation: int) {
    && ceremony.candidate.expectedGeneration <= generation
    && (ceremony.fingerprint == OfCandidate(ceremony.candidate)
        || ceremony.fingerprint == OfSlot(ceremony.candidate.shared))
    && (ceremony.state.Pending? ==> ceremony.approver.None?)
    && (ceremony.state.Ready? || ceremony.state.Activated? ==>
          ceremony.approver.Some? && ceremony.approver.value.id != ceremony.initiator.id)
    && (ceremony.state.Activated? ==>
          && ceremony.candidate.expectedGeneration < generation
          && ceremony.activatedGeneration == Some(ceremony.candidate.expectedGeneration + 1))
  }

  ghost predicate AllSound(ceremonies: map<Id, Ceremony>, generation: int) {
    forall id | id in ceremonies ::
      CeremonyIsSound(ceremonies[id], generation) && 1 <= ceremonies[id].candidate.expectedGeneration
  }

  ghost predicate AtMostOneOpen(ceremonies: map<Id, Ceremony>) {
    forall left, right | left in ceremonies && right in ceremonies && left != right ::
      !(IsOpen(ceremonies[left]) && IsOpen(ceremonies[right]))
  }

  ghost predicate DistinctGenerations(ceremonies: map<Id, Ceremony>) {
    forall left, right | left in ceremonies && right in ceremonies && left != right
                         && ceremonies[left].state.Activated? && ceremonies[right].state.Activated? ::
      ceremonies[left].activatedGeneration != ceremonies[right].activatedGeneration
  }

  /** At most one ceremony is open, and the activated ones are numbered by the generations they led to. */
  ghost predicate Orderly(tables: Tables) {
    && tables.keys.generation == 1 + |ActivatedIds(tables.ceremonies)|
    && AllSound(tables.ceremonies, tables.keys.generation)
    && AtMostOneOpen(tables.ceremonies)
    && DistinctGenerations(tables.ceremonies)
  }

  lemma ClosedCeremonies(ceremonies: map<Id, Ceremony>, generation: int)
    requires AllSound(ceremonies, generation) && DistinctGenerations(ceremonies)
    ensures var closed := WithOpenAborted(ceremonies);
            && closed.Keys == ceremonies.Keys && ActivatedIds(closed) == ActivatedIds(ceremonies)
            && AllSound(closed, generation) && DistinctGenerations(closed)
            && forall id | id in closed :: !IsOpen(closed[id])
  {
  }

  lemma AddedCeremony(closed: map<Id, Ceremony>, generation: int, id: Id, ceremony: Ceremony)
    requires AllSound(closed, generation) && DistinctGenerations(closed) && id !in closed
    requires forall other | other in closed :: !IsOpen(closed[other])
    requires CeremonyIsSound(ceremony, generation) && ceremony.candidate.expectedGeneration >= 1
        && ceremony.state.Pending?
    ensures var after := closed[id := ceremony];
            AllSound(after, generation) && AtMostOneOpen(after) && DistinctGenerations(after)
                && ActivatedIds(after) == ActivatedIds(closed)
  {
    hide CeremonyIsSound;
  }

  lemma StartIsOrderly(tables: Tables, id: Id, ceremony: Ceremony, after: Tables)
    requires Orderly(tables) && id !in tables.ceremonies && ceremony.state.Pending? && ceremony.approver.None?
    requires ceremony.candidate.expectedGeneration == tables.keys.generation
    requires ceremony.fingerprint == OfCandidate(ceremony.candidate)
        || ceremony.fingerprint == OfSlot(ceremony.candidate.shared)
    requires after == tables.(ceremonies := WithOpenAborted(tables.ceremonies)[id := ceremony])
    ensures Orderly(after)
  {
    ClosedCeremonies(tables.ceremonies, tables.keys.generation);
    hide WithOpenAborted, AllSound, AtMostOneOpen, DistinctGenerations, ActivatedIds, IsOpen;
    AddedCeremony(WithOpenAborted(tables.ceremonies), tables.keys.generation, id, ceremony);
  }

  lemma ReplacedIsOrderly(tables: Tables, id: Id, ceremony: Ceremony, after: Tables)
    requires Orderly(tables) && id in tables.ceremonies && IsOpen(tables.ceremonies[id]) && !ceremony.state.Activated?
    requires ceremony.candidate == tables.ceremonies[id].candidate
    requires CeremonyIsSound(ceremony, tables.keys.generation)
    requires after == tables.(ceremonies := tables.ceremonies[id := ceremony])
    ensures Orderly(after)
  {
    assert ActivatedIds(after.ceremonies) == ActivatedIds(tables.ceremonies);
  }

  lemma ActivationIsOrderly(tables: Tables, id: Id, now: Time)
    requires Orderly(tables) && id in tables.ceremonies && tables.ceremonies[id].state.Ready?
    requires tables.ceremonies[id].candidate.expectedGeneration == tables.keys.generation
    ensures Orderly(ActivatedTables(tables, id, now))
  {
    hide ActivatedWrappers, SessionsEnded;
    var ceremonies, after := tables.ceremonies, ActivatedTables(tables, id, now).ceremonies;
    assert ActivatedIds(after) == ActivatedIds(ceremonies) + {id};
    ActivatedIsNumbered(ceremonies, after, id, tables.keys.generation);
  }

  lemma ActivatedIsNumbered(ceremonies: map<Id, Ceremony>, after: map<Id, Ceremony>, id: Id, generation: int)
    requires AllSound(ceremonies, generation) && DistinctGenerations(ceremonies) && AtMostOneOpen(ceremonies)
    requires id in ceremonies && ceremonies[id].state.Ready?
        && ceremonies[id].candidate.expectedGeneration == generation
    requires after == ceremonies[id := ceremonies[id].(state := Activated, activatedGeneration := Some(generation + 1))]
    ensures AllSound(after, generation + 1) && DistinctGenerations(after) && AtMostOneOpen(after)
  {
  }

  lemma StepIsOrderly(tables: Tables, request: Request)
    requires Orderly(tables) && FreshId(tables, request)
    ensures Orderly(Next(tables, request))
  {
    var after := Next(tables, request);
    hide Orderly, WithOpenAborted, ActivatedTables, CandidateRefusal;
    if after != tables {
      match request
      case Recover(caller, id, _, _, _, _) => StartIsOrderly(tables, id, after.ceremonies[id], after);
      case Rotate(caller, id, _, _) => StartIsOrderly(tables, id, after.ceremonies[id], after);
      case Approval(caller, id, _, _) =>
        SoundCeremony(tables, id); ReplacedIsOrderly(tables, id, after.ceremonies[id], after);
      case Activating(caller, id, now) => ActivationIsOrderly(tables, id, now);
      case Aborting(caller, id) =>
        SoundCeremony(tables, id); ReplacedIsOrderly(tables, id, after.ceremonies[id], after);
      case Presence(caller, id, _) =>
        SoundCeremony(tables, id); ReplacedIsOrderly(tables, id, after.ceremonies[id], after);
      case UserChange(id, row) => UsersDoNotMatter(tables, after);
    }
  }

  lemma SoundCeremony(tables: Tables, id: Id)
    requires Orderly(tables) && id in tables.ceremonies
    ensures CeremonyIsSound(tables.ceremonies[id], tables.keys.generation)
  {
  }

  lemma UsersDoNotMatter(tables: Tables, after: Tables)
    requires Orderly(tables) && after == tables.(users := after.users)
    ensures Orderly(after)
  {
  }

  /** Whenever a request activates a ceremony, two distinct eligible operators stand behind it, both
      confirmed within the last thirty seconds, one of their sessions asks, and nobody activated the
      generation before. */
  lemma ActivationIsAuthorized(tables: Tables, request: Request, id: Id)
    requires Orderly(tables) && FreshId(tables, request)
    requires id in Next(tables, request).ceremonies && Next(tables, request).ceremonies[id].state.Activated?
    requires id in tables.ceremonies ==> !tables.ceremonies[id].state.Activated?
    ensures id in tables.ceremonies && request.Activating? && request.id == id
    ensures var ceremony := tables.ceremonies[id];
            && ceremony.state.Ready? && ceremony.approver.Some?
            && ceremony.initiator.id != ceremony.approver.value.id
            && Eligible(tables.users, ceremony.initiator) && Eligible(tables.users, ceremony.approver.value)
            && ceremony.initiatorConfirmedAt.Some? && ceremony.initiatorConfirmedAt.value >= request.now - 30_000
            && ceremony.approverConfirmedAt.Some? && ceremony.approverConfirmedAt.value >= request.now - 30_000
            && (IsSession(ceremony.initiator, request.caller) || IsSession(ceremony.approver.value, request.caller))
            && ceremony.expiresAt > request.now && ceremony.candidate.expectedGeneration == tables.keys.generation
            && Next(tables, request).keys.generation == tables.keys.generation + 1
  {
    hide CandidateRefusal, RecoveryRefusal, ActivatedWrappers;
  }

  /** The second operator names the digest of the very candidate the ceremony holds. */
  lemma ApprovalNamesTheCandidate(tables: Tables, request: Request, id: Id)
    requires Orderly(tables) && FreshId(tables, request) && id in Next(tables, request).ceremonies
    requires Next(tables, request).ceremonies[id].state.Ready?
    requires id in tables.ceremonies ==> !tables.ceremonies[id].state.Ready?
    ensures id in tables.ceremonies && request.Approval? && request.id == id && request.caller.keyOperator
    ensures var (before, after) := (tables.ceremonies[id], Next(tables, request).ceremonies[id]);
            && after.candidate == before.candidate && after.approver == Some(request.caller.operator)
            && before.initiator.id != request.caller.operator.id && before.expiresAt > request.now
            && (request.fingerprint == OfCandidate(before.candidate)
                || request.fingerprint == OfSlot(before.candidate.shared))
  {
    SoundAfterAll(tables);
    hide Orderly, CandidateRefusal, ActivatedWrappers;
  }

  lemma SoundAfterAll(tables: Tables)
    requires Orderly(tables)
    ensures AllSound(tables.ceremonies, tables.keys.generation)
  {
  }

  /** Nobody confirms for somebody else: a confirmation time changes only to the time of a request of that very
      session, or with the approval of the approver. */
  lemma ConfirmationsAreOwn(tables: Tables, request: Request, id: Id)
    requires FreshId(tables, request) && id in tables.ceremonies
    ensures var (before, after) := (tables.ceremonies[id], Next(tables, request).ceremonies[id]);
            && after.initiator == before.initiator
            && (after.initiatorConfirmedAt != before.initiatorConfirmedAt ==>
                  request.Presence? && IsSession(before.initiator, request.caller)
                      && after.initiatorConfirmedAt == Some(request.now))
            && (after.approverConfirmedAt != before.approverConfirmedAt ==>
                  && (request.Presence? || request.Approval?) && after.approver.Some?
                  && IsSession(after.approver.value, request.caller) && after.approverConfirmedAt == Some(request.now))
            && (after.approver != before.approver ==>
                request.Approval? && after.approver == Some(request.caller.operator))
  {
    hide CandidateRefusal, ActivatedWrappers;
  }

  /** The only requests that end an open ceremony without activating it: one of its sessions aborts it, or a new
      ceremony passes its checks after this one has expired. */
  predicate Ends(tables: Tables, request: Request, ceremony: Ceremony, id: Id) {
    match request
    case Aborting(caller, target) => target == id && caller.keyOperator && IsParticipant(ceremony, caller)
    case Recover(caller, _, expectedGeneration, slot, fingerprint, now) =>
      caller.keyOperator && ceremony.expiresAt <= now
      && RecoveryRefusal(tables.keys, expectedGeneration, slot, fingerprint).None?
    case Rotate(caller, _, candidate, now) =>
      caller.keyOperator && ceremony.expiresAt <= now && tables.keys.generation == candidate.expectedGeneration
      && CandidateRefusal(candidate, tables.keys, tables.wrappers).None?
    case _ => false
  }

  lemma AbortedExactly(tables: Tables, request: Request, id: Id)
    requires Orderly(tables) && FreshId(tables, request) && id in tables.ceremonies && IsOpen(tables.ceremonies[id])
    ensures id in Next(tables, request).ceremonies
    ensures Next(tables, request).ceremonies[id].state.Aborted? <==> Ends(tables, request, tables.ceremonies[id], id)
  {
    hide CandidateRefusal, RecoveryRefusal, ActivatedWrappers, OperatorsEligible;
    if request.Recover? || request.Rotate? {
      BlockedByTheOpenOne(tables, id, request.now);
      hide Blocked, Orderly;
    }
  }

  lemma BlockedByTheOpenOne(tables: Tables, id: Id, now: Time)
    requires Orderly(tables) && id in tables.ceremonies && IsOpen(tables.ceremonies[id])
    ensures Blocked(tables.ceremonies, now) <==> tables.ceremonies[id].expiresAt > now
  {
  }

  /** In particular an operator who is not eligible any more stops approval and activation, and ends nothing. */
  lemma IneligibleChangesNothing(tables: Tables, request: Request)
    requires request.Approval? || request.Activating?
    requires request.id in tables.ceremonies && !OperatorsEligible(tables.users, tables.ceremonies[request.id])
    ensures Next(tables, request) == tables
  {
  }

  /** An activated ceremony never changes again, whatever is asked. */
  lemma ActivatedIsFinal(tables: Tables, request: Request, id: Id)
    requires Orderly(tables) && FreshId(tables, request)
    requires id in tables.ceremonies && tables.ceremonies[id].state.Activated?
    ensures id in Next(tables, request).ceremonies && Next(tables, request).ceremonies[id] == tables.ceremonies[id]
    ensures Next(tables, request).keys.generation >= tables.keys.generation
  {
    hide CandidateRefusal, RecoveryRefusal, ActivatedWrappers, OperatorsEligible;
  }

  /** Asking again reports the generation the ceremony led to and changes nothing. */
  lemma RepeatedActivation(tables: Tables, caller: Caller, id: Id, now: Time)
    requires Orderly(tables) && id in tables.ceremonies && tables.ceremonies[id].state.Activated? && caller.keyOperator
    ensures Activate(tables, caller, id, now) ==
            if IsParticipant(tables.ceremonies[id], caller)
            then Reported(tables, tables.ceremonies[id].candidate.expectedGeneration + 1) else Refused(Forbidden)
  {
  }

  /** Nothing in the key state or among the wrappers changes while the generation stays. */
  lemma SameGenerationSameKeys(tables: Tables, request: Request)
    requires Next(tables, request).keys.generation == tables.keys.generation
    ensures Next(tables, request).keys == tables.keys && Next(tables, request).wrappers == tables.wrappers
  {
  }

  // ---------- candidates keep fitting until they are activated ----------

  predicate IsRecovery(candidate: Candidate, keys: KeyState) {
    candidate == RecoveryCandidate(keys, candidate.shared)
    && RecoveryRefusal(keys, keys.generation, candidate.shared, OfSlot(candidate.shared)) == None
  }

  /** Validation would still accept the candidate. */
  predicate StillValid(candidate: Candidate, keys: KeyState, wrappers: Wrappers) {
    IsRecovery(candidate, keys) || CandidateRefusal(candidate, keys, wrappers) == None
  }

  ghost predicate CandidatesFit(tables: Tables) {
    forall id | id in tables.ceremonies && IsOpen(tables.ceremonies[id])
                && tables.ceremonies[id].candidate.expectedGeneration == tables.keys.generation ::
      StillValid(tables.ceremonies[id].candidate, tables.keys, tables.wrappers)
  }

  lemma CandidatesKeepFitting(tables: Tables, request: Request)
    requires Orderly(tables) && FreshId(tables, request) && CandidatesFit(tables)
    ensures CandidatesFit(Next(tables, request))
  {
    hide CandidateRefusal, ActivatedWrappers, StillValid;
    var after := Next(tables, request);
    if after.keys.generation == tables.keys.generation {
      SameGenerationSameKeys(tables, request);
      forall id | id in after.ceremonies && IsOpen(after.ceremonies[id])
        && after.ceremonies[id].candidate.expectedGeneration == after.keys.generation
        ensures StillValid(after.ceremonies[id].candidate, after.keys, after.wrappers)
      {
        if id in tables.ceremonies {
          assert after.ceremonies[id].candidate == tables.ceremonies[id].candidate && IsOpen(tables.ceremonies[id]);
        } else {
          StartedFits(tables, request);
        }
      }
    }
  }

  lemma StartedFits(tables: Tables, request: Request)
    requires (request.Recover? || request.Rotate?) && request.id !in tables.ceremonies
    requires request.id in Next(tables, request).ceremonies
    ensures StillValid(Next(tables, request).ceremonies[request.id].candidate, tables.keys, tables.wrappers)
  {
    hide CandidateRefusal;
  }

  // ---------- no content key is lost ----------

  predicate WrapsUnder(envelope: Envelope, keys: KeyState, orkId: Id, ockId: Id) {
    envelope.kind.Content? && envelope.organization == keys.organization
    && envelope.primaryKey == orkId && envelope.wrappedKey == ockId
  }

  /** Both slots open the Root Key: the team passphrase and the recovery secret lead to it. */
  predicate SlotsOpen(shared: Envelope, recovery: Envelope, organization: Id, orkId: Id) {
    && shared.kind.Shared? && shared.organization == organization && shared.wrappedKey == orkId
    && recovery.kind.Recovery? && recovery.organization == organization && recovery.wrappedKey == orkId
  }

  /** Both slots open the current Root Key, and every wrapper wraps the key it is listed for under the Root Key
      it is listed for. */
  ghost predicate WrappersAreSound(keys: KeyState, wrappers: Wrappers) {
    && SlotsOpen(keys.shared, keys.recovery, keys.organization, keys.orkId)
    && WrapsUnder(keys.content, keys, keys.orkId, keys.ockId)
    && forall pair | pair in wrappers :: WrapsUnder(wrappers[pair].wrapper, keys, pair.0, pair.1)
  }

  /** A map inside another of the same size is that map. */
  lemma SameSizeSameMap(small: map<Id, int>, large: map<Id, int>)
    requires |small| == |large| && forall k | k in small :: k in large && large[k] == small[k]
    ensures small == large
  {
    if exists k :: k in large && k !in small {
      var k :| k in large && k !in small;
      SubsetSize(small.Keys, large.Keys - {k});
    }
  }

  lemma SubsetSize(small: set<Id>, large: set<Id>)
    requires small <= large
    ensures |small| <= |large|
  {
    assert large == small + (large - small);
  }

  /** What validation leaves possible. */
  predicate KeepsKeys(candidate: Candidate, keys: KeyState) {
    && candidate.orkId == keys.orkId && candidate.ockId == keys.ockId
    && candidate.ockEpoch == keys.ockEpoch && candidate.content == keys.content
  }

  predicate HistoricalFits(historical: seq<Historical>, candidate: Candidate, keys: KeyState) {
    forall i | 0 <= i < |historical| ::
      WrapsUnder(historical[i].wrapper, keys, candidate.orkId, historical[i].ockId)
          && historical[i].ockId != candidate.ockId
  }

  predicate RotatesRoot(candidate: Candidate, keys: KeyState, wrappers: Wrappers) {
    && candidate.orkId != keys.orkId && WrapsUnder(candidate.content, keys, candidate.orkId, candidate.ockId)
    && HistoricalFits(candidate.historical, candidate, keys)
    && SuppliedHistorical(candidate.historical) == RequiredHistorical(keys, wrappers, candidate.ockId)
    && (if candidate.ockId == keys.ockId then candidate.ockEpoch == keys.ockEpoch
        else candidate.ockEpoch == keys.ockEpoch + 1)
  }

  lemma {:induction false} AcceptedHistorical(historical: seq<Historical>, candidate: Candidate, keys: KeyState)
    requires HistoricalRefusal(historical, candidate, keys) == None
    ensures HistoricalFits(historical, candidate, keys)
  {
    if historical != [] {
      AcceptedHistorical(historical[1..], candidate, keys);
      assert forall i | 1 <= i < |historical| :: historical[i] == historical[1..][i - 1];
    }
  }

  /** A valid candidate keeps both keys, or changes the Root Key and wraps every retained key again. */
  lemma ValidCandidate(candidate: Candidate, keys: KeyState, wrappers: Wrappers)
    requires StillValid(candidate, keys, wrappers)
    ensures KeepsKeys(candidate, keys) || RotatesRoot(candidate, keys, wrappers)
    ensures SlotsOpen(keys.shared, keys.recovery, keys.organization, keys.orkId) ==>
              SlotsOpen(candidate.shared, candidate.recovery, keys.organization, candidate.orkId)
  {
    if !IsRecovery(candidate, keys) {
      AcceptedHistorical(candidate.historical, candidate, keys);
      if candidate.orkId != keys.orkId {
        SameSizeSameMap(RequiredHistorical(keys, wrappers, candidate.ockId), SuppliedHistorical(candidate.historical));
      }
    }
  }

  /** First epoch listed for each key: the one an insert stores. */
  function ListedFirst(historical: seq<Historical>): map<Id, int> {
    if historical == [] then map[]
    else
      var earlier, last := ListedFirst(historical[..|historical| - 1]), historical[|historical| - 1];
      if last.ockId in earlier then earlier else earlier[last.ockId := last.ockEpoch]
  }

  lemma {:induction false} ListedKeys(historical: seq<Historical>)
    ensures ListedFirst(historical).Keys == SuppliedHistorical(historical).Keys
    ensures forall k :: k in SuppliedHistorical(historical) <==>
              exists i :: 0 <= i < |historical| && historical[i].ockId == k
  {
    if historical != [] {
      var front := historical[..|historical| - 1];
      ListedKeys(front);
      forall k
        ensures k in SuppliedHistorical(historical) <==> exists i :: 0 <= i < |historical| && historical[i].ockId == k
      {
        if k in SuppliedHistorical(front) {
          var i :| 0 <= i < |front| && front[i].ockId == k;
          assert historical[i].ockId == k;
        } else if exists i :: 0 <= i < |historical| && historical[i].ockId == k {
          var i :| 0 <= i < |historical| && historical[i].ockId == k;
          assert i < |front| ==> front[i].ockId == k;
        }
      }
    }
  }

  /** What the loop of inserts leaves in the table. */
  lemma {:induction false} UpsertedRows(wrappers: Wrappers, orkId: Id, historical: seq<Historical>)
    ensures var after, listed := UpsertAll(wrappers, orkId, historical), ListedFirst(historical);
            && (forall pair :: pair in after <==> pair in wrappers || (pair.0 == orkId && pair.1 in listed))
            && (forall pair | pair in wrappers :: after[pair].epoch == wrappers[pair].epoch)
            && (forall k | k in listed && (orkId, k) !in wrappers :: after[(orkId, k)].epoch == listed[k])
  {
    if historical != [] {
      UpsertedRows(wrappers, orkId, historical[..|historical| - 1]);
    }
  }

  lemma {:induction false} UpsertedWrappers(wrappers: Wrappers, historical: seq<Historical>, candidate: Candidate,
                                            keys: KeyState)
    requires forall pair | pair in wrappers :: WrapsUnder(wrappers[pair].wrapper, keys, pair.0, pair.1)
    requires HistoricalFits(historical, candidate, keys)
    ensures var after := UpsertAll(wrappers, candidate.orkId, historical);
            forall pair | pair in after :: WrapsUnder(after[pair].wrapper, keys, pair.0, pair.1)
  {
    if historical != [] {
      UpsertedWrappers(wrappers, historical[..|historical| - 1], candidate, keys);
    }
  }

  /** The table after a rotation: old rows keep their epoch, and the new Root Key gets a row for the
      Content Key and for every key that has to be kept. */
  ghost predicate RowsRotated(wrappers: Wrappers, after: Wrappers, orkId: Id, ockId: Id, ockEpoch: int,
                              required: map<Id, int>, listed: map<Id, int>)
  {
    && listed.Keys == required.Keys && ockId !in required
    && (forall pair :: pair in after <==>
          pair in wrappers || pair == (orkId, ockId) || (pair.0 == orkId && pair.1 in required))
    && (forall pair | pair in wrappers :: after[pair].epoch == wrappers[pair].epoch)
    && ((orkId, ockId) !in wrappers ==> after[(orkId, ockId)].epoch == ockEpoch)
    && (forall k | k in listed && (orkId, k) !in wrappers :: after[(orkId, k)].epoch == listed[k])
  }

  lemma RotatedRows(keys: KeyState, wrappers: Wrappers, candidate: Candidate, after: Wrappers)
    requires RotatesRoot(candidate, keys, wrappers) && after == ActivatedWrappers(keys, wrappers, candidate)
    ensures RowsRotated(wrappers, after, candidate.orkId, candidate.ockId, candidate.ockEpoch,
                        RequiredHistorical(keys, wrappers, candidate.ockId), ListedFirst(candidate.historical))
  {
    hide RequiredHistorical;
    var first := Upsert(wrappers, candidate.orkId, candidate.ockId, candidate.ockEpoch, candidate.content);
    UpsertedRows(first, candidate.orkId, candidate.historical);
    ListedKeys(candidate.historical);
    assert candidate.ockId !in SuppliedHistorical(candidate.historical);
  }

  /** The next wrapper set still holds every key of the last one. */
  lemma ActivationKeepsKeys(tables: Tables, ceremony: Ceremony, now: Time)
    requires StillValid(ceremony.candidate, tables.keys, tables.wrappers)
        && WrappersAreSound(tables.keys, tables.wrappers)
    ensures var keys := ActivatedKeys(tables.keys, ceremony, now);
            var wrappers := ActivatedWrappers(tables.keys, tables.wrappers, ceremony.candidate);
            && WrappersAreSound(keys, wrappers)
            && WrapperSet(tables.keys, tables.wrappers).Keys <= WrapperSet(keys, wrappers).Keys
  {
    hide CandidateRefusal;
    var candidate := ceremony.candidate;
    var keys := ActivatedKeys(tables.keys, ceremony, now);
    var wrappers := ActivatedWrappers(tables.keys, tables.wrappers, candidate);
    ValidCandidate(candidate, tables.keys, tables.wrappers);
    if RotatesRoot(candidate, tables.keys, tables.wrappers) {
      RotatedRows(tables.keys, tables.wrappers, candidate, wrappers);
      RotatedWrappers(tables.keys, tables.wrappers, candidate, wrappers);
      forall k | k in WrapperSet(tables.keys, tables.wrappers) ensures k in WrapperSet(keys, wrappers) {
        if k != candidate.ockId {
          assert k in RequiredHistorical(tables.keys, tables.wrappers, candidate.ockId);
          assert (candidate.orkId, k) in wrappers;
        }
      }
    }
  }

  lemma RotatedWrappers(keys: KeyState, wrappers: Wrappers, candidate: Candidate, after: Wrappers)
    requires WrappersAreSound(keys, wrappers)
    requires RotatesRoot(candidate, keys, wrappers) && after == ActivatedWrappers(keys, wrappers, candidate)
    ensures forall pair | pair in after :: WrapsUnder(after[pair].wrapper, keys, pair.0, pair.1)
  {
    var first := Upsert(wrappers, candidate.orkId, candidate.ockId, candidate.ockEpoch, candidate.content);
    UpsertedWrappers(first, candidate.historical, candidate, keys);
  }

  // ---------- epochs ----------

  /** A key has one epoch in every row, and the current key has the greatest. */
  ghost predicate EpochsAgree(keys: KeyState, wrappers: Wrappers) {
    && (forall left, right | left in wrappers && right in wrappers && left.1 == right.1 ::
          wrappers[left].epoch == wrappers[right].epoch)
    && forall pair | pair in wrappers ::
         if pair.1 == keys.ockId then wrappers[pair].epoch == keys.ockEpoch else wrappers[pair].epoch < keys.ockEpoch
  }

  /** A newly generated Content Key id has no row yet. */
  ghost predicate FreshKey(candidate: Candidate, keys: KeyState, wrappers: Wrappers) {
    candidate.ockId == keys.ockId || forall pair | pair in wrappers :: pair.1 != candidate.ockId
  }

  /** The epoch that is stored is the epoch that was validated: no key without a row under the new Root
      Key is listed first with another epoch. */
  ghost predicate ListsEpochs(candidate: Candidate, wrappers: Wrappers) {
    var listed, supplied := ListedFirst(candidate.historical), SuppliedHistorical(candidate.historical);
    forall k | k in listed && k in supplied && (candidate.orkId, k) !in wrappers :: listed[k] == supplied[k]
  }

  /** Every key of the one set is in the other, with its epoch. */
  ghost predicate EpochsKept(before: map<Id, Row>, after: map<Id, Row>) {
    forall k | k in before :: k in after && after[k].epoch == before[k].epoch
  }

  /** The Content Key is kept, or it is not one of those the set already shows. */
  predicate NewToSet(candidate: Candidate, keys: KeyState, wrappers: Wrappers) {
    candidate.ockId == keys.ockId || candidate.ockId !in WrapperSet(keys, wrappers)
  }

  /** Epochs of the retained keys survive a change of the Root Key if and only if the list of historical wrappers starts
      each key that is new to the Root Key with its validated epoch, and the Content Key is not an older one coming
      back. Validation checks neither. */
  lemma EpochsKeptExactly(keys: KeyState, wrappers: Wrappers, candidate: Candidate, after: KeyState, rows: Wrappers)
    requires RotatesRoot(candidate, keys, wrappers) && EpochsAgree(keys, wrappers)
    requires (after.orkId, after.ockId, after.ockEpoch) == (candidate.orkId, candidate.ockId, candidate.ockEpoch)
    requires rows == ActivatedWrappers(keys, wrappers, candidate)
    ensures EpochsKept(WrapperSet(keys, wrappers), WrapperSet(after, rows)) <==>
            ListsEpochs(candidate, wrappers) && NewToSet(candidate, keys, wrappers)
  {
    RotatedRows(keys, wrappers, candidate, rows);
    KeptKeys(keys, wrappers, candidate.ockId);
    hide ActivatedWrappers, ListedFirst, SuppliedHistorical, HistoricalFits, WrapperSet, RequiredHistorical;
    var listed, required := ListedFirst(candidate.historical), RequiredHistorical(keys, wrappers, candidate.ockId);
    if NewToSet(candidate, keys, wrappers) {
      forall k | k in WrapperSet(keys, wrappers)
        ensures k in WrapperSet(after, rows)
        ensures WrapperSet(after, rows)[k].epoch == WrapperSet(keys, wrappers)[k].epoch <==>
                (k in listed && (candidate.orkId, k) !in wrappers ==> listed[k] == required[k])
      {
        EpochOfKey(keys, wrappers, after, rows, required, listed, k);
      }
    } else {
      EpochInSet(keys, wrappers, candidate.ockId);
      CurrentInSet(after, rows);
    }
  }

  lemma CurrentInSet(keys: KeyState, wrappers: Wrappers)
    ensures keys.ockId in WrapperSet(keys, wrappers) && WrapperSet(keys, wrappers)[keys.ockId].epoch == keys.ockEpoch
  {
  }

  /** The keys that must be kept are the keys of the current set apart from the candidate's own. */
  lemma KeptKeys(keys: KeyState, wrappers: Wrappers, ockId: Id)
    ensures RequiredHistorical(keys, wrappers, ockId).Keys == WrapperSet(keys, wrappers).Keys - {ockId}
    ensures forall k | k in RequiredHistorical(keys, wrappers, ockId) ::
              RequiredHistorical(keys, wrappers, ockId)[k] == WrapperSet(keys, wrappers)[k].epoch
  {
  }

  lemma EpochOfKey(keys: KeyState, wrappers: Wrappers, after: KeyState, rows: Wrappers,
                   required: map<Id, int>, listed: map<Id, int>, k: Id)
    requires RowsRotated(wrappers, rows, after.orkId, after.ockId, after.ockEpoch, required, listed)
    requires EpochsAgree(keys, wrappers) && k in WrapperSet(keys, wrappers)
    requires required == RequiredHistorical(keys, wrappers, after.ockId)
    requires k != after.ockId || (after.ockId == keys.ockId && after.ockEpoch == keys.ockEpoch)
    ensures k in WrapperSet(after, rows)
    ensures WrapperSet(after, rows)[k].epoch == WrapperSet(keys, wrappers)[k].epoch <==>
            (k in listed && (after.orkId, k) !in wrappers ==> listed[k] == required[k])
  {
    KeptKeys(keys, wrappers, after.ockId);
    EpochInSet(keys, wrappers, k);
    hide RequiredHistorical;
    if k != after.ockId {
      assert (after.orkId, k) in rows;
      assert WrapperSet(after, rows)[k] == rows[(after.orkId, k)];
      if (after.orkId, k) in wrappers {
        assert wrappers[(after.orkId, k)].epoch == WrapperSet(keys, wrappers)[k].epoch;
      }
    }
  }

  /** The set shows each key with the epoch of its rows. */
  lemma EpochInSet(keys: KeyState, wrappers: Wrappers, k: Id)
    requires EpochsAgree(keys, wrappers) && k in WrapperSet(keys, wrappers)
    ensures forall pair | pair in wrappers && pair.1 == k :: wrappers[pair].epoch == WrapperSet(keys, wrappers)[k].epoch
    ensures k == keys.ockId || (keys.orkId, k) in wrappers
    ensures if k == keys.ockId then WrapperSet(keys, wrappers)[k].epoch == keys.ockEpoch
            else WrapperSet(keys, wrappers)[k].epoch < keys.ockEpoch
  {
    if k != keys.ockId {
      assert wrappers[(keys.orkId, k)] == WrapperSet(keys, wrappers)[k];
    }
  }

  /** The key is known with this epoch. */
  ghost predicate HasEpoch(keys: KeyState, wrappers: Wrappers, ockId: Id, epoch: int) {
    || (ockId == keys.ockId && epoch == keys.ockEpoch)
    || exists orkId :: (orkId, ockId) in wrappers && wrappers[(orkId, ockId)].epoch == epoch
  }

  lemma OneEpoch(keys: KeyState, wrappers: Wrappers, ockId: Id, left: int, right: int)
    requires EpochsAgree(keys, wrappers) && HasEpoch(keys, wrappers, ockId, left)
        && HasEpoch(keys, wrappers, ockId, right)
    ensures left == right
    ensures if ockId == keys.ockId then left == keys.ockEpoch else left < keys.ockEpoch
  {
  }

  /** After the rotation every key still has one epoch, and the current key the greatest. */
  lemma EpochsStayInOrder(keys: KeyState, wrappers: Wrappers, candidate: Candidate, after: KeyState, rows: Wrappers)
    requires RotatesRoot(candidate, keys, wrappers) && EpochsAgree(keys, wrappers)
    requires FreshKey(candidate, keys, wrappers) && ListsEpochs(candidate, wrappers)
    requires (after.orkId, after.ockId, after.ockEpoch) == (candidate.orkId, candidate.ockId, candidate.ockEpoch)
    requires rows == ActivatedWrappers(keys, wrappers, candidate)
    ensures EpochsAgree(after, rows)
  {
    RotatedRows(keys, wrappers, candidate, rows);
    hide ActivatedWrappers, ListedFirst, SuppliedHistorical, HistoricalFits, RequiredHistorical, RowsRotated, HasEpoch,
      EpochsAgree;
    var listed, required := ListedFirst(candidate.historical), RequiredHistorical(keys, wrappers, candidate.ockId);
    forall pair | pair in rows
      ensures if pair.1 == after.ockId then rows[pair].epoch == after.ockEpoch
              else HasEpoch(keys, wrappers, pair.1, rows[pair].epoch) && rows[pair].epoch < after.ockEpoch
    {
      RowHasItsEpoch(keys, wrappers, after, rows, required, listed, pair);
    }
    KnownEpochsAgree(keys, wrappers, after, rows);
  }

  /** A key still has one epoch in all rows, the current key the greatest and each key its old one, if and only if the
      new Content Key has no row yet and the list stores what it validates. */
  lemma EpochsStayInOrderExactly(keys: KeyState, wrappers: Wrappers, candidate: Candidate, after: KeyState,
                                 rows: Wrappers)
    requires RotatesRoot(candidate, keys, wrappers) && EpochsAgree(keys, wrappers)
    requires (after.orkId, after.ockId, after.ockEpoch) == (candidate.orkId, candidate.ockId, candidate.ockEpoch)
    requires rows == ActivatedWrappers(keys, wrappers, candidate)
    ensures EpochsAgree(after, rows) && EpochsKept(WrapperSet(keys, wrappers), WrapperSet(after, rows)) <==>
            FreshKey(candidate, keys, wrappers) && ListsEpochs(candidate, wrappers)
  {
    EpochsKeptExactly(keys, wrappers, candidate, after, rows);
    if FreshKey(candidate, keys, wrappers) && ListsEpochs(candidate, wrappers) {
      EpochsStayInOrder(keys, wrappers, candidate, after, rows);
      FreshIsNew(candidate, keys, wrappers);
    } else if EpochsAgree(after, rows) && ListsEpochs(candidate, wrappers) {
      RotatedRows(keys, wrappers, candidate, rows);
      hide ActivatedWrappers, ListedFirst, SuppliedHistorical, RequiredHistorical, WrapperSet;
      OldRowDisagrees(keys, wrappers, candidate, after, rows);
      assert false;
    }
  }

  lemma FreshIsNew(candidate: Candidate, keys: KeyState, wrappers: Wrappers)
    requires FreshKey(candidate, keys, wrappers)
    ensures NewToSet(candidate, keys, wrappers)
  {
    assert candidate.ockId in WrapperSet(keys, wrappers) ==>
             candidate.ockId == keys.ockId || (keys.orkId, candidate.ockId) in wrappers;
  }

  lemma OldRowDisagrees(keys: KeyState, wrappers: Wrappers, candidate: Candidate, after: KeyState, rows: Wrappers)
    requires RotatesRoot(candidate, keys, wrappers) && EpochsAgree(keys, wrappers)
        && !FreshKey(candidate, keys, wrappers)
    requires (after.ockId, after.ockEpoch) == (candidate.ockId, candidate.ockEpoch)
    requires forall pair | pair in wrappers :: pair in rows && rows[pair].epoch == wrappers[pair].epoch
    ensures !EpochsAgree(after, rows)
  {
    hide HistoricalFits, SuppliedHistorical, RequiredHistorical;
    var pair :| pair in wrappers && pair.1 == candidate.ockId;
    assert wrappers[pair].epoch < keys.ockEpoch < after.ockEpoch;
    assert rows[pair].epoch == wrappers[pair].epoch;
  }

  lemma KnownEpochsAgree(keys: KeyState, wrappers: Wrappers, after: KeyState, rows: Wrappers)
    requires EpochsAgree(keys, wrappers)
    requires forall pair | pair in rows ::
               if pair.1 == after.ockId then rows[pair].epoch == after.ockEpoch
               else HasEpoch(keys, wrappers, pair.1, rows[pair].epoch) && rows[pair].epoch < after.ockEpoch
    ensures EpochsAgree(after, rows)
  {
    hide HasEpoch;
    forall left, right | left in rows && right in rows && left.1 == right.1
      ensures rows[left].epoch == rows[right].epoch
    {
      if left.1 != after.ockId {
        OneEpoch(keys, wrappers, left.1, rows[left].epoch, rows[right].epoch);
      }
    }
  }

  lemma RowHasItsEpoch(keys: KeyState, wrappers: Wrappers, after: KeyState, rows: Wrappers,
                       required: map<Id, int>, listed: map<Id, int>, pair: (Id, Id))
    requires RowsRotated(wrappers, rows, after.orkId, after.ockId, after.ockEpoch, required, listed)
    requires EpochsAgree(keys, wrappers) && required == RequiredHistorical(keys, wrappers, after.ockId)
    requires forall k | k in listed && (after.orkId, k) !in wrappers :: listed[k] == required[k]
    requires if after.ockId == keys.ockId then after.ockEpoch == keys.ockEpoch
             else after.ockEpoch == keys.ockEpoch + 1 && forall other | other in wrappers :: other.1 != after.ockId
    requires pair in rows
    ensures if pair.1 == after.ockId then rows[pair].epoch == after.ockEpoch
            else HasEpoch(keys, wrappers, pair.1, rows[pair].epoch) && rows[pair].epoch < after.ockEpoch
  {
    if pair in wrappers {
      assert (pair.0, pair.1) in wrappers;
      OneEpoch(keys, wrappers, pair.1, rows[pair].epoch, rows[pair].epoch);
    } else if pair.1 != after.ockId {
      KeptKeys(keys, wrappers, after.ockId);
      hide RequiredHistorical;
      assert pair.1 in WrapperSet(keys, wrappers);
      KnownInSet(keys, wrappers, pair.1);
      OneEpoch(keys, wrappers, pair.1, rows[pair].epoch, rows[pair].epoch);
    }
  }

  lemma KnownInSet(keys: KeyState, wrappers: Wrappers, ockId: Id)
    requires ockId in WrapperSet(keys, wrappers)
    ensures HasEpoch(keys, wrappers, ockId, WrapperSet(keys, wrappers)[ockId].epoch)
  {
    assert ockId == keys.ockId || (keys.orkId, ockId) in wrappers;
  }

  /** A rotation whose list names the old key twice. */
  ghost predicate NamesKeyTwice(keys: KeyState, candidate: Candidate) {
    var wrapper := Envelope(Content, 0, 2, 10, 6);
    && keys == KeyState(0, 1, 1, 10, 1, Envelope(Shared, 0, 0, 1, 1), Envelope(Recovery, 0, 0, 1, 2),
                        Envelope(Content, 0, 1, 10, 3), 0, 0)
    && candidate == Candidate(
         RotateRootAndContentKey, PassphraseDisclosed, 1, 2, 20, 2, Envelope(Shared, 0, 0, 2, 4),
         Envelope(Recovery, 0, 0, 2, 5), Envelope(Content, 0, 2, 20, 7), 2,
         [Historical(10, 7, wrapper), Historical(10, 1, wrapper)])
  }

  lemma TwiceNamedIsSupplied(keys: KeyState, candidate: Candidate)
    requires NamesKeyTwice(keys, candidate)
    ensures SuppliedHistorical(candidate.historical) == map[10 := 1]
    ensures RequiredHistorical(keys, map[], 20) == map[10 := 1]
  {
    var historical := candidate.historical;
    assert historical[..1] == [historical[0]] && historical[..1][..0] == [];
    assert SuppliedHistorical(historical[..1]) == map[10 := 7];
  }

  lemma TwiceNamedFits(keys: KeyState, candidate: Candidate)
    requires NamesKeyTwice(keys, candidate)
    ensures HistoricalRefusal(candidate.historical, candidate, keys) == None
  {
    var historical := candidate.historical;
    assert historical[1..] == [historical[1]] && historical[1..][1..] == [];
    assert HistoricalRefusal(historical[1..], candidate, keys) == None;
  }

  lemma TwiceNamedMatches(keys: KeyState, candidate: Candidate)
    requires NamesKeyTwice(keys, candidate)
    ensures Approved(candidate.operation, candidate.reason)
    ensures ContextMatches(candidate, keys) && MatchesOperation(candidate, keys)
  {
    assert candidate.historical[0].ockId == keys.ockId;
  }

  lemma TwiceNamedIsAccepted(keys: KeyState, candidate: Candidate)
    requires NamesKeyTwice(keys, candidate)
    ensures CandidateRefusal(candidate, keys, map[]) == None
  {
    TwiceNamedIsSupplied(keys, candidate);
    TwiceNamedFits(keys, candidate);
    TwiceNamedMatches(keys, candidate);
    hide HistoricalRefusal, SuppliedHistorical, RequiredHistorical, Approved, ContextMatches, MatchesOperation;
  }

  lemma TwiceNamedIsListedFirst(keys: KeyState, candidate: Candidate)
    requires NamesKeyTwice(keys, candidate)
    ensures 10 in ListedFirst(candidate.historical) && ListedFirst(candidate.historical)[10] == 7
  {
    var historical := candidate.historical;
    assert historical[..1] == [historical[0]] && historical[..1][..0] == [];
    assert ListedFirst(historical[..1]) == map[10 := 7];
  }

  /** A list that names a key twice passes validation with its last epoch, and the first one is stored:
      the key of epoch 1 comes back with epoch 7. */
  lemma RepeatedKeyLosesItsEpoch() returns (keys: KeyState, candidate: Candidate)
    ensures CandidateRefusal(candidate, keys, map[]) == None && candidate.orkId != keys.orkId
    ensures WrapperSet(keys, map[])[keys.ockId].epoch == 1
    ensures (candidate.orkId, keys.ockId) in ActivatedWrappers(keys, map[], candidate)
    ensures ActivatedWrappers(keys, map[], candidate)[(candidate.orkId, keys.ockId)].epoch == 7
  {
    hide CandidateRefusal, ListedFirst, UpsertAll;
    var wrapper := Envelope(Content, 0, 2, 10, 6);
    keys := KeyState(0, 1, 1, 10, 1, Envelope(Shared, 0, 0, 1, 1), Envelope(Recovery, 0, 0, 1, 2),
                     Envelope(Content, 0, 1, 10, 3), 0, 0);
    candidate := Candidate(
      RotateRootAndContentKey, PassphraseDisclosed, 1, 2, 20, 2, Envelope(Shared, 0, 0, 2, 4),
      Envelope(Recovery, 0, 0, 2, 5), Envelope(Content, 0, 2, 20, 7), 2,
      [Historical(10, 7, wrapper), Historical(10, 1, wrapper)]);
    TwiceNamedIsAccepted(keys, candidate);
    TwiceNamedIsListedFirst(keys, candidate);
    UpsertedRows(Upsert(map[], 2, 20, 2, candidate.content), 2, candidate.historical);
  }

  // ---------- a key that comes back ----------

  const FIRST_KEYS := KeyState(0, 1, 1, 10, 1, Envelope(Shared, 0, 0, 1, 1), Envelope(Recovery, 0, 0, 1, 2),
                               Envelope(Content, 0, 1, 10, 3), 0, 0)

  const FIRST_ROTATION := Candidate(
    RotateRootAndContentKey, PassphraseDisclosed, 1, 2, 20, 2, Envelope(Shared, 0, 0, 2, 4),
    Envelope(Recovery, 0, 0, 2, 5), Envelope(Content, 0, 2, 20, 7), 2,
    [Historical(10, 1, Envelope(Content, 0, 2, 10, 6))])

  /** Root and Content Key change again, and the Content Key is the first one. */
  const SECOND_ROTATION := Candidate(
    RotateRootAndContentKey, PassphraseDisclosed, 2, 3, 10, 3, Envelope(Shared, 0, 0, 3, 8),
    Envelope(Recovery, 0, 0, 3, 9), Envelope(Content, 0, 3, 10, 11), 2,
    [Historical(20, 2, Envelope(Content, 0, 3, 20, 12))])

  function SecondKeys(): KeyState {
    ActivatedKeys(FIRST_KEYS,
                  NewCeremony(Caller(Operator(1, 1, 1), true), FIRST_ROTATION, OfCandidate(FIRST_ROTATION), 0), 0)
  }

  function SecondRows(): Wrappers {
    map[(2, 20) := Row(2, Envelope(Content, 0, 2, 20, 7)), (2, 10) := Row(1, Envelope(Content, 0, 2, 10, 6))]
  }

  /** A list of one entry. */
  lemma OneHistorical(entry: Historical)
    ensures SuppliedHistorical([entry]) == map[entry.ockId := entry.ockEpoch]
    ensures forall candidate, keys :: HistoricalRefusal([entry], candidate, keys) ==
              if !entry.wrapper.kind.Content? then Some(EnvelopeInvalid)
              else if entry.wrapper.organization != keys.organization || entry.wrapper.primaryKey != candidate.orkId
                      || entry.wrapper.wrappedKey != entry.ockId || entry.ockId == candidate.ockId
              then Some(ContextInvalid) else None
    ensures forall wrappers, orkId ::
              UpsertAll(wrappers, orkId, [entry]) == Upsert(wrappers, orkId, entry.ockId, entry.ockEpoch, entry.wrapper)
  {
    assert [entry][..0] == [] && [entry][1..] == [];
  }

  lemma FirstRotationMatches()
    ensures Approved(FIRST_ROTATION.operation, FIRST_ROTATION.reason)
    ensures ContextMatches(FIRST_ROTATION, FIRST_KEYS) && MatchesOperation(FIRST_ROTATION, FIRST_KEYS)
  {
    assert FIRST_ROTATION.historical[0].ockId == FIRST_KEYS.ockId;
  }

  lemma FirstRotationIsAccepted()
    ensures CandidateRefusal(FIRST_ROTATION, FIRST_KEYS, map[]) == None
  {
    FirstRotationMatches();
    OneHistorical(FIRST_ROTATION.historical[0]);
    hide SuppliedHistorical, HistoricalRefusal, UpsertAll, Approved, ContextMatches, MatchesOperation;
    assert RequiredHistorical(FIRST_KEYS, map[], 20) == map[10 := 1];
    hide RequiredHistorical;
  }

  lemma FirstRotationStores()
    ensures ActivatedWrappers(FIRST_KEYS, map[], FIRST_ROTATION) == SecondRows()
  {
    OneHistorical(FIRST_ROTATION.historical[0]);
    hide UpsertAll;
  }

  lemma SecondRotationIsAccepted()
    ensures CandidateRefusal(SECOND_ROTATION, SecondKeys(), SecondRows()) == None
  {
    var candidate := SECOND_ROTATION;
    OneHistorical(candidate.historical[0]);
    assert candidate.historical[0].ockId == SecondKeys().ockId;
    assert RequiredHistorical(SecondKeys(), SecondRows(), 10) == map[20 := 2];
    hide SuppliedHistorical, HistoricalRefusal, UpsertAll, RequiredHistorical;
  }

  /** From the keys of the setup two rotations are accepted, and the second brings the first Content Key back: it had
      epoch 1 and now has epoch 3. */
  lemma ReturningKeyLosesItsEpoch() returns (rows: Wrappers, after: KeyState, last: Wrappers)
    ensures CandidateRefusal(FIRST_ROTATION, FIRST_KEYS, map[]) == None
    ensures rows == ActivatedWrappers(FIRST_KEYS, map[], FIRST_ROTATION)
    ensures CandidateRefusal(SECOND_ROTATION, SecondKeys(), rows) == None && ListsEpochs(SECOND_ROTATION, rows)
    ensures last == ActivatedWrappers(SecondKeys(), rows, SECOND_ROTATION)
    ensures (after.orkId, after.ockId, after.ockEpoch) == (3, 10, 3)
    ensures 10 in WrapperSet(SecondKeys(), rows) && WrapperSet(SecondKeys(), rows)[10].epoch == 1
    ensures 10 in WrapperSet(after, last) && WrapperSet(after, last)[10].epoch == 3
  {
    FirstRotationIsAccepted();
    FirstRotationStores();
    SecondRotationIsAccepted();
    rows := SecondRows();
    last := ActivatedWrappers(SecondKeys(), rows, SECOND_ROTATION);
    after := SecondKeys().(orkId := 3, ockId := 10, ockEpoch := 3);
    OneHistorical(SECOND_ROTATION.historical[0]);
    hide CandidateRefusal, ActivatedWrappers;
    assert SECOND_ROTATION.historical[..0] == [];
    CurrentInSet(after, last);
  }
}
