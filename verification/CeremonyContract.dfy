/** What each request of a key ceremony needs and does: which candidates are accepted, who may approve and activate
    them, and what an activation leaves in the tables (backend/src/e2ee/e2ee.service.ts). */
module CeremonyContract {
  import opened Options
  import opened KeyCeremony
  import opened CeremonyRuns
  import KeyHistory

  // ---------- candidates ----------

  /** A part of the key state that a ceremony may replace. */
  datatype Part = PassphraseSlot | RecoverySlot | Wrapper | RootKey | ContentKey

  function Changes(candidate: Candidate, keys: KeyState): set<Part> {
    (if candidate.shared != keys.shared then {PassphraseSlot} else {})
    + (if candidate.recovery != keys.recovery then {RecoverySlot} else {})
    + (if candidate.content != keys.content then {Wrapper} else {})
    + (if candidate.orkId != keys.orkId then {RootKey} else {})
    + (if (candidate.ockId, candidate.ockEpoch) != (keys.ockId, keys.ockEpoch) then {ContentKey} else {})
  }

  /** What each operation must replace, and nothing else. */
  function Replaces(operation: Operation): set<Part> {
    match operation
    case LostPassphrase => {PassphraseSlot}
    case ChangePassphrase => {PassphraseSlot}
    case ReplaceRecoverySecret => {RecoverySlot}
    case RotateRootKey => {PassphraseSlot, RecoverySlot, Wrapper, RootKey}
    case RotateRootAndContentKey => {PassphraseSlot, RecoverySlot, Wrapper, RootKey, ContentKey}
  }

  /** The reasons each operation may be asked for. */
  function Reasons(operation: Operation): set<Reason> {
    match operation
    case LostPassphrase => {PassphraseLost}
    case ChangePassphrase => {TeamMemberLeft, RoutineAccessChange}
    case ReplaceRecoverySecret => {RecoverySecretLost, RoutineCustodyChange}
    case RotateRootKey => {PlannedRootRotation}
    case RotateRootAndContentKey => {PassphraseDisclosed, RecoverySecretDisclosed, EncryptionKeyDisclosed}
  }

  /** Two new custody copies belong to the operations that are asked for with a new secret of their own. */
  function Copies(operation: Operation): nat {
    if operation.ReplaceRecoverySecret? || operation.RotateRootAndContentKey? then 2 else 0
  }

  /** The current set holds the key with this epoch. */
  predicate Retains(keys: KeyState, wrappers: Wrappers, ockId: Id, epoch: int) {
    if ockId == keys.ockId then epoch == keys.ockEpoch
    else (keys.orkId, ockId) in wrappers && wrappers[(keys.orkId, ockId)].epoch == epoch
  }

  /** The last entry of the list for the key. */
  ghost predicate ListsLast(historical: seq<Historical>, ockId: Id, epoch: int, wrapper: Envelope) {
    exists i :: 0 <= i < |historical| && IsLast(historical, i) && historical[i] == Historical(ockId, epoch, wrapper)
  }

  ghost predicate Lists(historical: seq<Historical>, ockId: Id, epoch: int) {
    exists wrapper :: ListsLast(historical, ockId, epoch, wrapper)
  }

  predicate IsLast(historical: seq<Historical>, i: nat)
    requires i < |historical|
  {
    forall j | i < j < |historical| :: historical[j].ockId != historical[i].ockId
  }

  /** The list names exactly the keys of the current set apart from the candidate's own, with their epochs. */
  ghost predicate ListsRetained(candidate: Candidate, keys: KeyState, wrappers: Wrappers) {
    forall ockId, epoch ::
      Lists(candidate.historical, ockId, epoch) <==> ockId != candidate.ockId && Retains(keys, wrappers, ockId, epoch)
  }

  predicate SealsKeys(candidate: Candidate, keys: KeyState) {
    && SlotsOpen(candidate.shared, candidate.recovery, keys.organization, candidate.orkId)
    && WrapsUnder(candidate.content, keys, candidate.orkId, candidate.ockId)
    && HistoricalFits(candidate.historical, candidate, keys)
  }

  lemma {:induction false} FittingHistorical(historical: seq<Historical>, candidate: Candidate, keys: KeyState)
    ensures HistoricalRefusal(historical, candidate, keys) == None <==> HistoricalFits(historical, candidate, keys)
  {
    if historical != [] {
      FittingHistorical(historical[1..], candidate, keys);
      assert forall i | 1 <= i < |historical| :: historical[i] == historical[1..][i - 1];
      assert HistoricalFits(historical, candidate, keys) <==>
             WrapsUnder(historical[0].wrapper, keys, candidate.orkId, historical[0].ockId)
             && historical[0].ockId != candidate.ockId && HistoricalFits(historical[1..], candidate, keys);
    }
  }

  /** Building a map keeps the last entry of each key. */
  lemma {:induction false} SuppliedIsLast(historical: seq<Historical>, ockId: Id, epoch: int)
    ensures Holds(SuppliedHistorical(historical), ockId, epoch) <==> Lists(historical, ockId, epoch)
  {
    if historical != [] {
      SuppliedIsLast(historical[..|historical| - 1], ockId, epoch);
      LastOfMore(historical, ockId, epoch);
    }
  }

  lemma LastOfMore(historical: seq<Historical>, ockId: Id, epoch: int)
    requires historical != []
    ensures var front, last := historical[..|historical| - 1], historical[|historical| - 1];
            forall wrapper :: ListsLast(historical, ockId, epoch, wrapper) <==>
              if last.ockId == ockId then last == Historical(ockId, epoch, wrapper)
              else ListsLast(front, ockId, epoch, wrapper)
  {
    var n, front := |historical| - 1, historical[..|historical| - 1];
    forall i | 0 <= i < n ensures IsLast(historical, i) <==> IsLast(front, i) && historical[n].ockId != front[i].ockId {
      assert forall j | i < j < n :: historical[j] == front[j];
    }
    assert IsLast(historical, n);
    forall wrapper
      ensures ListsLast(historical, ockId, epoch, wrapper) <==>
              if historical[n].ockId == ockId then historical[n] == Historical(ockId, epoch, wrapper)
              else ListsLast(front, ockId, epoch, wrapper)
    {
      if ListsLast(historical, ockId, epoch, wrapper) {
        var i :| 0 <= i < |historical| && IsLast(historical, i) && historical[i] == Historical(ockId, epoch, wrapper);
        assert i < n ==> front[i] == historical[i];
      }
      if historical[n].ockId != ockId && ListsLast(front, ockId, epoch, wrapper) {
        var i :| 0 <= i < |front| && IsLast(front, i) && front[i] == Historical(ockId, epoch, wrapper);
        assert historical[i] == front[i];
      }
    }
  }

  predicate Holds(epochs: map<Id, int>, ockId: Id, epoch: int) {
    ockId in epochs && epochs[ockId] == epoch
  }

  lemma RequiredIsRetained(keys: KeyState, wrappers: Wrappers, candidateKey: Id, ockId: Id, epoch: int)
    ensures Holds(RequiredHistorical(keys, wrappers, candidateKey), ockId, epoch) <==>
              ockId != candidateKey && Retains(keys, wrappers, ockId, epoch)
  {
    var pair := (keys.orkId, ockId);
    assert pair in wrappers ==> pair.1 == ockId;
  }

  lemma SameEntries(left: map<Id, int>, right: map<Id, int>)
    requires forall k, v :: Holds(left, k, v) <==> Holds(right, k, v)
    ensures left == right
  {
    forall k ensures k in left <==> k in right {
      assert k in left ==> Holds(left, k, left[k]);
      assert k in right ==> Holds(right, k, right[k]);
    }
    forall k | k in left ensures left[k] == right[k] {
      assert Holds(left, k, left[k]);
    }
  }

  lemma ListsRetainedExactly(candidate: Candidate, keys: KeyState, wrappers: Wrappers)
    ensures ListsRetained(candidate, keys, wrappers) <==>
              SuppliedHistorical(candidate.historical) == RequiredHistorical(keys, wrappers, candidate.ockId)
  {
    var supplied, required := SuppliedHistorical(candidate.historical), RequiredHistorical(keys, wrappers,
                                                 candidate.ockId);
    forall ockId, epoch
      ensures Holds(supplied, ockId, epoch) <==> Lists(candidate.historical, ockId, epoch)
      ensures Holds(required, ockId, epoch) <==> ockId != candidate.ockId && Retains(keys, wrappers, ockId, epoch)
    {
      SuppliedIsLast(candidate.historical, ockId, epoch);
      RequiredIsRetained(keys, wrappers, candidate.ockId, ockId, epoch);
    }
    hide SuppliedHistorical, RequiredHistorical, Lists, Retains, Holds;
    if ListsRetained(candidate, keys, wrappers) {
      SameEntries(supplied, required);
    }
  }

  /** The counting comparison accepts exactly the equal list. */
  lemma ComparedExactly(candidate: Candidate, keys: KeyState, wrappers: Wrappers)
    ensures var required := RequiredHistorical(keys, wrappers, candidate.ockId);
            var supplied := SuppliedHistorical(candidate.historical);
            ListsRetained(candidate, keys, wrappers) <==>
              |required| == |supplied| && forall k | k in required :: k in supplied && supplied[k] == required[k]
  {
    ListsRetainedExactly(candidate, keys, wrappers);
    hide RequiredHistorical, SuppliedHistorical, ListsRetained;
    var required := RequiredHistorical(keys, wrappers, candidate.ockId);
    var supplied := SuppliedHistorical(candidate.historical);
    if |required| == |supplied| && forall k | k in required :: k in supplied && supplied[k] == required[k] {
      SameSizeSameMap(required, supplied);
    }
  }

  /** The whole of validation. */
  ghost predicate Acceptable(candidate: Candidate, keys: KeyState, wrappers: Wrappers) {
    && candidate.reason in Reasons(candidate.operation) && SealsKeys(candidate, keys)
    && Changes(candidate, keys) == Replaces(candidate.operation)
    && candidate.custodyCopies == Copies(candidate.operation)
    && (candidate.operation.RotateRootAndContentKey? ==>
          candidate.ockId != keys.ockId && candidate.ockEpoch == keys.ockEpoch + 1)
    && (candidate.orkId != keys.orkId ==> ListsRetained(candidate, keys, wrappers))
  }

  /** The checks on what is replaced, and by how much. */
  lemma MatchesExactly(candidate: Candidate, keys: KeyState)
    requires HistoricalFits(candidate.historical, candidate, keys)
    ensures MatchesOperation(candidate, keys) <==>
              && Changes(candidate, keys) == Replaces(candidate.operation)
              && candidate.custodyCopies == Copies(candidate.operation)
              && (candidate.operation.RotateRootAndContentKey? ==>
                    && candidate.ockId != keys.ockId && candidate.ockEpoch == keys.ockEpoch + 1
                    && exists i :: 0 <= i < |candidate.historical| && candidate.historical[i].ockId == keys.ockId)
  {
    var changes, wanted := Changes(candidate, keys), Replaces(candidate.operation);
    assert changes == wanted <==>
             && (PassphraseSlot in changes <==>
                 PassphraseSlot in wanted) && (RecoverySlot in changes <==> RecoverySlot in wanted)
             && (Wrapper in changes <==> Wrapper in wanted) && (RootKey in changes <==> RootKey in wanted)
             && (ContentKey in changes <==> ContentKey in wanted)
    by { SameParts(changes, wanted); }
  }

  lemma SameParts(left: set<Part>, right: set<Part>)
    ensures left == right <==>
              && (PassphraseSlot in left <==>
                  PassphraseSlot in right) && (RecoverySlot in left <==> RecoverySlot in right)
              && (Wrapper in left <==> Wrapper in right) && (RootKey in left <==> RootKey in right)
              && (ContentKey in left <==> ContentKey in right)
  {
    if && (PassphraseSlot in left <==> PassphraseSlot in right) && (RecoverySlot in left <==> RecoverySlot in right)
       && (Wrapper in left <==> Wrapper in right) && (RootKey in left <==> RootKey in right)
       && (ContentKey in left <==> ContentKey in right) {
      forall part ensures part in left <==> part in right {
        match part case PassphraseSlot => case RecoverySlot => case Wrapper => case RootKey => case ContentKey =>
      }
    }
  }

  lemma SealedExactly(candidate: Candidate, keys: KeyState)
    ensures SealsKeys(candidate, keys) <==>
              && candidate.shared.kind.Shared? && candidate.recovery.kind.Recovery? && candidate.content.kind.Content?
              && ContextMatches(candidate, keys) && HistoricalRefusal(candidate.historical, candidate, keys) == None
  {
    FittingHistorical(candidate.historical, candidate, keys);
  }

  lemma ApprovedExactly(candidate: Candidate)
    ensures Approved(candidate.operation, candidate.reason) <==> candidate.reason in Reasons(candidate.operation)
  {
  }

  /** The current key is among the listed ones whenever the keys that are retained are listed. */
  lemma CurrentIsListed(candidate: Candidate, keys: KeyState, wrappers: Wrappers)
    requires ListsRetained(candidate, keys, wrappers) && candidate.ockId != keys.ockId
    ensures exists i :: 0 <= i < |candidate.historical| && candidate.historical[i].ockId == keys.ockId
  {
    assert Retains(keys, wrappers, keys.ockId, keys.ockEpoch);
    var wrapper :| ListsLast(candidate.historical, keys.ockId, keys.ockEpoch, wrapper);
  }

  lemma Sealed(candidate: Candidate, keys: KeyState)
    requires SealsKeys(candidate, keys)
    ensures HistoricalFits(candidate.historical, candidate, keys)
  {
  }

  lemma BothReplaceTheRoot(candidate: Candidate, keys: KeyState)
    requires Changes(candidate, keys) == Replaces(candidate.operation) && candidate.operation.RotateRootAndContentKey?
    ensures candidate.orkId != keys.orkId
  {
    assert RootKey in Changes(candidate, keys);
  }

  /** The order of the checks does not matter for acceptance. */
  lemma RefusedExactly(candidate: Candidate, keys: KeyState, wrappers: Wrappers)
    ensures var required := RequiredHistorical(keys, wrappers, candidate.ockId);
            var supplied := SuppliedHistorical(candidate.historical);
            CandidateRefusal(candidate, keys, wrappers) == None <==>
              && Approved(candidate.operation, candidate.reason)
              && candidate.shared.kind.Shared? && candidate.recovery.kind.Recovery? && candidate.content.kind.Content?
              && ContextMatches(candidate, keys) && MatchesOperation(candidate, keys)
              && HistoricalRefusal(candidate.historical, candidate, keys) == None
              && (candidate.orkId != keys.orkId ==>
                    |required| == |supplied| && forall k | k in required :: k in supplied && supplied[k] == required[k])
  {
    hide Approved, ContextMatches, MatchesOperation, RequiredHistorical, SuppliedHistorical, HistoricalRefusal;
  }

  /** A candidate is accepted exactly if its reason fits, its slots and wrappers seal the keys they are listed for, it
      replaces what its operation is for and nothing else, a new Content Key takes the next epoch, and a new Root Key
      comes with wrappers of all retained keys and no others. */
  lemma CandidateExactly(candidate: Candidate, keys: KeyState, wrappers: Wrappers)
    ensures CandidateRefusal(candidate, keys, wrappers) == None <==> Acceptable(candidate, keys, wrappers)
  {
    ApprovedExactly(candidate);
    SealedExactly(candidate, keys);
    ComparedExactly(candidate, keys, wrappers);
    RefusedExactly(candidate, keys, wrappers);
    hide Approved, Reasons, SealsKeys, ContextMatches, MatchesOperation, CandidateRefusal, Changes, RequiredHistorical,
      SuppliedHistorical, ListsRetained, HistoricalRefusal, HistoricalFits;
    if SealsKeys(candidate, keys) {
      assert HistoricalFits(candidate.historical, candidate, keys) by { Sealed(candidate, keys); }
      MatchesExactly(candidate, keys);
      if candidate.ockId != keys.ockId && ListsRetained(candidate, keys, wrappers) {
        CurrentIsListed(candidate, keys, wrappers);
      }
      if Changes(candidate, keys) == Replaces(candidate.operation) && candidate.operation.RotateRootAndContentKey? {
        BothReplaceTheRoot(candidate, keys);
      }
    }
  }

  // ---------- the wrapper rows after an activation ----------

  /** The pair is listed last with this wrapper. */
  predicate StoresLast(after: Wrappers, orkId: Id, historical: seq<Historical>, pair: (Id, Id), i: nat)
    requires i < |historical|
  {
    IsLast(historical, i) && pair == (orkId, historical[i].ockId) ==>
      pair in after && after[pair].wrapper == historical[i].wrapper
  }

  predicate IsListed(orkId: Id, historical: seq<Historical>, pair: (Id, Id)) {
    exists i :: 0 <= i < |historical| && pair == (orkId, historical[i].ockId)
  }

  lemma ListedMore(orkId: Id, historical: seq<Historical>, pair: (Id, Id))
    requires historical != []
    ensures var n := |historical| - 1;
            IsListed(orkId, historical, pair) <==>
              IsListed(orkId, historical[..n], pair) || pair == (orkId, historical[n].ockId)
  {
    var n, front := |historical| - 1, historical[..|historical| - 1];
    if IsListed(orkId, historical, pair) {
      var i :| 0 <= i < |historical| && pair == (orkId, historical[i].ockId);
      assert i < n ==> front[i] == historical[i];
    }
    if IsListed(orkId, front, pair) {
      var i :| 0 <= i < |front| && pair == (orkId, front[i].ockId);
      assert historical[i] == front[i];
    }
  }

  lemma StoresMore(before: Wrappers, after: Wrappers, orkId: Id, historical: seq<Historical>, pair: (Id, Id), i: nat)
    requires i < |historical| - 1 && StoresLast(before, orkId, historical[..|historical| - 1], pair, i)
    requires var last := historical[|historical| - 1];
             if pair == (orkId, last.ockId) then pair in after && after[pair].wrapper == last.wrapper
             else (pair in after <==> pair in before) && (pair in before ==> after[pair] == before[pair])
    ensures StoresLast(after, orkId, historical, pair, i)
  {
    var front := historical[..|historical| - 1];
    if IsLast(historical, i) {
      assert forall j | i < j < |front| :: historical[j] == front[j];
    }
  }

  lemma {:induction false} UpsertedExactly(wrappers: Wrappers, orkId: Id, historical: seq<Historical>, pair: (Id, Id),
                                           i: nat)
    requires i < |historical|
    ensures StoresLast(UpsertAll(wrappers, orkId, historical), orkId, historical, pair, i)
  {
    var n, front := |historical| - 1, historical[..|historical| - 1];
    UpsertOfMore(wrappers, orkId, historical, pair);
    if i < n {
      UpsertedExactly(wrappers, orkId, front, pair, i);
      hide UpsertAll, StoresLast;
      StoresMore(UpsertAll(wrappers, orkId, front), UpsertAll(wrappers, orkId, historical), orkId, historical, pair, i);
    }
  }

  lemma {:induction false} UnlistedStays(wrappers: Wrappers, orkId: Id, historical: seq<Historical>, pair: (Id, Id))
    requires !IsListed(orkId, historical, pair)
    ensures var after := UpsertAll(wrappers, orkId, historical);
            (pair in after <==> pair in wrappers) && (pair in wrappers ==> after[pair] == wrappers[pair])
  {
    if historical != [] {
      ListedMore(orkId, historical, pair);
      UpsertOfMore(wrappers, orkId, historical, pair);
      UnlistedStays(wrappers, orkId, historical[..|historical| - 1], pair);
    }
  }

  lemma UpsertOfMore(wrappers: Wrappers, orkId: Id, historical: seq<Historical>, pair: (Id, Id))
    requires historical != []
    ensures var last := historical[|historical| - 1];
            var before, after := UpsertAll(wrappers, orkId, historical[..|historical| - 1]), UpsertAll(wrappers, orkId,
                                           historical);
            if pair == (orkId, last.ockId) then pair in after && after[pair].wrapper == last.wrapper
            else (pair in after <==> pair in before) && (pair in before ==> after[pair] == before[pair])
  {
  }

  /** With a new Root or Content Key, the candidate's wrapper and the last listed wrapper of each retained key stand in
      the rows of the new Root Key. Every other row stays as it was, and so do all rows without a new key. */
  lemma RowsExactly(keys: KeyState, wrappers: Wrappers, candidate: Candidate, pair: (Id, Id))
    requires HistoricalFits(candidate.historical, candidate, keys)
    ensures var after := ActivatedWrappers(keys, wrappers, candidate);
            var rotates := (candidate.orkId, candidate.ockId) != (keys.orkId, keys.ockId);
            && (rotates && pair == (candidate.orkId, candidate.ockId) ==>
                  pair in after && after[pair].wrapper == candidate.content)
            && (rotates ==> forall i | 0 <= i < |candidate.historical| ::
                  StoresLast(after, candidate.orkId, candidate.historical, pair, i))
            && (!rotates || (pair != (candidate.orkId, candidate.ockId)
                             && !IsListed(candidate.orkId, candidate.historical, pair)) ==>
                  (pair in after <==> pair in wrappers) && (pair in wrappers ==> after[pair] == wrappers[pair]))
  {
    var first := Upsert(wrappers, candidate.orkId, candidate.ockId, candidate.ockEpoch, candidate.content);
    forall i | 0 <= i < |candidate.historical|
      ensures StoresLast(UpsertAll(first, candidate.orkId, candidate.historical), candidate.orkId, candidate.historical,
                         pair, i)
    {
      UpsertedExactly(first, candidate.orkId, candidate.historical, pair, i);
    }
    if !IsListed(candidate.orkId, candidate.historical, pair) {
      UnlistedStays(first, candidate.orkId, candidate.historical, pair);
    }
    hide UpsertAll, StoresLast;
  }

  // ---------- activation ----------

  /** The operator's account still permits ceremonies, in the session version it had then. */
  predicate MayServe(users: map<Id, UserRow>, operator: Operator) {
    operator.id in users && users[operator.id] == UserRow(true, false, operator.sessionVersion)
  }

  /** The request comes from the very session the operator took part with. */
  predicate Asks(operator: Operator, caller: Caller) {
    (operator.id, operator.sessionId) == (caller.operator.id, caller.operator.sessionId)
  }

  /** Two eligible operators stand behind the ceremony, both confirmed within thirty seconds, one of their sessions asks
      in time, and the keys are still those the candidate was made for. */
  predicate MayActivate(tables: Tables, caller: Caller, id: Id, now: Time) {
    && caller.keyOperator && id in tables.ceremonies
    && var ceremony := tables.ceremonies[id];
       && ceremony.state.Ready? && ceremony.expiresAt > now
       && ceremony.approver.Some? && ceremony.approver.value.id != ceremony.initiator.id
       && (Asks(ceremony.initiator, caller) || Asks(ceremony.approver.value, caller))
       && MayServe(tables.users, ceremony.initiator) && MayServe(tables.users, ceremony.approver.value)
       && ceremony.initiatorConfirmedAt.Some? && ceremony.initiatorConfirmedAt.value >= now - 30_000
       && ceremony.approverConfirmedAt.Some? && ceremony.approverConfirmedAt.value >= now - 30_000
       && ceremony.candidate.expectedGeneration == tables.keys.generation
  }

  /** An activation takes effect exactly if it may; it swaps in the candidate, counts the generation, records the
      custody copies if there are new ones, and ends every session. Otherwise nothing changes. */
  lemma ActivationExactly(tables: Tables, caller: Caller, id: Id, now: Time)
    requires Orderly(tables)
    ensures var (after, may) := (Next(tables, Activating(caller, id, now)), MayActivate(tables, caller, id, now));
            && (!may ==> after == tables)
            && (may ==> Activate(tables, caller, id, now) == Reported(after, tables.keys.generation + 1))
            && (may ==>
                  var (before, ceremony) := (tables.keys, tables.ceremonies[id]);
                  var candidate := ceremony.candidate;
                  && after.keys.generation == before.generation + 1 && after.keys.organization == before.organization
                  && (after.keys.orkId, after.keys.ockId, after.keys.ockEpoch) ==
                     (candidate.orkId, candidate.ockId, candidate.ockEpoch)
                  && (after.keys.shared, after.keys.recovery, after.keys.content) ==
                     (candidate.shared, candidate.recovery, candidate.content)
                  && (after.keys.custodyBy, after.keys.custodyAt) ==
                     (if candidate.custodyCopies == 2 then (ceremony.initiator.id, now)
                      else (before.custodyBy, before.custodyAt))
                  && after.wrappers == ActivatedWrappers(before, tables.wrappers, candidate)
                  && after.ceremonies.Keys == tables.ceremonies.Keys && after.ceremonies[id].state.Activated?
                  && after.ceremonies[id].activatedGeneration == Some(after.keys.generation)
                  && (forall other | other in tables.ceremonies && other != id ::
                        after.ceremonies[other] == tables.ceremonies[other])
                  && after.users.Keys == tables.users.Keys
                  && forall user | user in tables.users ::
                       && after.users[user].sessionVersion == tables.users[user].sessionVersion + 1
                       && after.users[user].keyOperator == tables.users[user].keyOperator
                       && after.users[user].archived == tables.users[user].archived)
  {
    if id in tables.ceremonies {
      SoundCeremony(tables, id);
    }
    hide Orderly, ActivatedWrappers;
  }

  /** Users change only by the administration or an activation. */
  lemma UsersExactly(tables: Tables, request: Request)
    requires Orderly(tables) && !request.UserChange?
    ensures Next(tables, request).users != tables.users ==>
              request.Activating? && MayActivate(tables, request.caller, request.id, request.now)
  {
    if request.Activating? {
      ActivationExactly(tables, request.caller, request.id, request.now);
    }
    if request.Recover? || request.Rotate? {
      StartKeepsUsers(tables, request);
    } else if request.Approval? || request.Aborting? || request.Presence? {
      CeremonyKeepsUsers(tables, request);
    }
    hide Orderly, Next, MayActivate;
  }

  lemma StartKeepsUsers(tables: Tables, request: Request)
    requires request.Recover? || request.Rotate?
    ensures Next(tables, request).users == tables.users
  {
    hide CandidateRefusal, RecoveryRefusal, Blocked, WithOpenAborted, Activate, Approve, Abort, ConfirmPresence;
  }

  lemma CeremonyKeepsUsers(tables: Tables, request: Request)
    requires request.Approval? || request.Aborting? || request.Presence?
    ensures Next(tables, request).users == tables.users
  {
    hide StartRecovery, StartKeyCeremony, Activate, OperatorsEligible, IsSession, IsParticipant;
  }

  // ---------- ended sessions ----------

  /** The administration only ever raises a session version. */
  predicate KeepsSessions(tables: Tables, request: Request) {
    request.UserChange? && request.id in tables.users ==>
      tables.users[request.id].sessionVersion <= request.row.sessionVersion
  }

  ghost predicate SessionRun(tables: Tables, requests: seq<Request>)
    decreases |requests|
  {
    requests != [] ==>
      && FreshId(tables, requests[0]) && KeepsSessions(tables, requests[0])
      && SessionRun(Next(tables, requests[0]), requests[1..])
  }

  /** The operator has signed in under a session version that is over. */
  predicate IsOver(users: map<Id, UserRow>, operator: Operator) {
    operator.id in users && operator.sessionVersion < users[operator.id].sessionVersion
  }

  lemma StepKeepsOver(tables: Tables, request: Request, operator: Operator)
    requires Orderly(tables) && KeepsSessions(tables, request) && IsOver(tables.users, operator)
    ensures IsOver(Next(tables, request).users, operator)
  {
    if request.Activating? {
      ActivationExactly(tables, request.caller, request.id, request.now);
    } else if !request.UserChange? {
      UsersExactly(tables, request);
    }
    hide Orderly, CandidateRefusal, RecoveryRefusal, MayActivate, Activate, OperatorsEligible;
  }

  lemma {:induction false} RunKeepsOver(tables: Tables, requests: seq<Request>, operator: Operator)
    requires Orderly(tables) && SessionRun(tables, requests) && IsOver(tables.users, operator)
    ensures IsOver(KeyHistory.After(tables, requests).users, operator)
    decreases |requests|
  {
    hide Orderly, Next;
    if requests != [] {
      StepIsOrderly(tables, requests[0]);
      StepKeepsOver(tables, requests[0], operator);
      RunKeepsOver(Next(tables, requests[0]), requests[1..], operator);
    }
  }

  /** Nobody who was eligible before an activation is so again in the same session, whatever happens afterwards:
      everyone has to sign in anew before taking part in another ceremony. */
  lemma ActivationEndsSessions(tables: Tables, activation: Request, requests: seq<Request>, operator: Operator)
    requires Orderly(tables) && activation.Activating?
    requires MayActivate(tables, activation.caller, activation.id, activation.now)
    requires SessionRun(Next(tables, activation), requests) && MayServe(tables.users, operator)
    ensures !MayServe(KeyHistory.After(Next(tables, activation), requests).users, operator)
  {
    ActivationExactly(tables, activation.caller, activation.id, activation.now);
    StepIsOrderly(tables, activation);
    hide Orderly, Next, MayActivate;
    RunKeepsOver(Next(tables, activation), requests, operator);
  }

  // ---------- the other requests ----------

  /** An approval takes effect exactly if a second eligible operator names the digest in time. */
  lemma ApprovalExactly(tables: Tables, caller: Caller, id: Id, fingerprint: Fingerprint, now: Time)
    requires Orderly(tables)
    ensures var after := Next(tables, Approval(caller, id, fingerprint, now));
            var may := && caller.keyOperator && id in tables.ceremonies
                       && var ceremony := tables.ceremonies[id];
                          ceremony.state.Pending? && ceremony.expiresAt > now && ceremony.initiator.id != caller.operator.id
                          && MayServe(tables.users, ceremony.initiator) && fingerprint == ceremony.fingerprint;
            && after == tables.(ceremonies := after.ceremonies) && after.ceremonies.Keys == tables.ceremonies.Keys
            && (forall other | other in tables.ceremonies && other != id ::
                  after.ceremonies[other] == tables.ceremonies[other])
            && (id in tables.ceremonies ==>
                  after.ceremonies[id] ==
                  if may then tables.ceremonies[id].(state := Ready, approver := Some(caller.operator),
                                                     approverConfirmedAt := Some(now))
                  else tables.ceremonies[id])
  {
    if id in tables.ceremonies {
      SoundCeremony(tables, id);
    }
    hide Orderly;
  }

  /** A confirmation counts exactly for the session that gives it, while the ceremony is open and in time; the second
      operator's counts from the approval on. */
  lemma PresenceExactly(tables: Tables, caller: Caller, id: Id, now: Time)
    requires Orderly(tables)
    ensures var after := Next(tables, Presence(caller, id, now));
            && after == tables.(ceremonies := after.ceremonies) && after.ceremonies.Keys == tables.ceremonies.Keys
            && (forall other | other in tables.ceremonies && other != id ::
                  after.ceremonies[other] == tables.ceremonies[other])
            && (id in tables.ceremonies ==>
                  var ceremony := tables.ceremonies[id];
                  var counts := caller.keyOperator && ceremony.expiresAt > now && IsOpen(ceremony);
                  var first := counts && Asks(ceremony.initiator, caller);
                  var second := counts && !first && ceremony.approver.Some? && Asks(ceremony.approver.value, caller);
                  after.ceremonies[id] == ceremony.(
                    initiatorConfirmedAt := if first then Some(now) else ceremony.initiatorConfirmedAt,
                    approverConfirmedAt := if second then Some(now) else ceremony.approverConfirmedAt))
  {
    if id in tables.ceremonies {
      SoundCeremony(tables, id);
    }
    hide Orderly;
  }

  /** No other ceremony is running at the time. */
  ghost predicate IsFree(tables: Tables, now: Time) {
    forall id | id in tables.ceremonies && IsOpen(tables.ceremonies[id]) :: tables.ceremonies[id].expiresAt <= now
  }

  /** The ceremony a start leaves: only its initiator has confirmed, and it lasts half an hour. */
  predicate IsNew(ceremony: Ceremony, caller: Caller, now: Time) {
    && ceremony.state.Pending? && ceremony.initiator == caller.operator && ceremony.approver.None?
    && ceremony.initiatorConfirmedAt == Some(now) && ceremony.approverConfirmedAt.None?
    && ceremony.expiresAt == now + 1_800_000 && ceremony.activatedGeneration.None?
  }

  /** What a start does to the tables: the new ceremony is the only open one, and everything else stays. */
  ghost predicate Starts(tables: Tables, after: Tables, id: Id) {
    && after == tables.(ceremonies := after.ceremonies) && after.ceremonies.Keys == tables.ceremonies.Keys + {id}
    && forall other | other in tables.ceremonies && other != id ::
         after.ceremonies[other] ==
         if IsOpen(tables.ceremonies[other]) then tables.ceremonies[other].(state := Aborted)
         else tables.ceremonies[other]
  }

  /** A rotation is started exactly if nothing else is running and the candidate is acceptable for the current keys. */
  lemma StartExactly(tables: Tables, caller: Caller, id: Id, candidate: Candidate, now: Time)
    requires id !in tables.ceremonies
    ensures var after := Next(tables, Rotate(caller, id, candidate, now));
            if caller.keyOperator && IsFree(tables, now) && candidate.expectedGeneration == tables.keys.generation
               && Acceptable(candidate, tables.keys, tables.wrappers)
            then
              && Starts(tables, after, id) && IsNew(after.ceremonies[id], caller, now)
              && after.ceremonies[id].candidate == candidate
              && after.ceremonies[id].fingerprint == OfCandidate(candidate)
            else after == tables
  {
    CandidateExactly(candidate, tables.keys, tables.wrappers);
    hide CandidateRefusal, Acceptable;
  }

  /** A recovery of the passphrase is started exactly if nothing else is running and its slot seals the current Root
      Key; it keeps both keys and the recovery slot. */
  lemma RecoveryExactly(tables: Tables, caller: Caller, id: Id, generation: int, slot: Envelope,
                        fingerprint: Fingerprint,
                        now: Time)
    requires id !in tables.ceremonies
    ensures var after := Next(tables, Recover(caller, id, generation, slot, fingerprint, now));
            if caller.keyOperator && IsFree(tables, now) && generation == tables.keys.generation && slot.kind.Shared?
               && slot.organization == tables.keys.organization && slot.wrappedKey == tables.keys.orkId
               && fingerprint == OfSlot(slot)
            then
              && Starts(tables, after, id) && IsNew(after.ceremonies[id], caller, now)
              && after.ceremonies[id].fingerprint == fingerprint
              && var candidate := after.ceremonies[id].candidate;
                 && candidate.expectedGeneration == generation && candidate.shared == slot
                 && Changes(candidate, tables.keys) <= {PassphraseSlot} && candidate.custodyCopies == 0
                 && candidate.historical == []
            else after == tables
  {
  }

  /** A session that takes part aborts an open ceremony; nobody else does, and nothing else changes. */
  lemma AbortExactly(tables: Tables, caller: Caller, id: Id)
    ensures var after := Next(tables, Aborting(caller, id));
            && after == tables.(ceremonies := after.ceremonies) && after.ceremonies.Keys == tables.ceremonies.Keys
            && (forall other | other in tables.ceremonies && other != id ::
                  after.ceremonies[other] == tables.ceremonies[other])
            && (id in tables.ceremonies ==>
                  var ceremony := tables.ceremonies[id];
                  var may := && caller.keyOperator && (ceremony.state.Pending? || ceremony.state.Ready?)
                             && (Asks(ceremony.initiator, caller)
                                 || (ceremony.approver.Some? && Asks(ceremony.approver.value, caller)));
                  after.ceremonies[id] == if may then ceremony.(state := Aborted) else ceremony)
  {
  }
}
