/** Any number of ceremonies in a row: Content Keys stay readable, epochs stay put and generations count
    the ceremonies (backend/src/e2ee/e2ee.service.ts, backend/src/setup/setup.service.ts). */
module KeyHistory {
  import opened Options
  import opened KeyCeremony
  import opened CeremonyRuns

  /** What holds after every request. */
  ghost predicate Reachable(tables: Tables) {
    Orderly(tables) && CandidatesFit(tables) && WrappersAreSound(tables.keys, tables.wrappers)
  }

  /** The tables after setup. */
  ghost predicate Installed(tables: Tables) {
    && tables.keys.generation == 1 && tables.ceremonies == map[] && tables.wrappers == map[]
    && SlotsOpen(tables.keys.shared, tables.keys.recovery, tables.keys.organization, tables.keys.orkId)
    && WrapsUnder(tables.keys.content, tables.keys, tables.keys.orkId, tables.keys.ockId)
  }

  lemma InstalledIsReachable(tables: Tables)
    requires Installed(tables)
    ensures Reachable(tables) && EpochsTracked(tables)
  {
    assert ActivatedIds(tables.ceremonies) == {};
  }

  /** One request: either the key set is untouched, or a ceremony took effect and kept every key. */
  lemma StepKeepsKeys(tables: Tables, request: Request)
    requires Reachable(tables) && FreshId(tables, request)
    ensures var after := Next(tables, request);
            && Reachable(after) && after.keys.generation >= tables.keys.generation
            && WrapperSet(tables.keys, tables.wrappers).Keys <= WrapperSet(after.keys, after.wrappers).Keys
            && (after.keys.generation == tables.keys.generation ==>
                  after.keys == tables.keys && after.wrappers == tables.wrappers)
  {
    hide Orderly, CandidatesFit, WrappersAreSound, WrapperSet, StillValid, Next;
    StepIsOrderly(tables, request);
    CandidatesKeepFitting(tables, request);
    if Next(tables, request).keys.generation == tables.keys.generation {
      SameGenerationSameKeys(tables, request);
    } else {
      ActivationTakesEffect(tables, request);
      ActivationKeepsKeys(tables, tables.ceremonies[request.id], request.now);
    }
  }

  /** The generation changes by an activation alone. */
  lemma ActivationTakesEffect(tables: Tables, request: Request)
    requires Reachable(tables) && FreshId(tables, request)
    requires Next(tables, request).keys.generation != tables.keys.generation
    ensures request.Activating? && request.id in tables.ceremonies
    ensures Next(tables, request) == ActivatedTables(tables, request.id, request.now)
    ensures IsOpen(tables.ceremonies[request.id])
    ensures tables.ceremonies[request.id].candidate.expectedGeneration == tables.keys.generation
    ensures StillValid(tables.ceremonies[request.id].candidate, tables.keys, tables.wrappers)
  {
    hide Orderly, WrappersAreSound, StillValid, CandidateRefusal, ActivatedTables;
    assert Next(tables, request).keys.generation != tables.keys.generation;
    NewGeneration(tables, request);
  }

  lemma NewGeneration(tables: Tables, request: Request)
    requires Next(tables, request).keys.generation != tables.keys.generation
    ensures request.Activating? && request.id in tables.ceremonies
    ensures Next(tables, request) == ActivatedTables(tables, request.id, request.now)
    ensures tables.ceremonies[request.id].state.Ready?
    ensures tables.ceremonies[request.id].candidate.expectedGeneration == tables.keys.generation
  {
  }

  ghost predicate FreshRun(tables: Tables, requests: seq<Request>)
    decreases |requests|
  {
    requests != [] ==> FreshId(tables, requests[0]) && FreshRun(Next(tables, requests[0]), requests[1..])
  }

  function After(tables: Tables, requests: seq<Request>): Tables
    decreases |requests|
  {
    if requests == [] then tables else After(Next(tables, requests[0]), requests[1..])
  }

  /** Over every run each Content Key of the wrapper set, the current one among them, stays in the wrapper
      set of the then current Root Key, and every wrapper wraps its key under that Root Key. */
  lemma {:induction false} NoContentKeyIsLost(tables: Tables, requests: seq<Request>)
    requires Reachable(tables) && FreshRun(tables, requests)
    ensures var after := After(tables, requests);
            && Reachable(after) && after.keys.generation >= tables.keys.generation
            && SlotsOpen(after.keys.shared, after.keys.recovery, after.keys.organization, after.keys.orkId)
            && tables.keys.ockId in WrapperSet(after.keys, after.wrappers)
            && WrapperSet(tables.keys, tables.wrappers).Keys <= WrapperSet(after.keys, after.wrappers).Keys
            && (forall ockId | ockId in WrapperSet(after.keys, after.wrappers) ::
                  WrapsUnder(WrapperSet(after.keys, after.wrappers)[ockId].wrapper, after.keys, after.keys.orkId,
                             ockId))
            && (after.keys.generation == tables.keys.generation ==>
                  after.keys == tables.keys && after.wrappers == tables.wrappers)
    decreases |requests|
  {
    hide Orderly, CandidatesFit, Next;
    assert tables.keys.ockId in WrapperSet(tables.keys, tables.wrappers);
    if requests == [] {
      SetIsSound(tables);
    } else {
      StepKeepsKeys(tables, requests[0]);
      NoContentKeyIsLost(Next(tables, requests[0]), requests[1..]);
    }
  }

  lemma SetIsSound(tables: Tables)
    requires WrappersAreSound(tables.keys, tables.wrappers)
    ensures forall ockId | ockId in WrapperSet(tables.keys, tables.wrappers) ::
              WrapsUnder(WrapperSet(tables.keys, tables.wrappers)[ockId].wrapper, tables.keys, tables.keys.orkId, ockId)
  {
    forall ockId | ockId in WrapperSet(tables.keys, tables.wrappers) && ockId != tables.keys.ockId
      ensures (tables.keys.orkId, ockId) in tables.wrappers
    {
    }
  }

  /** From setup on, the generation is one more than the number of ceremonies that took effect, no two
      ceremonies are open together and no two led to the same generation. */
  lemma GenerationsCountCeremonies(tables: Tables, requests: seq<Request>)
    requires Installed(tables) && FreshRun(tables, requests)
    ensures var after := After(tables, requests);
            && after.keys.generation == 1 + |ActivatedIds(after.ceremonies)|
            && AtMostOneOpen(after.ceremonies) && DistinctGenerations(after.ceremonies)
            && forall id | id in ActivatedIds(after.ceremonies) ::
                 after.ceremonies[id].activatedGeneration.Some?
                 && 2 <= after.ceremonies[id].activatedGeneration.value <= after.keys.generation
  {
    InstalledIsReachable(tables);
    NoContentKeyIsLost(tables, requests);
  }

  // ---------- epochs over runs ----------

  /** The candidate's new key is new and its list stores what it validates. */
  ghost predicate IsCareful(candidate: Candidate, keys: KeyState, wrappers: Wrappers) {
    FreshKey(candidate, keys, wrappers) && ListsEpochs(candidate, wrappers)
  }

  ghost predicate EpochsTracked(tables: Tables) {
    && EpochsAgree(tables.keys, tables.wrappers)
    && forall id | id in tables.ceremonies && IsOpen(tables.ceremonies[id])
                   && tables.ceremonies[id].candidate.expectedGeneration == tables.keys.generation ::
         IsCareful(tables.ceremonies[id].candidate, tables.keys, tables.wrappers)
  }

  ghost predicate CarefulRequest(tables: Tables, request: Request) {
    FreshId(tables, request) && (request.Rotate? ==> IsCareful(request.candidate, tables.keys, tables.wrappers))
  }

  lemma ActivationKeepsEpochs(keys: KeyState, wrappers: Wrappers, candidate: Candidate, after: KeyState, rows: Wrappers)
    requires StillValid(candidate, keys, wrappers) && EpochsAgree(keys, wrappers)
        && IsCareful(candidate, keys, wrappers)
    requires (after.orkId, after.ockId, after.ockEpoch) == (candidate.orkId, candidate.ockId, candidate.ockEpoch)
    requires after.content == candidate.content && rows == ActivatedWrappers(keys, wrappers, candidate)
    ensures EpochsAgree(after, rows) && EpochsKept(WrapperSet(keys, wrappers), WrapperSet(after, rows))
  {
    ValidCandidate(candidate, keys, wrappers);
    hide StillValid, RotatesRoot, FreshKey, ListsEpochs;
    if RotatesRoot(candidate, keys, wrappers) {
      hide EpochsAgree, WrapperSet, ActivatedWrappers;
      EpochsStayInOrderExactly(keys, wrappers, candidate, after, rows);
    }
  }

  lemma CeremoniesStayCareful(tables: Tables, request: Request)
    requires Reachable(tables) && EpochsTracked(tables) && CarefulRequest(tables, request)
    requires Next(tables, request).keys.generation == tables.keys.generation
    ensures EpochsTracked(Next(tables, request))
  {
    hide CandidateRefusal, ActivatedWrappers, Orderly, CandidatesFit, WrappersAreSound, IsCareful, EpochsAgree;
    var after := Next(tables, request);
    SameGenerationSameKeys(tables, request);
    forall id | id in after.ceremonies && IsOpen(after.ceremonies[id])
      && after.ceremonies[id].candidate.expectedGeneration == after.keys.generation
      ensures IsCareful(after.ceremonies[id].candidate, after.keys, after.wrappers)
    {
      if id in tables.ceremonies {
        assert after.ceremonies[id].candidate == tables.ceremonies[id].candidate && IsOpen(tables.ceremonies[id]);
      } else if request.Recover? {
        RecoveryIsCareful(tables.keys, tables.wrappers, request.slot);
      }
    }
  }

  lemma RecoveryIsCareful(keys: KeyState, wrappers: Wrappers, slot: Envelope)
    ensures IsCareful(RecoveryCandidate(keys, slot), keys, wrappers)
  {
  }

  lemma StepKeepsEpochs(tables: Tables, request: Request)
    requires Reachable(tables) && EpochsTracked(tables) && CarefulRequest(tables, request)
    ensures var after := Next(tables, request);
            && EpochsTracked(after)
            && EpochsKept(WrapperSet(tables.keys, tables.wrappers), WrapperSet(after.keys, after.wrappers))
  {
    hide Orderly, CandidatesFit, WrappersAreSound, WrapperSet, StillValid, Next, IsCareful, EpochsAgree;
    var after := Next(tables, request);
    if after.keys.generation == tables.keys.generation {
      SameGenerationSameKeys(tables, request);
      CeremoniesStayCareful(tables, request);
    } else {
      ActivationTakesEffect(tables, request);
      StepIsOrderly(tables, request);
      NothingAwaitsActivation(tables, request.id, request.now);
      ActivationKeepsEpochs(tables.keys, tables.wrappers, tables.ceremonies[request.id].candidate, after.keys,
                            after.wrappers);
    }
  }

  lemma NothingAwaitsActivation(tables: Tables, activated: Id, now: Time)
    requires Orderly(tables) && activated in tables.ceremonies && IsOpen(tables.ceremonies[activated])
    ensures var after := ActivatedTables(tables, activated, now);
            forall id | id in after.ceremonies :: !IsOpen(after.ceremonies[id])
  {
  }

  ghost predicate CarefulRun(tables: Tables, requests: seq<Request>)
    decreases |requests|
  {
    requests != [] ==> CarefulRequest(tables, requests[0]) && CarefulRun(Next(tables, requests[0]), requests[1..])
  }

  /** A rotation takes effect whose Content Key already has a row, or whose list stores another epoch than the
      validated one. */
  ghost predicate Careless(tables: Tables, request: Request) {
    && request.Activating? && request.id in tables.ceremonies
    && Next(tables, request).keys.generation != tables.keys.generation
    && var candidate := tables.ceremonies[request.id].candidate;
       candidate.orkId != tables.keys.orkId && !IsCareful(candidate, tables.keys, tables.wrappers)
  }

  /** Each key keeps its epoch, still has one in all rows, and the current key has the greatest. */
  ghost predicate EpochsHeld(before: Tables, after: Tables) {
    EpochsAgree(after.keys, after.wrappers)
    && EpochsKept(WrapperSet(before.keys, before.wrappers), WrapperSet(after.keys, after.wrappers))
  }

  /** One request costs a key its epoch if and only if it activates a careless rotation. */
  lemma StepKeepsEpochsExactly(tables: Tables, request: Request)
    requires Reachable(tables) && FreshId(tables, request) && EpochsAgree(tables.keys, tables.wrappers)
    ensures EpochsHeld(tables, Next(tables, request)) <==> !Careless(tables, request)
  {
    hide Orderly, CandidatesFit, WrappersAreSound, WrapperSet, StillValid, Next, IsCareful, EpochsAgree;
    var after := Next(tables, request);
    if after.keys.generation == tables.keys.generation {
      SameGenerationSameKeys(tables, request);
    } else {
      ActivationTakesEffect(tables, request);
      RotationKeepsEpochsExactly(tables.keys, tables.wrappers, tables.ceremonies[request.id].candidate, after.keys,
                                 after.wrappers);
    }
  }

  lemma RotationKeepsEpochsExactly(keys: KeyState, wrappers: Wrappers, candidate: Candidate, after: KeyState,
                                   rows: Wrappers)
    requires StillValid(candidate, keys, wrappers) && EpochsAgree(keys, wrappers)
    requires (after.orkId, after.ockId, after.ockEpoch) == (candidate.orkId, candidate.ockId, candidate.ockEpoch)
    requires after.content == candidate.content && rows == ActivatedWrappers(keys, wrappers, candidate)
    ensures EpochsAgree(after, rows) && EpochsKept(WrapperSet(keys, wrappers), WrapperSet(after, rows)) <==>
            candidate.orkId == keys.orkId || IsCareful(candidate, keys, wrappers)
  {
    ValidCandidate(candidate, keys, wrappers);
    hide StillValid, FreshKey, ListsEpochs;
    if candidate.orkId != keys.orkId {
      hide EpochsAgree, WrapperSet, ActivatedWrappers;
      EpochsStayInOrderExactly(keys, wrappers, candidate, after, rows);
    }
  }

  ghost predicate RunWithoutCareless(tables: Tables, requests: seq<Request>)
    decreases |requests|
  {
    requests != [] ==> !Careless(tables, requests[0]) && RunWithoutCareless(Next(tables, requests[0]), requests[1..])
  }

  ghost predicate EpochsHeldThroughout(tables: Tables, requests: seq<Request>)
    decreases |requests|
  {
    requests != [] ==>
      EpochsHeld(tables, Next(tables, requests[0])) && EpochsHeldThroughout(Next(tables, requests[0]), requests[1..])
  }

  /** Throughout a run the epochs hold if and only if no careless rotation is activated. */
  lemma {:induction false} EpochsHeldExactly(tables: Tables, requests: seq<Request>)
    requires Reachable(tables) && FreshRun(tables, requests) && EpochsAgree(tables.keys, tables.wrappers)
    ensures EpochsHeldThroughout(tables, requests) <==> RunWithoutCareless(tables, requests)
    decreases |requests|
  {
    hide Reachable, EpochsAgree, Next, Careless, EpochsKept;
    if requests != [] {
      StepKeepsKeys(tables, requests[0]);
      StepKeepsEpochsExactly(tables, requests[0]);
      if !Careless(tables, requests[0]) {
        EpochsHeldExactly(Next(tables, requests[0]), requests[1..]);
      }
    }
  }

  /** Over every run of requests whose rotations name new Content Keys and list what they validate, the wrapper set
      shows each key with the epoch it always had, and the current key with the greatest. */
  lemma {:induction false} EpochsSurvive(tables: Tables, requests: seq<Request>)
    requires Reachable(tables) && EpochsTracked(tables) && CarefulRun(tables, requests)
    ensures var after := After(tables, requests);
            var keys := WrapperSet(after.keys, after.wrappers);
            && EpochsTracked(after) && EpochsKept(WrapperSet(tables.keys, tables.wrappers), keys)
            && keys[after.keys.ockId].epoch == after.keys.ockEpoch
            && forall ockId | ockId in keys && ockId != after.keys.ockId :: keys[ockId].epoch < after.keys.ockEpoch
    decreases |requests|
  {
    hide Reachable, EpochsAgree, Next;
    if requests == [] {
      forall ockId | ockId in WrapperSet(tables.keys, tables.wrappers) && ockId != tables.keys.ockId
        ensures WrapperSet(tables.keys, tables.wrappers)[ockId].epoch < tables.keys.ockEpoch
      {
        EpochInSet(tables.keys, tables.wrappers, ockId);
      }
    } else {
      StepKeepsKeys(tables, requests[0]);
      StepKeepsEpochs(tables, requests[0]);
      EpochsSurvive(Next(tables, requests[0]), requests[1..]);
    }
  }
}
