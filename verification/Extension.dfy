/**
 * internal/extension/extension.go on the heap. Cache and memory store hold the same objects, so a
 * published object must never be written; every method below writes new objects only, and takes
 * exactly the step of the machine.
 */
module Extension {
  import opened Base
  import opened Policy
  import opened Authorization
  import opened Machine
  import opened RedisRecord
  import opened StateStore

  /** The first decision on an event; a trigger restarts the cooldown clock. */
  method FirstDecision(state: PolicyState, g: Grant) returns (a: EventAuthorization)
    modifies state`lastTriggered
    ensures a == Decide(state.policy, old(state.lastTriggered), g.timestamp, g.value)
    ensures state.lastTriggered == if a.triggered then g.timestamp else old(state.lastTriggered)
  {
    var triggered := g.value > state.policy.thresholdUsd18;
    if state.policy.maxPerEventUsd18 > 0 && g.value > state.policy.maxPerEventUsd18 { triggered := false; }
    if state.lastTriggered > 0 && g.timestamp < AddU64(state.lastTriggered, state.policy.cooldownSeconds) {
      triggered := false;
    }
    var protectedUsd18, protectBps: uint16, scheduleId: uint32 := 0, 0, 0;
    if triggered {
      protectedUsd18 := g.value * state.policy.protectBps / 10_000;
      protectBps, scheduleId := state.policy.protectBps, state.policy.scheduleId;
      state.lastTriggered := g.timestamp;
    }
    return EventAuthorization(g.value, triggered, protectedUsd18, protectBps, scheduleId, 0);
  }

  /** The event's authorization: the frozen one, or the first decision on it. */
  method Freeze(state: PolicyState, g: Grant) returns (cell: EventAuthorizationCell)
    requires state.Unshared()
    modifies state
    ensures state.Unshared() && fresh(state.authorizations.Values - old(state.authorizations.Values))
    ensures g.eventHash in state.authorizations && cell == state.authorizations[g.eventHash]
    ensures state.View() == Frozen(old(state.View()), g)
  {
    ghost var s := state.View();
    if g.eventHash in state.authorizations {
      cell := state.authorizations[g.eventHash];
      assert s.authorizations[g.eventHash := FrozenDecision(s, g)] == s.authorizations;
    } else {
      var decision := FirstDecision(state, g);
      cell := new EventAuthorizationCell(decision);
      state.authorizations := state.authorizations[g.eventHash := cell];
      assert state.View().authorizations == s.authorizations[g.eventHash := decision];
    }
  }

  /** Use the nonce and open the window: only this event's authorization changes. */
  method Refresh(state: PolicyState, cell: EventAuthorizationCell, event: Hash, nonce: uint64, expiry: uint64)
    requires state.Unshared() && event in state.authorizations && cell == state.authorizations[event]
    modifies state`usedNonces, cell
    ensures state.View() == Refreshed(old(state.View()), event, nonce, expiry)
  {
    ghost var before := state.View().authorizations;
    state.usedNonces := state.usedNonces + {nonce};
    cell.lastExpiry := expiry;
    assert state.View().authorizations == before[event := cell.View()];
  }

  function Frozen(s: RuleState, g: Grant): RuleState {
    s.(lastTriggered := if NewTrigger(s, g) then g.timestamp else s.lastTriggered,
       authorizations := s.authorizations[g.eventHash := FrozenDecision(s, g)])
  }

  function Refreshed(s: RuleState, event: Hash, nonce: uint64, expiry: uint64): RuleState
    requires event in s.authorizations
  {
    s.(usedNonces := s.usedNonces + {nonce},
       authorizations := s.authorizations[event := s.authorizations[event].(lastExpiry := expiry)])
  }

  lemma FreezeThenRefresh(s: RuleState, g: Grant)
    ensures Refreshed(Frozen(s, g), g.eventHash, g.nonce, AddU64(g.timestamp, RESULT_VALIDITY_SECONDS)) == Apply(s, g)
  {
    var a := FrozenDecision(s, g).(lastExpiry := AddU64(g.timestamp, RESULT_VALIDITY_SECONDS));
    assert s.authorizations[g.eventHash := FrozenDecision(s, g)][g.eventHash := a]
        == s.authorizations[g.eventHash := a];
  }

  /** An accepted evaluation, in place, on a copy nobody else holds. */
  method GrantInPlace(state: PolicyState, g: Grant)
    requires state.Unshared()
    modifies state, state.authorizations.Values
    ensures state.View() == Apply(old(state.View()), g)
    ensures fresh(state.authorizations.Values - old(state.authorizations.Values))
  {
    FreezeThenRefresh(state.View(), g);
    var cell := Freeze(state, g);
    Refresh(state, cell, g.eventHash, g.nonce, AddU64(g.timestamp, RESULT_VALIDITY_SECONDS));
  }

  /** The checks of an evaluation, in the order the source makes them. */
  method Check(state: PolicyState, q: Request, now: uint64, snapshot: Option<Snapshot>)
    returns (checked: Result<int, Error>)
    ensures checked == CheckRequest(state.View(), q, now, snapshot)
  {
    if now > state.policy.expiresAt { return Err(PolicyExpired); }
    if q.nonce in state.usedNonces { return Err(NonceReplay); }
    if snapshot.None? { return Err(SnapshotUnavailable); }
    var view := snapshot.value;
    if view.ruleId != q.ruleId { return Err(RuleMismatch); }
    if !Positive(view.eventValueUsd18) || !Positive(view.priceUsd18) || view.preparedAt == 0 {
      return Err(SnapshotMissing);
    }
    if view.consumed { return Err(EventConsumed); }
    if q.eventHash in state.authorizations {
      var authorization := state.authorizations[q.eventHash];
      if view.eventValueUsd18.value != authorization.eventValueUsd18 { return Err(ValueMismatch); }
      if now <= authorization.lastExpiry { return Err(StillActive); }
    }
    return Ok(view.eventValueUsd18.value);
  }

  /** Everything between the lookup and the save. It writes to its own copy only, so it needs no frame. */
  method Draft(cached: PolicyState, q: Request, now: uint64, snapshot: Option<Snapshot>)
    returns (checked: Result<int, Error>, state: PolicyState)
    ensures checked == CheckRequest(cached.View(), q, now, snapshot)
    ensures checked.Ok? ==> state.View() == Apply(cached.View(), Grant(q.eventHash, q.nonce, now, checked.value))
    ensures fresh(state)
  {
    state := Clone(cached);
    checked := Check(state, q, now, snapshot);
    if checked.Ok? { GrantInPlace(state, Grant(q.eventHash, q.nonce, now, checked.value)); }
  }

  class Extension {
    const keccak: Keccak
    const store: Backend
    var policies: map<Hash, PolicyState>
    var evaluationCount: nat
    var successfulTriggers: nat

    ghost predicate Valid()
      reads store.Footprint()
    {
      store.Valid(keccak) && this !in store.Footprint()
    }

    /** Every rule-state object the cache or the memory store can reach. */
    ghost function Published(): set<object>
      reads this, policies.Values, store.Footprint(), if store.Memory? then store.memory.values.Values else {}
    {
      AllObjects(policies) + store.Shared()
    }

    ghost function View(): Engine
      reads this, policies.Values, store.Footprint(), if store.Memory? then store.memory.values.Values else {},
          Published()
    {
      Engine(store.Kind(), Views(policies), store.Contents(), evaluationCount, successfulTriggers)
    }

    /** A process start: empty cache, zero counters, whatever the store already holds. */
    constructor (keccak: Keccak, store: Backend)
      requires store.Valid(keccak)
      ensures Valid() && View() == Engine(store.Kind(), map[], store.Contents(), 0, 0)
      ensures this.keccak == keccak && this.store == store
    {
      this.keccak, this.store := keccak, store;
      policies, evaluationCount, successfulTriggers := map[], 0, 0;
    }

    /** No published object is in the frame of a request: the frame clauses alone make published states immutable. */
    lemma StatesOutsideFrame()
      requires Valid()
      ensures Published() !! {this} + store.Footprint()
    {}

    /** e.policies[r] = state. */
    method Publish(r: Hash, state: PolicyState)
      requires Valid()
      modifies `policies
      ensures Valid() && policies == old(policies)[r := state]
      ensures View() == old(View()).(cache := old(View()).cache[r := old(state.View())])
    {
      ghost var cache := Views(policies);
      policies := policies[r := state];
      store.ContentsKept();
      assert Views(policies) == cache[r := state.View()];
    }

    method ProcessCreatePolicy(plaintext: Option<WirePolicy>, now: uint64, io: Io, nonce: seq<byte>)
      returns (reply: Reply)
      requires Valid() && |nonce| == NONCE_SIZE
      modifies this, store.Footprint()
      ensures Valid() && (View(), reply) == CreateStep(keccak, old(View()), plaintext, now, io)
      ensures unchanged(old(Published()))
    {
      StatesOutsideFrame();
      var admitted := AdmitPolicy(plaintext, now);
      match admitted
      case Err(x) => return Rejected(x);
      case Ok(p) => reply := Install(p, io, nonce);
    }

    /** The locked section of a creation. */
    method Install(p: NormalizedPolicy, io: Io, nonce: seq<byte>) returns (reply: Reply)
      requires Valid() && |nonce| == NONCE_SIZE
      modifies this, store.Footprint()
      ensures Valid() && (View(), reply) == InstallPolicy(keccak, old(View()), p, io)
    {
      if p.ruleId in policies { return Rejected(RuleExists); }
      var state := new PolicyState(p, Commitment(keccak, p));
      assert store.Contents() == old(store.Contents());
      var loaded := store.Load(keccak, p.ruleId, io);
      ViewsKept(policies);
      assert View() == old(View());
      if loaded.Loaded? { return Rejected(RuleExists); }
      if loaded.LoadFailed? { return Rejected(LoadFailure); }
      assert state.View() == FreshState(keccak, p);
      var saved := SaveThenPublish(p.ruleId, state, io, nonce);
      return if saved then Created(p.ruleId, state.commitment) else Rejected(SaveFailure);
    }

    /** Write through: the cache follows the store only once the save is acknowledged. */
    method SaveThenPublish(r: Hash, state: PolicyState, io: Io, nonce: seq<byte>) returns (saved: bool)
      requires Valid() && |nonce| == NONCE_SIZE
      modifies this, store.Footprint()
      ensures Valid() && evaluationCount == old(evaluationCount) && successfulTriggers == old(successfulTriggers)
      ensures var outcome, e, s := SaveResult(store.Kind(), r, old(state.View()), io), old(View()), old(state.View());
              && (saved <==> outcome.Saved?)
              && View() == match outcome
                           case FailedBefore => e
                           case FailedAfter => e.(store := e.store[r := s])
                           case Saved => e.(cache := e.cache[r := s], store := e.store[r := s])
    {
      saved := store.Save(keccak, r, state, nonce, io);
      ViewsKept(policies);
      assert state.View() == old(state.View());
      if saved { Publish(r, state); }
    }

    /** Look the rule up, caching what the store returns. */
    method Find(r: Hash, io: Io) returns (found: LoadResult<PolicyState>)
      requires Valid()
      modifies this, store.Footprint()
      ensures Valid()
      ensures var fetched := Fetch(keccak, old(View()), r, io);
              match fetched
              case LoadFailed => found == LoadFailed && View() == old(View())
              case Missing => found == Missing && View() == old(View())
              case Loaded(s) =>
                found.Loaded? && found.state.View() == s && View() == old(View()).(cache := old(View()).cache[r := s])
    {
      if r in policies {
        assert old(View()).cache[r := policies[r].View()] == old(View()).cache;
        return Loaded(policies[r]);
      }
      found := store.Load(keccak, r, io);
      ViewsKept(policies);
      assert View() == old(View());
      if found.Loaded? { Publish(r, found.state); }
    }

    method ProcessEvaluateGuard(q: Request, now: uint64, snapshot: Option<Snapshot>, io: Io, nonce: seq<byte>)
      returns (reply: Reply)
      requires Valid() && |nonce| == NONCE_SIZE
      modifies this, store.Footprint()
      ensures Valid() && (View(), reply) == EvaluateStep(keccak, old(View()), q, now, snapshot, io)
      ensures unchanged(old(Published()))
    {
      StatesOutsideFrame();
      if q.ruleId == 0 || q.eventHash == 0 { return Rejected(ZeroIds); }
      if now == 0 { return Rejected(ZeroTimestamp); }
      reply := EvaluateLocked(q, now, snapshot, io, nonce);
    }

    /** The locked section of an evaluation. */
    method EvaluateLocked(q: Request, now: uint64, snapshot: Option<Snapshot>, io: Io, nonce: seq<byte>)
      returns (reply: Reply)
      requires Valid() && |nonce| == NONCE_SIZE && q.ruleId != 0 && q.eventHash != 0 && now != 0
      modifies this, store.Footprint()
      ensures Valid() && (View(), reply) == EvaluateStep(keccak, old(View()), q, now, snapshot, io)
    {
      var found := Find(q.ruleId, io);
      match found
      case Missing => return Rejected(UnknownRule);
      case LoadFailed => return Rejected(LoadFailure);
      case Loaded(cached) => reply := Answer(cached, q, now, snapshot, io, nonce);
    }

    method Count(newTrigger: bool)
      requires Valid()
      modifies `evaluationCount, `successfulTriggers
      ensures Valid() && View() == old(View()).(evaluations := old(View()).evaluations + 1,
                                                triggers := old(View()).triggers + if newTrigger then 1 else 0)
    {
      evaluationCount := evaluationCount + 1;
      if newTrigger { successfulTriggers := successfulTriggers + 1; }
      store.ContentsKept();
      ViewsKept(policies);
    }

    /** An evaluation from the cached state on: draft, then commit. */
    method Answer(cached: PolicyState, q: Request, now: uint64, snapshot: Option<Snapshot>, io: Io, nonce: seq<byte>)
      returns (reply: Reply)
      requires Valid() && |nonce| == NONCE_SIZE
      modifies this, store.Footprint()
      ensures Valid() && (View(), reply) == DecideStep(keccak, old(View()), old(cached.View()), q, now, snapshot, io)
    {
      ghost var e, s := View(), cached.View();
      var refreshing := q.eventHash in cached.authorizations;
      var checked, state := Draft(cached, q, now, snapshot);
      assert View() == e;
      if checked.Err? { return Rejected(checked.error); }
      reply := Commit(state, q, now, checked.value, refreshing, io, nonce, s);
    }

    /** Write through, count, reply; s is the state the draft was made from. */
    method Commit(state: PolicyState, q: Request, now: uint64, value: int, refreshing: bool, io: Io,
                  nonce: seq<byte>, ghost s: RuleState)
      returns (reply: Reply)
      requires Valid() && |nonce| == NONCE_SIZE
      requires refreshing <==> q.eventHash in s.authorizations
      requires state.View() == Apply(s, Grant(q.eventHash, q.nonce, now, value))
      modifies this, store.Footprint()
      ensures Valid()
      ensures (View(), reply) == CommitStep(keccak, old(View()), s, q, Grant(q.eventHash, q.nonce, now, value), io)
    {
      ghost var e, g := View(), Grant(q.eventHash, q.nonce, now, value);
      var authorization := state.View().authorizations[q.eventHash];
      var saved := SaveThenPublish(q.ruleId, state, io, nonce);
      if !saved { return Rejected(SaveFailure); }
      assert NewTrigger(s, g) == (authorization.triggered && !refreshing);
      Count(authorization.triggered && !refreshing);
      assert View() == Persist(e, s, q.ruleId, g, io);
      reply := Respond(keccak, PublicResult(q, now, value, authorization), value);
    }
  }
}
