/** The cooldown clock over whole runs: when it never runs backwards, in the cache and in the store. */
module Clocks {
  import opened Base
  import opened Policy
  import opened Authorization
  import opened Machine
  import opened Safety
  import opened Histories
  import opened Scripts
  import opened Restarts
  import opened Runs

  // ---- one grant ----

  /** No trigger of the policy can set the clock back; `words` says that amounts fit a word. */
  predicate Steady(p: NormalizedPolicy, words: bool) {
    NoCooldownWrap(p) || p.expiresAt == 1 || (words && !CanTrigger(p))
  }

  lemma GrantSteady(s: RuleState, g: Grant, words: bool)
    requires Admissible(s, g) && s.lastTriggered <= s.policy.expiresAt && Steady(s.policy, words)
    requires words ==> g.value < U256
    ensures s.lastTriggered <= Apply(s, g).lastTriggered <= s.policy.expiresAt
  {
    if NoCooldownWrap(s.policy) { AddWithoutWrap(s.lastTriggered, s.policy.cooldownSeconds); }
  }

  // ---- one step ----

  /**
   * Wherever rule r is held, under policy p, its clock shows at least t; the cached clock is not ahead of the
   * durable one.
   */
  predicate ClockFrom(e: Engine, r: Hash, p: NormalizedPolicy, t: uint64) {
    && r in e.store && e.store[r].policy == p && t <= e.store[r].lastTriggered <= p.expiresAt
    && (r in e.cache ==> e.cache[r].policy == p && t <= e.cache[r].lastTriggered <= e.store[r].lastTriggered)
  }

  lemma CreationKeepsClock(h: Keccak, e: Engine, q: NormalizedPolicy, io: Io, r: Hash, p: NormalizedPolicy, t: uint64)
    requires ClockFrom(e, r, p, t)
    ensures ClockFrom(InstallPolicy(h, e, q, io).0, r, p, t)
  {
    InstallShape(h, e, q, io);
  }

  lemma EvaluationKeepsClock(h: Keccak, e: Engine, q: Request, now: uint64, snapshot: Option<Snapshot>, io: Io,
                             r: Hash, p: NormalizedPolicy, t: uint64, words: bool)
    requires ClockFrom(e, r, p, t) && Steady(p, words)
    requires words ==> GrantOf([Evaluate(q, now, snapshot, io)], 0).value < U256
    ensures ClockFrom(EvaluateStep(h, e, q, now, snapshot, io).0, r, p, t)
  {
    EvaluationOpens(h, e, q, now, snapshot, io);
    if Opens(h, e, q, now, io) {
      var s := Fetch(h, e, q.ruleId, io).state;
      var cached := e.(cache := e.cache[q.ruleId := s]);
      assert ClockFrom(cached, r, p, t);
      DecisionPersists(h, cached, s, q, now, snapshot, io);
      if q.ruleId == r && CheckRequest(s, q, now, snapshot).Ok? {
        CheckedIsAdmissible(s, q, now, snapshot);
        var g := Grant(q.eventHash, q.nonce, now, CheckRequest(s, q, now, snapshot).value);
        GrantSteady(s, g, words);
        PersistLeaves(cached, s, r, g, io);
      }
    }
  }

  lemma StepKeepsClock(h: Keccak, e: Engine, op: Op, r: Hash, p: NormalizedPolicy, t: uint64, words: bool)
    requires ClockFrom(e, r, p, t) && Steady(p, words) && (e.kind.RedisKind? || !op.Restart?)
    requires words ==> GrantOf([op], 0).value < U256
    ensures ClockFrom(Step(h, e, op).0, r, p, t)
  {
    match op
    case Create(plaintext, now, io) =>
      if AdmitPolicy(plaintext, now).Ok? { CreationKeepsClock(h, e, AdmitPolicy(plaintext, now).value, io, r, p, t); }
    case Evaluate(q, now, snapshot, io) => EvaluationKeepsClock(h, e, q, now, snapshot, io, r, p, t, words);
    case Restart =>
  }

  // ---- all runs ----

  lemma {:induction false} ClockKept(h: Keccak, kind: StoreKind, ops: seq<Op>, m: nat, r: Hash, p: NormalizedPolicy,
                                     t: uint64, words: bool)
    requires Durable(kind, ops) && m <= |ops| && Steady(p, words) && (words ==> WordSized(ops))
    requires ClockFrom(Final(h, kind, ops[..m]), r, p, t)
    ensures ClockFrom(Final(h, kind, ops), r, p, t)
  {
    if m == |ops| {
      assert ops[..m] == ops;
    } else {
      var n := |ops| - 1;
      assert ops[..n][..m] == ops[..m];
      WordSizedPrefix(ops, n);
      ClockKept(h, kind, ops[..n], m, r, p, t, words);
      KindFixed(h, Empty(kind), ops[..n]);
      StepKeepsClock(h, Final(h, kind, ops[..n]), ops[n], r, p, t, words);
    }
  }

  lemma WordSizedPrefix(ops: seq<Op>, n: nat)
    requires n <= |ops|
    ensures WordSized(ops) ==> WordSized(ops[..n])
    ensures WordSized(ops) && n < |ops| ==> GrantOf([ops[n]], 0).value < U256
  {
    forall i | 0 <= i < n ensures GrantOf(ops[..n], i) == GrantOf(ops, i) {}
    if n < |ops| { assert GrantOf([ops[n]], 0) == GrantOf(ops, n); }
  }

  /** The step that creates a rule, or none: every steady rule's clocks are in order. */
  lemma {:induction false} ClocksInOrder(h: Keccak, kind: StoreKind, ops: seq<Op>, r: Hash, words: bool)
    requires Durable(kind, ops) && r in Final(h, kind, ops).store && (words ==> WordSized(ops))
    requires Steady(Final(h, kind, ops).store[r].policy, words)
    ensures ClockFrom(Final(h, kind, ops), r, Final(h, kind, ops).store[r].policy, 0)
  {
    var n := |ops| - 1;
    var init, e, op := ops[..n], Final(h, kind, ops[..n]), ops[n];
    KindFixed(h, Empty(kind), init);
    RunsAreSafe(h, kind, init);
    if r in e.store {
      WordSizedPrefix(ops, n);
      StepGrows(h, e, Run(h, Empty(kind), init).1, op);
      ClocksInOrder(h, kind, init, r, words);
      StepKeepsClock(h, e, op, r, e.store[r].policy, 0, words);
    } else {
      NewRuleIsFresh(h, e, op, r);
    }
  }

  lemma NewRuleIsFresh(h: Keccak, e: Engine, op: Op, r: Hash)
    requires StatesSound(h, e.cache, e.store) && r !in e.store && r in Step(h, e, op).0.store
    ensures var e' := Step(h, e, op).0; ClockFrom(e', r, e'.store[r].policy, 0)
  {
    match op
    case Create(plaintext, now, io) =>
      if AdmitPolicy(plaintext, now).Ok? { InstallShape(h, e, AdmitPolicy(plaintext, now).value, io); }
    case Evaluate(q, now, snapshot, io) =>
      EvaluationOpens(h, e, q, now, snapshot, io);
      if Opens(h, e, q, now, io) {
        var s := Fetch(h, e, q.ruleId, io).state;
        var cached := e.(cache := e.cache[q.ruleId := s]);
        DecisionPersists(h, cached, s, q, now, snapshot, io);
        if CheckRequest(s, q, now, snapshot).Ok? {
          var g := Grant(q.eventHash, q.nonce, now, CheckRequest(s, q, now, snapshot).value);
          PersistLeaves(cached, s, q.ruleId, g, io);
        }
      }
    case Restart =>
  }

  /**
   * The clock a rule once showed in the cache is never undercut: not by a later cached clock, across any
   * restarts and failures, and not by the durable one.
   */
  lemma CachedClockNeverFalls(h: Keccak, kind: StoreKind, ops: seq<Op>, m: nat, r: Hash)
    requires Durable(kind, ops) && m <= |ops| && r in Final(h, kind, ops[..m]).cache
    requires NoCooldownWrap(Final(h, kind, ops[..m]).cache[r].policy)
    ensures var e, e' := Final(h, kind, ops[..m]), Final(h, kind, ops);
            && r in e'.store && e.cache[r].lastTriggered <= e'.store[r].lastTriggered
            && (r in e'.cache ==> e.cache[r].lastTriggered <= e'.cache[r].lastTriggered)
  {
    SteadyClockNeverFalls(h, kind, ops, m, r, false);
  }

  lemma SteadyClockNeverFalls(h: Keccak, kind: StoreKind, ops: seq<Op>, m: nat, r: Hash, words: bool)
    requires Durable(kind, ops) && m <= |ops| && r in Final(h, kind, ops[..m]).cache && (words ==> WordSized(ops))
    requires Steady(Final(h, kind, ops[..m]).cache[r].policy, words)
    ensures var e := Final(h, kind, ops[..m]);
            ClockFrom(Final(h, kind, ops), r, e.cache[r].policy, e.cache[r].lastTriggered)
  {
    var e := Final(h, kind, ops[..m]);
    RunsAreSafe(h, kind, ops[..m]);
    WordSizedPrefix(ops, m);
    ClocksInOrder(h, kind, ops[..m], r, words);
    assert ClockFrom(e, r, e.cache[r].policy, e.cache[r].lastTriggered);
    ClockKept(h, kind, ops, m, r, e.cache[r].policy, e.cache[r].lastTriggered, words);
  }

  // ---- exactly which policies keep the cached clock monotone ----

  /** The cached clock of the rule shows less at the end of the run than after m operations. */
  predicate Rewinds(h: Keccak, kind: StoreKind, p: NormalizedPolicy, ops: seq<Op>, m: nat)
    requires m <= |ops|
  {
    var e, e' := Final(h, kind, ops[..m]), Final(h, kind, ops);
    && p.ruleId in e.cache && e.cache[p.ruleId].policy == p && p.ruleId in e'.cache
    && e'.cache[p.ruleId].lastTriggered < e.cache[p.ruleId].lastTriggered
  }

  ghost predicate NeverRewinds(h: Keccak, kind: StoreKind, p: NormalizedPolicy) {
    forall ops, m :: WordSized(ops) && 0 <= m <= |ops| ==> !Rewinds(h, kind, p, ops, m)
  }

  /** A trigger in the policy's last second, whose cooldown wraps, and an earlier trigger after it. */
  function RewindingPair(p: NormalizedPolicy): seq<Grant> {
    var wrapped := AddU64(p.expiresAt, p.cooldownSeconds);
    [Grant(1, 0, p.expiresAt, p.thresholdUsd18 + 1),
     Grant(2, 1, if wrapped == 0 then 1 else wrapped, p.thresholdUsd18 + 1)]
  }

  lemma RewindingPairAccepted(h: Keccak, p: NormalizedPolicy)
    requires WellFormed(p) && !Steady(p, true)
    ensures Receivable(RewindingPair(p))
    ensures var s1, s2 := Replay(FreshState(h, p), RewindingPair(p), 1), Replay(FreshState(h, p), RewindingPair(p), 2);
            s1.Some? && s2.Some? && s2.value.lastTriggered < s1.value.lastTriggered
  {
    var s0, pair := FreshState(h, p), RewindingPair(p);
    assert Replay(s0, pair, 0) == Some(s0);
    var s1 := Apply(s0, pair[0]);
    assert Replay(s0, pair, 1) == Some(s1);
    assert AddU64(p.expiresAt, p.cooldownSeconds) == p.expiresAt + p.cooldownSeconds - U64;
    assert NewTrigger(s0, pair[0]) && NewTrigger(s1, pair[1]);
  }

  lemma RewindingPairRewinds(h: Keccak, kind: StoreKind, p: NormalizedPolicy)
    requires WellFormed(p) && !Steady(p, true)
    ensures !NeverRewinds(h, kind, p)
  {
    var pair := RewindingPair(p);
    var ops := Script(p, pair, 2);
    RewindingPairAccepted(h, p);
    HistoryAcknowledged(h, kind, p, pair, 1);
    HistoryAcknowledged(h, kind, p, pair, 2);
    PolicyFixed(FreshState(h, p), pair, 1);
    ScriptWordSized(p, pair, 2);
    assert ops[..2] == Script(p, pair, 1);
    assert Rewinds(h, kind, p, ops, 2);
  }

  /** A trigger, a restart, and the rule created again. */
  function Reborn(p: NormalizedPolicy): (ops: seq<Op>)
    requires p.thresholdUsd18 < U256 - 1
    ensures |ops| == 4
  {
    Script(p, [EarlyTrigger(p)], 1) + [Restart] + [CreateOp(p)]
  }

  function EarlyTrigger(p: NormalizedPolicy): Grant {
    Grant(1, 0, 1, p.thresholdUsd18 + 1)
  }

  /** Over the memory store a restart sets every clock back to zero. */
  lemma RebornClocks(h: Keccak, p: NormalizedPolicy)
    requires WellFormed(p) && CanTrigger(p)
    ensures var (e, e', s) := (Final(h, MemoryKind, Reborn(p)[..2]), Final(h, MemoryKind, Reborn(p)),
                               Apply(FreshState(h, p), EarlyTrigger(p)));
            Holds(e, p.ruleId, s) && s.lastTriggered == 1 && Holds(e', p.ruleId, FreshState(h, p))
  {
    var first, g := Script(p, [EarlyTrigger(p)], 1), EarlyTrigger(p);
    assert Reborn(p)[..2] == first;
    OneGrantAcknowledged(h, MemoryKind, p, g);
    CreationAcknowledged(h, MemoryKind, p);
    MemoryRestartSplits(h, first, [CreateOp(p)]);
    EarlyTriggerTriggers(h, p);
  }

  lemma EarlyTriggerTriggers(h: Keccak, p: NormalizedPolicy)
    requires WellFormed(p) && CanTrigger(p)
    ensures Admissible(FreshState(h, p), EarlyTrigger(p)) && Apply(FreshState(h, p), EarlyTrigger(p)).lastTriggered == 1
  {
    assert NewTrigger(FreshState(h, p), EarlyTrigger(p));
  }

  lemma RebornWordSized(p: NormalizedPolicy)
    requires CanTrigger(p)
    ensures WordSized(Reborn(p))
  {
    var first := Script(p, [EarlyTrigger(p)], 1);
    ScriptWordSized(p, [EarlyTrigger(p)], 1);
    forall i | 0 <= i < 2 ensures GrantOf(Reborn(p), i) == GrantOf(first, i) {}
  }

  lemma RestartRewinds(h: Keccak, p: NormalizedPolicy)
    requires WellFormed(p) && CanTrigger(p)
    ensures !NeverRewinds(h, MemoryKind, p)
  {
    RebornClocks(h, p);
    RebornWordSized(p);
    assert Rewinds(h, MemoryKind, p, Reborn(p), 2);
  }

  lemma {:induction false} ClockStaysZero(s0: RuleState, history: seq<Grant>, n: nat)
    requires s0.lastTriggered == 0 && !CanTrigger(s0.policy) && Receivable(history)
    requires n <= |history| && Replay(s0, history, n).Some?
    ensures Replay(s0, history, n).value.lastTriggered == 0
  {
    if n == 0 {
    } else {
      ClockStaysZero(s0, history, n - 1);
      NothingTriggers(s0, history, n - 1);
    }
  }

  /** A policy that never triggers never starts its clock, over either store. */
  lemma IdleClock(h: Keccak, kind: StoreKind, ops: seq<Op>, r: Hash)
    requires WordSized(ops) && r in Final(h, kind, ops).cache && !CanTrigger(Final(h, kind, ops).cache[r].policy)
    ensures Final(h, kind, ops).cache[r].lastTriggered == 0
  {
    RunsAreHistories(h, kind, ops);
    var s, entry := Final(h, kind, ops).cache[r], LedgerOf(h, kind, ops).cached[r];
    assert Traced(h, kind, ops, r, s, entry);
    forall k | 0 <= k < |entry| ensures Grants(ops, entry)[k].value < U256 { assert Wrote(kind, ops, r, entry[k]); }
    ClockStaysZero(FreshState(h, s.policy), Grants(ops, entry), |entry|);
  }

  lemma NoRewind(h: Keccak, kind: StoreKind, p: NormalizedPolicy, ops: seq<Op>, m: nat)
    requires WordSized(ops) && m <= |ops| && (!CanTrigger(p) || (kind.RedisKind? && Steady(p, true)))
    ensures !Rewinds(h, kind, p, ops, m)
  {
    if Rewinds(h, kind, p, ops, m) {
      if CanTrigger(p) {
        SteadyClockNeverFalls(h, kind, ops, m, p.ruleId, true);
      } else {
        WordSizedPrefix(ops, m);
        IdleClock(h, kind, ops[..m], p.ruleId);
      }
    }
  }

  /**
   * The cached clock of a policy's rule never runs backwards in any run exactly when the policy never
   * triggers, or the store is Redis and the cooldown's addition cannot wrap or the policy lives for one
   * second only.
   */
  lemma ClockMonotoneIff(h: Keccak, kind: StoreKind, p: NormalizedPolicy)
    requires WellFormed(p)
    ensures NeverRewinds(h, kind, p) <==>
            !CanTrigger(p) || (kind.RedisKind? && (NoCooldownWrap(p) || p.expiresAt == 1))
  {
    if !CanTrigger(p) || (kind.RedisKind? && Steady(p, true)) {
      forall ops, m | WordSized(ops) && 0 <= m <= |ops| ensures !Rewinds(h, kind, p, ops, m) {
        NoRewind(h, kind, p, ops, m);
      }
    } else if kind.RedisKind? {
      RewindingPairRewinds(h, kind, p);
    } else {
      RestartRewinds(h, p);
    }
  }

  // ---- exactly which environments keep the durable clock monotone ----

  /** The stored clock of a rule without cooldown wrap shows less at the end of the run than after m operations. */
  predicate DurablyRewinds(h: Keccak, kind: StoreKind, ops: seq<Op>, m: nat, r: Hash)
    requires m <= |ops|
  {
    var e, e' := Final(h, kind, ops[..m]), Final(h, kind, ops);
    && r in e.store && NoCooldownWrap(e.store[r].policy) && r in e'.store
    && e'.store[r].lastTriggered < e.store[r].lastTriggered
  }

  ghost predicate DurableClocksRise(h: Keccak, kind: StoreKind, permitted: set<Io>) {
    forall ops, m, r: Hash :: Permits(permitted, ops) && 0 <= m <= |ops| ==> !DurablyRewinds(h, kind, ops, m, r)
  }

  predicate NoLateFailure(permitted: set<Io>) {
    forall io :: io in permitted ==> !io.save.FailedAfter?
  }

  /** Every cached state is the durable one. */
  predicate Mirrors(e: Engine) {
    forall r :: r in e.cache ==> r in e.store && e.cache[r] == e.store[r]
  }

  lemma StepMirrors(h: Keccak, e: Engine, op: Op)
    requires Mirrors(e) && (op.Restart? || !op.io.save.FailedAfter?) && e.kind.RedisKind?
    ensures Mirrors(Step(h, e, op).0)
  {
    match op
    case Create(plaintext, now, io) =>
      if AdmitPolicy(plaintext, now).Ok? { CreationLeaves(h, e, AdmitPolicy(plaintext, now).value, io); }
    case Evaluate(q, now, snapshot, io) =>
      EvaluationOpens(h, e, q, now, snapshot, io);
      if Opens(h, e, q, now, io) {
        var s := Fetch(h, e, q.ruleId, io).state;
        var cached := e.(cache := e.cache[q.ruleId := s]);
        DecisionPersists(h, cached, s, q, now, snapshot, io);
        if CheckRequest(s, q, now, snapshot).Ok? {
          var g := Grant(q.eventHash, q.nonce, now, CheckRequest(s, q, now, snapshot).value);
          PersistLeaves(cached, s, q.ruleId, g, io);
        }
      }
    case Restart =>
  }

  lemma {:induction false} RunMirrors(h: Keccak, permitted: set<Io>, ops: seq<Op>)
    requires Permits(permitted, ops) && NoLateFailure(permitted)
    ensures Mirrors(Final(h, RedisKind, ops))
  {
    if ops == [] {
    } else {
      var init := ops[..|ops| - 1];
      RunMirrors(h, permitted, init);
      KindFixed(h, Empty(RedisKind), init);
      StepMirrors(h, Final(h, RedisKind, init), ops[|ops| - 1]);
    }
  }

  lemma NoDurableRewind(h: Keccak, permitted: set<Io>, ops: seq<Op>, m: nat, r: Hash)
    requires Permits(permitted, ops) && NoLateFailure(permitted) && m <= |ops|
    ensures !DurablyRewinds(h, RedisKind, ops, m, r)
  {
    var e := Final(h, RedisKind, ops[..m]);
    if r in e.store && NoCooldownWrap(e.store[r].policy) {
      RunMirrors(h, permitted, ops[..m]);
      ClocksInOrder(h, RedisKind, ops[..m], r, false);
      ClockKept(h, RedisKind, ops, m, r, e.store[r].policy, e.store[r].lastTriggered, false);
    }
  }

  /** An event that triggers late, with a save that fails after taking effect, and one that triggers early. */
  function LateOp(io: Io): Op {
    Evaluate(Request(1, 1, 1), 100, Some(Snapshot(1, Some(2), Some(1), 1, false)), io)
  }

  const EARLY_OP := Evaluate(Request(1, 2, 2), 50, Some(Snapshot(1, Some(2), Some(1), 1, false)), HEALTHY)

  lemma LateOpStored(h: Keccak, e: Engine, io: Io)
    requires e.kind.RedisKind? && Holds(e, 1, FreshState(h, ANY_POLICY)) && io.save.FailedAfter?
    ensures var e' := Step(h, e, LateOp(io)).0;
            && e'.kind == e.kind && e'.cache == e.cache
            && e'.store == map[1 := Apply(FreshState(h, ANY_POLICY), Grant(1, 1, 100, 2))]
            && e'.store[1].lastTriggered == 100 && e'.store[1].policy == ANY_POLICY
  {}

  lemma EarlyOpStored(h: Keccak, e: Engine)
    requires e.kind.RedisKind? && e.cache == map[1 := FreshState(h, ANY_POLICY)]
    ensures var e' := Step(h, e, EARLY_OP).0; 1 in e'.store && e'.store[1].lastTriggered == 50
  {}

  lemma LateFailureRewinds(h: Keccak, permitted: set<Io>, io: Io)
    requires HEALTHY in permitted && io in permitted && io.save.FailedAfter?
    ensures !DurableClocksRise(h, RedisKind, permitted)
  {
    var created := [CreateOp(ANY_POLICY)];
    CreationAcknowledged(h, RedisKind, ANY_POLICY);
    KindFixed(h, Empty(RedisKind), created);
    var e := Final(h, RedisKind, created);
    RunStep(h, Empty(RedisKind), created, LateOp(io));
    RunStep(h, Empty(RedisKind), created + [LateOp(io)], EARLY_OP);
    LateOpStored(h, e, io);
    EarlyOpStored(h, Step(h, e, LateOp(io)).0);
    var ops := created + [LateOp(io)] + [EARLY_OP];
    PermitsStep(permitted, created, LateOp(io));
    PermitsStep(permitted, created + [LateOp(io)], EARLY_OP);
    assert ops[..2] == created + [LateOp(io)];
    assert DurablyRewinds(h, RedisKind, ops, 2, 1);
  }

  lemma MemoryDurablyRewinds(h: Keccak, permitted: set<Io>)
    requires HEALTHY in permitted
    ensures !DurableClocksRise(h, MemoryKind, permitted)
  {
    RebornClocks(h, ANY_POLICY);
    var ops := Reborn(ANY_POLICY);
    assert Permits(permitted, ops);
    assert DurablyRewinds(h, MemoryKind, ops, 2, 1);
  }

  /**
   * Where requests can succeed at all, stored clocks of rules without cooldown wrap never run backwards
   * exactly when the store is Redis and no failed save takes effect.
   */
  lemma DurableClockIff(h: Keccak, kind: StoreKind, permitted: set<Io>)
    requires HEALTHY in permitted
    ensures DurableClocksRise(h, kind, permitted) <==> kind.RedisKind? && NoLateFailure(permitted)
  {
    if kind.MemoryKind? {
      MemoryDurablyRewinds(h, permitted);
    } else if io :| io in permitted && io.save.FailedAfter? {
      LateFailureRewinds(h, permitted, io);
    } else {
      forall ops, m, r: Hash | Permits(permitted, ops) && 0 <= m <= |ops| ensures !DurablyRewinds(h, kind, ops, m, r) {
        NoDurableRewind(h, permitted, ops, m, r);
      }
    }
  }
}
