/** Restarts of the process are invisible: cache plus store is one map from rules to states. */
module Restarts {
  import opened Base
  import opened Policy
  import opened Authorization
  import opened Machine
  import opened Safety
  import opened Scripts

  // ---- the engine without a cache ----

  function RulesCreate(h: Keccak, rules: map<Hash, RuleState>, p: NormalizedPolicy, saved: bool)
    : (map<Hash, RuleState>, Reply)
  {
    if p.ruleId in rules then (rules, Rejected(RuleExists))
    else if !saved then (rules, Rejected(SaveFailure))
    else (rules[p.ruleId := FreshState(h, p)], Created(p.ruleId, Commitment(h, p)))
  }

  function RulesEvaluate(h: Keccak, rules: map<Hash, RuleState>, q: Request, now: uint64, snapshot: Option<Snapshot>,
                         saved: bool)
    : (map<Hash, RuleState>, Reply)
  {
    if q.ruleId == 0 || q.eventHash == 0 then (rules, Rejected(ZeroIds))
    else if now == 0 then (rules, Rejected(ZeroTimestamp))
    else if q.ruleId !in rules then (rules, Rejected(UnknownRule))
    else
      match CheckRequest(rules[q.ruleId], q, now, snapshot)
      case Err(x) => (rules, Rejected(x))
      case Ok(value) =>
        var s' := Apply(rules[q.ruleId], Grant(q.eventHash, q.nonce, now, value));
        if !saved then (rules, Rejected(SaveFailure))
        else (rules[q.ruleId := s'], Respond(h, PublicResult(q, now, value, s'.authorizations[q.eventHash]), value))
  }

  function RulesStep(h: Keccak, rules: map<Hash, RuleState>, op: Op): (map<Hash, RuleState>, Reply) {
    match op
    case Create(plaintext, now, io) =>
      (match AdmitPolicy(plaintext, now)
       case Err(x) => (rules, Rejected(x))
       case Ok(p) => RulesCreate(h, rules, p, io.save.Saved?))
    case Evaluate(q, now, snapshot, io) => RulesEvaluate(h, rules, q, now, snapshot, io.save.Saved?)
    case Restart => (rules, Silent)
  }

  function RulesRun(h: Keccak, ops: seq<Op>): (run: (map<Hash, RuleState>, seq<Reply>))
    ensures |run.1| == |ops|
  {
    if ops == [] then (map[], [])
    else
      var (before, replies) := RulesRun(h, ops[..|ops| - 1]);
      var (after, reply) := RulesStep(h, before, ops[|ops| - 1]);
      (after, replies + [reply])
  }

  /** Loads succeed, and a failed save has no effect. */
  predicate CleanIo(io: Io) {
    !io.loadFails && !io.save.FailedAfter?
  }

  predicate Clean(op: Op) {
    op.Restart? || CleanIo(op.io)
  }

  /** The durable store is the rule map; the cache is a part of it. */
  predicate Refines(e: Engine, rules: map<Hash, RuleState>) {
    e.kind.RedisKind? && e.store == rules && forall r :: r in e.cache ==> r in rules && e.cache[r] == rules[r]
  }

  lemma StepRefines(h: Keccak, e: Engine, rules: map<Hash, RuleState>, op: Op)
    requires Refines(e, rules) && StatesSound(h, e.cache, e.store) && Clean(op)
    ensures var ((e', reply), (rules', reply')) := (Step(h, e, op), RulesStep(h, rules, op));
            Refines(e', rules') && reply == reply'
  {
    match op
    case Create(plaintext, now, io) =>
      if AdmitPolicy(plaintext, now).Ok? {
        AdmittedWellFormed(plaintext, now);
        InstallRefines(h, e, rules, AdmitPolicy(plaintext, now).value, io);
      }
    case Evaluate(q, now, snapshot, io) =>
      if q.ruleId != 0 && q.ruleId in rules { EvaluateRefines(h, e, rules, q, now, snapshot, io); }
    case Restart =>
  }

  lemma InstallRefines(h: Keccak, e: Engine, rules: map<Hash, RuleState>, p: NormalizedPolicy, io: Io)
    requires Refines(e, rules) && StatesSound(h, e.cache, e.store) && WellFormed(p)
    requires CleanIo(io)
    ensures var ((e', reply), (rules', reply')) :=
        (InstallPolicy(h, e, p, io), RulesCreate(h, rules, p, io.save.Saved?));
            Refines(e', rules') && reply == reply'
  {
    if p.ruleId in rules { assert Sound(h, p.ruleId, rules[p.ruleId]); }
  }

  lemma EvaluateRefines(h: Keccak, e: Engine, rules: map<Hash, RuleState>, q: Request, now: uint64,
                        snapshot: Option<Snapshot>, io: Io)
    requires Refines(e, rules) && StatesSound(h, e.cache, e.store)
    requires q.ruleId in rules && CleanIo(io)
    ensures var ((e', reply), (rules', reply')) :=
              (EvaluateStep(h, e, q, now, snapshot, io), RulesEvaluate(h, rules, q, now, snapshot, io.save.Saved?));
            Refines(e', rules') && reply == reply'
  {
    assert Sound(h, q.ruleId, rules[q.ruleId]);
    assert Fetch(h, e, q.ruleId, io) == Loaded(rules[q.ruleId]);
    if q.eventHash != 0 && now != 0 {
      DecideRefines(h, e.(cache := e.cache[q.ruleId := rules[q.ruleId]]), rules, q, now, snapshot, io);
    }
  }

  lemma DecideRefines(h: Keccak, e: Engine, rules: map<Hash, RuleState>, q: Request, now: uint64,
                      snapshot: Option<Snapshot>, io: Io)
    requires Refines(e, rules) && q.ruleId in rules && Sound(h, q.ruleId, rules[q.ruleId]) && CleanIo(io)
    requires q.eventHash != 0 && now != 0
    ensures var ((e', reply), (rules', reply')) :=
              (DecideStep(h, e, rules[q.ruleId], q, now, snapshot, io),
               RulesEvaluate(h, rules, q, now, snapshot, io.save.Saved?));
            Refines(e', rules') && reply == reply'
  {}

  /** However often the process restarts, it answers as the single rule map does, and leaves that map in the store. */
  lemma {:induction false} EngineRefinesRules(h: Keccak, ops: seq<Op>)
    requires forall op :: op in ops ==> Clean(op)
    ensures var ((e, replies), (rules, replies')) := (Run(h, Empty(RedisKind), ops), RulesRun(h, ops));
            Refines(e, rules) && replies == replies'
  {
    if ops == [] {
    } else {
      var init := ops[..|ops| - 1];
      EngineRefinesRules(h, init);
      RunsAreSafe(h, RedisKind, init);
      StepRefines(h, Run(h, Empty(RedisKind), init).0, RulesRun(h, init).0, ops[|ops| - 1]);
    }
  }

  // ---- with and without restarts ----

  function WithoutRestarts(ops: seq<Op>): seq<Op> {
    if ops == [] then []
    else WithoutRestarts(ops[..|ops| - 1]) + if ops[|ops| - 1].Restart? then [] else [ops[|ops| - 1]]
  }

  /** The replies to everything but restarts. */
  function Heard(ops: seq<Op>, replies: seq<Reply>): seq<Reply>
    requires |ops| == |replies|
  {
    if ops == [] then []
    else Heard(ops[..|ops| - 1], replies[..|ops| - 1]) + if ops[|ops| - 1].Restart? then [] else [replies[|ops| - 1]]
  }

  lemma {:induction false} HeardStep(ops: seq<Op>, replies: seq<Reply>, op: Op, reply: Reply)
    requires |ops| == |replies|
    ensures WithoutRestarts(ops + [op]) == if op.Restart? then WithoutRestarts(ops) else WithoutRestarts(ops) + [op]
    ensures Heard(ops + [op], replies + [reply]) ==
            if op.Restart? then Heard(ops, replies) else Heard(ops, replies) + [reply]
  {
    assert (ops + [op])[..|ops|] == ops && (replies + [reply])[..|ops|] == replies;
    var requests, heard := WithoutRestarts(ops), Heard(ops, replies);
    assert requests + [] == requests && heard + [] == heard;
  }

  lemma {:induction false} RulesRunStep(h: Keccak, ops: seq<Op>, op: Op)
    ensures var (rules, replies) := RulesRun(h, ops);
            var (rules', reply) := RulesStep(h, rules, op);
            RulesRun(h, ops + [op]) == (rules', replies + [reply])
  {
    assert (ops + [op])[..|ops|] == ops;
  }

  lemma {:induction false} RequestsKept(ops: seq<Op>)
    ensures forall op :: op in WithoutRestarts(ops) ==> op in ops
  {
    if ops == [] {
    } else {
      RequestsKept(ops[..|ops| - 1]);
    }
  }

  lemma {:induction false} RulesIgnoreRestarts(h: Keccak, ops: seq<Op>)
    ensures RulesRun(h, WithoutRestarts(ops)) == (RulesRun(h, ops).0, Heard(ops, RulesRun(h, ops).1))
  {
    if ops == [] {
    } else {
      var init, op := ops[..|ops| - 1], ops[|ops| - 1];
      assert ops == init + [op];
      RulesIgnoreRestarts(h, init);
      RulesIgnoreStep(h, init, op);
    }
  }

  lemma {:induction false} RulesIgnoreStep(h: Keccak, ops: seq<Op>, op: Op)
    requires RulesRun(h, WithoutRestarts(ops)) == (RulesRun(h, ops).0, Heard(ops, RulesRun(h, ops).1))
    ensures RulesRun(h, WithoutRestarts(ops + [op]))
        == (RulesRun(h, ops + [op]).0, Heard(ops + [op], RulesRun(h, ops + [op]).1))
  {
    var (rules, replies) := RulesRun(h, ops);
    RulesRunStep(h, ops, op);
    HeardStep(ops, replies, op, RulesStep(h, rules, op).1);
    if op.Restart? {
    } else {
      RulesRunStep(h, WithoutRestarts(ops), op);
    }
  }

  /**
   * Restarts inserted anywhere in a request sequence change no reply and no durable state, as long as
   * loads succeed and no failed save takes effect behind the engine's back.
   */
  lemma {:induction false} RestartsInvisible(h: Keccak, ops: seq<Op>)
    requires forall op :: op in ops ==> Clean(op)
    ensures var ((e, replies), (e', replies')) :=
        (Run(h, Empty(RedisKind), ops), Run(h, Empty(RedisKind), WithoutRestarts(ops)));
            e.store == e'.store && Heard(ops, replies) == replies'
  {
    EngineRefinesRules(h, ops);
    RulesIgnoreRestarts(h, ops);
    RequestsKept(ops);
    EngineRefinesRules(h, WithoutRestarts(ops));
  }

  // ---- exactly which environments hide restarts ----

  predicate Permits(permitted: set<Io>, ops: seq<Op>) {
    forall i :: 0 <= i < |ops| ==> ops[i].Restart? || ops[i].io in permitted
  }

  /** The caller hears the same replies as from a process that never restarted. */
  predicate Unnoticed(h: Keccak, kind: StoreKind, ops: seq<Op>) {
    Heard(ops, Run(h, Empty(kind), ops).1) == Run(h, Empty(kind), WithoutRestarts(ops)).1
  }

  /** In an environment with these outcomes only, no run shows its caller that the process restarted. */
  ghost predicate HidesRestarts(h: Keccak, kind: StoreKind, permitted: set<Io>) {
    forall ops :: Permits(permitted, ops) ==> Unnoticed(h, kind, ops)
  }

  predicate RestartFree(ops: seq<Op>) {
    forall i :: 0 <= i < |ops| ==> !ops[i].Restart?
  }

  lemma {:induction false} NoRestarts(ops: seq<Op>, replies: seq<Reply>)
    requires RestartFree(ops) && |ops| == |replies|
    ensures WithoutRestarts(ops) == ops && Heard(ops, replies) == replies
  {
    if ops == [] {
    } else {
      var n := |ops| - 1;
      var init, op, heard, reply := ops[..n], ops[n], replies[..n], replies[n];
      assert ops == init + [op] && replies == heard + [reply];
      NoRestarts(init, heard);
      HeardStep(init, heard, op, reply);
    }
  }

  lemma {:induction false} HeardRestarted(ops: seq<Op>, op: Op, replies: seq<Reply>, reply: Reply)
    requires |ops| == |replies| && RestartFree(ops) && !op.Restart?
    ensures WithoutRestarts(ops + [Restart] + [op]) == ops + [op]
    ensures Heard(ops + [Restart] + [op], replies + [Silent] + [reply]) == replies + [reply]
  {
    NoRestarts(ops, replies);
    HeardStep(ops, replies, Restart, Silent);
    HeardStep(ops + [Restart], replies + [Silent], op, reply);
  }

  /** The two runs to compare: a request after a restart, and without it. */
  lemma {:induction false} RestartedReplies(h: Keccak, e0: Engine, ops: seq<Op>, op: Op)
    ensures var (e, replies) := Run(h, e0, ops);
            && Run(h, e0, ops + [op]).1 == replies + [Step(h, e, op).1]
            && Run(h, e0, ops + [Restart] + [op]).1 == replies + [Silent] + [Step(h, Step(h, e, Restart).0, op).1]
  {
    RunStep(h, e0, ops, op);
    RunStep(h, e0, ops, Restart);
    RunStep(h, e0, ops + [Restart], op);
  }

  lemma LastDiffers<T>(xs: seq<T>, x: T, y: T)
    requires xs + [x] == xs + [y]
    ensures x == y
  {
    assert (xs + [x])[|xs|] == (xs + [y])[|xs|];
  }

  /** The engine would answer op differently had it just restarted. */
  predicate Betrays(h: Keccak, e: Engine, op: Op) {
    Step(h, e, op).1 != Step(h, Step(h, e, Restart).0, op).1
  }

  /** A request answered differently by a restarted process gives the restart away. */
  lemma {:induction false} RestartShows(h: Keccak, kind: StoreKind, ops: seq<Op>, op: Op)
    requires RestartFree(ops) && !op.Restart?
    requires Betrays(h, Run(h, Empty(kind), ops).0, op)
    ensures !Unnoticed(h, kind, ops + [Restart] + [op])
  {
    var e0 := Empty(kind);
    var (e, replies) := Run(h, e0, ops);
    RestartedReplies(h, e0, ops, op);
    SameUnlessNoticed(h, kind, ops, op, replies, Step(h, e, op).1, Step(h, Step(h, e, Restart).0, op).1);
  }

  lemma {:induction false} SameUnlessNoticed(h: Keccak, kind: StoreKind, ops: seq<Op>, op: Op, replies: seq<Reply>,
                                             reply: Reply, reply': Reply)
    requires RestartFree(ops) && !op.Restart? && |replies| == |ops|
    requires Run(h, Empty(kind), ops + [op]).1 == replies + [reply]
    requires Run(h, Empty(kind), ops + [Restart] + [op]).1 == replies + [Silent] + [reply']
    ensures Unnoticed(h, kind, ops + [Restart] + [op]) ==> reply == reply'
  {
    HeardRestarted(ops, op, replies, reply');
    if Unnoticed(h, kind, ops + [Restart] + [op]) { LastDiffers(replies, reply, reply'); }
  }

  function AnyRequest(io: Io): Op {
    Evaluate(Request(1, ANY_GRANT.eventHash, ANY_GRANT.nonce), 1, Some(Snapshot(1, Some(1), Some(1), 1, false)), io)
  }

  /** A failing load is met only by a process that has forgotten the rule. */
  lemma FailedLoadDiffers(h: Keccak, e: Engine, io: Io)
    requires e.kind.RedisKind? && Holds(e, 1, FreshState(h, ANY_POLICY)) && io.loadFails
    ensures Betrays(h, e, AnyRequest(io))
  {}

  /** A save that failed after taking effect is seen only by a process that re-reads the store. */
  lemma LateFailureDiffers(h: Keccak, e: Engine, io: Io)
    requires e.kind.RedisKind? && Holds(e, 1, FreshState(h, ANY_POLICY)) && !io.loadFails && io.save.FailedAfter?
    ensures Betrays(h, Step(h, e, AnyRequest(io)).0, AnyRequest(HEALTHY))
  {
    var s0 := FreshState(h, ANY_POLICY);
    ApplySound(h, 1, s0, ANY_GRANT);
    var e' := Step(h, e, AnyRequest(io)).0;
    assert e'.cache == map[1 := s0] && e'.store == map[1 := Apply(s0, ANY_GRANT)];
    assert Step(h, Step(h, e', Restart).0, AnyRequest(HEALTHY)).1 == Rejected(NonceReplay);
  }

  lemma PermitsStep(permitted: set<Io>, ops: seq<Op>, op: Op)
    requires Permits(permitted, ops) && (op.Restart? || op.io in permitted)
    ensures Permits(permitted, ops + [op])
  {}

  predicate Allowed(permitted: set<Io>, op: Op) {
    !op.Restart? && op.io in permitted
  }

  lemma {:induction false} BetrayalShows(h: Keccak, kind: StoreKind, permitted: set<Io>, ops: seq<Op>, op: Op)
    requires RestartFree(ops) && Permits(permitted, ops) && Allowed(permitted, op)
    requires Betrays(h, Run(h, Empty(kind), ops).0, op)
    ensures !HidesRestarts(h, kind, permitted)
  {
    RestartShows(h, kind, ops, op);
    PermitsStep(permitted, ops, Restart);
    PermitsStep(permitted, ops + [Restart], op);
  }

  lemma {:induction false} LaterBetrayalShows(h: Keccak, kind: StoreKind, permitted: set<Io>, ops: seq<Op>, first: Op,
                                              op: Op)
    requires RestartFree(ops) && Permits(permitted, ops) && Allowed(permitted, first) && Allowed(permitted, op)
    requires Betrays(h, Step(h, Run(h, Empty(kind), ops).0, first).0, op)
    ensures !HidesRestarts(h, kind, permitted)
  {
    RunStep(h, Empty(kind), ops, first);
    PermitsStep(permitted, ops, first);
    BetrayalShows(h, kind, permitted, ops + [first], op);
  }

  lemma UncleanShows(h: Keccak, permitted: set<Io>, io: Io)
    requires HEALTHY in permitted && io in permitted && !CleanIo(io)
    ensures !HidesRestarts(h, RedisKind, permitted)
  {
    CreationAcknowledged(h, RedisKind, ANY_POLICY);
    var ops := [CreateOp(ANY_POLICY)];
    var e := Run(h, Empty(RedisKind), ops).0;
    KindFixed(h, Empty(RedisKind), ops);
    if io.loadFails {
      FailedLoadDiffers(h, e, io);
      BetrayalShows(h, RedisKind, permitted, ops, AnyRequest(io));
    } else {
      LateFailureDiffers(h, e, io);
      LaterBetrayalShows(h, RedisKind, permitted, ops, AnyRequest(io), AnyRequest(HEALTHY));
    }
  }

  /** A process that has lost its memory store does not know the rule. */
  lemma ForgottenRuleDiffers(h: Keccak, e: Engine)
    requires e.kind.MemoryKind? && Holds(e, 1, FreshState(h, ANY_POLICY)) && Sound(h, 1, FreshState(h, ANY_POLICY))
    ensures Betrays(h, e, AnyRequest(HEALTHY))
  {
    assert Step(h, Step(h, e, Restart).0, AnyRequest(HEALTHY)).1 == Rejected(UnknownRule);
    assert AnyRequest(HEALTHY) == GrantOp(1, ANY_GRANT);
    GrantAcknowledged(h, e, 1, FreshState(h, ANY_POLICY), ANY_GRANT);
  }

  lemma MemoryShows(h: Keccak, permitted: set<Io>)
    requires HEALTHY in permitted
    ensures !HidesRestarts(h, MemoryKind, permitted)
  {
    CreationAcknowledged(h, MemoryKind, ANY_POLICY);
    var ops := [CreateOp(ANY_POLICY)];
    KindFixed(h, Empty(MemoryKind), ops);
    ForgottenRuleDiffers(h, Run(h, Empty(MemoryKind), ops).0);
    BetrayalShows(h, MemoryKind, permitted, ops, AnyRequest(HEALTHY));
  }

  /**
   * Where requests can succeed at all, restarts stay hidden in every run exactly when the store is Redis,
   * every load succeeds and every failed save has no effect.
   */
  lemma RestartsHiddenIff(h: Keccak, kind: StoreKind, permitted: set<Io>)
    requires HEALTHY in permitted
    ensures HidesRestarts(h, kind, permitted) <==> kind.RedisKind? && forall io :: io in permitted ==> CleanIo(io)
  {
    if kind.MemoryKind? {
      MemoryShows(h, permitted);
    } else if io :| io in permitted && !CleanIo(io) {
      UncleanShows(h, permitted, io);
    } else {
      forall ops | Permits(permitted, ops) ensures Unnoticed(h, kind, ops) { RestartsInvisible(h, ops); }
    }
  }
}
