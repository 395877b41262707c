/** What every run of the engine keeps, and what two acknowledged replies can never do. */
module Safety {
  import opened Base
  import opened Numerals
  import opened Abi
  import opened DecisionCodec
  import opened Policy
  import opened Authorization
  import opened Machine

  // ---- the invariant ----

  /** A state the engine could have written for rule r. */
  predicate Sound(h: Keccak, r: Hash, s: RuleState) {
    && r != 0
    && Bound(h, r, s)
    && WellFormed(s.policy)
    && forall event :: event in s.authorizations ==>
         0 <= s.authorizations[event].protectedUsd18 <= s.authorizations[event].eventValueUsd18
  }

  /** Two decisions say the same thing about an event; only nonce and window may differ. */
  predicate SameVerdict(d: FccDecision, d': FccDecision) {
    d' == d.(evaluatedAt := d'.evaluatedAt, nonce := d'.nonce, resultExpiry := d'.resultExpiry)
  }

  /** The decision that state s publishes for an event, up to nonce and evaluation time. */
  predicate Publishes(h: Keccak, s: RuleState, d: FccDecision) {
    && d.domain == Domain(h)
    && d.ruleId == s.policy.ruleId
    && d.eventHash in s.authorizations
    && var a := s.authorizations[d.eventHash];
       && d.triggered == a.triggered
       && d.eventValueUsd18 == a.eventValueUsd18
       && d.protectedUsd18 == (if a.triggered then a.protectedUsd18 else 0)
       && d.protectBps == (if a.triggered then a.protectBps else 0)
       && d.scheduleId == (if a.triggered then a.scheduleId else 0)
  }

  /** State s remembers that decision d was acknowledged. */
  predicate Remembers(h: Keccak, s: RuleState, d: FccDecision) {
    && Publishes(h, s, d)
    && 0 <= d.nonce < U64 && d.nonce in s.usedNonces
  }

  predicate StatesSound(h: Keccak, cache: map<Hash, RuleState>, store: map<Hash, RuleState>) {
    && (forall r :: r in store ==> Sound(h, r, store[r]))
    && (forall r :: r in cache ==> Sound(h, r, cache[r]) && r in store && cache[r].policy == store[r].policy)
  }

  /** Every copy of the rule's state remembers the decision. */
  predicate Kept(h: Keccak, e: Engine, d: FccDecision) {
    && d.ruleId in e.store && Remembers(h, e.store[d.ruleId], d)
    && (d.ruleId in e.cache ==> Remembers(h, e.cache[d.ruleId], d))
  }

  /** The decision a reply carries, as any consumer decodes it. */
  function DecisionOf(h: Keccak, reply: Reply): Option<FccDecision> {
    if reply.Evaluated? && Decode(h, Strict, reply.data).Ok? then Some(Decode(h, Strict, reply.data).value) else None
  }

  predicate Backed(h: Keccak, e: Engine, reply: Reply) {
    match reply
    case Created(r, c) => r in e.store && e.store[r].commitment == c
    case Evaluated(_) => DecisionOf(h, reply).Some? && Kept(h, e, DecisionOf(h, reply).value)
    case _ => true
  }

  /** Two acknowledged replies, the first one earlier. */
  predicate Compatible(h: Keccak, reply: Reply, reply': Reply) {
    && (reply.Created? && reply'.Created? ==> reply.ruleId != reply'.ruleId)
    && (DecisionOf(h, reply).Some? && DecisionOf(h, reply').Some? ==>
          CompatibleDecisions(DecisionOf(h, reply).value, DecisionOf(h, reply').value))
  }

  predicate CompatibleDecisions(d: FccDecision, d': FccDecision) {
    d.ruleId == d'.ruleId ==> d.nonce != d'.nonce && (d.eventHash == d'.eventHash ==> SameVerdict(d, d'))
  }

  predicate Invariant(h: Keccak, e: Engine, replies: seq<Reply>) {
    && StatesSound(h, e.cache, e.store)
    && (forall i :: 0 <= i < |replies| ==> Backed(h, e, replies[i]))
    && (forall i, j :: 0 <= i < j < |replies| ==> Compatible(h, replies[i], replies[j]))
  }

  // ---- one grant ----

  lemma CheckedIsAdmissible(s: RuleState, q: Request, now: uint64, snapshot: Option<Snapshot>)
    requires now > 0 && q.eventHash != 0 && CheckRequest(s, q, now, snapshot).Ok?
    ensures Admissible(s, Grant(q.eventHash, q.nonce, now, CheckRequest(s, q, now, snapshot).value))
  {}

  lemma ApplySound(h: Keccak, r: Hash, s: RuleState, g: Grant)
    requires Sound(h, r, s) && Admissible(s, g)
    ensures Sound(h, r, Apply(s, g)) && Apply(s, g).policy == s.policy
  {}

  lemma ApplyRemembers(h: Keccak, s: RuleState, g: Grant, d: FccDecision)
    requires Admissible(s, g) && Remembers(h, s, d)
    ensures Remembers(h, Apply(s, g), d)
  {}

  /** The decision a committed grant publishes. */
  function Verdict(h: Keccak, q: Request, now: uint64, value: int, a: EventAuthorization): FccDecision {
    FccDecision(Domain(h), q.ruleId, q.eventHash, a.triggered,
                if a.triggered then a.protectedUsd18 else 0,
                if a.triggered then a.protectBps else 0,
                if a.triggered then a.scheduleId else 0,
                value, now, q.nonce, a.lastExpiry)
  }

  /** Printing, re-parsing, hashing and encoding lose the answer exactly when the event value overflows a word. */
  lemma ResponseOf(h: Keccak, q: Request, now: uint64, value: nat, a: EventAuthorization)
    requires 0 <= a.protectedUsd18 <= value
    ensures Respond(h, PublicResult(q, now, value, a), value) ==
            if value < U256 then Evaluated(Pack(Fields(Verdict(h, q, now, value, a)))) else Rejected(Unencodable)
  {
    PrintedAmount(value);
    if value < U256 {
      DisclosedAmount(a);
      EncodedVerdict(h, q, now, value, a);
    }
  }

  lemma EncodedVerdict(h: Keccak, q: Request, now: uint64, value: uint256, a: EventAuthorization)
    requires 0 <= a.protectedUsd18 <= value
    requires var r := PublicResult(q, now, value, a);
             && ParseUint256(DefaultZero(r.eventValueUsd18), true) == Some(value)
             && ParseUint256(DefaultZero(r.protectedUsd18), true) == Some(Verdict(h, q, now, value, a).protectedUsd18)
    ensures Respond(h, PublicResult(q, now, value, a), value) == Evaluated(Pack(Fields(Verdict(h, q, now, value, a))))
  {
    var r, d := PublicResult(q, now, value, a), Verdict(h, q, now, value, a);
    assert ToDecision(h, r, d.protectedUsd18, value) == d;
  }

  lemma DisclosedAmount(a: EventAuthorization)
    requires IsUint256(a.protectedUsd18)
    ensures ParseUint256(DefaultZero(if a.triggered then Print(a.protectedUsd18) else ""), true) ==
            Some(if a.triggered then a.protectedUsd18 else 0)
  {
    PrintedAmount(a.protectedUsd18);
    PrintedAmount(0);
    assert Print(0) == "0";
  }

  /** What a signed reply says, and that the committed state remembers saying it. */
  lemma CommittedReply(h: Keccak, s: RuleState, q: Request, g: Grant)
    requires Sound(h, q.ruleId, s) && Admissible(s, g) && g.eventHash == q.eventHash && g.nonce == q.nonce
    ensures var s' := Apply(s, g);
            var a := s'.authorizations[g.eventHash];
            var reply := Respond(h, PublicResult(q, g.timestamp, g.value, a), g.value);
            var d := Verdict(h, q, g.timestamp, g.value, a);
            && (if g.value < U256 then reply.Evaluated? && DecisionOf(h, reply) == Some(d)
                else reply == Rejected(Unencodable))
            && Remembers(h, s', d)
  {
    ApplySound(h, q.ruleId, s, g);
    var a := Apply(s, g).authorizations[g.eventHash];
    ResponseOf(h, q, g.timestamp, g.value, a);
    if g.value < U256 {
      var d := Verdict(h, q, g.timestamp, g.value, a);
      DecodeInvertsEncode(h, Strict, Pack(Fields(d)), d);
    }
  }

  lemma PrintedAmount(v: nat)
    ensures Print(v) != ""
    ensures ParseUint256(Print(v), true) == if v < U256 then Some(v) else None
  {
    SetStringOfDecimal(v);
  }

  /** A grant from a state that remembers d is compatible with d. */
  lemma GrantCompatible(h: Keccak, s: RuleState, g: Grant, d: FccDecision, d': FccDecision)
    requires Admissible(s, g) && Remembers(h, s, d) && Remembers(h, Apply(s, g), d')
    requires d'.nonce == g.nonce && d'.eventHash == g.eventHash
    ensures CompatibleDecisions(d, d')
  {}

  // ---- one step ----

  /** No rule, policy or commitment ever leaves the store. */
  predicate Grows(before: map<Hash, RuleState>, after: map<Hash, RuleState>) {
    forall r :: r in before ==>
      r in after && after[r].policy == before[r].policy && after[r].commitment == before[r].commitment
  }

  lemma Extend(h: Keccak, e: Engine, e': Engine, replies: seq<Reply>, reply: Reply)
    requires Invariant(h, e, replies) && StatesSound(h, e'.cache, e'.store)
    requires forall i :: 0 <= i < |replies| ==> Backed(h, e', replies[i])
    requires forall i :: 0 <= i < |replies| ==> Compatible(h, replies[i], reply)
    requires Backed(h, e', reply)
    ensures Invariant(h, e', replies + [reply])
  {}

  lemma CreateKeeps(h: Keccak, e: Engine, replies: seq<Reply>, plaintext: Option<WirePolicy>, now: uint64, io: Io)
    requires Invariant(h, e, replies)
    ensures var (e', reply) := CreateStep(h, e, plaintext, now, io); Invariant(h, e', replies + [reply])
  {
    var admitted := AdmitPolicy(plaintext, now);
    if admitted.Ok? {
      AdmittedWellFormed(plaintext, now);
      InstallKeeps(h, e, replies, admitted.value, io);
    } else {
      SilentReply(h, e, replies, Rejected(admitted.error));
    }
  }

  lemma AdmittedWellFormed(plaintext: Option<WirePolicy>, now: uint64)
    requires AdmitPolicy(plaintext, now).Ok?
    ensures WellFormed(AdmitPolicy(plaintext, now).value)
  {
    AcceptedIffWellFormed(AdmitPolicy(plaintext, now).value);
  }

  lemma InstallKeeps(h: Keccak, e: Engine, replies: seq<Reply>, p: NormalizedPolicy, io: Io)
    requires Invariant(h, e, replies) && WellFormed(p)
    ensures var (e', reply) := InstallPolicy(h, e, p, io); Invariant(h, e', replies + [reply])
  {
    var (e', reply) := InstallPolicy(h, e, p, io);
    InstallEffect(h, e, p, io);
    forall i | 0 <= i < |replies| ensures Backed(h, e', replies[i]) && Compatible(h, replies[i], reply) {
      assert Backed(h, e, replies[i]);
      UntouchedBacks(h, e, e', replies[i]);
    }
    Extend(h, e, e', replies, reply);
  }

  /** The new state went nowhere, to the store alone, or to the store and the cache. */
  predicate Replaces(e: Engine, e': Engine, r: Hash, s': RuleState) {
    || (e'.store == e.store && e'.cache == e.cache)
    || (e'.store == e.store[r := s'] && e'.cache == e.cache)
    || (e'.store == e.store[r := s'] && e'.cache == e.cache[r := s'])
  }

  /** State s may replace the durable state of rule r. */
  predicate Replaceable(h: Keccak, store: map<Hash, RuleState>, r: Hash, s: RuleState) {
    Sound(h, r, s) && (r in store ==> store[r].policy == s.policy && store[r].commitment == s.commitment)
  }

  lemma StorePutSound(h: Keccak, cache: map<Hash, RuleState>, store: map<Hash, RuleState>, r: Hash, s: RuleState)
    requires StatesSound(h, cache, store) && Replaceable(h, store, r, s)
    ensures StatesSound(h, cache, store[r := s]) && Grows(store, store[r := s])
  {}

  lemma CachePutSound(h: Keccak, cache: map<Hash, RuleState>, store: map<Hash, RuleState>, r: Hash, s: RuleState)
    requires StatesSound(h, cache, store) && r in store && store[r] == s
    ensures StatesSound(h, cache[r := s], store)
  {}

  lemma PutSound(h: Keccak, cache: map<Hash, RuleState>, store: map<Hash, RuleState>, r: Hash, s: RuleState)
    requires StatesSound(h, cache, store) && Replaceable(h, store, r, s)
    ensures StatesSound(h, cache, store[r := s]) && StatesSound(h, cache[r := s], store[r := s])
    ensures Grows(store, store[r := s])
  {
    StorePutSound(h, cache, store, r, s);
    CachePutSound(h, cache, store[r := s], r, s);
  }

  lemma FreshSound(h: Keccak, p: NormalizedPolicy)
    requires WellFormed(p)
    ensures Sound(h, p.ruleId, FreshState(h, p))
  {}

  /** A creation adds at most one fresh rule, and is acknowledged only for a rule the store did not have. */
  lemma InstallEffect(h: Keccak, e: Engine, p: NormalizedPolicy, io: Io)
    requires StatesSound(h, e.cache, e.store) && WellFormed(p)
    ensures var (e', reply) := InstallPolicy(h, e, p, io);
            && StatesSound(h, e'.cache, e'.store)
            && (forall r :: r in e.store ==> r in e'.store && e'.store[r] == e.store[r])
            && (forall r :: r in e'.cache && r in e.store ==> r in e.cache && e'.cache[r] == e.cache[r])
            && (reply.Created? ==>
                  && reply.ruleId !in e.store && reply.ruleId in e'.store
                  && e'.store[reply.ruleId].commitment == reply.commitment)
            && (reply.Created? || reply.Rejected?)
  {
    InstallShape(h, e, p, io);
    if p.ruleId !in e.store {
      FreshSound(h, p);
      PutSound(h, e.cache, e.store, p.ruleId, FreshState(h, p));
    }
  }

  lemma InstallShape(h: Keccak, e: Engine, p: NormalizedPolicy, io: Io)
    ensures var (e', reply) := InstallPolicy(h, e, p, io);
            && e'.evaluations == e.evaluations && e'.triggers == e.triggers
            && (e' == e ||
                  (p.ruleId !in e.store && p.ruleId !in e.cache && Replaces(e, e', p.ruleId, FreshState(h, p))))
            && (reply.Rejected? ||
                  (reply == Created(p.ruleId, FreshState(h, p).commitment) && p.ruleId !in e.store
                   && e'.store == e.store[p.ruleId := FreshState(h, p)]))
  {}

  lemma UntouchedBacks(h: Keccak, e: Engine, e': Engine, reply: Reply)
    requires Backed(h, e, reply)
    requires forall r :: r in e.store ==> r in e'.store && e'.store[r] == e.store[r]
    requires forall r :: r in e'.cache && r in e.store ==> r in e.cache && e'.cache[r] == e.cache[r]
    ensures Backed(h, e', reply)
  {}

  /** Caching the stored copy changes no state and no promise. */
  lemma CachingKeeps(h: Keccak, e: Engine, replies: seq<Reply>, r: Hash, io: Io)
    requires Invariant(h, e, replies) && Fetch(h, e, r, io).Loaded?
    ensures var s := Fetch(h, e, r, io).state;
            Invariant(h, e.(cache := e.cache[r := s]), replies) && Sound(h, r, s)
  {
    var s := Fetch(h, e, r, io).state;
    var e' := e.(cache := e.cache[r := s]);
    FetchedSound(h, e, r, io);
    forall i | 0 <= i < |replies| ensures Backed(h, e', replies[i]) {
      CachingBacks(h, e, e', r, s, replies[i]);
    }
  }

  lemma CachingBacks(h: Keccak, e: Engine, e': Engine, r: Hash, s: RuleState, reply: Reply)
    requires Backed(h, e, reply) && r in e.store && (s == e.store[r] || (r in e.cache && s == e.cache[r]))
    requires e'.store == e.store && e'.cache == e.cache[r := s]
    ensures Backed(h, e', reply)
  {}

  lemma FetchedSound(h: Keccak, e: Engine, r: Hash, io: Io)
    requires StatesSound(h, e.cache, e.store) && Fetch(h, e, r, io).Loaded?
    ensures var s := Fetch(h, e, r, io).state;
            && Sound(h, r, s) && StatesSound(h, e.cache[r := s], e.store)
            && r in e.store && (s == e.store[r] || (r in e.cache && s == e.cache[r]))
  {}

  lemma CommitKeeps(h: Keccak, e: Engine, replies: seq<Reply>, q: Request, g: Grant, io: Io)
    requires Invariant(h, e, replies) && q.ruleId in e.cache
    requires Admissible(e.cache[q.ruleId], g) && g.eventHash == q.eventHash && g.nonce == q.nonce
    ensures var (e', reply) := CommitStep(h, e, e.cache[q.ruleId], q, g, io); Invariant(h, e', replies + [reply])
  {
    var r, s := q.ruleId, e.cache[q.ruleId];
    var (e', reply) := CommitStep(h, e, s, q, g, io);
    PersistEffect(h, e, r, g, io);
    CommittedReply(h, s, q, g);
    forall i | 0 <= i < |replies| ensures Backed(h, e', replies[i]) && Compatible(h, replies[i], reply) {
      assert Backed(h, e, replies[i]);
      CommitBacks(h, e, e', s, r, g, replies[i]);
      if DecisionOf(h, replies[i]).Some? && reply.Evaluated? {
        var d := DecisionOf(h, replies[i]).value;
        if d.ruleId == r { GrantCompatible(h, s, g, d, DecisionOf(h, reply).value); }
      }
    }
    Extend(h, e, e', replies, reply);
  }

  lemma PersistEffect(h: Keccak, e: Engine, r: Hash, g: Grant, io: Io)
    requires StatesSound(h, e.cache, e.store) && r in e.cache && Admissible(e.cache[r], g)
    ensures var s' := Apply(e.cache[r], g);
            var e' := Persist(e, e.cache[r], r, g, io);
            StatesSound(h, e'.cache, e'.store) && Grows(e.store, e'.store) && Replaces(e, e', r, s')
  {
    var s := e.cache[r];
    var s' := Apply(s, g);
    ApplySound(h, r, s, g);
    PutSound(h, e.cache, e.store, r, s');
    PersistShape(e, s, r, g, io);
  }

  lemma PersistShape(e: Engine, s: RuleState, r: Hash, g: Grant, io: Io)
    ensures Replaces(e, Persist(e, s, r, g, io), r, Apply(s, g))
  {}

  lemma CommitBacks(h: Keccak, e: Engine, e': Engine, s: RuleState, r: Hash, g: Grant, reply: Reply)
    requires StatesSound(h, e.cache, e.store) && r in e.cache && e.cache[r] == s
    requires Admissible(s, g) && Backed(h, e, reply)
    requires Replaces(e, e', r, Apply(s, g))
    ensures Backed(h, e', reply)
  {
    if reply.Evaluated? {
      var d := DecisionOf(h, reply).value;
      if d.ruleId == r { ApplyRemembers(h, s, g, d); }
    }
  }

  lemma EvaluateKeeps(h: Keccak, e: Engine, replies: seq<Reply>, q: Request, now: uint64,
                      snapshot: Option<Snapshot>, io: Io)
    requires Invariant(h, e, replies)
    ensures var (e', reply) := EvaluateStep(h, e, q, now, snapshot, io); Invariant(h, e', replies + [reply])
  {
    var (e', reply) := EvaluateStep(h, e, q, now, snapshot, io);
    var fetched := Fetch(h, e, q.ruleId, io);
    if q.ruleId != 0 && q.eventHash != 0 && now != 0 && fetched.Loaded? {
      CachingKeeps(h, e, replies, q.ruleId, io);
      var s := fetched.state;
      var cached := e.(cache := e.cache[q.ruleId := s]);
      if CheckRequest(s, q, now, snapshot).Ok? {
        CheckedIsAdmissible(s, q, now, snapshot);
        var g := Grant(q.eventHash, q.nonce, now, CheckRequest(s, q, now, snapshot).value);
        CommitKeeps(h, cached, replies, q, g, io);
      } else {
        SilentReply(h, cached, replies, reply);
      }
    } else {
      SilentReply(h, e, replies, reply);
    }
  }

  /** A refusal adds no promise. */
  lemma SilentReply(h: Keccak, e: Engine, replies: seq<Reply>, reply: Reply)
    requires Invariant(h, e, replies) && (reply.Rejected? || reply.Silent?)
    ensures Invariant(h, e, replies + [reply])
  {}

  // ---- all runs ----

  lemma StepKeeps(h: Keccak, e: Engine, replies: seq<Reply>, op: Op)
    requires Invariant(h, e, replies) && (e.kind.RedisKind? || !op.Restart?)
    ensures var (e', reply) := Step(h, e, op); Invariant(h, e', replies + [reply]) && e'.kind == e.kind
  {
    match op
    case Create(plaintext, now, io) => CreateKeeps(h, e, replies, plaintext, now, io);
    case Evaluate(q, now, snapshot, io) => EvaluateKeeps(h, e, replies, q, now, snapshot, io);
    case Restart => RestartKeeps(h, e, replies);
  }

  lemma RestartKeeps(h: Keccak, e: Engine, replies: seq<Reply>)
    requires Invariant(h, e, replies) && e.kind.RedisKind?
    ensures Invariant(h, Step(h, e, Restart).0, replies + [Silent])
  {
    var e' := Step(h, e, Restart).0;
    forall i | 0 <= i < |replies| ensures Backed(h, e', replies[i]) {
      assert Backed(h, e, replies[i]);
    }
    SilentReply(h, e', replies, Silent);
  }

  /** Everything the engine knows and has said stays consistent, over every run from an empty store. */
  lemma {:induction false} RunsAreSafe(h: Keccak, kind: StoreKind, ops: seq<Op>)
    requires Durable(kind, ops)
    ensures var (e, replies) := Run(h, Empty(kind), ops); Invariant(h, e, replies) && e.kind == kind
  {
    if ops == [] {
    } else {
      var init, op := ops[..|ops| - 1], ops[|ops| - 1];
      RunsAreSafe(h, kind, init);
      StepKeeps(h, Run(h, Empty(kind), init).0, Run(h, Empty(kind), init).1, op);
    }
  }

  /** Every state of every run is sound, over either store and across any restarts. */
  lemma {:induction false} StatesAlwaysSound(h: Keccak, kind: StoreKind, ops: seq<Op>)
    ensures StatesSound(h, Final(h, kind, ops).cache, Final(h, kind, ops).store)
  {
    if ops == [] {
    } else {
      var init, op := ops[..|ops| - 1], ops[|ops| - 1];
      StatesAlwaysSound(h, kind, init);
      if !op.Restart? { StepKeeps(h, Final(h, kind, init), [], op); }
    }
  }
}
