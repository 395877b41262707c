/**
 * internal/extension/extension.go as a state machine over its locked sections.
 * Decoding, decryption and policy validation read no shared state, so an
 * interleaving of requests is a sequence of the steps below.
 */
module Machine {
  import opened Base
  import opened Numerals
  import opened DecisionCodec
  import opened Policy
  import opened Authorization

  const COSTON2_CHAIN_ID := 114

  /** The memory store never fails and trusts what it holds; Redis can fail and re-checks what it loads. */
  datatype StoreKind = MemoryKind | RedisKind

  /** How a durable write ends; only the first is acknowledged. */
  datatype SaveOutcome = Saved | FailedBefore | FailedAfter

  /** The environment's choices during one request. */
  datatype Io = Io(loadFails: bool, save: SaveOutcome)

  datatype LoadResult<+T> = Loaded(state: T) | Missing | LoadFailed

  datatype Engine = Engine(
    kind: StoreKind, cache: map<Hash, RuleState>, store: map<Hash, RuleState>,
    evaluations: nat, triggers: nat)

  /** `Evaluated` carries the ABI bytes the TEE signs. */
  datatype Reply =
    | Created(ruleId: Hash, commitment: Hash)
    | Evaluated(data: seq<byte>)
    | Rejected(error: Error)
    | Silent

  /** `None` plaintext: the request or the decrypted policy did not decode. */
  datatype Op =
    | Create(plaintext: Option<WirePolicy>, timestamp: uint64, io: Io)
    | Evaluate(request: Request, timestamp: uint64, snapshot: Option<Snapshot>, io: Io)
    | Restart

  function Empty(kind: StoreKind): Engine {
    Engine(kind, map[], map[], 0, 0)
  }

  // ---- the store, as its callers see it ----

  /** The binding Redis re-checks on every load. */
  predicate Bound(h: Keccak, r: Hash, s: RuleState) {
    s.commitment == Commitment(h, s.policy) && s.policy.ruleId == r
  }

  function Load(h: Keccak, kind: StoreKind, store: map<Hash, RuleState>, r: Hash, io: Io): LoadResult<RuleState> {
    if r == 0 || (kind.RedisKind? && io.loadFails) then LoadFailed
    else if r !in store then Missing
    else if kind.RedisKind? && !Bound(h, r, store[r]) then LoadFailed
    else Loaded(store[r])
  }

  function SaveResult(kind: StoreKind, r: Hash, s: RuleState, io: Io): SaveOutcome {
    if r == 0 || s.policy.ruleId != r then FailedBefore
    else if kind.MemoryKind? then Saved
    else io.save
  }

  // ---- CREATE_POLICY ----

  /** The part that runs outside the lock. */
  function AdmitPolicy(plaintext: Option<WirePolicy>, now: uint64): Result<NormalizedPolicy, Error> {
    match plaintext
    case None => Err(Undecodable)
    case Some(w) =>
      match NormalizePolicy(w)
      case Err(reason) => Err(InvalidPolicy(reason))
      case Ok(p) => if now > 0 && p.expiresAt <= now then Err(ExpiresInPast) else Ok(p)
  }

  function CreateStep(h: Keccak, e: Engine, plaintext: Option<WirePolicy>, now: uint64, io: Io): (Engine, Reply) {
    match AdmitPolicy(plaintext, now)
    case Err(x) => (e, Rejected(x))
    case Ok(p) => InstallPolicy(h, e, p, io)
  }

  /** The part that runs under the lock. */
  function InstallPolicy(h: Keccak, e: Engine, p: NormalizedPolicy, io: Io): (Engine, Reply) {
    if p.ruleId in e.cache then (e, Rejected(RuleExists))
    else
      match Load(h, e.kind, e.store, p.ruleId, io)
      case Loaded(_) => (e, Rejected(RuleExists))
      case LoadFailed => (e, Rejected(LoadFailure))
      case Missing =>
        var s := FreshState(h, p);
        match SaveResult(e.kind, p.ruleId, s, io)
        case FailedBefore => (e, Rejected(SaveFailure))
        case FailedAfter => (e.(store := e.store[p.ruleId := s]), Rejected(SaveFailure))
        case Saved =>
          (e.(cache := e.cache[p.ruleId := s], store := e.store[p.ruleId := s]), Created(p.ruleId, s.commitment))
  }

  // ---- EVALUATE_GUARD ----

  /** big.Int.String. */
  function Print(v: int): string {
    if v < 0 then "-" + Decimal(-v) else Decimal(v)
  }

  function DefaultZero(s: string): string {
    if s == "" then "0" else s
  }

  /** guardtypes.EvaluationResult; amounts travel as strings, empty when not triggered. */
  datatype EvaluationResult = EvaluationResult(
    ruleId: Hash, eventHash: Hash, triggered: bool, protectedUsd18: string, protectBps: uint16, scheduleId: uint32,
    eventValueUsd18: string, evaluatedAt: uint64, nonce: uint64, resultExpiry: uint64)

  function PublicResult(q: Request, now: uint64, value: int, a: EventAuthorization): EvaluationResult {
    EvaluationResult(q.ruleId, q.eventHash, a.triggered,
                     if a.triggered then Print(a.protectedUsd18) else "",
                     if a.triggered then a.protectBps else 0,
                     if a.triggered then a.scheduleId else 0,
                     Print(value), now, q.nonce, a.lastExpiry)
  }

  function ToDecision(h: Keccak, r: EvaluationResult, protectedUsd18: int, eventValueUsd18: int): FccDecision {
    FccDecision(Domain(h), r.ruleId, r.eventHash, r.triggered, protectedUsd18, r.protectBps, r.scheduleId,
                eventValueUsd18, r.evaluatedAt, r.nonce, r.resultExpiry)
  }

  function EvaluationResultHash(h: Keccak, r: EvaluationResult): Result<Hash, Error> {
    var protectedUsd18 := ParseUint256(DefaultZero(r.protectedUsd18), true);
    var value := ParseUint256(DefaultZero(r.eventValueUsd18), true);
    if protectedUsd18.None? || value.None? then Err(Unencodable)
    else
      match ResultHash(h, COSTON2_CHAIN_ID, ToDecision(h, r, protectedUsd18.value, value.value))
      case Err(_) => Err(Unencodable)
      case Ok(hash) => Ok(hash)
  }

  /** The work left after the state is committed: hash, re-parse, encode. */
  function Respond(h: Keccak, r: EvaluationResult, value: int): Reply {
    var protectedUsd18 := ParseUint256(DefaultZero(r.protectedUsd18), true);
    if EvaluationResultHash(h, r).Err? || protectedUsd18.None? then Rejected(Unencodable)
    else
      match Encode(h, ToDecision(h, r, protectedUsd18.value, value))
      case Err(_) => Rejected(Unencodable)
      case Ok(data) => Evaluated(data)
  }

  /** The rule's state: from the cache, or else from the store. */
  function Fetch(h: Keccak, e: Engine, r: Hash, io: Io): LoadResult<RuleState> {
    if r in e.cache then Loaded(e.cache[r]) else Load(h, e.kind, e.store, r, io)
  }

  function EvaluateStep(h: Keccak, e: Engine, q: Request, now: uint64, snapshot: Option<Snapshot>, io: Io)
    : (Engine, Reply)
  {
    if q.ruleId == 0 || q.eventHash == 0 then (e, Rejected(ZeroIds))
    else if now == 0 then (e, Rejected(ZeroTimestamp))
    else
      match Fetch(h, e, q.ruleId, io)
      case Missing => (e, Rejected(UnknownRule))
      case LoadFailed => (e, Rejected(LoadFailure))
      case Loaded(s) => DecideStep(h, e.(cache := e.cache[q.ruleId := s]), s, q, now, snapshot, io)
  }

  /** An evaluation from the cached state s on. */
  function DecideStep(h: Keccak, e: Engine, s: RuleState, q: Request, now: uint64, snapshot: Option<Snapshot>, io: Io)
    : (Engine, Reply)
  {
    match CheckRequest(s, q, now, snapshot)
    case Err(x) => (e, Rejected(x))
    case Ok(value) => CommitStep(h, e, s, q, Grant(q.eventHash, q.nonce, now, value), io)
  }

  /** The reply is computed only once the new state is saved. */
  function CommitStep(h: Keccak, e: Engine, s: RuleState, q: Request, g: Grant, io: Io): (Engine, Reply) {
    (Persist(e, s, q.ruleId, g, io),
     if SaveResult(e.kind, q.ruleId, Apply(s, g), io).Saved? then
       Respond(h, PublicResult(q, g.timestamp, g.value, Apply(s, g).authorizations[g.eventHash]), g.value)
     else Rejected(SaveFailure))
  }

  /** Cache, store and counters after the durable write of a granted evaluation. */
  function Persist(e: Engine, s: RuleState, r: Hash, g: Grant, io: Io): Engine {
    var s' := Apply(s, g);
    match SaveResult(e.kind, r, s', io)
    case FailedBefore => e
    case FailedAfter => e.(store := e.store[r := s'])
    case Saved =>
      e.(cache := e.cache[r := s'], store := e.store[r := s'],
         evaluations := e.evaluations + 1, triggers := e.triggers + if NewTrigger(s, g) then 1 else 0)
  }

  // ---- runs ----

  function Step(h: Keccak, e: Engine, op: Op): (Engine, Reply) {
    match op
    case Create(plaintext, now, io) => CreateStep(h, e, plaintext, now, io)
    case Evaluate(q, now, snapshot, io) => EvaluateStep(h, e, q, now, snapshot, io)
    case Restart => (Engine(e.kind, map[], if e.kind.MemoryKind? then map[] else e.store, 0, 0), Silent)
  }

  function Run(h: Keccak, e: Engine, ops: seq<Op>): (run: (Engine, seq<Reply>))
    ensures |run.1| == |ops|
  {
    if ops == [] then (e, [])
    else
      var (before, replies) := Run(h, e, ops[..|ops| - 1]);
      var (after, reply) := Step(h, before, ops[|ops| - 1]);
      (after, replies + [reply])
  }

  lemma {:induction false} RunStep(h: Keccak, e: Engine, ops: seq<Op>, op: Op)
    ensures var (before, replies) := Run(h, e, ops);
            var (after, reply) := Step(h, before, op);
            Run(h, e, ops + [op]) == (after, replies + [reply])
  {
    assert (ops + [op])[..|ops|] == ops;
  }

  function Final(h: Keccak, kind: StoreKind, ops: seq<Op>): Engine {
    Run(h, Empty(kind), ops).0
  }

  /** Step i of a run: the reply is the engine's answer to operation i after the operations before it. */
  lemma {:induction false} RunAt(h: Keccak, e: Engine, ops: seq<Op>, i: nat)
    requires i < |ops|
    ensures Run(h, e, ops).1[i] == Step(h, Run(h, e, ops[..i]).0, ops[i]).1
  {
    var n := |ops| - 1;
    var replies := Run(h, e, ops[..n]).1;
    assert Run(h, e, ops).1 == replies + [Step(h, Run(h, e, ops[..n]).0, ops[n]).1];
    if i == n {
    } else {
      assert ops[..n][..i] == ops[..i];
      RunAt(h, e, ops[..n], i);
    }
  }

  lemma {:induction false} KindFixed(h: Keccak, e: Engine, ops: seq<Op>)
    ensures Run(h, e, ops).0.kind == e.kind
  {
    if ops == [] {
    } else {
      KindFixed(h, e, ops[..|ops| - 1]);
      var before, op := Run(h, e, ops[..|ops| - 1]).0, ops[|ops| - 1];
      assert Step(h, before, op).0.kind == before.kind;
    }
  }

  /** The store outlives the process: it is Redis, or the process never restarts. */
  predicate Durable(kind: StoreKind, ops: seq<Op>) {
    kind.RedisKind? || Restart !in ops
  }
}
