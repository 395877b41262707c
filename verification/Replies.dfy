/** One step of a run, seen from its caller: what a refusal leaves behind, and that no answer is lost. */
module Replies {
  import opened Base
  import opened Numerals
  import opened DecisionCodec
  import opened Authorization
  import opened Machine
  import opened Safety

  // ---- consumption.go: the snapshot as GuardManager's return data spells it ----

  /** GetSnapshot on the two return values: six words and one. uint64 fields keep the low 64 bits. */
  function GetSnapshot(snapshotOut: seq<byte>, consumedOut: seq<byte>): Option<Snapshot> {
    if |snapshotOut| != 192 || |consumedOut| != 32 then None
    else
      Some(Snapshot(Abi.WordOf(snapshotOut[0..32]), Some(Value(snapshotOut[32..64])), Some(Value(snapshotOut[64..96])),
                    Value(snapshotOut[160..192]) % U64, Value(consumedOut) != 0))
  }

  /** The snapshot words and the consumed word, each in its field; the fourth and fifth are timestamps nobody uses. */
  lemma SnapshotDecoded(r: uint256, v: uint256, p: uint256, t: uint256, u: uint256, m: uint256, c: uint256)
    ensures GetSnapshot(Abi.Pack([r, v, p, t, u, m]), Abi.WordBytes(c)) ==
            Some(Snapshot(r, Some(v), Some(p), m % U64, c != 0))
  {
    var ws := [r, v, p, t, u, m];
    var data := Abi.Pack(ws);
    forall i | 0 <= i < 6 ensures Abi.WordAt(data, i) == ws[i] {
      Abi.WordsOfPack(ws);
      Abi.WordsInPlace(data, i);
    }
    assert Abi.WordAt(data, 0) == r && Abi.WordAt(data, 1) == v && Abi.WordAt(data, 2) == p && Abi.WordAt(data, 5) == m;
    Abi.WordRoundTrip(c);
  }

  /** Return data of any other length is refused. */
  lemma SnapshotLengths(snapshotOut: seq<byte>, consumedOut: seq<byte>)
    ensures GetSnapshot(snapshotOut, consumedOut).Some? <==> |snapshotOut| == 6 * 32 && |consumedOut| == 32
  {}

  /** Every amount decoded from a word fits a word. */
  lemma SnapshotFits(snapshotOut: seq<byte>, consumedOut: seq<byte>)
    requires GetSnapshot(snapshotOut, consumedOut).Some?
    ensures var v := GetSnapshot(snapshotOut, consumedOut).value.eventValueUsd18; v.Some? && 0 <= v.value < U256
  {
    BigEndianOfValue(snapshotOut[32..64]);
    WordRange();
  }

  // ---- after the commit ----

  /** The evaluation was saved and counted. */
  predicate Committed(e: Engine, e': Engine) {
    e'.evaluations == e.evaluations + 1
  }

  /** A saved evaluation is answered exactly when its event value fits a word, and only saved ones are. */
  lemma {:induction false} AnsweredIff(h: Keccak, kind: StoreKind, ops: seq<Op>, q: Request, now: uint64,
                                      snapshot: Option<Snapshot>, io: Io)
    ensures var e := Run(h, Empty(kind), ops).0;
            var (e', reply) := EvaluateStep(h, e, q, now, snapshot, io);
            && (reply.Evaluated? ==> Committed(e, e'))
            && (Committed(e, e') ==>
                  && snapshot.Some? && snapshot.value.eventValueUsd18.Some?
                  && (reply.Evaluated? <==> snapshot.value.eventValueUsd18.value < U256))
  {
    StatesAlwaysSound(h, kind, ops);
    var e := Run(h, Empty(kind), ops).0;
    if q.ruleId != 0 && q.eventHash != 0 && now != 0 && Fetch(h, e, q.ruleId, io).Loaded? {
      DecisionReply(h, e, q, now, snapshot, io);
    }
  }

  /** The decision a signed evaluation carries: the request's own binding, time and 600-second window. */
  predicate Matches(h: Keccak, d: FccDecision, q: Request, now: uint64, value: int) {
    && d.domain == Domain(h) && d.ruleId == q.ruleId && d.eventHash == q.eventHash && d.nonce == q.nonce
    && d.eventValueUsd18 == value && d.evaluatedAt == now && d.resultExpiry == AddU64(now, RESULT_VALIDITY_SECONDS)
  }

  lemma DecisionReply(h: Keccak, e: Engine, q: Request, now: uint64, snapshot: Option<Snapshot>, io: Io)
    requires StatesSound(h, e.cache, e.store)
    requires q.ruleId != 0 && q.eventHash != 0 && now != 0 && Fetch(h, e, q.ruleId, io).Loaded?
    ensures var (e', reply) := EvaluateStep(h, e, q, now, snapshot, io);
            && (reply.Evaluated? ==> Committed(e, e'))
            && (Committed(e, e') ==>
                  && snapshot.Some? && Positive(snapshot.value.eventValueUsd18)
                  && (reply.Evaluated? <==> snapshot.value.eventValueUsd18.value < U256))
            && (reply.Evaluated? ==>
                  && DecisionOf(h, reply).Some?
                  && Matches(h, DecisionOf(h, reply).value, q, now, snapshot.value.eventValueUsd18.value))
  {
    var s := Fetch(h, e, q.ruleId, io).state;
    FetchedSound(h, e, q.ruleId, io);
    EvaluationCommits(h, e, s, q, now, snapshot, io);
    if CheckRequest(s, q, now, snapshot).Ok? {
      CheckedIsAdmissible(s, q, now, snapshot);
      var g := Grant(q.eventHash, q.nonce, now, CheckRequest(s, q, now, snapshot).value);
      CommitReply(h, e.(cache := e.cache[q.ruleId := s]), s, q, g, io);
    }
  }

  /** An evaluation that finds its rule either commits the grant it asks for, or is refused and moves no counter. */
  lemma EvaluationCommits(h: Keccak, e: Engine, s: RuleState, q: Request, now: uint64, snapshot: Option<Snapshot>,
                          io: Io)
    requires q.ruleId != 0 && q.eventHash != 0 && now != 0 && Fetch(h, e, q.ruleId, io) == Loaded(s)
    ensures var (e', reply) := EvaluateStep(h, e, q, now, snapshot, io);
            match CheckRequest(s, q, now, snapshot)
            case Err(_) => reply.Rejected? && e'.evaluations == e.evaluations
            case Ok(value) =>
              var g := Grant(q.eventHash, q.nonce, now, value);
              (e', reply) == CommitStep(h, e.(cache := e.cache[q.ruleId := s]), s, q, g, io)
  {}

  lemma CommitReply(h: Keccak, e: Engine, s: RuleState, q: Request, g: Grant, io: Io)
    requires Sound(h, q.ruleId, s) && Admissible(s, g) && g.eventHash == q.eventHash && g.nonce == q.nonce
    ensures var (e', reply) := CommitStep(h, e, s, q, g, io);
            && (Committed(e, e') ==> (reply.Evaluated? <==> g.value < U256))
            && (reply.Evaluated? ==>
                  && Committed(e, e') && DecisionOf(h, reply).Some?
                  && Matches(h, DecisionOf(h, reply).value, q, g.timestamp, g.value))
  {
    CommittedReply(h, s, q, g);
  }

  /** With the production snapshot reader no answer is lost: every saved evaluation is signed. */
  lemma {:induction false} NoAnswerLost(h: Keccak, kind: StoreKind, ops: seq<Op>, q: Request, now: uint64,
                     snapshotOut: seq<byte>, consumedOut: seq<byte>, io: Io)
    ensures var e := Run(h, Empty(kind), ops).0;
            var (e', reply) := EvaluateStep(h, e, q, now, GetSnapshot(snapshotOut, consumedOut), io);
            Committed(e, e') <==> reply.Evaluated?
  {
    AnsweredIff(h, kind, ops, q, now, GetSnapshot(snapshotOut, consumedOut), io);
    if GetSnapshot(snapshotOut, consumedOut).Some? { SnapshotFits(snapshotOut, consumedOut); }
  }

  // ---- before it ----

  /** At most the stored copy of the named rule has been cached, and only a late failure has reached the store. */
  predicate NoTrace(e: Engine, e': Engine, op: Op)
    requires !op.Restart?
  {
    && e'.evaluations == e.evaluations && e'.triggers == e.triggers
    && (e'.cache == e.cache ||
          (op.Evaluate? && op.request.ruleId in e.store
           && e'.cache == e.cache[op.request.ruleId := e.store[op.request.ruleId]]))
    && (!op.io.save.FailedAfter? ==> e'.store == e.store)
  }

  /**
   * A refused request moves no counter and writes no state, except the refusal to encode a committed
   * evaluation, which comes after the commit.
   */
  lemma RefusalLeavesNoTrace(h: Keccak, e: Engine, op: Op)
    requires !op.Restart? && Step(h, e, op).1.Rejected?
    ensures var (e', reply) := Step(h, e, op);
            if reply == Rejected(Unencodable) then op.Evaluate? && Committed(e, e') else NoTrace(e, e', op)
  {
    match op
    case Create(plaintext, now, io) =>
      if AdmitPolicy(plaintext, now).Ok? { InstallShape(h, e, AdmitPolicy(plaintext, now).value, io); }
    case Evaluate(q, now, snapshot, io) =>
      if q.ruleId in e.cache { assert e.cache[q.ruleId := e.cache[q.ruleId]] == e.cache; }
  }
}
