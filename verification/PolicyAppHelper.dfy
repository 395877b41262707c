/** tools/cmd/policy-app-helper: an independent preparer of policies and checker of replies. */
module PolicyAppHelper {
  import opened Base
  import opened Numerals
  import opened Abi
  import opened DecisionCodec
  import opened Policy
  import opened Authorization
  import opened Machine
  import opened Safety
  import opened Replies

  const CHAIN_ID := 114

  /** Every check ends the program with a message; which one is not modelled. */
  datatype Failure = Fail

  function UintValue(s: string, allowZero: bool): Option<uint256> {
    match SetString(s)
    case None => None
    case Some(v) => if v < 0 || v >= U256 || (!allowZero && v == 0) then None else Some(v)
  }

  datatype Prepared = Prepared(ruleId: Hash, policyCommitment: Hash)

  function CommitmentWords(domain: Hash, w: WirePolicy, threshold: uint256, maximum: uint256): seq<uint256> {
    [domain, w.ruleId, threshold, w.protectBps, w.scheduleId, maximum, w.cooldownSeconds, w.expiresAt]
  }

  /** prepare, up to the encryption of the policy. */
  function Prepare(h: Keccak, w: WirePolicy): Result<Prepared, Failure> {
    var threshold, maximum := UintValue(w.thresholdUsd18, false), UintValue(w.maxPerEventUsd18, true);
    if threshold.None? || maximum.None? then Err(Fail)
    else if w.ruleId == 0 then Err(Fail)
    else if w.protectBps == 0 || w.protectBps > 10_000 then Err(Fail)
    else if w.scheduleId != 1 then Err(Fail)
    else if maximum.value > 0 && maximum.value < threshold.value then Err(Fail)
    else if w.expiresAt == 0 then Err(Fail)
    else
      var domain := h(Ascii("AVERLOCK_POLICY_V1"));
      Ok(Prepared(w.ruleId, h(Pack(CommitmentWords(domain, w, threshold.value, maximum.value)))))
  }

  /** Both validators accept the same wire policies and commit to the same bytes. */
  lemma ValidatorsAgree(h: Keccak, w: WirePolicy)
    ensures Prepare(h, w).Ok? <==> NormalizePolicy(w).Ok?
    ensures NormalizePolicy(w).Ok? ==>
              Prepare(h, w) == Ok(Prepared(w.ruleId, Commitment(h, NormalizePolicy(w).value)))
  {
    SameNumber(w.thresholdUsd18, false);
    SameNumber(w.maxPerEventUsd18, true);
  }

  lemma SameNumber(s: string, allowZero: bool)
    ensures UintValue(s, allowZero) == ParseUint256(s, allowZero)
  {}

  /** A creation as its signed result reports it. */
  datatype CreateResponse = CreateResponse(ruleId: Hash, accepted: bool, policyCommitment: Hash)

  /** verify after its signature check; None is a result that does not parse. */
  function Verify(status: nat, actionId: Hash, response: Option<CreateResponse>, expected: Prepared)
    : Result<CreateResponse, Failure>
  {
    if status != 1 || actionId == 0 then Err(Fail)
    else if response.None? then Err(Fail)
    else
      var r := response.value;
      if !r.accepted || r.ruleId != expected.ruleId || r.policyCommitment != expected.policyCommitment then Err(Fail)
      else Ok(r)
  }

  /** Exactly the accepted creation of the very policy that was prepared passes, in a successful action's result. */
  lemma VerifiedIff(status: nat, actionId: Hash, response: Option<CreateResponse>, expected: Prepared,
                   r: CreateResponse)
    ensures Verify(status, actionId, response, expected) == Ok(r) <==>
            && status == 1 && actionId != 0 && response == Some(r)
            && r == CreateResponse(expected.ruleId, true, expected.policyCommitment)
  {}

  /** Every acknowledged creation is the one prepared from the same wire policy, and passes verify. */
  lemma CreationVerifies(h: Keccak, e: Engine, w: WirePolicy, now: uint64, io: Io, actionId: Hash)
    requires Step(h, e, Create(Some(w), now, io)).1.Created? && actionId != 0
    ensures var reply := Step(h, e, Create(Some(w), now, io)).1;
            && Prepare(h, w).Ok?
            && Verify(1, actionId, Some(CreateResponse(reply.ruleId, true, reply.commitment)), Prepare(h, w).value).Ok?
  {
    ValidatorsAgree(h, w);
    InstallShape(h, e, NormalizePolicy(w).value, io);
    assert NormalizePolicy(w).value.ruleId == w.ruleId;
  }

  /** verify-evaluation after its signature check. */
  function VerifyEvaluation(h: Keccak, status: nat, actionId: Hash, data: seq<byte>, ruleId: Hash, eventHash: Hash,
                            eventValueUsd18: string, preparedAt: uint64, nonce: string): Result<FccDecision, Failure>
  {
    if status != 1 || actionId == 0 then Err(Fail)
    else
      var decoded := Decode(h, Strict, data);
      var expectedValue, expectedNonce := UintValue(eventValueUsd18, false), UintValue(nonce, true);
      if decoded.Err? || expectedValue.None? || expectedNonce.None? then Err(Fail)
      else
        var d := decoded.value;
        if d.ruleId != ruleId || d.eventHash != eventHash
           || d.eventValueUsd18 != expectedValue.value || d.nonce != expectedNonce.value then Err(Fail)
        else if d.evaluatedAt < preparedAt
                || d.resultExpiry <= d.evaluatedAt || d.resultExpiry - d.evaluatedAt > 600 then Err(Fail)
        else if ResultHash(h, CHAIN_ID, d).Err? then Err(Fail)
        else Ok(d)
  }

  /** What the checker was told to expect of a decision. */
  predicate Expected(d: FccDecision, ruleId: Hash, eventHash: Hash, eventValueUsd18: string, preparedAt: uint64,
                     nonce: string)
  {
    && d.ruleId == ruleId && d.eventHash == eventHash
    && SetString(eventValueUsd18) == Some(d.eventValueUsd18) && d.eventValueUsd18 > 0
    && SetString(nonce) == Some(d.nonce)
    && preparedAt <= d.evaluatedAt < d.resultExpiry <= d.evaluatedAt + 600
  }

  /**
   * For all bytes and all expectations, the checker accepts exactly the canonical encoding of the decision
   * that was expected, in a successful action's result.
   */
  lemma EvaluationVerifiedIff(h: Keccak, status: nat, actionId: Hash, data: seq<byte>, ruleId: Hash, eventHash: Hash,
                              eventValueUsd18: string, preparedAt: uint64, nonce: string, d: FccDecision)
    ensures VerifyEvaluation(h, status, actionId, data, ruleId, eventHash, eventValueUsd18, preparedAt, nonce)
            == Ok(d) <==>
            && status == 1 && actionId != 0 && Encode(h, d) == Ok(data)
            && Expected(d, ruleId, eventHash, eventValueUsd18, preparedAt, nonce)
  {
    DecodeInvertsEncode(h, Strict, data, d);
    assert Encode(h, d) == Ok(data) ==> Validate(h, d).None?;
  }

  /**
   * Every signed evaluation of every run passes the consumer's checks for its own request exactly when
   * the snapshot was prepared no later than the trusted time and the window's end did not wrap.
   */
  lemma {:induction false} EvaluationVerifiesIff(h: Keccak, kind: StoreKind, ops: seq<Op>, q: Request, now: uint64,
                                                snapshot: Option<Snapshot>, io: Io, actionId: Hash)
    requires actionId != 0
    requires EvaluateStep(h, Run(h, Empty(kind), ops).0, q, now, snapshot, io).1.Evaluated?
    ensures var reply := EvaluateStep(h, Run(h, Empty(kind), ops).0, q, now, snapshot, io).1;
            && snapshot.Some? && snapshot.value.eventValueUsd18.Some? && snapshot.value.eventValueUsd18.value >= 0
            && (VerifyEvaluation(h, 1, actionId, reply.data, q.ruleId, q.eventHash,
                                 Decimal(snapshot.value.eventValueUsd18.value), snapshot.value.preparedAt,
                                 Decimal(q.nonce)).Ok?
                <==> snapshot.value.preparedAt <= now && now + RESULT_VALIDITY_SECONDS < U64)
  {
    StatesAlwaysSound(h, kind, ops);
    var e := Run(h, Empty(kind), ops).0;
    DecisionReply(h, e, q, now, snapshot, io);
    var reply := EvaluateStep(h, e, q, now, snapshot, io).1;
    MatchingVerifiesIff(h, reply.data, DecisionOf(h, reply).value, q, now, snapshot.value.eventValueUsd18.value,
                        snapshot.value.preparedAt, actionId);
  }

  lemma {:induction false} MatchingVerifiesIff(h: Keccak, data: seq<byte>, d: FccDecision, q: Request, now: uint64,
                                               value: nat, preparedAt: uint64, actionId: Hash)
    requires Decode(h, Strict, data) == Ok(d) && Matches(h, d, q, now, value)
    requires 0 < value && actionId != 0
    ensures VerifyEvaluation(h, 1, actionId, data, q.ruleId, q.eventHash,
                             Decimal(value), preparedAt, Decimal(q.nonce)).Ok?
            <==> preparedAt <= now && now + RESULT_VALIDITY_SECONDS < U64
  {
    DecodeInvertsEncode(h, Strict, data, d);
    assert Validate(h, d).None?;
    SetStringOfDecimal(value);
    SetStringOfDecimal(q.nonce);
    assert UintValue(Decimal(value), false) == Some(value) && UintValue(Decimal(q.nonce), true) == Some(q.nonce);
    if now + RESULT_VALIDITY_SECONDS < U64 {
      AddWithoutWrap(now, RESULT_VALIDITY_SECONDS);
    } else {
      assert AddU64(now, RESULT_VALIDITY_SECONDS) == now + RESULT_VALIDITY_SECONDS - U64;
    }
  }
}
