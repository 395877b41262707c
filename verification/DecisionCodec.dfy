/** pkg/decision/codec.go: the canonical 352-byte decision and its hash preimage. */
module DecisionCodec {
  import opened Base
  import opened Abi

  const ENCODED_LENGTH := 11 * 32

  /** The three big integers are unbounded here, as *big.Int is; Validate bounds them. */
  datatype FccDecision = FccDecision(
    domain: Hash, ruleId: Hash, eventHash: Hash, triggered: bool,
    protectedUsd18: int, protectBps: uint16, scheduleId: uint32,
    eventValueUsd18: int, evaluatedAt: uint64, nonce: int, resultExpiry: uint64)

  datatype CodecError = WrongDomain | NotUint256 | WrongLength | Malformed | NonCanonical | BadChainId

  /** How the word unpacker treats a word too wide for its field: refuse it, or drop the high bits. */
  datatype Unpacker = Strict | Lax

  function Domain(h: Keccak): Hash {
    h(Ascii("AVERLOCK_GUARD_RESULT_V2"))
  }

  predicate IsUint256(v: int) { 0 <= v < U256 }

  function Validate(h: Keccak, d: FccDecision): Option<CodecError> {
    if d.domain != Domain(h) then Some(WrongDomain)
    else if !IsUint256(d.protectedUsd18) || !IsUint256(d.eventValueUsd18) || !IsUint256(d.nonce) then Some(NotUint256)
    else None
  }

  function BoolWord(b: bool): uint256 { if b then 1 else 0 }

  function Fields(d: FccDecision): (ws: seq<uint256>)
    requires IsUint256(d.protectedUsd18) && IsUint256(d.eventValueUsd18) && IsUint256(d.nonce)
  {
    [d.domain, d.ruleId, d.eventHash, BoolWord(d.triggered), d.protectedUsd18, d.protectBps, d.scheduleId,
     d.eventValueUsd18, d.evaluatedAt, d.nonce, d.resultExpiry]
  }

  function Encode(h: Keccak, d: FccDecision): Result<seq<byte>, CodecError> {
    var bad := Validate(h, d);
    if bad.Some? then Err(bad.value) else Ok(Pack(Fields(d)))
  }

  function ReadUint(u: Unpacker, w: uint256, bound: nat): (r: Option<nat>)
    requires bound > 0
    ensures r.Some? ==> r.value < bound
  {
    if w < bound then Some(w) else if u.Lax? then Some(w % bound) else None
  }

  function ReadBool(u: Unpacker, w: uint256): Option<bool> {
    if w <= 1 then Some(w == 1) else if u.Lax? then Some(w % 2 == 1) else None
  }

  function Unpack(u: Unpacker, ws: seq<uint256>): Option<FccDecision>
    requires |ws| == 11
  {
    var triggered, bps, schedule := ReadBool(u, ws[3]), ReadUint(u, ws[5], 0x1_0000), ReadUint(u, ws[6], 0x1_0000_0000);
    var evaluatedAt, expiry := ReadUint(u, ws[8], U64), ReadUint(u, ws[10], U64);
    if triggered.None? || bps.None? || schedule.None? || evaluatedAt.None? || expiry.None? then None
    else
      Some(FccDecision(ws[0], ws[1], ws[2], triggered.value, ws[4], bps.value, schedule.value,
                       ws[7], evaluatedAt.value, ws[9], expiry.value))
  }

  function Decode(h: Keccak, u: Unpacker, data: seq<byte>): Result<FccDecision, CodecError> {
    if |data| != ENCODED_LENGTH then Err(WrongLength)
    else
      match Unpack(u, Words(data))
      case None => Err(Malformed)
      case Some(d) =>
        var canonical :- Encode(h, d);
        if canonical != data then Err(NonCanonical) else Ok(d)
  }

  /** Whatever the unpacker, Decode is exactly the inverse of Encode. */
  lemma DecodeInvertsEncode(h: Keccak, u: Unpacker, data: seq<byte>, d: FccDecision)
    ensures Decode(h, u, data) == Ok(d) <==> Encode(h, d) == Ok(data)
  {
    if Encode(h, d) == Ok(data) {
      WordsOfPack(Fields(d));
      assert Unpack(u, Fields(d)) == Some(d);
    }
  }

  predicate Encodable(h: Keccak, d: FccDecision) {
    && d.domain == h(Ascii("AVERLOCK_GUARD_RESULT_V2"))
    && IsUint256(d.protectedUsd18) && IsUint256(d.eventValueUsd18) && IsUint256(d.nonce)
  }

  /** The published layout: eleven words in this order. */
  predicate LaidOut(data: seq<byte>, d: FccDecision) {
    && |data| == 352
    && WordAt(data, 0) == d.domain && WordAt(data, 1) == d.ruleId && WordAt(data, 2) == d.eventHash
    && WordAt(data, 3) == (if d.triggered then 1 else 0)
    && WordAt(data, 4) == d.protectedUsd18 && WordAt(data, 5) == d.protectBps && WordAt(data, 6) == d.scheduleId
    && WordAt(data, 7) == d.eventValueUsd18
    && WordAt(data, 8) == d.evaluatedAt && WordAt(data, 9) == d.nonce && WordAt(data, 10) == d.resultExpiry
  }

  /** Encoding succeeds exactly for decisions of the V2 domain with word-sized amounts, and yields the layout. */
  lemma EncodesIffLaidOut(h: Keccak, d: FccDecision, data: seq<byte>)
    ensures Encode(h, d) == Ok(data) <==> Encodable(h, d) && LaidOut(data, d)
  {
    if Encodable(h, d) && |data| == 352 {
      forall i | 0 <= i < 11 ensures Words(data)[i] == WordAt(data, i) { WordsInPlace(data, i); }
      WordsOfPack(Fields(d));
      PackOfWords(data);
      LaidOutFields(data, d, Words(data));
    }
  }

  lemma LaidOutFields(data: seq<byte>, d: FccDecision, ws: seq<uint256>)
    requires IsUint256(d.protectedUsd18) && IsUint256(d.eventValueUsd18) && IsUint256(d.nonce)
    requires |data| == 352 && |ws| == 11 && forall i :: 0 <= i < 11 ==> ws[i] == WordAt(data, i)
    ensures LaidOut(data, d) <==> ws == Fields(d)
  {
    var fs := Fields(d);
    assert LaidOut(data, d) <==>
           && ws[0] == fs[0] && ws[1] == fs[1] && ws[2] == fs[2] && ws[3] == fs[3] && ws[4] == fs[4] && ws[5] == fs[5]
           && ws[6] == fs[6] && ws[7] == fs[7] && ws[8] == fs[8] && ws[9] == fs[9] && ws[10] == fs[10];
  }

  /** Why a decision is not encoded, and that nothing else stops it. */
  lemma EncodeRefusals(h: Keccak, d: FccDecision)
    ensures Encode(h, d) == Err(WrongDomain) <==> d.domain != h(Ascii("AVERLOCK_GUARD_RESULT_V2"))
    ensures Encode(h, d) == Err(NotUint256) <==>
            d.domain == h(Ascii("AVERLOCK_GUARD_RESULT_V2")) && !Encodable(h, d)
  {}

  /** Every narrow field's word fits its field. */
  predicate Narrow(data: seq<byte>)
    requires |data| == 352
  {
    && WordAt(data, 3) <= 1 && WordAt(data, 5) < 0x1_0000 && WordAt(data, 6) < 0x1_0000_0000
    && WordAt(data, 8) < U64 && WordAt(data, 10) < U64
  }

  /** For every byte string, what the strict decoder answers: the first of three reasons that holds, or a decision. */
  lemma StrictDecode(h: Keccak, data: seq<byte>)
    ensures Decode(h, Strict, data) == Err(WrongLength) <==> |data| != 352
    ensures Decode(h, Strict, data) == Err(Malformed) <==> |data| == 352 && !Narrow(data)
    ensures Decode(h, Strict, data) == Err(WrongDomain) <==>
            |data| == 352 && Narrow(data) && WordAt(data, 0) != h(Ascii("AVERLOCK_GUARD_RESULT_V2"))
    ensures Decode(h, Strict, data).Ok? <==>
            |data| == 352 && Narrow(data) && WordAt(data, 0) == h(Ascii("AVERLOCK_GUARD_RESULT_V2"))
  {
    if |data| == 352 {
      var ws := Words(data);
      forall i | 0 <= i < 11 ensures ws[i] == WordAt(data, i) { WordsInPlace(data, i); }
      NarrowUnpacks(ws);
      PackOfWords(data);
    }
  }

  lemma NarrowUnpacks(ws: seq<uint256>)
    requires |ws| == 11
    ensures Unpack(Strict, ws).Some? <==>
            ws[3] <= 1 && ws[5] < 0x1_0000 && ws[6] < 0x1_0000_0000 && ws[8] < U64 && ws[10] < U64
    ensures Unpack(Strict, ws).Some? ==>
              var d := Unpack(Strict, ws).value;
              && d.domain == ws[0] && IsUint256(d.protectedUsd18) && IsUint256(d.eventValueUsd18) && IsUint256(d.nonce)
              && Fields(d) == ws
  {}

  /** A lax unpacker accepts nothing more than a strict one. */
  lemma LaxUnpackingIsHarmless(h: Keccak, data: seq<byte>)
    ensures Decode(h, Strict, data).Ok? <==> Decode(h, Lax, data).Ok?
    ensures Decode(h, Strict, data).Ok? ==> Decode(h, Strict, data) == Decode(h, Lax, data)
  {
    if Decode(h, Strict, data).Ok? {
      var d := Decode(h, Strict, data).value;
      DecodeInvertsEncode(h, Strict, data, d);
      DecodeInvertsEncode(h, Lax, data, d);
    }
    if Decode(h, Lax, data).Ok? {
      var d := Decode(h, Lax, data).value;
      DecodeInvertsEncode(h, Lax, data, d);
      DecodeInvertsEncode(h, Strict, data, d);
    }
  }

  function HashFields(chainId: uint256, d: FccDecision): seq<uint256>
    requires IsUint256(d.protectedUsd18) && IsUint256(d.eventValueUsd18) && IsUint256(d.nonce)
  {
    [d.domain, chainId, d.ruleId, d.eventHash, BoolWord(d.triggered), d.protectedUsd18, d.protectBps, d.scheduleId,
     d.eventValueUsd18, d.evaluatedAt, d.nonce, d.resultExpiry]
  }

  function ResultHash(h: Keccak, chainId: int, d: FccDecision): Result<Hash, CodecError> {
    if chainId <= 0 || !IsUint256(chainId) then Err(BadChainId)
    else
      var bad := Validate(h, d);
      if bad.Some? then Err(bad.value) else Ok(h(Pack(HashFields(chainId, d))))
  }

  /** The hash preimage binds the chain and every field of the decision. */
  lemma HashPreimageInjective(c: uint256, d: FccDecision, c': uint256, d': FccDecision)
    requires IsUint256(d.protectedUsd18) && IsUint256(d.eventValueUsd18) && IsUint256(d.nonce)
    requires IsUint256(d'.protectedUsd18) && IsUint256(d'.eventValueUsd18) && IsUint256(d'.nonce)
    requires Pack(HashFields(c, d)) == Pack(HashFields(c', d'))
    ensures c == c' && d == d'
  {
    PackInjective(HashFields(c, d), HashFields(c', d'));
    var ws, ws' := HashFields(c, d), HashFields(c', d');
    assert forall i :: 0 <= i < 12 ==> ws[i] == ws'[i];
    assert ws[4] == ws'[4];
  }

  /**
   * A decision has a result hash exactly when the chain ID is a positive word and the decision encodes; it
   * hashes the encoding with the chain ID inserted after the domain.
   */
  lemma ResultHashExact(h: Keccak, chainId: int, d: FccDecision)
    ensures ResultHash(h, chainId, d).Ok? <==> 0 < chainId < U256 && Encodable(h, d)
    ensures ResultHash(h, chainId, d) == Err(BadChainId) <==> !(0 < chainId < U256)
    ensures ResultHash(h, chainId, d).Ok? ==>
              && Encode(h, d).Ok?
              && var data := Encode(h, d).value;
                 ResultHash(h, chainId, d).value == h(data[..32] + WordBytes(chainId) + data[32..])
  {
    if 0 < chainId < U256 && Encodable(h, d) {
      var fs, hs := Fields(d), HashFields(chainId, d);
      assert fs == fs[..1] + fs[1..] && hs == fs[..1] + [chainId] + fs[1..];
      PackConcat(fs[..1], fs[1..]);
      PackConcat(fs[..1], [chainId]);
      PackConcat(fs[..1] + [chainId], fs[1..]);
      assert Pack([chainId]) == WordBytes(chainId) by { assert [chainId][1..] == []; }
      assert Pack(fs)[..32] == Pack(fs[..1]) && Pack(fs)[32..] == Pack(fs[1..]);
    }
  }
}
