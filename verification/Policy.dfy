/** internal/extension/engine.go: policy validation and the policy commitment. */
module Policy {
  import opened Base
  import opened Numerals
  import opened Abi

  /** guardtypes.Policy: the decrypted wire form, with decimal-string amounts. */
  datatype WirePolicy = WirePolicy(
    ruleId: Hash, thresholdUsd18: string, protectBps: uint16, scheduleId: uint32,
    maxPerEventUsd18: string, cooldownSeconds: uint64, expiresAt: uint64)

  datatype NormalizedPolicy = NormalizedPolicy(
    ruleId: Hash, thresholdUsd18: uint256, protectBps: uint16, scheduleId: uint32,
    maxPerEventUsd18: uint256, cooldownSeconds: uint64, expiresAt: uint64)

  datatype PolicyError =
    ZeroRule | BadThreshold | BadBps | BadSchedule | BadMaximum | MaximumBelowThreshold | ZeroExpiry

  const SCHEDULE_THIRTY_DAY_LINEAR: uint32 := 1

  function ParseUint256(s: string, allowZero: bool): Option<uint256> {
    if s == "" then None
    else
      match SetString(s)
      case None => None
      case Some(v) => if v < 0 || v >= U256 || (!allowZero && v == 0) then None else Some(v)
  }

  function NormalizePolicy(w: WirePolicy): Result<NormalizedPolicy, PolicyError> {
    if w.ruleId == 0 then Err(ZeroRule)
    else
      match ParseUint256(w.thresholdUsd18, false)
      case None => Err(BadThreshold)
      case Some(threshold) =>
        if w.protectBps == 0 || w.protectBps > 10_000 then Err(BadBps)
        else if w.scheduleId != SCHEDULE_THIRTY_DAY_LINEAR then Err(BadSchedule)
        else
          match ParseUint256(w.maxPerEventUsd18, true)
          case None => Err(BadMaximum)
          case Some(maximum) =>
            if maximum > 0 && maximum < threshold then Err(MaximumBelowThreshold)
            else if w.expiresAt == 0 then Err(ZeroExpiry)
            else Ok(NormalizedPolicy(w.ruleId, threshold, w.protectBps, w.scheduleId, maximum,
                                     w.cooldownSeconds, w.expiresAt))
  }

  /** What every accepted policy satisfies. */
  predicate WellFormed(p: NormalizedPolicy) {
    && p.ruleId != 0
    && p.thresholdUsd18 > 0
    && 1 <= p.protectBps <= 10_000
    && p.scheduleId == SCHEDULE_THIRTY_DAY_LINEAR
    && (p.maxPerEventUsd18 == 0 || p.thresholdUsd18 <= p.maxPerEventUsd18)
    && p.expiresAt > 0
  }

  /** The wire policy spells policy p: the amounts as decimal numbers, the other fields as they are. */
  predicate Spells(w: WirePolicy, p: NormalizedPolicy) {
    && SetString(w.thresholdUsd18) == Some(p.thresholdUsd18)
    && SetString(w.maxPerEventUsd18) == Some(p.maxPerEventUsd18)
    && w.ruleId == p.ruleId && w.protectBps == p.protectBps && w.scheduleId == p.scheduleId
    && w.cooldownSeconds == p.cooldownSeconds && w.expiresAt == p.expiresAt
  }

  /** Every spelling of a well-formed policy is accepted as that policy, and nothing else is. */
  lemma NormalizesIffSpells(w: WirePolicy, p: NormalizedPolicy)
    ensures NormalizePolicy(w) == Ok(p) <==> WellFormed(p) && Spells(w, p)
  {}

  predicate PolicyReason(w: WirePolicy, x: PolicyError) {
    var threshold, maximum := SetString(w.thresholdUsd18), SetString(w.maxPerEventUsd18);
    match x
    case ZeroRule => w.ruleId == 0
    case BadThreshold => threshold.None? || !(0 < threshold.value < U256)
    case BadBps => !(1 <= w.protectBps <= 10_000)
    case BadSchedule => w.scheduleId != 1
    case BadMaximum => maximum.None? || !(0 <= maximum.value < U256)
    case MaximumBelowThreshold => threshold.Some? && maximum.Some? && 0 < maximum.value < threshold.value
    case ZeroExpiry => w.expiresAt == 0
  }

  /** The order in which the reasons are looked for. */
  function PolicyRank(x: PolicyError): nat {
    match x
    case ZeroRule => 0 case BadThreshold => 1 case BadBps => 2 case BadSchedule => 3
    case BadMaximum => 4 case MaximumBelowThreshold => 5 case ZeroExpiry => 6
  }

  /** A refused policy names a true reason, and the first of those that are. */
  lemma PolicyRefusedTruly(w: WirePolicy, other: PolicyError)
    ensures NormalizePolicy(w).Err? ==>
              var x := NormalizePolicy(w).error;
              PolicyReason(w, x) && (PolicyReason(w, other) ==> PolicyRank(x) <= PolicyRank(other))
  {}

  /** A policy spelled with canonical decimal amounts. */
  function Spell(p: NormalizedPolicy): WirePolicy {
    WirePolicy(p.ruleId, Decimal(p.thresholdUsd18), p.protectBps, p.scheduleId, Decimal(p.maxPerEventUsd18),
               p.cooldownSeconds, p.expiresAt)
  }

  lemma {:induction false} ParsePrinted(n: uint256)
    ensures ParseUint256(Decimal(n), true) == Some(n)
    ensures n > 0 ==> ParseUint256(Decimal(n), false) == Some(n)
  {
    SetStringOfDecimal(n);
  }

  /** The accepted policies are exactly the well-formed ones: each has a spelling that normalizes to it. */
  lemma AcceptedIffWellFormed(p: NormalizedPolicy)
    ensures WellFormed(p) <==> exists w :: NormalizePolicy(w) == Ok(p)
    ensures WellFormed(p) ==> NormalizePolicy(Spell(p)) == Ok(p)
  {
    ParsePrinted(p.thresholdUsd18);
    ParsePrinted(p.maxPerEventUsd18);
    if WellFormed(p) {
      assert NormalizePolicy(Spell(p)) == Ok(p);
    }
  }

  function PolicyDomain(h: Keccak): Hash {
    h(Ascii("AVERLOCK_POLICY_V1"))
  }

  function CommitmentFields(domain: Hash, p: NormalizedPolicy): seq<uint256> {
    [domain, p.ruleId, p.thresholdUsd18, p.protectBps, p.scheduleId, p.maxPerEventUsd18, p.cooldownSeconds, p.expiresAt]
  }

  function Commitment(h: Keccak, p: NormalizedPolicy): Hash {
    h(Pack(CommitmentFields(PolicyDomain(h), p)))
  }

  /** The commitment preimage determines all seven policy fields. */
  lemma CommitmentPreimageInjective(domain: Hash, p: NormalizedPolicy, p': NormalizedPolicy)
    requires Pack(CommitmentFields(domain, p)) == Pack(CommitmentFields(domain, p'))
    ensures p == p'
  {
    var ws, ws' := CommitmentFields(domain, p), CommitmentFields(domain, p');
    PackInjective(ws, ws');
    assert forall i :: 0 <= i < 8 ==> ws[i] == ws'[i];
  }
}
