/** The decision one rule takes on one event: threshold, cap, cooldown, freeze and refresh. */
module Authorization {
  import opened Base
  import opened Policy

  const RESULT_VALIDITY_SECONDS: uint64 := 600

  datatype EventAuthorization = EventAuthorization(
    eventValueUsd18: int, triggered: bool, protectedUsd18: int, protectBps: uint16, scheduleId: uint32,
    lastExpiry: uint64)

  datatype RuleState = RuleState(
    policy: NormalizedPolicy, commitment: Hash, lastTriggered: uint64,
    authorizations: map<Hash, EventAuthorization>, usedNonces: set<uint64>)

  datatype Request = Request(ruleId: Hash, eventHash: Hash, nonce: uint64)

  /** What GuardManager reports; an absent amount is a nil big integer. */
  datatype Snapshot = Snapshot(
    ruleId: Hash, eventValueUsd18: Option<int>, priceUsd18: Option<int>, preparedAt: uint64, consumed: bool)

  datatype Error =
    | Undecodable | InvalidPolicy(reason: PolicyError) | ExpiresInPast | RuleExists
    | LoadFailure | SaveFailure
    | ZeroIds | ZeroTimestamp | UnknownRule | PolicyExpired | NonceReplay
    | SnapshotUnavailable | RuleMismatch | SnapshotMissing | EventConsumed | ValueMismatch | StillActive
    | Unencodable

  function FreshState(h: Keccak, p: NormalizedPolicy): RuleState {
    RuleState(p, Commitment(h, p), 0, map[], {})
  }

  predicate Positive(v: Option<int>) { v.Some? && v.value > 0 }

  /** The checks of an evaluation, in order; on success, the event value. `None` is a failed snapshot read. */
  function CheckRequest(s: RuleState, q: Request, now: uint64, snapshot: Option<Snapshot>): Result<int, Error> {
    if now > s.policy.expiresAt then Err(PolicyExpired)
    else if q.nonce in s.usedNonces then Err(NonceReplay)
    else if snapshot.None? then Err(SnapshotUnavailable)
    else
      var view := snapshot.value;
      if view.ruleId != q.ruleId then Err(RuleMismatch)
      else if !Positive(view.eventValueUsd18) || !Positive(view.priceUsd18) || view.preparedAt == 0 then
        Err(SnapshotMissing)
      else if view.consumed then Err(EventConsumed)
      else
        var value := view.eventValueUsd18.value;
        if q.eventHash !in s.authorizations then Ok(value)
        else if value != s.authorizations[q.eventHash].eventValueUsd18 then Err(ValueMismatch)
        else if now <= s.authorizations[q.eventHash].lastExpiry then Err(StillActive)
        else Ok(value)
  }

  predicate Triggers(p: NormalizedPolicy, lastTriggered: uint64, now: uint64, value: int) {
    && value > p.thresholdUsd18
    && !(p.maxPerEventUsd18 > 0 && value > p.maxPerEventUsd18)
    && !(lastTriggered > 0 && now < AddU64(lastTriggered, p.cooldownSeconds))
  }

  const BPS_UNIT := 10_000

  lemma ShareBounds(value: int, bps: nat)
    ensures 0 <= value ==> 0 <= value * bps / BPS_UNIT
    ensures 0 <= value && bps <= BPS_UNIT ==> value * bps / BPS_UNIT <= value
  {
    if 0 <= value && bps <= BPS_UNIT { assert value * bps <= value * BPS_UNIT; }
  }

  /** The protected share of an amount: never more than the whole of it. */
  function ProtectedShare(value: int, bps: nat): (share: int)
    ensures 0 <= value ==> 0 <= share
    ensures 0 <= value && bps <= BPS_UNIT ==> share <= value
  {
    ShareBounds(value, bps);
    value * bps / BPS_UNIT
  }

  /** The first decision on an event, before its window is set. */
  function Decide(p: NormalizedPolicy, lastTriggered: uint64, now: uint64, value: int): EventAuthorization {
    if Triggers(p, lastTriggered, now, value) then
      EventAuthorization(value, true, ProtectedShare(value, p.protectBps), p.protectBps, p.scheduleId, 0)
    else
      EventAuthorization(value, false, 0, 0, 0, 0)
  }

  /** One accepted evaluation. */
  datatype Grant = Grant(eventHash: Hash, nonce: uint64, timestamp: uint64, value: int)

  function FrozenDecision(s: RuleState, g: Grant): EventAuthorization {
    if g.eventHash in s.authorizations then s.authorizations[g.eventHash]
    else Decide(s.policy, s.lastTriggered, g.timestamp, g.value)
  }

  predicate NewTrigger(s: RuleState, g: Grant) {
    g.eventHash !in s.authorizations && FrozenDecision(s, g).triggered
  }

  function Apply(s: RuleState, g: Grant): RuleState {
    var a := FrozenDecision(s, g).(lastExpiry := AddU64(g.timestamp, RESULT_VALIDITY_SECONDS));
    s.(lastTriggered := if NewTrigger(s, g) then g.timestamp else s.lastTriggered,
       authorizations := s.authorizations[g.eventHash := a],
       usedNonces := s.usedNonces + {g.nonce})
  }

  /** What CheckRequest guarantees of a grant. */
  predicate Admissible(s: RuleState, g: Grant) {
    && g.eventHash != 0
    && 0 < g.timestamp <= s.policy.expiresAt
    && g.nonce !in s.usedNonces
    && g.value > 0
    && (g.eventHash in s.authorizations ==>
          g.value == s.authorizations[g.eventHash].eventValueUsd18
              && g.timestamp > s.authorizations[g.eventHash].lastExpiry)
  }

  // ---- histories of one rule ----

  /** The state after the first n of a sequence of evaluations; None if one of them would be refused. */
  function Replay(s0: RuleState, history: seq<Grant>, n: nat): Option<RuleState>
    requires n <= |history|
  {
    if n == 0 then Some(s0)
    else
      match Replay(s0, history, n - 1)
      case None => None
      case Some(s) => if Admissible(s, history[n - 1]) then Some(Apply(s, history[n - 1])) else None
  }

  /** Every evaluation of the history is accepted, and s is where it ends. */
  predicate Reaches(s0: RuleState, history: seq<Grant>, s: RuleState) {
    Replay(s0, history, |history|) == Some(s)
  }

  lemma {:induction false} ReplayPrefix(s0: RuleState, history: seq<Grant>, g: Grant, n: nat)
    requires n <= |history|
    ensures Replay(s0, history + [g], n) == Replay(s0, history, n)
  {
    if n == 0 {
    } else {
      ReplayPrefix(s0, history, g, n - 1);
    }
  }

  lemma ReachesStep(s0: RuleState, history: seq<Grant>, s: RuleState, g: Grant)
    requires Reaches(s0, history, s) && Admissible(s, g)
    ensures Reaches(s0, history + [g], Apply(s, g))
  {
    ReplayPrefix(s0, history, g, |history|);
  }

  // ---- validity windows ----

  /** No window opened for the event at indices i up to j wraps past zero. */
  predicate WindowsFit(history: seq<Grant>, event: Hash, i: nat, j: nat)
    requires j <= |history|
  {
    forall k :: i <= k < j && history[k].eventHash == event ==> history[k].timestamp + RESULT_VALIDITY_SECONDS < U64
  }

  /** A window that does not wrap ends 600 seconds on; the other events keep theirs. */
  lemma GrantOpensWindow(s: RuleState, g: Grant, event: Hash)
    ensures var before, after := s.authorizations, Apply(s, g).authorizations;
            && (event == g.eventHash && g.timestamp + RESULT_VALIDITY_SECONDS < U64 ==>
                  event in after && after[event].lastExpiry == g.timestamp + RESULT_VALIDITY_SECONDS)
            && (event != g.eventHash && event in before ==> event in after && after[event] == before[event])
  {
    if g.timestamp + RESULT_VALIDITY_SECONDS < U64 { AddWithoutWrap(g.timestamp, RESULT_VALIDITY_SECONDS); }
  }

  lemma {:induction false} ExpiryCoversWindow(s0: RuleState, history: seq<Grant>, i: nat, n: nat)
    requires i < n <= |history| && Replay(s0, history, n).Some? && WindowsFit(history, history[i].eventHash, i, n)
    ensures var authorizations := Replay(s0, history, n).value.authorizations;
            && history[i].eventHash in authorizations
            && history[i].timestamp + RESULT_VALIDITY_SECONDS <= authorizations[history[i].eventHash].lastExpiry
  {
    var s, g := Replay(s0, history, n - 1).value, history[n - 1];
    assert Replay(s0, history, n) == Some(Apply(s, g)) && Admissible(s, g);
    GrantOpensWindow(s, g, history[i].eventHash);
    if n == i + 1 {
    } else {
      ExpiryCoversWindow(s0, history, i, n - 1);
    }
  }

  /** Of two evaluations of one event, the later opens strictly after the earlier's window has closed. */
  lemma {:induction false} WindowsInOrder(s0: RuleState, history: seq<Grant>, i: nat, j: nat)
    requires i < j < |history| && history[i].eventHash == history[j].eventHash
    requires Replay(s0, history, |history|).Some? && WindowsFit(history, history[i].eventHash, i, j)
    ensures history[i].timestamp + RESULT_VALIDITY_SECONDS < history[j].timestamp
  {
    ReplayedBefore(s0, history, j);
    ExpiryCoversWindow(s0, history, i, j);
  }

  // ---- the cooldown ----

  /** The i-th evaluation is the first authorization of its event, and it triggers. */
  predicate FirstTrigger(s0: RuleState, history: seq<Grant>, i: nat)
    requires i < |history|
  {
    var before := Replay(s0, history, i);
    before.Some? && NewTrigger(before.value, history[i])
  }

  /** First triggers come in time order, at least a cooldown apart. */
  predicate Spaced(s0: RuleState, history: seq<Grant>) {
    forall i, j :: 0 <= i < j < |history| && FirstTrigger(s0, history, i) && FirstTrigger(s0, history, j) ==>
      history[i].timestamp + s0.policy.cooldownSeconds <= history[j].timestamp
  }

  predicate NoCooldownWrap(p: NormalizedPolicy) {
    p.expiresAt + p.cooldownSeconds < U64
  }

  /** One grant moves the clock forward only, and past the cooldown when it triggers. */
  lemma GrantMovesClock(s: RuleState, g: Grant)
    requires Admissible(s, g) && s.lastTriggered <= s.policy.expiresAt && NoCooldownWrap(s.policy)
    ensures var s' := Apply(s, g);
            && s'.policy == s.policy
            && s.lastTriggered <= s'.lastTriggered <= s.policy.expiresAt
            && (NewTrigger(s, g) ==> s'.lastTriggered == g.timestamp)
            && (NewTrigger(s, g) && s.lastTriggered > 0 ==> s.lastTriggered + s.policy.cooldownSeconds <= g.timestamp)
  {
    AddWithoutWrap(s.lastTriggered, s.policy.cooldownSeconds);
  }

  lemma {:induction false} ClockTicks(s0: RuleState, history: seq<Grant>, n: nat)
    requires s0.lastTriggered == 0 && NoCooldownWrap(s0.policy)
    requires n <= |history| && Replay(s0, history, |history|).Some?
    ensures Replay(s0, history, n).Some?
    ensures var s := Replay(s0, history, n).value; s.policy == s0.policy && s.lastTriggered <= s0.policy.expiresAt
    ensures n < |history| ==> Admissible(Replay(s0, history, n).value, history[n])
    decreases n
  {
    ReplayedBefore(s0, history, n);
    if n == 0 {
    } else {
      ClockTicks(s0, history, n - 1);
      GrantMovesClock(Replay(s0, history, n - 1).value, history[n - 1]);
    }
  }

  lemma {:induction false} ReplayedBefore(s0: RuleState, history: seq<Grant>, n: nat)
    requires n <= |history| && Replay(s0, history, |history|).Some?
    ensures Replay(s0, history, n).Some?
    ensures n < |history| ==> Replay(s0, history, n + 1).Some? && Admissible(Replay(s0, history, n).value, history[n])
    decreases |history| - n
  {
    if n == |history| {
    } else {
      ReplayedBefore(s0, history, n + 1);
    }
  }

  /** Within one history the cooldown clock never runs backwards. */
  lemma {:induction false} ClockNeverDecreases(s0: RuleState, history: seq<Grant>, m: nat, n: nat)
    requires s0.lastTriggered == 0 && NoCooldownWrap(s0.policy)
    requires m <= n <= |history| && Replay(s0, history, |history|).Some?
    ensures Replay(s0, history, m).Some? && Replay(s0, history, n).Some?
    ensures Replay(s0, history, m).value.lastTriggered <= Replay(s0, history, n).value.lastTriggered
    decreases n
  {
    ReplayedBefore(s0, history, n);
    if m == n {
    } else {
      ClockNeverDecreases(s0, history, m, n - 1);
      ClockTicks(s0, history, n - 1);
      var s := Replay(s0, history, n - 1).value;
      assert Replay(s0, history, n) == Some(Apply(s, history[n - 1]));
      GrantMovesClock(s, history[n - 1]);
    }
  }

  /** A first trigger sets the clock, a cooldown after what it showed. */
  lemma TriggerStep(s0: RuleState, history: seq<Grant>, i: nat)
    requires s0.lastTriggered == 0 && NoCooldownWrap(s0.policy)
    requires i < |history| && Replay(s0, history, |history|).Some? && FirstTrigger(s0, history, i)
    ensures Replay(s0, history, i).Some? && Replay(s0, history, i + 1).Some?
    ensures Replay(s0, history, i + 1).value.lastTriggered == history[i].timestamp > 0
    ensures var clock := Replay(s0, history, i).value.lastTriggered;
            clock > 0 ==> clock + s0.policy.cooldownSeconds <= history[i].timestamp
  {
    ClockTicks(s0, history, i);
    GrantMovesClock(Replay(s0, history, i).value, history[i]);
  }

  lemma {:induction false} TriggerPairSpaced(s0: RuleState, history: seq<Grant>, i: nat, j: nat)
    requires s0.lastTriggered == 0 && NoCooldownWrap(s0.policy)
    requires i < j < |history| && Replay(s0, history, |history|).Some?
    requires FirstTrigger(s0, history, i) && FirstTrigger(s0, history, j)
    ensures history[i].timestamp + s0.policy.cooldownSeconds <= history[j].timestamp
  {
    TriggerStep(s0, history, i);
    ClockNeverDecreases(s0, history, i + 1, j);
    TriggerStep(s0, history, j);
  }

  /** While its addition cannot wrap, the cooldown separates all first triggers of a rule. */
  lemma {:induction false} TriggersSpaced(s0: RuleState, history: seq<Grant>)
    requires s0.lastTriggered == 0 && NoCooldownWrap(s0.policy)
    requires Replay(s0, history, |history|).Some?
    ensures Spaced(s0, history)
  {
    forall i, j | 0 <= i < j < |history| && FirstTrigger(s0, history, i) && FirstTrigger(s0, history, j)
      ensures history[i].timestamp + s0.policy.cooldownSeconds <= history[j].timestamp
    {
      TriggerPairSpaced(s0, history, i, j);
    }
  }

  /** Every amount fits a word, as every amount decoded from one does. */
  predicate Receivable(history: seq<Grant>) {
    forall k :: 0 <= k < |history| ==> history[k].value < U256
  }

  /** Some event value that fits a word makes the policy trigger. */
  predicate CanTrigger(p: NormalizedPolicy) {
    p.thresholdUsd18 < U256 - 1 && (p.maxPerEventUsd18 == 0 || p.thresholdUsd18 < p.maxPerEventUsd18)
  }

  /** Every history of the rule spaces its triggers by the cooldown. */
  ghost predicate CooldownRespected(s0: RuleState) {
    forall history :: Receivable(history) && Replay(s0, history, |history|).Some? ==> Spaced(s0, history)
  }

  lemma {:induction false} PolicyFixed(s0: RuleState, history: seq<Grant>, n: nat)
    requires n <= |history| && Replay(s0, history, n).Some?
    ensures Replay(s0, history, n).value.policy == s0.policy
    ensures Replay(s0, history, n).value.commitment == s0.commitment
  {
    if n == 0 {
    } else {
      PolicyFixed(s0, history, n - 1);
    }
  }

  /** Two first authorizations of different events in the policy's last second: the sum wraps. */
  function WrappingPair(p: NormalizedPolicy): seq<Grant> {
    [Grant(1, 0, p.expiresAt, p.thresholdUsd18 + 1), Grant(2, 1, p.expiresAt, p.thresholdUsd18 + 1)]
  }

  lemma WrappingPairTriggersTwice(h: Keccak, p: NormalizedPolicy)
    requires WellFormed(p) && CanTrigger(p) && !NoCooldownWrap(p)
    ensures Receivable(WrappingPair(p)) && Replay(FreshState(h, p), WrappingPair(p), 2).Some?
    ensures !Spaced(FreshState(h, p), WrappingPair(p))
  {
    var s0, pair := FreshState(h, p), WrappingPair(p);
    assert Replay(s0, pair, 0) == Some(s0);
    var s1 := Apply(s0, pair[0]);
    assert Replay(s0, pair, 1) == Some(s1);
    assert AddU64(p.expiresAt, p.cooldownSeconds) == p.expiresAt + p.cooldownSeconds - U64;
    assert FirstTrigger(s0, pair, 0) && FirstTrigger(s0, pair, 1);
  }

  lemma NothingTriggers(s0: RuleState, history: seq<Grant>, i: nat)
    requires !CanTrigger(s0.policy) && i < |history| && history[i].value < U256
    ensures !FirstTrigger(s0, history, i)
  {
    if Replay(s0, history, i).Some? { PolicyFixed(s0, history, i); }
  }

  lemma {:induction false} CooldownKept(s0: RuleState, history: seq<Grant>)
    requires s0.lastTriggered == 0 && Replay(s0, history, |history|).Some?
    requires NoCooldownWrap(s0.policy) || (!CanTrigger(s0.policy) && Receivable(history))
    ensures Spaced(s0, history)
  {
    if NoCooldownWrap(s0.policy) {
      TriggersSpaced(s0, history);
    } else {
      forall i | 0 <= i < |history| ensures !FirstTrigger(s0, history, i) { NothingTriggers(s0, history, i); }
    }
  }

  /** The cooldown is respected in every history exactly when its addition cannot wrap, or nothing ever triggers. */
  lemma CooldownRespectedIff(h: Keccak, p: NormalizedPolicy)
    requires WellFormed(p)
    ensures CooldownRespected(FreshState(h, p)) <==> NoCooldownWrap(p) || !CanTrigger(p)
  {
    var s0 := FreshState(h, p);
    if NoCooldownWrap(p) || !CanTrigger(p) {
      forall history | Receivable(history) && Replay(s0, history, |history|).Some? ensures Spaced(s0, history) {
        CooldownKept(s0, history);
      }
    } else {
      WrappingPairTriggersTwice(h, p);
      assert |WrappingPair(p)| == 2;
    }
  }
}
