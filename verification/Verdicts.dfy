/** What a decision says about its event, told from the history of requests alone: no clock, no cache. */
module Verdicts {
  import opened Base
  import opened DecisionCodec
  import opened Policy
  import opened Authorization
  import opened Machine
  import opened Safety
  import opened Histories
  import opened Runs

  /** The i-th evaluation is the first on its event. */
  predicate First(history: seq<Grant>, i: nat)
    requires i < |history|
  {
    forall j :: 0 <= j < i ==> history[j].eventHash != history[i].eventHash
  }

  /** The amount is above the threshold and not above the cap, if there is one. */
  predicate Eligible(p: NormalizedPolicy, value: int) {
    p.thresholdUsd18 < value && (p.maxPerEventUsd18 == 0 || value <= p.maxPerEventUsd18)
  }

  /**
   * Where protection is due among the first n evaluations: at a first evaluation of an eligible amount,
   * a cooldown after every earlier one where it was due.
   */
  function DueAmong(p: NormalizedPolicy, history: seq<Grant>, n: nat): (due: set<nat>)
    requires n <= |history|
    ensures forall j :: j in due ==> j < n
  {
    if n == 0 then {}
    else
      var due, i := DueAmong(p, history, n - 1), n - 1;
      if First(history, i) && Eligible(p, history[i].value)
         && forall j :: j in due ==> history[j].timestamp + p.cooldownSeconds <= history[i].timestamp
      then due + {i} else due
  }

  predicate Due(p: NormalizedPolicy, history: seq<Grant>, i: nat)
    requires i < |history|
  {
    i in DueAmong(p, history, i + 1)
  }

  function TriggeredAmong(s0: RuleState, history: seq<Grant>, n: nat): (fired: set<nat>)
    requires n <= |history|
    ensures forall j :: j in fired ==> j < n
  {
    if n == 0 then {} else TriggeredAmong(s0, history, n - 1) + if FirstTrigger(s0, history, n - 1) then {n - 1} else {}
  }

  /** No evaluation has happened yet. */
  predicate Fresh(s: RuleState) {
    s.lastTriggered == 0 && s.authorizations == map[]
  }

  lemma {:induction false} AuthorizedIffSeen(s0: RuleState, history: seq<Grant>, n: nat, event: Hash)
    requires Fresh(s0) && n <= |history| && Replay(s0, history, n).Some?
    ensures event in Replay(s0, history, n).value.authorizations <==>
            exists j :: 0 <= j < n && history[j].eventHash == event
  {
    if n == 0 {
    } else {
      AuthorizedIffSeen(s0, history, n - 1, event);
    }
  }

  /** The clock shows the latest of these evaluations, or zero. */
  predicate ShowsLatest(history: seq<Grant>, fired: set<nat>, clock: uint64) {
    && (forall j :: j in fired ==> j < |history| && 0 < history[j].timestamp <= clock)
    && (clock == 0 || exists j :: j in fired && j < |history| && history[j].timestamp == clock)
  }

  lemma {:induction false} ClockShowsLatest(s0: RuleState, history: seq<Grant>, n: nat)
    requires Fresh(s0) && NoCooldownWrap(s0.policy) && n <= |history| && Replay(s0, history, |history|).Some?
    ensures Replay(s0, history, n).Some?
    ensures ShowsLatest(history, TriggeredAmong(s0, history, n), Replay(s0, history, n).value.lastTriggered)
  {
    ReplayedBefore(s0, history, n);
    if n == 0 {
    } else {
      ClockShowsLatest(s0, history, n - 1);
      ClockTicks(s0, history, n - 1);
      var s, g := Replay(s0, history, n - 1).value, history[n - 1];
      GrantMovesClock(s, g);
      assert FirstTrigger(s0, history, n - 1) <==> NewTrigger(s, g);
      assert Replay(s0, history, n) == Some(Apply(s, g));
      LatestStep(history, TriggeredAmong(s0, history, n - 1), s, n - 1);
    }
  }

  lemma LatestStep(history: seq<Grant>, fired: set<nat>, s: RuleState, i: nat)
    requires i < |history| && ShowsLatest(history, fired, s.lastTriggered) && history[i].timestamp > 0
    requires s.lastTriggered <= Apply(s, history[i]).lastTriggered
    ensures ShowsLatest(history, fired + if NewTrigger(s, history[i]) then {i} else {},
                        Apply(s, history[i]).lastTriggered)
  {
    if NewTrigger(s, history[i]) { assert i in fired + {i}; }
  }

  /** The engine triggers exactly where protection is due. */
  lemma {:induction false} TriggersExactlyWhenDue(s0: RuleState, history: seq<Grant>, n: nat)
    requires Fresh(s0) && NoCooldownWrap(s0.policy) && n <= |history| && Replay(s0, history, |history|).Some?
    ensures TriggeredAmong(s0, history, n) == DueAmong(s0.policy, history, n)
  {
    if n == 0 {
    } else {
      var i := n - 1;
      TriggersExactlyWhenDue(s0, history, i);
      ClockTicks(s0, history, i);
      AuthorizedIffSeen(s0, history, i, history[i].eventHash);
      ClockShowsLatest(s0, history, i);
      DueStep(s0.policy, history, i, TriggeredAmong(s0, history, i), Replay(s0, history, i).value);
    }
  }

  lemma DueStep(p: NormalizedPolicy, history: seq<Grant>, i: nat, fired: set<nat>, s: RuleState)
    requires i < |history| && ShowsLatest(history, fired, s.lastTriggered)
    requires s.policy == p && s.lastTriggered <= p.expiresAt && NoCooldownWrap(p)
    requires history[i].eventHash in s.authorizations <==>
             exists j :: 0 <= j < i && history[j].eventHash == history[i].eventHash
    requires history[i].timestamp > 0
    ensures NewTrigger(s, history[i]) <==>
            && First(history, i) && Eligible(p, history[i].value)
            && forall j :: j in fired ==> history[j].timestamp + p.cooldownSeconds <= history[i].timestamp
  {
    AddWithoutWrap(s.lastTriggered, p.cooldownSeconds);
  }

  /** The share is the floor of value * bps / 10000. */
  predicate IsShare(amount: int, value: int, bps: nat) {
    10_000 * amount <= value * bps < 10_000 * amount + 10_000
  }

  /** The verdict (triggered, amount, bps, schedule) that policy p gives the event first evaluated at k. */
  predicate Justified(p: NormalizedPolicy, history: seq<Grant>, k: nat,
                      triggered: bool, value: int, amount: int, bps: nat, schedule: nat)
    requires k < |history|
  {
    && First(history, k) && value == history[k].value
    && (NoCooldownWrap(p) ==> (triggered <==> Due(p, history, k)))
    && (triggered ==>
          Eligible(p, value) && bps == p.protectBps && schedule == p.scheduleId && IsShare(amount, value, bps))
    && (!triggered ==> amount == 0 && bps == 0 && schedule == 0)
  }

  predicate Frozen(p: NormalizedPolicy, history: seq<Grant>, k: nat, a: EventAuthorization)
    requires k < |history|
  {
    Justified(p, history, k, a.triggered, a.eventValueUsd18, a.protectedUsd18, a.protectBps, a.scheduleId)
  }

  lemma ShareIsFloor(value: int, bps: nat)
    ensures IsShare(ProtectedShare(value, bps), value, bps)
  {}

  lemma FirstVerdict(p: NormalizedPolicy, history: seq<Grant>, k: nat, s: RuleState)
    requires k < |history| && First(history, k)
    requires s.policy == p && history[k].eventHash !in s.authorizations
    requires NoCooldownWrap(p) ==> (NewTrigger(s, history[k]) <==> Due(p, history, k))
    ensures Frozen(p, history, k, FrozenDecision(s, history[k]))
  {
    ShareIsFloor(history[k].value, p.protectBps);
  }

  lemma {:induction false} TriggersIffDue(s0: RuleState, history: seq<Grant>, k: nat)
    requires Fresh(s0) && NoCooldownWrap(s0.policy) && k < |history| && Replay(s0, history, |history|).Some?
    ensures FirstTrigger(s0, history, k) <==> Due(s0.policy, history, k)
  {
    TriggersExactlyWhenDue(s0, history, k + 1);
    assert k in TriggeredAmong(s0, history, k + 1) <==> FirstTrigger(s0, history, k);
  }

  lemma {:induction false} FreshVerdict(s0: RuleState, history: seq<Grant>, k: nat)
    requires Fresh(s0) && k < |history| && Replay(s0, history, |history|).Some? && First(history, k)
    ensures Replay(s0, history, k).Some?
    ensures Frozen(s0.policy, history, k, FrozenDecision(Replay(s0, history, k).value, history[k]))
  {
    ReplayedBefore(s0, history, k);
    PolicyFixed(s0, history, k);
    AuthorizedIffSeen(s0, history, k, history[k].eventHash);
    if NoCooldownWrap(s0.policy) { TriggersIffDue(s0, history, k); }
    FirstVerdict(s0.policy, history, k, Replay(s0, history, k).value);
  }

  /** Every authorization still carries the verdict of its event's first evaluation, however often it was refreshed. */
  lemma {:induction false} VerdictsFrozen(s0: RuleState, history: seq<Grant>, n: nat, event: Hash)
    requires Fresh(s0) && n <= |history| && Replay(s0, history, |history|).Some?
    requires Replay(s0, history, n).Some? && event in Replay(s0, history, n).value.authorizations
    ensures exists k: nat :: k < n && history[k].eventHash == event
                        && Frozen(s0.policy, history, k, Replay(s0, history, n).value.authorizations[event])
  {
    var before, g := Replay(s0, history, n - 1).value, history[n - 1];
    if event in before.authorizations {
      VerdictsFrozen(s0, history, n - 1, event);
    } else {
      AuthorizedIffSeen(s0, history, n - 1, event);
      FreshVerdict(s0, history, n - 1);
    }
  }

  /**
   * Decision d answers operation i, the a-th of the operations behind the rule's state, and gives the
   * verdict on the k-th, the first on its event.
   */
  predicate Explains(ops: seq<Op>, p: NormalizedPolicy, entry: seq<nat>, d: FccDecision, i: nat, a: nat, k: nat) {
    && k <= a < |entry| && entry[a] == i && DecidedBy(d, GrantOf(ops, i))
    && GrantOf(ops, entry[k]).eventHash == d.eventHash
    && Justified(p, Grants(ops, entry), k, d.triggered, d.eventValueUsd18, d.protectedUsd18, d.protectBps, d.scheduleId)
  }

  /** The verdict an event carries in a state is the one on its first operation, which no other one on it precedes. */
  lemma EventJustified(s: RuleState, s0: RuleState, ops: seq<Op>, entry: seq<nat>, a: nat, event: Hash) returns (k: nat)
    requires Fresh(s0) && Reaches(s0, Grants(ops, entry), s) && a < |entry| && GrantOf(ops, entry[a]).eventHash == event
    requires event in s.authorizations
    ensures k <= a && GrantOf(ops, entry[k]).eventHash == event
    ensures Frozen(s0.policy, Grants(ops, entry), k, s.authorizations[event])
  {
    var history := Grants(ops, entry);
    VerdictsFrozen(s0, history, |history|, event);
    k :| 0 <= k < |history| && history[k].eventHash == event && Frozen(s0.policy, history, k, s.authorizations[event]);
    assert First(history, k) && history[a].eventHash == history[k].eventHash;
  }

  /**
   * Every acknowledged decision answers its own operation and carries the policy's verdict on the first
   * evaluation of its event among the operations behind the rule's durable state: triggered exactly when
   * protection was due, for the floored share of the amount.
   */
  lemma {:induction false} AcknowledgedDecisionsJustified(h: Keccak, kind: StoreKind, ops: seq<Op>, i: nat)
    requires Durable(kind, ops) && i < |ops| && DecisionAt(h, kind, ops, i).Some?
    ensures var d, e, l := DecisionAt(h, kind, ops, i).value, Final(h, kind, ops), LedgerOf(h, kind, ops);
            && d.ruleId in e.store && d.ruleId in l.stored
            && exists a: nat, k: nat :: Explains(ops, e.store[d.ruleId].policy, l.stored[d.ruleId], d, i, a, k)
  {
    RunsAreSafe(h, kind, ops);
    RunsAreHistories(h, kind, ops);
    AcknowledgedOperation(h, kind, ops, i);
    var d, e := DecisionAt(h, kind, ops, i).value, Final(h, kind, ops);
    assert Backed(h, e, Run(h, Empty(kind), ops).1[i]);
    var s, entry := e.store[d.ruleId], LedgerOf(h, kind, ops).stored[d.ruleId];
    assert Traced(h, kind, ops, d.ruleId, s, entry);
    var a := PlaceOf(entry, i);
    var k := EventJustified(s, FreshState(h, s.policy), ops, entry, a, d.eventHash);
    assert Explains(ops, s.policy, entry, d, i, a, k);
  }
}
