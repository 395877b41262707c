/** Every acceptable history of a rule is acknowledged by some run of the engine, over either store. */
module Scripts {
  import opened Base
  import opened Policy
  import opened Authorization
  import opened Machine
  import opened Safety
  import opened Histories

  const HEALTHY := Io(false, Saved)

  function CreateOp(p: NormalizedPolicy): Op {
    Create(Some(Spell(p)), 0, HEALTHY)
  }

  function GrantOp(r: Hash, g: Grant): Op {
    var snapshot := Snapshot(r, Some(g.value), Some(1), 1, false);
    Evaluate(Request(r, g.eventHash, g.nonce), g.timestamp, Some(snapshot), HEALTHY)
  }

  /** Create the policy, then make the first n requests of the history. */
  function Script(p: NormalizedPolicy, history: seq<Grant>, n: nat): (ops: seq<Op>)
    requires n <= |history|
    ensures |ops| == n + 1
  {
    if n == 0 then [CreateOp(p)] else Script(p, history, n - 1) + [GrantOp(p.ruleId, history[n - 1])]
  }

  /** A policy, and a first request it accepts. */
  const ANY_POLICY := NormalizedPolicy(1, 1, 1, 1, 0, 0, 1_000)
  const ANY_GRANT := Grant(1, 0, 1, 1)

  // ---- one request ----

  /** The engine holds exactly this state of exactly this rule. */
  predicate Holds(e: Engine, r: Hash, s: RuleState) {
    e.cache == map[r := s] && e.store == map[r := s]
  }

  lemma GrantAcknowledged(h: Keccak, e: Engine, r: Hash, s: RuleState, g: Grant)
    requires Holds(e, r, s) && Sound(h, r, s) && Admissible(s, g) && g.value < U256
    ensures var (e', reply) := Step(h, e, GrantOp(r, g));
            && Holds(e', r, Apply(s, g)) && Sound(h, r, Apply(s, g))
            && DecisionOf(h, reply) == Some(Verdict(h, Request(r, g.eventHash, g.nonce), g.timestamp, g.value,
                                                    Apply(s, g).authorizations[g.eventHash]))
  {
    var q := Request(r, g.eventHash, g.nonce);
    ApplySound(h, r, s, g);
    CommittedReply(h, s, q, g);
    GrantCommits(h, e, r, s, g);
    PersistHealthy(e, r, s, g);
  }

  lemma GrantCommits(h: Keccak, e: Engine, r: Hash, s: RuleState, g: Grant)
    requires Holds(e, r, s) && r != 0 && Admissible(s, g)
    ensures Step(h, e, GrantOp(r, g)) == CommitStep(h, e, s, Request(r, g.eventHash, g.nonce), g, HEALTHY)
  {
    assert e.cache[r := s] == e.cache;
    assert e.(cache := e.cache[r := s]) == e;
  }

  lemma PersistHealthy(e: Engine, r: Hash, s: RuleState, g: Grant)
    requires Holds(e, r, s) && r != 0 && s.policy.ruleId == r
    ensures SaveResult(e.kind, r, Apply(s, g), HEALTHY).Saved?
    ensures Holds(Persist(e, s, r, g, HEALTHY), r, Apply(s, g))
  {
    assert map[r := s][r := Apply(s, g)] == map[r := Apply(s, g)];
  }

  /** The reply to grant g of policy p opens a 600-second window at the time of the request. */
  predicate AnswerTo(h: Keccak, p: NormalizedPolicy, g: Grant, reply: Reply) {
    && DecisionOf(h, reply).Some?
    && var d := DecisionOf(h, reply).value;
       d.ruleId == p.ruleId && d.eventHash == g.eventHash && d.nonce == g.nonce && d.eventValueUsd18 == g.value
       && d.evaluatedAt == g.timestamp && d.resultExpiry == AddU64(g.timestamp, RESULT_VALIDITY_SECONDS)
  }

  predicate Answers(h: Keccak, replies: seq<Reply>, p: NormalizedPolicy, history: seq<Grant>, n: nat)
    requires n <= |history|
  {
    |replies| == n + 1 && replies[0].Created? && replies[0].ruleId == p.ruleId
    && forall k :: 0 <= k < n ==> AnswerTo(h, p, history[k], replies[k + 1])
  }

  // ---- a whole script ----

  lemma {:induction false} HistoryAcknowledged(h: Keccak, kind: StoreKind, p: NormalizedPolicy,
                                              history: seq<Grant>, n: nat)
    requires WellFormed(p) && n <= |history| && Replay(FreshState(h, p), history, n).Some?
    requires forall k :: 0 <= k < n ==> history[k].value < U256
    ensures var (e, replies) := Run(h, Empty(kind), Script(p, history, n));
            var s := Replay(FreshState(h, p), history, n).value;
            Holds(e, p.ruleId, s) && Sound(h, p.ruleId, s) && Answers(h, replies, p, history, n)
  {
    if n == 0 {
      CreationAcknowledged(h, kind, p);
    } else {
      HistoryAcknowledged(h, kind, p, history, n - 1);
      ScriptStep(h, kind, p, history, n, Replay(FreshState(h, p), history, n - 1).value);
    }
  }

  lemma ScriptStep(h: Keccak, kind: StoreKind, p: NormalizedPolicy, history: seq<Grant>, n: nat, s: RuleState)
    requires 0 < n <= |history| && Admissible(s, history[n - 1]) && history[n - 1].value < U256
    requires var (e, replies) := Run(h, Empty(kind), Script(p, history, n - 1));
             Holds(e, p.ruleId, s) && Sound(h, p.ruleId, s) && Answers(h, replies, p, history, n - 1)
    ensures var (e, replies) := Run(h, Empty(kind), Script(p, history, n));
            var s' := Apply(s, history[n - 1]);
            Holds(e, p.ruleId, s') && Sound(h, p.ruleId, s') && Answers(h, replies, p, history, n)
  {
    var ops, g := Script(p, history, n - 1), history[n - 1];
    var (e, replies) := Run(h, Empty(kind), ops);
    RunStep(h, Empty(kind), ops, GrantOp(p.ruleId, g));
    GrantAnswered(h, e, p, s, g);
    AnswersStep(h, replies, p, history, n, Step(h, e, GrantOp(p.ruleId, g)).1);
  }

  lemma GrantAnswered(h: Keccak, e: Engine, p: NormalizedPolicy, s: RuleState, g: Grant)
    requires Holds(e, p.ruleId, s) && Sound(h, p.ruleId, s) && Admissible(s, g) && g.value < U256
    ensures var (e', reply) := Step(h, e, GrantOp(p.ruleId, g));
            Holds(e', p.ruleId, Apply(s, g)) && Sound(h, p.ruleId, Apply(s, g)) && AnswerTo(h, p, g, reply)
  {
    GrantAcknowledged(h, e, p.ruleId, s, g);
  }

  lemma AnswersStep(h: Keccak, replies: seq<Reply>, p: NormalizedPolicy, history: seq<Grant>, n: nat, reply: Reply)
    requires 0 < n <= |history| && Answers(h, replies, p, history, n - 1) && AnswerTo(h, p, history[n - 1], reply)
    ensures Answers(h, replies + [reply], p, history, n)
  {
    forall k | 0 <= k < n ensures AnswerTo(h, p, history[k], (replies + [reply])[k + 1]) {
      if k < n - 1 { assert AnswerTo(h, p, history[k], replies[k + 1]); }
    }
  }

  lemma CreationAcknowledged(h: Keccak, kind: StoreKind, p: NormalizedPolicy)
    requires WellFormed(p)
    ensures var (e, replies) := Run(h, Empty(kind), [CreateOp(p)]);
            Holds(e, p.ruleId, FreshState(h, p)) && Sound(h, p.ruleId, FreshState(h, p))
            && |replies| == 1 && replies[0].Created? && replies[0].ruleId == p.ruleId
  {
    RunStep(h, Empty(kind), [], CreateOp(p));
    assert [] + [CreateOp(p)] == [CreateOp(p)];
    AcceptedIffWellFormed(p);
    FreshSound(h, p);
    assert Step(h, Empty(kind), CreateOp(p)) == InstallPolicy(h, Empty(kind), p, HEALTHY);
  }

  // ---- its ledger ----

  /** Operations 1 to n, and no others, are behind both copies of the rule. */
  predicate FullEntry(entry: seq<nat>, n: nat) {
    |entry| == n && forall k :: 0 <= k < n ==> entry[k] == k + 1
  }

  predicate FullLedger(l: Ledger, r: Hash, n: nat) {
    r in l.cached && r in l.stored && FullEntry(l.cached[r], n) && FullEntry(l.stored[r], n)
  }

  lemma {:induction false} CreationRecorded(h: Keccak, kind: StoreKind, p: NormalizedPolicy)
    requires WellFormed(p)
    ensures FullLedger(LedgerOf(h, kind, [CreateOp(p)]), p.ruleId, 0)
  {
    AcceptedIffWellFormed(p);
    var ops := [CreateOp(p)];
    assert ops[..0] == [];
    assert LedgerOf(h, kind, ops) == Record(h, Empty(kind), Ledger(map[], map[]), 0, CreateOp(p));
  }

  lemma GrantRecorded(h: Keccak, e: Engine, l: Ledger, r: Hash, s: RuleState, g: Grant, n: nat)
    requires Holds(e, r, s) && Sound(h, r, s) && Admissible(s, g) && FullLedger(l, r, n)
    ensures FullLedger(Record(h, e, l, n + 1, GrantOp(r, g)), r, n + 1)
  {}

  lemma {:induction false} ScriptRecorded(h: Keccak, kind: StoreKind, p: NormalizedPolicy, history: seq<Grant>, n: nat)
    requires WellFormed(p) && n <= |history| && Replay(FreshState(h, p), history, n).Some?
    requires forall k :: 0 <= k < n ==> history[k].value < U256
    ensures FullLedger(LedgerOf(h, kind, Script(p, history, n)), p.ruleId, n)
  {
    if n == 0 {
      CreationRecorded(h, kind, p);
    } else {
      var ops, op := Script(p, history, n - 1), GrantOp(p.ruleId, history[n - 1]);
      ScriptRecorded(h, kind, p, history, n - 1);
      HistoryAcknowledged(h, kind, p, history, n - 1);
      assert (ops + [op])[..|ops|] == ops;
      var s := Replay(FreshState(h, p), history, n - 1).value;
      GrantRecorded(h, Final(h, kind, ops), LedgerOf(h, kind, ops), p.ruleId, s, history[n - 1], n - 1);
    }
  }

  lemma {:induction false} ScriptGrants(p: NormalizedPolicy, history: seq<Grant>, n: nat)
    requires n <= |history|
    ensures forall k :: 0 <= k < n ==> GrantOf(Script(p, history, n), k + 1) == history[k]
  {
    if n == 0 {
    } else {
      ScriptGrants(p, history, n - 1);
      forall k | 0 <= k < n ensures GrantOf(Script(p, history, n), k + 1) == history[k] {
        if k < n - 1 { assert GrantOf(Script(p, history, n - 1), k + 1) == history[k]; }
      }
    }
  }

  /**
   * Every acceptable history of word-sized amounts is acknowledged request by request by its script, and
   * is the history that the script's ledger records for both copies of the rule.
   */
  lemma {:induction false} HistoryRealized(h: Keccak, kind: StoreKind, p: NormalizedPolicy, history: seq<Grant>)
    requires WellFormed(p) && Receivable(history) && Replay(FreshState(h, p), history, |history|).Some?
    ensures var ops := Script(p, history, |history|);
            var ((e, replies), l) := (Run(h, Empty(kind), ops), LedgerOf(h, kind, ops));
            && Holds(e, p.ruleId, Replay(FreshState(h, p), history, |history|).value)
            && Answers(h, replies, p, history, |history|)
            && FullLedger(l, p.ruleId, |history|)
            && Grants(ops, l.stored[p.ruleId]) == Grants(ops, l.cached[p.ruleId]) == history
  {
    HistoryAcknowledged(h, kind, p, history, |history|);
    ScriptRecorded(h, kind, p, history, |history|);
    ScriptGrants(p, history, |history|);
    FullGrants(p, history, LedgerOf(h, kind, Script(p, history, |history|)).stored[p.ruleId]);
    FullGrants(p, history, LedgerOf(h, kind, Script(p, history, |history|)).cached[p.ruleId]);
  }

  lemma {:induction false} FullGrants(p: NormalizedPolicy, history: seq<Grant>, entry: seq<nat>)
    requires FullEntry(entry, |history|)
    requires forall k :: 0 <= k < |history| ==> GrantOf(Script(p, history, |history|), k + 1) == history[k]
    ensures Grants(Script(p, history, |history|), entry) == history
  {}
}
