/** The /state counters of one process lifetime, accounted for by what the cache holds. */
module Conservation {
  import opened Base
  import opened Policy
  import opened Authorization
  import opened Machine
  import opened Safety

  ghost function Sum(m: map<Hash, nat>): nat {
    if m == map[] then 0 else var k :| k in m; m[k] + Sum(m - {k})
  }

  lemma {:induction false} SumSplit(m: map<Hash, nat>, k: Hash)
    requires k in m
    ensures Sum(m) == m[k] + Sum(m - {k})
    decreases |m|
  {
    var j :| j in m && Sum(m) == m[j] + Sum(m - {j});
    if j != k {
      SumSplit(m - {j}, k);
      SumSplit(m - {k}, j);
      assert m - {j} - {k} == m - {k} - {j};
    }
  }

  lemma SumUpdate(m: map<Hash, nat>, k: Hash, v: nat)
    ensures Sum(m[k := v]) == Sum(m) - (if k in m then m[k] else 0) + v
  {
    SumSplit(m[k := v], k);
    assert m[k := v] - {k} == m - {k};
    if k in m { SumSplit(m, k); } else { assert m - {k} == m; }
  }

  function Triggered(s: RuleState): set<Hash> {
    set event | event in s.authorizations && s.authorizations[event].triggered
  }

  function NonceCounts(cache: map<Hash, RuleState>): map<Hash, nat> {
    map r | r in cache :: |cache[r].usedNonces|
  }

  function TriggerCounts(cache: map<Hash, RuleState>): map<Hash, nat> {
    map r | r in cache :: |Triggered(cache[r])|
  }

  predicate Untouched(s: RuleState) {
    s.usedNonces == {} && s.authorizations == map[]
  }

  /** The counters add up, and a rule that is not cached was never evaluated. */
  ghost predicate Balanced(e: Engine) {
    && e.evaluations == Sum(NonceCounts(e.cache))
    && e.triggers == Sum(TriggerCounts(e.cache))
    && forall r :: r in e.store && r !in e.cache ==> Untouched(e.store[r])
  }

  lemma ApplyCounts(s: RuleState, g: Grant)
    requires Admissible(s, g)
    ensures |Apply(s, g).usedNonces| == |s.usedNonces| + 1
    ensures |Triggered(Apply(s, g))| == |Triggered(s)| + if NewTrigger(s, g) then 1 else 0
  {
    assert Apply(s, g).usedNonces == s.usedNonces + {g.nonce};
    TriggeredAfter(s, g, FrozenDecision(s, g), Apply(s, g));
  }

  lemma TriggeredAfter(s: RuleState, g: Grant, a: EventAuthorization, s': RuleState)
    requires g.eventHash in s.authorizations ==> a == s.authorizations[g.eventHash]
    requires exists expiry :: s'.authorizations == s.authorizations[g.eventHash := a.(lastExpiry := expiry)]
    ensures |Triggered(s')| == |Triggered(s)| + if g.eventHash !in s.authorizations && a.triggered then 1 else 0
  {
    if g.eventHash !in s.authorizations && a.triggered {
      assert Triggered(s') == Triggered(s) + {g.eventHash};
    } else {
      assert Triggered(s') == Triggered(s);
    }
  }

  lemma NoncesUpdate(cache: map<Hash, RuleState>, r: Hash, s: RuleState)
    ensures Sum(NonceCounts(cache[r := s])) ==
            Sum(NonceCounts(cache)) - (if r in cache then |cache[r].usedNonces| else 0) + |s.usedNonces|
  {
    SumUpdate(NonceCounts(cache), r, |s.usedNonces|);
    assert NonceCounts(cache[r := s]) == NonceCounts(cache)[r := |s.usedNonces|];
  }

  lemma TriggersUpdate(cache: map<Hash, RuleState>, r: Hash, s: RuleState)
    ensures Sum(TriggerCounts(cache[r := s])) ==
            Sum(TriggerCounts(cache)) - (if r in cache then |Triggered(cache[r])| else 0) + |Triggered(s)|
  {
    SumUpdate(TriggerCounts(cache), r, |Triggered(s)|);
    assert TriggerCounts(cache[r := s]) == TriggerCounts(cache)[r := |Triggered(s)|];
  }

  lemma InstallBalanced(h: Keccak, e: Engine, p: NormalizedPolicy, io: Io)
    requires Balanced(e)
    ensures Balanced(InstallPolicy(h, e, p, io).0)
  {
    var s := FreshState(h, p);
    assert Untouched(s) && Triggered(s) == {};
    InstallShape(h, e, p, io);
    var e' := InstallPolicy(h, e, p, io).0;
    if e'.cache != e.cache {
      NoncesUpdate(e.cache, p.ruleId, s);
      TriggersUpdate(e.cache, p.ruleId, s);
    }
  }

  lemma CachingBalanced(h: Keccak, e: Engine, r: Hash, io: Io)
    requires Balanced(e) && Fetch(h, e, r, io).Loaded?
    ensures Balanced(e.(cache := e.cache[r := Fetch(h, e, r, io).state]))
  {
    var s := Fetch(h, e, r, io).state;
    NoncesUpdate(e.cache, r, s);
    TriggersUpdate(e.cache, r, s);
    if r !in e.cache { assert Triggered(s) == {}; }
  }

  lemma PersistBalanced(e: Engine, r: Hash, g: Grant, io: Io)
    requires Balanced(e) && r in e.cache && Admissible(e.cache[r], g)
    ensures Balanced(Persist(e, e.cache[r], r, g, io))
  {
    ApplyCounts(e.cache[r], g);
    NoncesUpdate(e.cache, r, Apply(e.cache[r], g));
    TriggersUpdate(e.cache, r, Apply(e.cache[r], g));
  }

  lemma EvaluateBalanced(h: Keccak, e: Engine, q: Request, now: uint64, snapshot: Option<Snapshot>, io: Io)
    requires Balanced(e)
    ensures Balanced(EvaluateStep(h, e, q, now, snapshot, io).0)
  {
    var fetched := Fetch(h, e, q.ruleId, io);
    if q.ruleId != 0 && q.eventHash != 0 && now != 0 && fetched.Loaded? {
      CachingBalanced(h, e, q.ruleId, io);
      var cached := e.(cache := e.cache[q.ruleId := fetched.state]);
      if CheckRequest(fetched.state, q, now, snapshot).Ok? {
        CheckedIsAdmissible(fetched.state, q, now, snapshot);
        var value := CheckRequest(fetched.state, q, now, snapshot).value;
        PersistBalanced(cached, q.ruleId, Grant(q.eventHash, q.nonce, now, value), io);
      }
    }
  }

  /**
   * From an empty store until the next restart, evaluationCount is the number of used nonces over all
   * rules and successfulTriggers the number of triggered events; refreshes are not counted again.
   */
  lemma {:induction false} CountersConserved(h: Keccak, kind: StoreKind, ops: seq<Op>)
    requires Restart !in ops
    ensures Balanced(Run(h, Empty(kind), ops).0)
  {
    if ops == [] {
      assert NonceCounts(map[]) == map[] && TriggerCounts(map[]) == map[];
    } else {
      var init, op := ops[..|ops| - 1], ops[|ops| - 1];
      CountersConserved(h, kind, init);
      var e := Run(h, Empty(kind), init).0;
      match op
      case Create(plaintext, now, io) =>
        if AdmitPolicy(plaintext, now).Ok? { InstallBalanced(h, e, AdmitPolicy(plaintext, now).value, io); }
      case Evaluate(q, now, snapshot, io) => EvaluateBalanced(h, e, q, now, snapshot, io);
      case Restart => assert false;
    }
  }
}
