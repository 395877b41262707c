/** Whole runs of the engine: what acknowledged replies promise each other, and exactly when. */
module Runs {
  import opened Base
  import opened DecisionCodec
  import opened Policy
  import opened Authorization
  import opened Machine
  import opened Safety
  import opened Histories
  import opened Scripts
  import opened Replies

  /** The decision acknowledged at step i of a run. */
  function DecisionAt(h: Keccak, kind: StoreKind, ops: seq<Op>, i: nat): Option<FccDecision>
    requires i < |ops|
  {
    DecisionOf(h, Run(h, Empty(kind), ops).1[i])
  }

  // ---- acknowledged decisions and the histories behind them ----

  /** The decision answers the evaluation: same event, nonce, time and amount, and a 600-second window. */
  predicate DecidedBy(d: FccDecision, g: Grant) {
    && d.eventHash == g.eventHash && d.nonce == g.nonce && d.evaluatedAt == g.timestamp && d.eventValueUsd18 == g.value
    && d.resultExpiry == AddU64(g.timestamp, RESULT_VALIDITY_SECONDS)
  }

  /** The decision acknowledged at step i, over either store, is of that very operation. */
  lemma {:induction false} AcknowledgedMatches(h: Keccak, kind: StoreKind, ops: seq<Op>, i: nat)
    requires i < |ops| && DecisionAt(h, kind, ops, i).Some?
    ensures ops[i].Evaluate? && ops[i].timestamp > 0
    ensures var d := DecisionAt(h, kind, ops, i).value;
            d.ruleId == ops[i].request.ruleId && DecidedBy(d, GrantOf(ops, i))
  {
    RunAt(h, Empty(kind), ops, i);
    StatesAlwaysSound(h, kind, ops[..i]);
    AnswerMatches(h, Final(h, kind, ops[..i]), ops[i]);
  }

  /** Over a durable store it also stays behind every copy of its rule's state. */
  lemma {:induction false} AcknowledgedOperation(h: Keccak, kind: StoreKind, ops: seq<Op>, i: nat)
    requires Durable(kind, ops) && i < |ops| && DecisionAt(h, kind, ops, i).Some?
    ensures Behind(ops, LedgerOf(h, kind, ops), i)
    ensures var d := DecisionAt(h, kind, ops, i).value;
            d.ruleId == ops[i].request.ruleId && DecidedBy(d, GrantOf(ops, i))
  {
    AcknowledgedStaysBehind(h, kind, ops, i);
    AcknowledgedMatches(h, kind, ops, i);
  }

  lemma AnswerMatches(h: Keccak, e: Engine, op: Op)
    requires StatesSound(h, e.cache, e.store) && Step(h, e, op).1.Evaluated?
    ensures op.Evaluate? && op.timestamp > 0
    ensures var reply := Step(h, e, op).1;
            && DecisionOf(h, reply).Some? && op.snapshot.Some? && op.snapshot.value.eventValueUsd18.Some?
            && Matches(h, DecisionOf(h, reply).value, op.request, op.timestamp, op.snapshot.value.eventValueUsd18.value)
  {
    DecisionReply(h, e, op.request, op.timestamp, op.snapshot, op.io);
  }

  /** The place of an operation in a history. */
  lemma PlaceOf(entry: seq<nat>, i: nat) returns (a: nat)
    requires i in entry
    ensures a < |entry| && entry[a] == i
  {
    a :| 0 <= a < |entry| && entry[a] == i;
  }

  /** The windows that these operations opened for the event did not wrap past zero. */
  predicate OpenedFit(ops: seq<Op>, entry: seq<nat>, event: Hash) {
    forall k :: k in entry && GrantOf(ops, k).eventHash == event ==>
      GrantOf(ops, k).timestamp + RESULT_VALIDITY_SECONDS < U64
  }

  /** No trusted time in the run is so late that adding 600 wraps. */
  predicate Timely(ops: seq<Op>) {
    forall i :: 0 <= i < |ops| && ops[i].Evaluate? ==> ops[i].timestamp + RESULT_VALIDITY_SECONDS < U64
  }

  predicate NoWindowWrap(p: NormalizedPolicy) {
    p.expiresAt + RESULT_VALIDITY_SECONDS < U64
  }

  lemma {:induction false} AcceptedInTime(s0: RuleState, history: seq<Grant>, k: nat)
    requires Replay(s0, history, |history|).Some? && k < |history|
    ensures 0 < history[k].timestamp <= s0.policy.expiresAt
  {
    ReplayedBefore(s0, history, k);
    PolicyFixed(s0, history, k);
  }

  /** Windows cannot wrap in a timely run, nor under a policy that expires early enough. */
  lemma {:induction false} OpenedFitWhen(h: Keccak, kind: StoreKind, ops: seq<Op>, r: Hash, event: Hash)
    requires r in Final(h, kind, ops).store
    requires Timely(ops) || NoWindowWrap(Final(h, kind, ops).store[r].policy)
    ensures r in LedgerOf(h, kind, ops).stored && OpenedFit(ops, LedgerOf(h, kind, ops).stored[r], event)
  {
    RunsAreHistories(h, kind, ops);
    var s, entry := Final(h, kind, ops).store[r], LedgerOf(h, kind, ops).stored[r];
    assert Traced(h, kind, ops, r, s, entry);
    forall k | k in entry ensures GrantOf(ops, k).timestamp + RESULT_VALIDITY_SECONDS < U64 {
      var a := PlaceOf(entry, k);
      assert Wrote(kind, ops, r, entry[a]);
      AcceptedInTime(FreshState(h, s.policy), Grants(ops, entry), a);
    }
  }

  lemma {:induction false} WindowsFollow(s0: RuleState, ops: seq<Op>, entry: seq<nat>, i: nat, j: nat)
    requires Increasing(entry) && i in entry && j in entry && i < j
    requires Replay(s0, Grants(ops, entry), |entry|).Some? && GrantOf(ops, i).eventHash == GrantOf(ops, j).eventHash
    requires OpenedFit(ops, entry, GrantOf(ops, i).eventHash)
    ensures AddU64(GrantOf(ops, i).timestamp, RESULT_VALIDITY_SECONDS) < GrantOf(ops, j).timestamp
  {
    var a := PlaceOf(entry, i);
    var b := PlaceOf(entry, j);
    assert a < b;
    WindowsInOrder(s0, Grants(ops, entry), a, b);
    AddWithoutWrap(GrantOf(ops, i).timestamp, RESULT_VALIDITY_SECONDS);
  }

  /**
   * Two decisions acknowledged for one rule never share a nonce; for one event they give the same verdict,
   * and the later one is evaluated strictly after the earlier one's window has closed, unless a window
   * that the run opened for the event wrapped past zero.
   */
  lemma {:induction false} AcknowledgedDecisionsAgree(h: Keccak, kind: StoreKind, ops: seq<Op>, i: nat, j: nat)
    requires Durable(kind, ops) && i < j < |ops|
    requires DecisionAt(h, kind, ops, i).Some? && DecisionAt(h, kind, ops, j).Some?
    requires DecisionAt(h, kind, ops, i).value.ruleId == DecisionAt(h, kind, ops, j).value.ruleId
    ensures var d, d' := DecisionAt(h, kind, ops, i).value, DecisionAt(h, kind, ops, j).value;
            && d.nonce != d'.nonce
            && d.ruleId in Final(h, kind, ops).store && d.ruleId in LedgerOf(h, kind, ops).stored
            && (d.eventHash == d'.eventHash ==>
                  && SameVerdict(d, d')
                  && (OpenedFit(ops, LedgerOf(h, kind, ops).stored[d.ruleId], d.eventHash) ==>
                        d.resultExpiry < d'.evaluatedAt))
  {
    RunsAreSafe(h, kind, ops);
    var (e, replies) := Run(h, Empty(kind), ops);
    assert Backed(h, e, replies[i]) && Compatible(h, replies[i], replies[j]);
    AcknowledgedOperation(h, kind, ops, i);
    AcknowledgedOperation(h, kind, ops, j);
    if ops[i].request.eventHash == ops[j].request.eventHash { OperationsFollow(h, kind, ops, i, j); }
  }

  lemma {:induction false} OperationsFollow(h: Keccak, kind: StoreKind, ops: seq<Op>, i: nat, j: nat)
    requires i < j && Behind(ops, LedgerOf(h, kind, ops), i) && Behind(ops, LedgerOf(h, kind, ops), j)
    requires ops[i].request.ruleId == ops[j].request.ruleId && GrantOf(ops, i).eventHash == GrantOf(ops, j).eventHash
    ensures OpenedFit(ops, LedgerOf(h, kind, ops).stored[ops[i].request.ruleId], GrantOf(ops, i).eventHash) ==>
              AddU64(GrantOf(ops, i).timestamp, RESULT_VALIDITY_SECONDS) < GrantOf(ops, j).timestamp
  {
    var r := ops[i].request.ruleId;
    RunsAreHistories(h, kind, ops);
    var s, entry := Final(h, kind, ops).store[r], LedgerOf(h, kind, ops).stored[r];
    assert Traced(h, kind, ops, r, s, entry);
    if OpenedFit(ops, entry, GrantOf(ops, i).eventHash) {
      WindowsFollow(FreshState(h, s.policy), ops, entry, i, j);
    }
  }

  /**
   * In every run whose trusted times do not wrap, and for every policy that expires early enough in any
   * run, the windows acknowledged for one event are pairwise disjoint.
   */
  lemma WindowsDisjointInRun(h: Keccak, kind: StoreKind, ops: seq<Op>, i: nat, j: nat)
    requires Durable(kind, ops) && i < j < |ops|
    requires DecisionAt(h, kind, ops, i).Some? && DecisionAt(h, kind, ops, j).Some?
    requires var d, d' := DecisionAt(h, kind, ops, i).value, DecisionAt(h, kind, ops, j).value;
             d.ruleId == d'.ruleId && d.eventHash == d'.eventHash
    ensures var d, d' := DecisionAt(h, kind, ops, i).value, DecisionAt(h, kind, ops, j).value;
            && d.ruleId in Final(h, kind, ops).store
            && (Timely(ops) || NoWindowWrap(Final(h, kind, ops).store[d.ruleId].policy) ==>
                  d.resultExpiry < d'.evaluatedAt && !BothValid(d, d'))
  {
    var d := DecisionAt(h, kind, ops, i).value;
    AcknowledgedDecisionsAgree(h, kind, ops, i, j);
    if Timely(ops) || NoWindowWrap(Final(h, kind, ops).store[d.ruleId].policy) {
      OpenedFitWhen(h, kind, ops, d.ruleId, d.eventHash);
    }
  }

  /** At most one creation is acknowledged per rule, and it announces the commitment the rule keeps for good. */
  lemma {:induction false} CreatedOnce(h: Keccak, kind: StoreKind, ops: seq<Op>, i: nat)
    requires Durable(kind, ops) && i < |ops| && Run(h, Empty(kind), ops).1[i].Created?
    ensures var (e, replies) := Run(h, Empty(kind), ops);
            && replies[i].ruleId in e.store
            && e.store[replies[i].ruleId].commitment == replies[i].commitment
            && replies[i].commitment == Commitment(h, e.store[replies[i].ruleId].policy)
            && forall j :: 0 <= j < |ops| && j != i && replies[j].Created? ==> replies[j].ruleId != replies[i].ruleId
  {
    RunsAreSafe(h, kind, ops);
    var (e, replies) := Run(h, Empty(kind), ops);
    assert Backed(h, e, replies[i]);
    forall j | 0 <= j < |ops| && j != i && replies[j].Created? ensures replies[j].ruleId != replies[i].ruleId {
      assert Compatible(h, replies[if i < j then i else j], replies[if i < j then j else i]);
    }
  }

  /** Every durable state passes the binding check of its own load and comes back equal. */
  lemma DurableStatesLoad(h: Keccak, kind: StoreKind, ops: seq<Op>, r: Hash)
    requires r in Final(h, kind, ops).store
    ensures Load(h, kind, Final(h, kind, ops).store, r, Io(false, Saved)) == Loaded(Final(h, kind, ops).store[r])
  {
    StatesAlwaysSound(h, kind, ops);
    KindFixed(h, Empty(kind), ops);
  }

  lemma StepGrows(h: Keccak, e: Engine, replies: seq<Reply>, op: Op)
    requires Invariant(h, e, replies) && (e.kind.RedisKind? || !op.Restart?)
    ensures Grows(e.store, Step(h, e, op).0.store)
  {
    match op
    case Create(plaintext, now, io) =>
      if AdmitPolicy(plaintext, now).Ok? { InstallGrows(h, e, AdmitPolicy(plaintext, now).value, io); }
    case Evaluate(q, now, snapshot, io) => EvaluateGrows(h, e, q, now, snapshot, io);
    case Restart =>
  }

  lemma InstallGrows(h: Keccak, e: Engine, p: NormalizedPolicy, io: Io)
    ensures Grows(e.store, InstallPolicy(h, e, p, io).0.store)
  {
    InstallShape(h, e, p, io);
  }

  lemma EvaluateGrows(h: Keccak, e: Engine, q: Request, now: uint64, snapshot: Option<Snapshot>, io: Io)
    requires StatesSound(h, e.cache, e.store)
    ensures Grows(e.store, EvaluateStep(h, e, q, now, snapshot, io).0.store)
  {
    var fetched := Fetch(h, e, q.ruleId, io);
    if q.ruleId != 0 && q.eventHash != 0 && now != 0 && fetched.Loaded? {
      FetchedSound(h, e, q.ruleId, io);
      if CheckRequest(fetched.state, q, now, snapshot).Ok? {
        CheckedIsAdmissible(fetched.state, q, now, snapshot);
        var g := Grant(q.eventHash, q.nonce, now, CheckRequest(fetched.state, q, now, snapshot).value);
        PersistEffect(h, e.(cache := e.cache[q.ruleId := fetched.state]), q.ruleId, g, io);
      }
    }
  }

  /** Once a rule is in the store, its policy and commitment never change. */
  lemma {:induction false} PolicyImmutable(h: Keccak, kind: StoreKind, ops: seq<Op>, k: nat)
    requires Durable(kind, ops) && k <= |ops|
    ensures Grows(Final(h, kind, ops[..k]).store, Final(h, kind, ops).store)
  {
    if k == |ops| {
      assert ops[..k] == ops;
    } else {
      var n := |ops| - 1;
      PolicyImmutable(h, kind, ops[..n], k);
      assert ops[..n][..k] == ops[..k];
      RunsAreSafe(h, kind, ops[..n]);
      StepGrows(h, Final(h, kind, ops[..n]), Run(h, Empty(kind), ops[..n]).1, ops[n]);
    }
  }

  // ---- what a restart costs without a durable store ----

  lemma {:induction false} RunConcat(h: Keccak, e: Engine, first: seq<Op>, second: seq<Op>)
    ensures var (mid, replies) := Run(h, e, first);
            var (end, replies') := Run(h, mid, second);
            Run(h, e, first + second) == (end, replies + replies')
  {
    var (mid, replies) := Run(h, e, first);
    if second == [] {
      assert first + second == first && replies + [] == replies;
    } else {
      var n := |second| - 1;
      RunConcat(h, e, first, second[..n]);
      RunStep(h, e, first + second[..n], second[n]);
      assert first + second[..n] + [second[n]] == first + second;
      var (before, replies') := Run(h, mid, second[..n]);
      var last := [Step(h, before, second[n]).1];
      assert replies + replies' + last == replies + (replies' + last);
    }
  }

  /** Restarting over the memory store starts from nothing. */
  lemma {:induction false} RestartForgets(h: Keccak, ops: seq<Op>)
    ensures var (e, replies) := Run(h, Empty(MemoryKind), ops);
            Run(h, Empty(MemoryKind), ops + [Restart]) == (Empty(MemoryKind), replies + [Silent])
  {
    KindFixed(h, Empty(MemoryKind), ops);
    RunStep(h, Empty(MemoryKind), ops, Restart);
  }

  /** A restart over the memory store separates two runs that know nothing of each other. */
  lemma {:induction false} MemoryRestartSplits(h: Keccak, first: seq<Op>, second: seq<Op>)
    ensures var e0 := Empty(MemoryKind);
            var ((_, replies), (end, replies')) := (Run(h, e0, first), Run(h, e0, second));
            Run(h, e0, first + [Restart] + second) == (end, replies + [Silent] + replies')
  {
    RestartForgets(h, first);
    RunConcat(h, Empty(MemoryKind), first + [Restart], second);
  }

  /**
   * Over the memory store a restart forgets every promise: the same requests, made again, are
   * acknowledged again word for word, nonces included.
   */
  lemma {:induction false} MemoryStoreForgets(h: Keccak, ops: seq<Op>)
    ensures var replies := Run(h, Empty(MemoryKind), ops).1;
            Run(h, Empty(MemoryKind), ops + [Restart] + ops).1 == replies + [Silent] + replies
  {
    MemoryRestartSplits(h, ops, ops);
  }

  /** One event, one nonce and one instant, with different amounts before and after a restart. */
  function FirstLife(): Grant { Grant(1, 0, 1, 1) }

  function SecondLife(): Grant { Grant(1, 0, 1, 2) }

  function TwoLives(p: NormalizedPolicy): (ops: seq<Op>)
    ensures |ops| == 5
  {
    Script(p, [FirstLife()], 1) + [Restart] + Script(p, [SecondLife()], 1)
  }

  lemma {:induction false} OneGrantAcknowledged(h: Keccak, kind: StoreKind, p: NormalizedPolicy, g: Grant)
    requires WellFormed(p) && Admissible(FreshState(h, p), g) && g.value < U256
    ensures var (e, replies) := Run(h, Empty(kind), Script(p, [g], 1));
            && Holds(e, p.ruleId, Apply(FreshState(h, p), g)) && |replies| == 2 && AnswerTo(h, p, g, replies[1])
  {
    var s0, history := FreshState(h, p), [g];
    assert Replay(s0, history, 0) == Some(s0);
    assert Replay(s0, history, 1) == Some(Apply(s0, g));
    HistoryAcknowledged(h, kind, p, history, 1);
  }

  lemma TwoLivesAcknowledged(h: Keccak, p: NormalizedPolicy)
    requires WellFormed(p)
    ensures var (e, replies) := Run(h, Empty(MemoryKind), TwoLives(p));
            && p.ruleId in e.store && e.store[p.ruleId].policy == p
            && AnswerTo(h, p, FirstLife(), replies[1]) && AnswerTo(h, p, SecondLife(), replies[4])
  {
    var first, second := Script(p, [FirstLife()], 1), Script(p, [SecondLife()], 1);
    OneGrantAcknowledged(h, MemoryKind, p, FirstLife());
    OneGrantAcknowledged(h, MemoryKind, p, SecondLife());
    MemoryRestartSplits(h, first, second);
    assert |Run(h, Empty(MemoryKind), first).1| == 2;
  }

  // ---- exactly when windows stay disjoint ----

  predicate ValidAt(d: FccDecision, t: uint64) {
    d.evaluatedAt <= t <= d.resultExpiry
  }

  /** Some instant lies in both [evaluatedAt, resultExpiry] windows. */
  predicate BothValid(d: FccDecision, d': FccDecision) {
    exists t: uint64 :: ValidAt(d, t) && ValidAt(d', t)
  }

  /** Two acknowledged decisions on one event of policy p are valid at the same instant. */
  predicate Overlap(h: Keccak, kind: StoreKind, p: NormalizedPolicy, ops: seq<Op>, i: nat, j: nat)
    requires i < |ops| && j < |ops|
  {
    && p.ruleId in Final(h, kind, ops).store && Final(h, kind, ops).store[p.ruleId].policy == p
    && DecisionAt(h, kind, ops, i).Some? && DecisionAt(h, kind, ops, j).Some?
    && var d, d' := DecisionAt(h, kind, ops, i).value, DecisionAt(h, kind, ops, j).value;
       d.ruleId == d'.ruleId == p.ruleId && d.eventHash == d'.eventHash && BothValid(d, d')
  }

  predicate NotAfter(ops: seq<Op>, limit: uint64) {
    forall i :: 0 <= i < |ops| && ops[i].Evaluate? ==> ops[i].timestamp <= limit
  }

  /** No run with trusted times up to the limit acknowledges overlapping windows for the policy. */
  ghost predicate NeverOverlaps(h: Keccak, kind: StoreKind, p: NormalizedPolicy, limit: uint64) {
    forall ops, i, j :: NotAfter(ops, limit) && 0 <= i < j < |ops| ==> !Overlap(h, kind, p, ops, i, j)
  }

  /** The latest time at which the policy can be evaluated. */
  function LastTime(p: NormalizedPolicy, limit: uint64): uint64 {
    if limit < p.expiresAt then limit else p.expiresAt
  }

  /** A window, a second one that wraps past zero, and a third that starts inside the first. */
  function WrappingWindows(last: uint64): seq<Grant> {
    [Grant(1, 0, 1, 1), Grant(1, 1, last, 1), Grant(1, 2, (AddU64(last, RESULT_VALIDITY_SECONDS) + 1) % U64, 1)]
  }

  lemma WrappingWindowsAccepted(h: Keccak, p: NormalizedPolicy, last: uint64)
    requires WellFormed(p) && last <= p.expiresAt && last + RESULT_VALIDITY_SECONDS >= U64
    ensures Replay(FreshState(h, p), WrappingWindows(last), 3).Some? && Receivable(WrappingWindows(last))
    ensures 1 <= WrappingWindows(last)[2].timestamp <= 600
  {
    var s0, gs := FreshState(h, p), WrappingWindows(last);
    assert AddU64(last, RESULT_VALIDITY_SECONDS) == last + RESULT_VALIDITY_SECONDS - U64;
    assert Replay(s0, gs, 0) == Some(s0);
    var s1 := Apply(s0, gs[0]);
    assert Replay(s0, gs, 1) == Some(s1);
    var s2 := Apply(s1, gs[1]);
    assert Replay(s0, gs, 2) == Some(s2);
    assert Admissible(s2, gs[2]);
  }

  lemma {:induction false} ScriptNotAfter(p: NormalizedPolicy, history: seq<Grant>, n: nat, limit: uint64)
    requires n <= |history| && forall k :: 0 <= k < n ==> history[k].timestamp <= limit
    ensures NotAfter(Script(p, history, n), limit)
  {
    if n == 0 {
    } else {
      ScriptNotAfter(p, history, n - 1, limit);
    }
  }

  lemma {:induction false} WrappingWindowsOverlap(h: Keccak, kind: StoreKind, p: NormalizedPolicy, last: uint64)
    requires WellFormed(p) && last <= p.expiresAt && last + RESULT_VALIDITY_SECONDS >= U64
    ensures Overlap(h, kind, p, Script(p, WrappingWindows(last), 3), 1, 3)
  {
    var gs := WrappingWindows(last);
    WrappingWindowsAccepted(h, p, last);
    HistoryRealized(h, kind, p, gs);
    PolicyFixed(FreshState(h, p), gs, 3);
    var (e, replies) := Run(h, Empty(kind), Script(p, gs, 3));
    assert AnswerTo(h, p, gs[0], replies[1]) && AnswerTo(h, p, gs[2], replies[3]);
    WindowsMeet(DecisionOf(h, replies[1]).value, DecisionOf(h, replies[3]).value);
  }

  lemma WindowsMeet(d: FccDecision, d': FccDecision)
    requires d.resultExpiry == AddU64(d.evaluatedAt, RESULT_VALIDITY_SECONDS)
    requires d'.resultExpiry == AddU64(d'.evaluatedAt, RESULT_VALIDITY_SECONDS)
    requires d.evaluatedAt <= d'.evaluatedAt <= d.evaluatedAt + RESULT_VALIDITY_SECONDS
    requires d'.evaluatedAt + RESULT_VALIDITY_SECONDS < U64
    ensures BothValid(d, d')
  {
    AddWithoutWrap(d.evaluatedAt, RESULT_VALIDITY_SECONDS);
    AddWithoutWrap(d'.evaluatedAt, RESULT_VALIDITY_SECONDS);
    assert ValidAt(d, d'.evaluatedAt) && ValidAt(d', d'.evaluatedAt);
  }

  /** The store keeps its promises across restarts, or no evaluation is in time. */
  predicate Lasts(kind: StoreKind, limit: uint64) {
    kind.RedisKind? || limit == 0
  }

  lemma NoOverlap(h: Keccak, kind: StoreKind, p: NormalizedPolicy, limit: uint64, ops: seq<Op>, i: nat, j: nat)
    requires Lasts(kind, limit) && LastTime(p, limit) + RESULT_VALIDITY_SECONDS < U64
    requires NotAfter(ops, limit) && i < j < |ops|
    ensures !Overlap(h, kind, p, ops, i, j)
  {
    if Overlap(h, kind, p, ops, i, j) {
      AcknowledgedMatches(h, kind, ops, i);
      assert Timely(ops) || NoWindowWrap(p);
      WindowsDisjointInRun(h, kind, ops, i, j);
    }
  }

  /** Over the memory store a restarted process opens the same window again. */
  lemma RestartOverlaps(h: Keccak, p: NormalizedPolicy, limit: uint64)
    requires WellFormed(p) && 0 < limit
    ensures !NeverOverlaps(h, MemoryKind, p, limit)
  {
    TwoLivesAcknowledged(h, p);
    var ops := TwoLives(p);
    var d, d' := DecisionAt(h, MemoryKind, ops, 1).value, DecisionAt(h, MemoryKind, ops, 4).value;
    WindowsMeet(d, d');
    ScriptNotAfter(p, [FirstLife()], 1, limit);
    ScriptNotAfter(p, [SecondLife()], 1, limit);
    assert NotAfter(ops, limit);
    assert Overlap(h, MemoryKind, p, ops, 1, 4);
  }

  /**
   * Among the runs with trusted times up to a limit, none acknowledges overlapping windows for a policy
   * exactly when the store is Redis, or nothing is in time, and 600 seconds after the earlier of the limit
   * and the policy's expiry still fits uint64.
   */
  lemma WindowsDisjointIff(h: Keccak, kind: StoreKind, p: NormalizedPolicy, limit: uint64)
    requires WellFormed(p)
    ensures NeverOverlaps(h, kind, p, limit) <==>
            (kind.RedisKind? || limit == 0) && LastTime(p, limit) + RESULT_VALIDITY_SECONDS < U64
  {
    var last := LastTime(p, limit);
    if last + RESULT_VALIDITY_SECONDS >= U64 {
      WrappingWindowsAccepted(h, p, last);
      ScriptNotAfter(p, WrappingWindows(last), 3, limit);
      WrappingWindowsOverlap(h, kind, p, last);
    } else if !Lasts(kind, limit) {
      RestartOverlaps(h, p, limit);
    } else {
      forall ops, i, j | NotAfter(ops, limit) && 0 <= i < j < |ops| ensures !Overlap(h, kind, p, ops, i, j) {
        NoOverlap(h, kind, p, limit, ops, i, j);
      }
    }
  }

  // ---- the cooldown in runs ----

  /** First triggers in the history behind a state are at least a cooldown apart. */
  predicate EntrySpaced(h: Keccak, ops: seq<Op>, p: NormalizedPolicy, entry: seq<nat>) {
    Spaced(FreshState(h, p), Grants(ops, entry))
  }

  /** Both copies of the rule's state, where present, come from spaced histories. */
  predicate RuleSpaced(h: Keccak, kind: StoreKind, ops: seq<Op>, r: Hash, p: NormalizedPolicy) {
    var l := LedgerOf(h, kind, ops);
    (r in l.stored ==> EntrySpaced(h, ops, p, l.stored[r])) && (r in l.cached ==> EntrySpaced(h, ops, p, l.cached[r]))
  }

  /** Every snapshot amount fits a word. */
  predicate WordSized(ops: seq<Op>) {
    forall i :: 0 <= i < |ops| ==> GrantOf(ops, i).value < U256
  }

  lemma EntryKeepsCooldown(h: Keccak, kind: StoreKind, ops: seq<Op>, r: Hash, s: RuleState, entry: seq<nat>)
    requires Traced(h, kind, ops, r, s, entry)
    requires NoCooldownWrap(s.policy) || (!CanTrigger(s.policy) && WordSized(ops))
    ensures EntrySpaced(h, ops, s.policy, entry)
  {
    if WordSized(ops) {
      forall k | 0 <= k < |entry| ensures Grants(ops, entry)[k].value < U256 { assert Wrote(kind, ops, r, entry[k]); }
    }
    CooldownKept(FreshState(h, s.policy), Grants(ops, entry));
  }

  /**
   * In every reachable state of a rule, durable or cached, the first authorizations of its triggered
   * events lie at least a cooldown apart, in whatever order their requests arrived.
   */
  lemma {:induction false} TriggersSpacedInRuns(h: Keccak, kind: StoreKind, ops: seq<Op>, r: Hash)
    ensures AllTracked(h, kind, ops, Final(h, kind, ops), LedgerOf(h, kind, ops))
    ensures var (e, l) := (Final(h, kind, ops), LedgerOf(h, kind, ops));
            && (r in e.store && NoCooldownWrap(e.store[r].policy) ==>
                  EntrySpaced(h, ops, e.store[r].policy, l.stored[r]))
            && (r in e.cache && NoCooldownWrap(e.cache[r].policy) ==>
                  EntrySpaced(h, ops, e.cache[r].policy, l.cached[r]))
  {
    RunsAreHistories(h, kind, ops);
    var e, l := Final(h, kind, ops), LedgerOf(h, kind, ops);
    if r in e.store && NoCooldownWrap(e.store[r].policy) {
      EntryKeepsCooldown(h, kind, ops, r, e.store[r], l.stored[r]);
    }
    if r in e.cache && NoCooldownWrap(e.cache[r].policy) {
      EntryKeepsCooldown(h, kind, ops, r, e.cache[r], l.cached[r]);
    }
  }

  /** The rule has this policy wherever the engine holds it. */
  predicate HasPolicy(e: Engine, p: NormalizedPolicy) {
    && (p.ruleId in e.store ==> e.store[p.ruleId].policy == p)
    && (p.ruleId in e.cache ==> e.cache[p.ruleId].policy == p)
  }

  /** No run with word-sized amounts lets the policy trigger twice within a cooldown. */
  ghost predicate NeverCrowds(h: Keccak, kind: StoreKind, p: NormalizedPolicy) {
    forall ops :: WordSized(ops) && HasPolicy(Final(h, kind, ops), p) ==> RuleSpaced(h, kind, ops, p.ruleId, p)
  }

  lemma RuleKeepsCooldown(h: Keccak, kind: StoreKind, ops: seq<Op>, p: NormalizedPolicy)
    requires NoCooldownWrap(p) || !CanTrigger(p)
    requires WordSized(ops) && HasPolicy(Final(h, kind, ops), p)
    ensures RuleSpaced(h, kind, ops, p.ruleId, p)
  {
    RunsAreHistories(h, kind, ops);
    var e, l, r := Final(h, kind, ops), LedgerOf(h, kind, ops), p.ruleId;
    if r in l.stored { EntryKeepsCooldown(h, kind, ops, r, e.store[r], l.stored[r]); }
    if r in l.cached { EntryKeepsCooldown(h, kind, ops, r, e.cache[r], l.cached[r]); }
  }

  lemma {:induction false} ScriptWordSized(p: NormalizedPolicy, history: seq<Grant>, n: nat)
    requires n <= |history| && Receivable(history)
    ensures WordSized(Script(p, history, n))
  {
    if n == 0 {
    } else {
      ScriptWordSized(p, history, n - 1);
      var ops := Script(p, history, n - 1);
      forall i | 0 <= i < |ops| ensures GrantOf(Script(p, history, n), i) == GrantOf(ops, i) {}
    }
  }

  lemma WrappingPairCrowds(h: Keccak, kind: StoreKind, p: NormalizedPolicy)
    requires WellFormed(p) && CanTrigger(p) && !NoCooldownWrap(p)
    ensures !NeverCrowds(h, kind, p)
  {
    var pair := WrappingPair(p);
    var ops := Script(p, pair, 2);
    WrappingPairTriggersTwice(h, p);
    HistoryRealized(h, kind, p, pair);
    PolicyFixed(FreshState(h, p), pair, 2);
    ScriptWordSized(p, pair, 2);
    assert !RuleSpaced(h, kind, ops, p.ruleId, p);
  }

  /** No run crowds the policy's triggers exactly when the cooldown's addition cannot wrap, or it never triggers. */
  lemma CooldownInRunsIff(h: Keccak, kind: StoreKind, p: NormalizedPolicy)
    requires WellFormed(p)
    ensures NeverCrowds(h, kind, p) <==> NoCooldownWrap(p) || !CanTrigger(p)
  {
    if NoCooldownWrap(p) || !CanTrigger(p) {
      forall ops | WordSized(ops) && HasPolicy(Final(h, kind, ops), p) ensures RuleSpaced(h, kind, ops, p.ruleId, p) {
        RuleKeepsCooldown(h, kind, ops, p);
      }
    } else {
      WrappingPairCrowds(h, kind, p);
    }
  }

  // ---- exactly which stores keep the promises across restarts ----

  /** Two acknowledged decisions of one rule on one event say different things. */
  predicate Disagree(h: Keccak, kind: StoreKind, ops: seq<Op>, i: nat, j: nat)
    requires i < |ops| && j < |ops|
  {
    && DecisionAt(h, kind, ops, i).Some? && DecisionAt(h, kind, ops, j).Some?
    && var d, d' := DecisionAt(h, kind, ops, i).value, DecisionAt(h, kind, ops, j).value;
       d.ruleId == d'.ruleId && d.eventHash == d'.eventHash && !SameVerdict(d, d')
  }

  ghost predicate VerdictsAgree(h: Keccak, kind: StoreKind) {
    forall ops, i, j :: 0 <= i < j < |ops| ==> !Disagree(h, kind, ops, i, j)
  }

  lemma MemoryDisagrees(h: Keccak)
    ensures !VerdictsAgree(h, MemoryKind)
  {
    TwoLivesAcknowledged(h, ANY_POLICY);
    assert Disagree(h, MemoryKind, TwoLives(ANY_POLICY), 1, 4);
  }

  /** Across restarts, decisions on one event agree in every run exactly when the store is Redis. */
  lemma VerdictsAgreeIff(h: Keccak, kind: StoreKind)
    ensures VerdictsAgree(h, kind) <==> kind.RedisKind?
  {
    if kind.RedisKind? {
      forall ops, i, j | 0 <= i < j < |ops| ensures !Disagree(h, kind, ops, i, j) {
        if Disagree(h, kind, ops, i, j) { AcknowledgedDecisionsAgree(h, kind, ops, i, j); }
      }
    } else {
      MemoryDisagrees(h);
    }
  }

  /** Over any store, creating the policy and asking once is acknowledged twice over. */
  lemma AnyScriptAcknowledged(h: Keccak, kind: StoreKind)
    ensures var replies := Run(h, Empty(kind), Script(ANY_POLICY, [ANY_GRANT], 1)).1;
            && replies[0].Created? && replies[0].ruleId == 1
            && AnswerTo(h, ANY_POLICY, ANY_GRANT, replies[1])
  {
    assert Replay(FreshState(h, ANY_POLICY), [ANY_GRANT], 0).Some?;
    HistoryRealized(h, kind, ANY_POLICY, [ANY_GRANT]);
  }

  /** The repeated script: both acknowledgements come again after the restart. */
  lemma AnyScriptRepeats(h: Keccak)
    ensures var script := Script(ANY_POLICY, [ANY_GRANT], 1);
            var replies := Run(h, Empty(MemoryKind), script + [Restart] + script).1;
            && |replies| == 5 && replies[3] == replies[0] && replies[4] == replies[1]
            && replies[0].Created? && replies[0].ruleId == 1
            && AnswerTo(h, ANY_POLICY, ANY_GRANT, replies[1])
  {
    AnyScriptAcknowledged(h, MemoryKind);
    MemoryStoreForgets(h, Script(ANY_POLICY, [ANY_GRANT], 1));
  }

  /** In no run are two decisions of one rule acknowledged with the same nonce. */
  ghost predicate NoncesUsedOnce(h: Keccak, kind: StoreKind) {
    forall ops, i, j :: 0 <= i < j < |ops| ==> !NonceRepeats(h, kind, ops, i, j)
  }

  predicate NonceRepeats(h: Keccak, kind: StoreKind, ops: seq<Op>, i: nat, j: nat)
    requires i < |ops| && j < |ops|
  {
    && DecisionAt(h, kind, ops, i).Some? && DecisionAt(h, kind, ops, j).Some?
    && var d, d' := DecisionAt(h, kind, ops, i).value, DecisionAt(h, kind, ops, j).value;
       d.ruleId == d'.ruleId && d.nonce == d'.nonce
  }

  predicate CreationRepeats(h: Keccak, kind: StoreKind, ops: seq<Op>, i: nat, j: nat)
    requires i < |ops| && j < |ops|
  {
    var replies := Run(h, Empty(kind), ops).1;
    replies[i].Created? && replies[j].Created? && replies[i].ruleId == replies[j].ruleId
  }

  /** In no run are two creations of one rule acknowledged. */
  ghost predicate RulesCreatedOnce(h: Keccak, kind: StoreKind) {
    forall ops, i, j :: 0 <= i < j < |ops| ==> !CreationRepeats(h, kind, ops, i, j)
  }

  lemma {:induction false} NoncesRepeat(h: Keccak, kind: StoreKind, ops: seq<Op>, i: nat, j: nat,
                                       p: NormalizedPolicy, g: Grant)
    requires i < j < |ops|
    requires var replies := Run(h, Empty(kind), ops).1; replies[i] == replies[j] && AnswerTo(h, p, g, replies[i])
    ensures !NoncesUsedOnce(h, kind)
  {
    assert NonceRepeats(h, kind, ops, i, j);
  }

  lemma {:induction false} CreationsRepeat(h: Keccak, kind: StoreKind, ops: seq<Op>, i: nat, j: nat)
    requires i < j < |ops|
    requires var replies := Run(h, Empty(kind), ops).1; replies[i] == replies[j] && replies[i].Created?
    ensures !RulesCreatedOnce(h, kind)
  {
    assert CreationRepeats(h, kind, ops, i, j);
  }

  lemma MemoryRepeats(h: Keccak)
    ensures !NoncesUsedOnce(h, MemoryKind) && !RulesCreatedOnce(h, MemoryKind)
  {
    var script := Script(ANY_POLICY, [ANY_GRANT], 1);
    AnyScriptRepeats(h);
    NoncesRepeat(h, MemoryKind, script + [Restart] + script, 1, 4, ANY_POLICY, ANY_GRANT);
    CreationsRepeat(h, MemoryKind, script + [Restart] + script, 0, 3);
  }

  /** Across restarts, nonces and rules are used once in every run exactly when the store is Redis. */
  lemma UsedOnceIff(h: Keccak, kind: StoreKind)
    ensures NoncesUsedOnce(h, kind) <==> kind.RedisKind?
    ensures RulesCreatedOnce(h, kind) <==> kind.RedisKind?
  {
    if kind.RedisKind? {
      forall ops, i, j | 0 <= i < j < |ops|
        ensures !NonceRepeats(h, kind, ops, i, j) && !CreationRepeats(h, kind, ops, i, j)
      {
        if NonceRepeats(h, kind, ops, i, j) { AcknowledgedDecisionsAgree(h, kind, ops, i, j); }
        if CreationRepeats(h, kind, ops, i, j) { CreatedOnce(h, kind, ops, i); }
      }
    } else {
      MemoryRepeats(h);
    }
  }
}
