/**
 * Which requests made a rule's states. The ledger of a run holds, for every cached and every durable
 * state, the operations whose writes led to it, in the order they arrived.
 */
module Histories {
  import opened Base
  import opened Policy
  import opened Authorization
  import opened Machine
  import opened Safety

  datatype Ledger = Ledger(cached: map<Hash, seq<nat>>, stored: map<Hash, seq<nat>>)

  // ---- what an operation writes ----

  /** An evaluation that gets as far as holding the rule's state, which it leaves in the cache. */
  predicate Opens(h: Keccak, e: Engine, q: Request, now: uint64, io: Io) {
    q.ruleId != 0 && q.eventHash != 0 && now != 0 && Fetch(h, e, q.ruleId, io).Loaded?
  }

  /** How the durable write of an evaluation ends; None if it is refused before the write. */
  function EvaluationWrite(h: Keccak, e: Engine, q: Request, now: uint64, snapshot: Option<Snapshot>, io: Io)
    : Option<SaveOutcome>
  {
    if !Opens(h, e, q, now, io) then None
    else
      var s := Fetch(h, e, q.ruleId, io).state;
      match CheckRequest(s, q, now, snapshot)
      case Err(_) => None
      case Ok(_) => Some(SaveResult(e.kind, q.ruleId, s, io))
  }

  function CreationWrite(h: Keccak, e: Engine, p: NormalizedPolicy, io: Io): Option<SaveOutcome> {
    if p.ruleId in e.cache || !Load(h, e.kind, e.store, p.ruleId, io).Missing? then None
    else Some(SaveResult(e.kind, p.ruleId, FreshState(h, p), io))
  }

  // ---- the ledger of a run ----

  /** The operations behind the state that an evaluation of rule r starts from. */
  function Entry(l: Ledger, r: Hash): seq<nat> {
    if r in l.cached then l.cached[r] else if r in l.stored then l.stored[r] else []
  }

  /** A write reaches the store even when it fails late, the cache only when it is acknowledged. */
  function Put(l: Ledger, r: Hash, entry: seq<nat>, outcome: SaveOutcome): Ledger {
    match outcome
    case FailedBefore => l
    case FailedAfter => l.(stored := l.stored[r := entry])
    case Saved => Ledger(l.cached[r := entry], l.stored[r := entry])
  }

  /** The ledger after operation n, which the engine meets in state e. */
  function Record(h: Keccak, e: Engine, l: Ledger, n: nat, op: Op): Ledger {
    match op
    case Create(plaintext, now, io) =>
      (match AdmitPolicy(plaintext, now)
       case Err(_) => l
       case Ok(p) =>
         var write := CreationWrite(h, e, p, io);
         if write.None? then l else Put(l, p.ruleId, [], write.value))
    case Evaluate(q, now, snapshot, io) =>
      if !Opens(h, e, q, now, io) then l
      else
        var loaded := l.(cached := l.cached[q.ruleId := Entry(l, q.ruleId)]);
        var write := EvaluationWrite(h, e, q, now, snapshot, io);
        if write.None? then loaded else Put(loaded, q.ruleId, Entry(l, q.ruleId) + [n], write.value)
    case Restart => Ledger(map[], if e.kind.MemoryKind? then map[] else l.stored)
  }

  function LedgerOf(h: Keccak, kind: StoreKind, ops: seq<Op>): Ledger {
    if ops == [] then Ledger(map[], map[])
    else
      var n := |ops| - 1;
      Record(h, Final(h, kind, ops[..n]), LedgerOf(h, kind, ops[..n]), n, ops[n])
  }

  // ---- the histories it stands for ----

  /** The evaluation an operation asks for. */
  function GrantOf(ops: seq<Op>, i: nat): Grant {
    if i < |ops| && ops[i].Evaluate? then
      var snapshot := ops[i].snapshot;
      var amount := if snapshot.Some? then snapshot.value.eventValueUsd18 else None;
      var value := if amount.Some? then amount.value else 0;
      Grant(ops[i].request.eventHash, ops[i].request.nonce, ops[i].timestamp, value)
    else Grant(0, 0, 0, 0)
  }

  function Grants(ops: seq<Op>, entry: seq<nat>): (history: seq<Grant>)
    ensures |history| == |entry|
    ensures forall k :: 0 <= k < |entry| ==> history[k] == GrantOf(ops, entry[k])
  {
    seq(|entry|, k requires 0 <= k < |entry| => GrantOf(ops, entry[k]))
  }

  /** An evaluation of rule r whose write took effect. */
  predicate Wrote(kind: StoreKind, ops: seq<Op>, r: Hash, i: nat) {
    i < |ops| && ops[i].Evaluate? && ops[i].request.ruleId == r && (kind.MemoryKind? || !ops[i].io.save.FailedBefore?)
  }

  predicate Increasing(entry: seq<nat>) {
    forall a, b :: 0 <= a < b < |entry| ==> entry[a] < entry[b]
  }

  /** State s of rule r is what these operations, in this order, make of the fresh rule. */
  predicate Traced(h: Keccak, kind: StoreKind, ops: seq<Op>, r: Hash, s: RuleState, entry: seq<nat>) {
    && Increasing(entry)
    && (forall k :: 0 <= k < |entry| ==> Wrote(kind, ops, r, entry[k]))
    && Reaches(FreshState(h, s.policy), Grants(ops, entry), s)
  }

  predicate Tracked(h: Keccak, kind: StoreKind, ops: seq<Op>, 
                    states: map<Hash, RuleState>, entries: map<Hash, seq<nat>>)
  {
    && states.Keys == entries.Keys
    && forall r :: r in states ==> Traced(h, kind, ops, r, states[r], entries[r])
  }

  predicate AllTracked(h: Keccak, kind: StoreKind, ops: seq<Op>, e: Engine, l: Ledger) {
    Tracked(h, kind, ops, e.cache, l.cached) && Tracked(h, kind, ops, e.store, l.stored)
  }

  // ---- every state is its history ----

  lemma TracedLater(h: Keccak, kind: StoreKind, ops: seq<Op>, op: Op, r: Hash, s: RuleState, entry: seq<nat>)
    requires Traced(h, kind, ops, r, s, entry)
    ensures Traced(h, kind, ops + [op], r, s, entry)
  {
    forall k | 0 <= k < |entry|
      ensures Wrote(kind, ops + [op], r, entry[k]) && GrantOf(ops + [op], entry[k]) == GrantOf(ops, entry[k])
    {
      assert Wrote(kind, ops, r, entry[k]);
    }
    assert Grants(ops + [op], entry) == Grants(ops, entry);
  }

  lemma TrackedLater(h: Keccak, kind: StoreKind, ops: seq<Op>, op: Op, 
                     states: map<Hash, RuleState>, entries: map<Hash, seq<nat>>)
    requires Tracked(h, kind, ops, states, entries)
    ensures Tracked(h, kind, ops + [op], states, entries)
  {
    forall r | r in states ensures Traced(h, kind, ops + [op], r, states[r], entries[r]) {
      TracedLater(h, kind, ops, op, r, states[r], entries[r]);
    }
  }

  lemma TracedGrant(h: Keccak, kind: StoreKind, ops: seq<Op>, op: Op, r: Hash, s: RuleState, entry: seq<nat>)
    requires Traced(h, kind, ops, r, s, entry) && Wrote(kind, ops + [op], r, |ops|)
    requires Admissible(s, GrantOf(ops + [op], |ops|))
    ensures Traced(h, kind, ops + [op], r, Apply(s, GrantOf(ops + [op], |ops|)), entry + [|ops|])
  {
    var g := GrantOf(ops + [op], |ops|);
    TracedLater(h, kind, ops, op, r, s, entry);
    ReachesStep(FreshState(h, s.policy), Grants(ops + [op], entry), s, g);
    assert Grants(ops + [op], entry + [|ops|]) == Grants(ops + [op], entry) + [g];
    forall k | 0 <= k < |entry| ensures entry[k] < |ops| { assert Wrote(kind, ops, r, entry[k]); }
  }

  lemma TracedFresh(h: Keccak, kind: StoreKind, ops: seq<Op>, p: NormalizedPolicy)
    ensures Traced(h, kind, ops, p.ruleId, FreshState(h, p), [])
  {}

  lemma TrackedPut(h: Keccak, kind: StoreKind, ops: seq<Op>, states: map<Hash, RuleState>, entries: map<Hash, seq<nat>>,
                   r: Hash, s: RuleState, entry: seq<nat>)
    requires Tracked(h, kind, ops, states, entries) && Traced(h, kind, ops, r, s, entry)
    ensures Tracked(h, kind, ops, states[r := s], entries[r := entry])
  {}

  /** Where a write leaves state s of rule r. */
  predicate Leaves(e: Engine, e': Engine, r: Hash, s: RuleState, outcome: SaveOutcome) {
    && e'.store == (if outcome.FailedBefore? then e.store else e.store[r := s])
    && e'.cache == (if outcome.Saved? then e.cache[r := s] else e.cache)
  }

  lemma CreationLeaves(h: Keccak, e: Engine, p: NormalizedPolicy, io: Io)
    ensures var e', write := InstallPolicy(h, e, p, io).0, CreationWrite(h, e, p, io);
            if write.None? then e' == e else Leaves(e, e', p.ruleId, FreshState(h, p), write.value)
  {}

  lemma PersistLeaves(e: Engine, s: RuleState, r: Hash, g: Grant, io: Io)
    ensures Leaves(e, Persist(e, s, r, g, io), r, Apply(s, g), SaveResult(e.kind, r, s, io))
  {}

  lemma DecisionPersists(h: Keccak, e: Engine, s: RuleState, q: Request, now: uint64, snapshot: Option<Snapshot>,
                         io: Io)
    ensures DecideStep(h, e, s, q, now, snapshot, io).0 ==
            match CheckRequest(s, q, now, snapshot)
            case Err(_) => e
            case Ok(value) => Persist(e, s, q.ruleId, Grant(q.eventHash, q.nonce, now, value), io)
  {}

  /** An evaluation that is refused early changes nothing; every other one goes on from the cached state. */
  lemma EvaluationOpens(h: Keccak, e: Engine, q: Request, now: uint64, snapshot: Option<Snapshot>, io: Io)
    ensures EvaluateStep(h, e, q, now, snapshot, io).0 ==
            if !Opens(h, e, q, now, io) then e
            else
              var s := Fetch(h, e, q.ruleId, io).state;
              DecideStep(h, e.(cache := e.cache[q.ruleId := s]), s, q, now, snapshot, io).0
  {}

  /** Writing a traced state, and its entry, wherever the outcome says. */
  lemma PutTracks(h: Keccak, kind: StoreKind, ops: seq<Op>, e: Engine, e': Engine, l: Ledger, r: Hash, s: RuleState,
                  entry: seq<nat>, outcome: SaveOutcome)
    requires AllTracked(h, kind, ops, e, l) && Traced(h, kind, ops, r, s, entry)
    requires Leaves(e, e', r, s, outcome)
    ensures AllTracked(h, kind, ops, e', Put(l, r, entry, outcome))
  {
    TrackedPut(h, kind, ops, e.cache, l.cached, r, s, entry);
    TrackedPut(h, kind, ops, e.store, l.stored, r, s, entry);
  }

  lemma CreateTracks(h: Keccak, kind: StoreKind, ops: seq<Op>, e: Engine, l: Ledger, n: nat,
                     plaintext: Option<WirePolicy>, now: uint64, io: Io)
    requires AllTracked(h, kind, ops, e, l)
    ensures var op := Create(plaintext, now, io);
            AllTracked(h, kind, ops, Step(h, e, op).0, Record(h, e, l, n, op))
  {
    if AdmitPolicy(plaintext, now).Ok? {
      var p := AdmitPolicy(plaintext, now).value;
      TracedFresh(h, kind, ops, p);
      CreationLeaves(h, e, p, io);
      var write := CreationWrite(h, e, p, io);
      if write.Some? {
        PutTracks(h, kind, ops, e, InstallPolicy(h, e, p, io).0, l, p.ruleId, FreshState(h, p), [], write.value);
      }
    }
  }

  /** Caching the state an evaluation starts from. */
  lemma OpeningTracks(h: Keccak, kind: StoreKind, ops: seq<Op>, e: Engine, l: Ledger, r: Hash, io: Io)
    requires AllTracked(h, kind, ops, e, l) && Fetch(h, e, r, io).Loaded?
    ensures var s := Fetch(h, e, r, io).state;
            && Traced(h, kind, ops, r, s, Entry(l, r))
            && AllTracked(h, kind, ops, e.(cache := e.cache[r := s]), l.(cached := l.cached[r := Entry(l, r)]))
  {
    TrackedPut(h, kind, ops, e.cache, l.cached, r, Fetch(h, e, r, io).state, Entry(l, r));
  }

  lemma EvaluateTracks(h: Keccak, kind: StoreKind, ops: seq<Op>, e: Engine, l: Ledger, q: Request, now: uint64,
                       snapshot: Option<Snapshot>, io: Io)
    requires AllTracked(h, kind, ops, e, l) && e.kind == kind
    ensures var op := Evaluate(q, now, snapshot, io);
            AllTracked(h, kind, ops + [op], Step(h, e, op).0, Record(h, e, l, |ops|, op))
  {
    var op := Evaluate(q, now, snapshot, io);
    TrackedLater(h, kind, ops, op, e.cache, l.cached);
    TrackedLater(h, kind, ops, op, e.store, l.stored);
    EvaluationOpens(h, e, q, now, snapshot, io);
    if Opens(h, e, q, now, io) {
      var s := Fetch(h, e, q.ruleId, io).state;
      OpeningTracks(h, kind, ops, e, l, q.ruleId, io);
      OpeningTracks(h, kind, ops + [op], e, l, q.ruleId, io);
      if CheckRequest(s, q, now, snapshot).Ok? {
        var cached := e.(cache := e.cache[q.ruleId := s]);
        var loaded := l.(cached := l.cached[q.ruleId := Entry(l, q.ruleId)]);
        GrantTracks(h, kind, ops, cached, loaded, s, Entry(l, q.ruleId), q, now, snapshot, io);
      }
    }
  }

  lemma LastGrant(ops: seq<Op>, q: Request, now: uint64, snapshot: Option<Snapshot>, io: Io, s: RuleState)
    requires CheckRequest(s, q, now, snapshot).Ok?
    ensures GrantOf(ops + [Evaluate(q, now, snapshot, io)], |ops|) ==
            Grant(q.eventHash, q.nonce, now, CheckRequest(s, q, now, snapshot).value)
  {}

  lemma GrantTracks(h: Keccak, kind: StoreKind, ops: seq<Op>, e: Engine, l: Ledger, s: RuleState, entry: seq<nat>,
                    q: Request, now: uint64, snapshot: Option<Snapshot>, io: Io)
    requires AllTracked(h, kind, ops + [Evaluate(q, now, snapshot, io)], e, l) && e.kind == kind
    requires Traced(h, kind, ops, q.ruleId, s, entry)
    requires q.eventHash != 0 && now != 0 && CheckRequest(s, q, now, snapshot).Ok?
    ensures AllTracked(h, kind, ops + [Evaluate(q, now, snapshot, io)], DecideStep(h, e, s, q, now, snapshot, io).0,
                       Put(l, q.ruleId, entry + [|ops|], SaveResult(kind, q.ruleId, s, io)))
  {
    var op, outcome := Evaluate(q, now, snapshot, io), SaveResult(kind, q.ruleId, s, io);
    var g := Grant(q.eventHash, q.nonce, now, CheckRequest(s, q, now, snapshot).value);
    CheckedIsAdmissible(s, q, now, snapshot);
    LastGrant(ops, q, now, snapshot, io, s);
    DecisionPersists(h, e, s, q, now, snapshot, io);
    PersistLeaves(e, s, q.ruleId, g, io);
    if !outcome.FailedBefore? {
      TracedGrant(h, kind, ops, op, q.ruleId, s, entry);
      var e' := Persist(e, s, q.ruleId, g, io);
      PutTracks(h, kind, ops + [op], e, e', l, q.ruleId, Apply(s, g), entry + [|ops|], outcome);
    }
  }

  lemma RecordTracks(h: Keccak, kind: StoreKind, ops: seq<Op>, op: Op, e: Engine, l: Ledger)
    requires AllTracked(h, kind, ops, e, l) && e.kind == kind
    ensures AllTracked(h, kind, ops + [op], Step(h, e, op).0, Record(h, e, l, |ops|, op))
  {
    match op
    case Create(plaintext, now, io) =>
      TrackedLater(h, kind, ops, op, e.cache, l.cached);
      TrackedLater(h, kind, ops, op, e.store, l.stored);
      CreateTracks(h, kind, ops + [op], e, l, |ops|, plaintext, now, io);
    case Evaluate(q, now, snapshot, io) => EvaluateTracks(h, kind, ops, e, l, q, now, snapshot, io);
    case Restart =>
      TrackedLater(h, kind, ops, op, e.store, l.stored);
  }

  /**
   * Every cached and every durable state of every run is what the ledger's operations make of the fresh
   * rule: requests of the run, in their order of arrival, each with a write that took effect.
   */
  lemma {:induction false} RunsAreHistories(h: Keccak, kind: StoreKind, ops: seq<Op>)
    ensures AllTracked(h, kind, ops, Final(h, kind, ops), LedgerOf(h, kind, ops))
  {
    if ops == [] {
    } else {
      var init, op := ops[..|ops| - 1], ops[|ops| - 1];
      var e, l := Final(h, kind, init), LedgerOf(h, kind, init);
      assert ops == init + [op];
      assert Final(h, kind, ops) == Step(h, e, op).0 && LedgerOf(h, kind, ops) == Record(h, e, l, |init|, op);
      RunsAreHistories(h, kind, init);
      KindFixed(h, Empty(kind), init);
      RecordTracks(h, kind, init, op, e, l);
    }
  }

  // ---- every acknowledged evaluation is in them ----

  /** Operation i is behind every copy of its rule's state. */
  predicate Behind(ops: seq<Op>, l: Ledger, i: nat) {
    && i < |ops| && ops[i].Evaluate?
    && var r := ops[i].request.ruleId;
       r in l.stored && i in l.stored[r] && (r in l.cached ==> i in l.cached[r])
  }

  lemma BehindLater(h: Keccak, ops: seq<Op>, op: Op, e: Engine, l: Ledger, i: nat)
    requires Behind(ops, l, i) && l.stored.Keys == e.store.Keys
    requires e.kind.RedisKind? || !op.Restart?
    ensures Behind(ops + [op], Record(h, e, l, |ops|, op), i)
  {}

  lemma AnswerWrites(h: Keccak, ops: seq<Op>, op: Op, e: Engine, l: Ledger)
    requires Step(h, e, op).1.Evaluated?
    ensures Behind(ops + [op], Record(h, e, l, |ops|, op), |ops|)
  {}

  /** Over a durable store, no state of a rule forgets an acknowledged evaluation. */
  lemma {:induction false} AcknowledgedStaysBehind(h: Keccak, kind: StoreKind, ops: seq<Op>, i: nat)
    requires Durable(kind, ops) && i < |ops| && Run(h, Empty(kind), ops).1[i].Evaluated?
    ensures Behind(ops, LedgerOf(h, kind, ops), i)
  {
    var n := |ops| - 1;
    var init, e, l := ops[..n], Final(h, kind, ops[..n]), LedgerOf(h, kind, ops[..n]);
    assert ops == init + [ops[n]];
    RunsAreHistories(h, kind, init);
    KindFixed(h, Empty(kind), init);
    if i == n {
      AnswerWrites(h, init, ops[n], e, l);
    } else {
      AcknowledgedStaysBehind(h, kind, init, i);
      BehindLater(h, init, ops[n], e, l, i);
    }
  }
}
