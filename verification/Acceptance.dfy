/** Exactly which requests the engine accepts, and that a refusal names a true reason. */
module Acceptance {
  import opened Base
  import opened Policy
  import opened Authorization
  import opened Machine
  import opened Safety
  import opened Replies

  // ---- creations ----

  /** The store takes a write and acknowledges it; memory always does. */
  predicate Acknowledges(kind: StoreKind, io: Io) {
    kind.MemoryKind? || io.save.Saved?
  }

  predicate Reachable(kind: StoreKind, io: Io) {
    kind.MemoryKind? || !io.loadFails
  }

  /** A policy that may be created now: valid, still alive if the time is known, and new. */
  predicate Creatable(e: Engine, plaintext: Option<WirePolicy>, now: uint64, io: Io, p: NormalizedPolicy) {
    && plaintext.Some? && NormalizePolicy(plaintext.value) == Ok(p)
    && (now == 0 || now < p.expiresAt)
    && p.ruleId !in e.cache && p.ruleId !in e.store
    && Reachable(e.kind, io) && Acknowledges(e.kind, io)
  }

  /** In any state and at any time a creation is acknowledged exactly when its policy may be created. */
  lemma CreatedIff(h: Keccak, e: Engine, plaintext: Option<WirePolicy>, now: uint64, io: Io)
    ensures var (e', reply) := Step(h, e, Create(plaintext, now, io));
            && (reply.Created? <==> exists p :: Creatable(e, plaintext, now, io, p))
            && forall p :: Creatable(e, plaintext, now, io, p) ==>
                 && reply == Created(p.ruleId, Commitment(h, p))
                 && e'.store == e.store[p.ruleId := FreshState(h, p)]
                 && e'.cache == e.cache[p.ruleId := FreshState(h, p)]
  {
    var (e', reply) := Step(h, e, Create(plaintext, now, io));
    if plaintext.Some? && NormalizePolicy(plaintext.value).Ok? {
      var p := NormalizePolicy(plaintext.value).value;
      AcceptedIffWellFormed(p);
      if reply.Created? { assert Creatable(e, plaintext, now, io, p); }
    }
  }

  // ---- evaluations ----

  /** The state of the rule the engine can get hold of. */
  function Held(e: Engine, r: Hash, io: Io): Option<RuleState> {
    if r in e.cache then Some(e.cache[r])
    else if r in e.store && Reachable(e.kind, io) then Some(e.store[r])
    else None
  }

  /** A snapshot the engine may decide on: of this rule, complete, and of an event not yet consumed. */
  predicate Usable(snapshot: Option<Snapshot>, r: Hash) {
    && snapshot.Some? && snapshot.value.ruleId == r && !snapshot.value.consumed && snapshot.value.preparedAt > 0
    && Positive(snapshot.value.eventValueUsd18) && Positive(snapshot.value.priceUsd18)
  }

  /**
   * The rule is alive, the nonce new, the snapshot usable, and an earlier decision on the event has the same
   * amount and has run out.
   */
  predicate Acceptable(s: RuleState, q: Request, now: uint64, snapshot: Option<Snapshot>) {
    && now <= s.policy.expiresAt && q.nonce !in s.usedNonces && Usable(snapshot, q.ruleId)
    && (q.eventHash in s.authorizations ==>
          var a := s.authorizations[q.eventHash];
          snapshot.value.eventValueUsd18 == Some(a.eventValueUsd18) && a.lastExpiry < now)
  }

  /** The request is complete, its rule can be had, and the rule's state accepts it. */
  predicate Grantable(e: Engine, q: Request, now: uint64, snapshot: Option<Snapshot>, io: Io) {
    && q.ruleId != 0 && q.eventHash != 0 && now != 0
    && Held(e, q.ruleId, io).Some? && Acceptable(Held(e, q.ruleId, io).value, q, now, snapshot)
  }

  function GrantAsked(q: Request, now: uint64, snapshot: Option<Snapshot>): Grant
    requires Usable(snapshot, q.ruleId)
  {
    Grant(q.eventHash, q.nonce, now, snapshot.value.eventValueUsd18.value)
  }

  lemma CheckedIffAcceptable(s: RuleState, q: Request, now: uint64, snapshot: Option<Snapshot>)
    ensures CheckRequest(s, q, now, snapshot).Ok? <==> Acceptable(s, q, now, snapshot)
    ensures Acceptable(s, q, now, snapshot) ==>
              CheckRequest(s, q, now, snapshot) == Ok(snapshot.value.eventValueUsd18.value)
  {}

  lemma FetchedIffHeld(h: Keccak, e: Engine, r: Hash, io: Io)
    requires StatesSound(h, e.cache, e.store) && r != 0
    ensures Fetch(h, e, r, io).Loaded? <==> Held(e, r, io).Some?
    ensures Held(e, r, io).Some? ==> Fetch(h, e, r, io) == Loaded(Held(e, r, io).value)
  {
    if r in e.store { assert Sound(h, r, e.store[r]); }
  }

  /**
   * After any run, over either store, an evaluation is committed exactly when it is grantable and the save
   * is acknowledged, and signed exactly when its amount also fits a word. Its state reaches the store exactly
   * when it is grantable and the save does not fail before taking effect.
   */
  lemma CommittedIff(h: Keccak, kind: StoreKind, ops: seq<Op>, q: Request, now: uint64,
                     snapshot: Option<Snapshot>, io: Io)
    ensures var e := Final(h, kind, ops);
            var (e', reply) := Step(h, e, Evaluate(q, now, snapshot, io));
            && (Committed(e, e') <==> Grantable(e, q, now, snapshot, io) && Acknowledges(kind, io))
            && (reply.Evaluated? <==> Committed(e, e') && snapshot.value.eventValueUsd18.value < U256)
            && e'.store == if Grantable(e, q, now, snapshot, io) && (kind.MemoryKind? || !io.save.FailedBefore?)
                           then e.store[q.ruleId := Apply(Held(e, q.ruleId, io).value, GrantAsked(q, now, snapshot))]
                           else e.store
  {
    var e := Final(h, kind, ops);
    StatesAlwaysSound(h, kind, ops);
    KindFixed(h, Empty(kind), ops);
    if q.ruleId != 0 { FetchedIffHeld(h, e, q.ruleId, io); }
    if q.ruleId != 0 && q.eventHash != 0 && now != 0 && Held(e, q.ruleId, io).Some? {
      var s := Held(e, q.ruleId, io).value;
      FetchedSound(h, e, q.ruleId, io);
      CheckedIffAcceptable(s, q, now, snapshot);
      EvaluationCommits(h, e, s, q, now, snapshot, io);
      HeldCommitted(h, e, s, q, now, snapshot, io);
    }
  }

  lemma HeldCommitted(h: Keccak, e: Engine, s: RuleState, q: Request, now: uint64, snapshot: Option<Snapshot>, io: Io)
    requires Sound(h, q.ruleId, s) && q.eventHash != 0 && now != 0
    ensures Acceptable(s, q, now, snapshot) ==>
              var g := GrantAsked(q, now, snapshot);
              var (e', reply) := CommitStep(h, e.(cache := e.cache[q.ruleId := s]), s, q, g, io);
              && (Committed(e, e') <==> Acknowledges(e.kind, io))
              && (reply.Evaluated? <==> Acknowledges(e.kind, io) && g.value < U256)
              && e'.store == if e.kind.MemoryKind? || !io.save.FailedBefore? then e.store[q.ruleId := Apply(s, g)]
                             else e.store
  {
    if Acceptable(s, q, now, snapshot) {
      CommittedReply(h, s, q, GrantAsked(q, now, snapshot));
    }
  }

  // ---- refusals ----

  /** What a refusal says about the rule's state and the snapshot. */
  predicate StateReason(s: RuleState, q: Request, now: uint64, snapshot: Option<Snapshot>, x: Error) {
    match x
    case PolicyExpired => s.policy.expiresAt < now
    case NonceReplay => q.nonce in s.usedNonces
    case SnapshotUnavailable => snapshot.None?
    case RuleMismatch => snapshot.Some? && snapshot.value.ruleId != q.ruleId
    case SnapshotMissing =>
      && snapshot.Some?
      && !(Positive(snapshot.value.eventValueUsd18) && Positive(snapshot.value.priceUsd18)
           && snapshot.value.preparedAt > 0)
    case EventConsumed => snapshot.Some? && snapshot.value.consumed
    case ValueMismatch =>
      && q.eventHash in s.authorizations && snapshot.Some?
      && snapshot.value.eventValueUsd18 != Some(s.authorizations[q.eventHash].eventValueUsd18)
    case StillActive => q.eventHash in s.authorizations && now <= s.authorizations[q.eventHash].lastExpiry
    case _ => false
  }

  /** What the refusal of an evaluation says about it. */
  predicate EvaluationReason(e: Engine, q: Request, now: uint64, snapshot: Option<Snapshot>, io: Io, x: Error) {
    match x
    case ZeroIds => q.ruleId == 0 || q.eventHash == 0
    case ZeroTimestamp => now == 0
    case UnknownRule => q.ruleId !in e.cache && q.ruleId !in e.store
    case LoadFailure => q.ruleId !in e.cache && !Reachable(e.kind, io)
    case SaveFailure => Grantable(e, q, now, snapshot, io) && !Acknowledges(e.kind, io)
    case Unencodable => Usable(snapshot, q.ruleId) && snapshot.value.eventValueUsd18.value >= U256
    case _ => Held(e, q.ruleId, io).Some? && StateReason(Held(e, q.ruleId, io).value, q, now, snapshot, x)
  }

  lemma CheckRefusedTruly(s: RuleState, q: Request, now: uint64, snapshot: Option<Snapshot>)
    ensures CheckRequest(s, q, now, snapshot).Err? ==>
              StateReason(s, q, now, snapshot, CheckRequest(s, q, now, snapshot).error)
  {}

  /** Before it has a state to look at, an evaluation is refused for the ids, the time or the lookup. */
  lemma LookupRefusedTruly(h: Keccak, e: Engine, q: Request, now: uint64, snapshot: Option<Snapshot>, io: Io)
    requires StatesSound(h, e.cache, e.store)
    requires q.ruleId == 0 || q.eventHash == 0 || now == 0 || Held(e, q.ruleId, io).None?
    ensures var reply := EvaluateStep(h, e, q, now, snapshot, io).1;
            reply.Rejected? && EvaluationReason(e, q, now, snapshot, io, reply.error)
  {
    if q.ruleId != 0 {
      FetchedIffHeld(h, e, q.ruleId, io);
      if q.ruleId in e.store { assert Sound(h, q.ruleId, e.store[q.ruleId]); }
    }
  }

  /** A refused evaluation names a true reason. */
  lemma EvaluationRefusedTruly(h: Keccak, kind: StoreKind, ops: seq<Op>, q: Request, now: uint64,
                               snapshot: Option<Snapshot>, io: Io)
    ensures var e := Final(h, kind, ops);
            var reply := Step(h, e, Evaluate(q, now, snapshot, io)).1;
            reply.Rejected? ==> EvaluationReason(e, q, now, snapshot, io, reply.error)
  {
    StatesAlwaysSound(h, kind, ops);
    var e := Final(h, kind, ops);
    if q.ruleId == 0 || q.eventHash == 0 || now == 0 || Held(e, q.ruleId, io).None? {
      LookupRefusedTruly(h, e, q, now, snapshot, io);
    } else {
      FetchedIffHeld(h, e, q.ruleId, io);
      FetchedSound(h, e, q.ruleId, io);
      HeldRefusedTruly(h, e, Held(e, q.ruleId, io).value, q, now, snapshot, io);
    }
  }

  lemma HeldRefusedTruly(h: Keccak, e: Engine, s: RuleState, q: Request, now: uint64,
                         snapshot: Option<Snapshot>, io: Io)
    requires q.ruleId != 0 && q.eventHash != 0 && now != 0 && Sound(h, q.ruleId, s)
    requires Held(e, q.ruleId, io) == Some(s) && Fetch(h, e, q.ruleId, io) == Loaded(s)
    ensures var reply := EvaluateStep(h, e, q, now, snapshot, io).1;
            reply.Rejected? ==> EvaluationReason(e, q, now, snapshot, io, reply.error)
  {
    EvaluationRefusal(h, e, s, q, now, snapshot, io);
    CheckedIffAcceptable(s, q, now, snapshot);
    if Acceptable(s, q, now, snapshot) {
      EvaluationCommits(h, e, s, q, now, snapshot, io);
      RefusedCommit(h, e, s, q, now, snapshot, io);
    } else {
      CheckRefusedTruly(s, q, now, snapshot);
    }
  }

  lemma EvaluationRefusal(h: Keccak, e: Engine, s: RuleState, q: Request, now: uint64,
                          snapshot: Option<Snapshot>, io: Io)
    requires q.ruleId != 0 && q.eventHash != 0 && now != 0 && Fetch(h, e, q.ruleId, io) == Loaded(s)
    ensures CheckRequest(s, q, now, snapshot).Err? ==>
              EvaluateStep(h, e, q, now, snapshot, io).1 == Rejected(CheckRequest(s, q, now, snapshot).error)
  {}

  lemma RefusedCommit(h: Keccak, e: Engine, s: RuleState, q: Request, now: uint64, snapshot: Option<Snapshot>, io: Io)
    requires Sound(h, q.ruleId, s) && q.eventHash != 0 && now != 0
    ensures Acceptable(s, q, now, snapshot) ==>
              var g := GrantAsked(q, now, snapshot);
              var reply := CommitStep(h, e.(cache := e.cache[q.ruleId := s]), s, q, g, io).1;
              reply.Rejected? ==>
                || (reply == Rejected(SaveFailure) && !Acknowledges(e.kind, io))
                || (reply == Rejected(Unencodable) && g.value >= U256)
  {
    if Acceptable(s, q, now, snapshot) {
      CommittedReply(h, s, q, GrantAsked(q, now, snapshot));
    }
  }

  predicate CreationReason(e: Engine, plaintext: Option<WirePolicy>, now: uint64, io: Io, x: Error) {
    match x
    case Undecodable => plaintext.None?
    case InvalidPolicy(reason) => plaintext.Some? && NormalizePolicy(plaintext.value) == Err(reason)
    case ExpiresInPast => plaintext.Some? && 0 < now && plaintext.value.expiresAt <= now
    case RuleExists =>
      && plaintext.Some?
      && (plaintext.value.ruleId in e.cache || (plaintext.value.ruleId in e.store && Reachable(e.kind, io)))
    case LoadFailure => plaintext.Some? && plaintext.value.ruleId !in e.cache && !Reachable(e.kind, io)
    case SaveFailure => plaintext.Some? && !Acknowledges(e.kind, io)
    case _ => false
  }

  lemma InstallRefusedTruly(h: Keccak, e: Engine, p: NormalizedPolicy, io: Io)
    requires StatesSound(h, e.cache, e.store) && p.ruleId != 0
    ensures var reply := InstallPolicy(h, e, p, io).1;
            reply.Rejected? ==>
              || (reply.error == RuleExists && (p.ruleId in e.cache || (p.ruleId in e.store && Reachable(e.kind, io))))
              || (reply.error == LoadFailure && p.ruleId !in e.cache && !Reachable(e.kind, io))
              || (reply.error == SaveFailure && !Acknowledges(e.kind, io))
  {
    if p.ruleId in e.store { assert Sound(h, p.ruleId, e.store[p.ruleId]); }
  }

  /** A refused creation names a true reason. */
  lemma CreationRefusedTruly(h: Keccak, kind: StoreKind, ops: seq<Op>, plaintext: Option<WirePolicy>,
                             now: uint64, io: Io)
    ensures var e := Final(h, kind, ops);
            var reply := Step(h, e, Create(plaintext, now, io)).1;
            reply.Rejected? ==> CreationReason(e, plaintext, now, io, reply.error)
  {
    StatesAlwaysSound(h, kind, ops);
    if plaintext.Some? && NormalizePolicy(plaintext.value).Ok? {
      InstallRefusedTruly(h, Final(h, kind, ops), NormalizePolicy(plaintext.value).value, io);
    }
  }

  // ---- the order of the checks ----

  /** The order in which the reasons for a refusal are looked for. */
  function Rank(x: Error): nat {
    match x
    case Undecodable => 0 case InvalidPolicy(_) => 1 case ExpiresInPast => 2 case RuleExists => 3
    case ZeroIds => 4 case ZeroTimestamp => 5
    case LoadFailure => 6 case UnknownRule => 7
    case PolicyExpired => 8 case NonceReplay => 9
    case SnapshotUnavailable => 10 case RuleMismatch => 11 case SnapshotMissing => 12 case EventConsumed => 13
    case ValueMismatch => 14 case StillActive => 15
    case SaveFailure => 16 case Unencodable => 17
  }

  lemma CheckRefusedFirst(s: RuleState, q: Request, now: uint64, snapshot: Option<Snapshot>, other: Error)
    requires StateReason(s, q, now, snapshot, other)
    ensures var checked := CheckRequest(s, q, now, snapshot);
            checked.Err? && Rank(checked.error) <= Rank(other) && 8 <= Rank(checked.error) <= 15
  {}

  /** Of all the reasons that are true, a refused evaluation names the first. */
  lemma EvaluationRefusedFirst(h: Keccak, kind: StoreKind, ops: seq<Op>, q: Request, now: uint64,
                               snapshot: Option<Snapshot>, io: Io, other: Error)
    ensures var e := Final(h, kind, ops);
            var reply := Step(h, e, Evaluate(q, now, snapshot, io)).1;
            reply.Rejected? && EvaluationReason(e, q, now, snapshot, io, other) ==> Rank(reply.error) <= Rank(other)
  {
    StatesAlwaysSound(h, kind, ops);
    var e := Final(h, kind, ops);
    if q.ruleId == 0 || q.eventHash == 0 || now == 0 || Held(e, q.ruleId, io).None? {
      LookupRefusedFirst(h, e, q, now, snapshot, io, other);
    } else {
      FetchedIffHeld(h, e, q.ruleId, io);
      FetchedSound(h, e, q.ruleId, io);
      HeldRefusedFirst(h, e, Held(e, q.ruleId, io).value, q, now, snapshot, io, other);
    }
  }

  lemma LookupRefusal(h: Keccak, e: Engine, q: Request, now: uint64, snapshot: Option<Snapshot>, io: Io)
    requires StatesSound(h, e.cache, e.store)
    requires q.ruleId == 0 || q.eventHash == 0 || now == 0 || Held(e, q.ruleId, io).None?
    ensures EvaluateStep(h, e, q, now, snapshot, io).1 ==
            Rejected(if q.ruleId == 0 || q.eventHash == 0 then ZeroIds
                     else if now == 0 then ZeroTimestamp
                     else if !Reachable(e.kind, io) then LoadFailure
                     else UnknownRule)
  {
    if q.ruleId != 0 {
      FetchedIffHeld(h, e, q.ruleId, io);
      if q.ruleId in e.store { assert Sound(h, q.ruleId, e.store[q.ruleId]); }
    }
  }

  lemma LookupRefusedFirst(h: Keccak, e: Engine, q: Request, now: uint64, snapshot: Option<Snapshot>, io: Io,
                           other: Error)
    requires StatesSound(h, e.cache, e.store)
    requires q.ruleId == 0 || q.eventHash == 0 || now == 0 || Held(e, q.ruleId, io).None?
    ensures var reply := EvaluateStep(h, e, q, now, snapshot, io).1;
            reply.Rejected? && EvaluationReason(e, q, now, snapshot, io, other) ==> Rank(reply.error) <= Rank(other)
  {
    LookupRefusal(h, e, q, now, snapshot, io);
    if EvaluationReason(e, q, now, snapshot, io, other) { LookupReasons(e, q, now, snapshot, io, other); }
  }

  lemma LookupReasons(e: Engine, q: Request, now: uint64, snapshot: Option<Snapshot>, io: Io, other: Error)
    requires EvaluationReason(e, q, now, snapshot, io, other)
    ensures !(q.ruleId == 0 || q.eventHash == 0) ==> Rank(other) >= 5
    ensures !(q.ruleId == 0 || q.eventHash == 0) && now != 0 ==> Rank(other) >= 6
    ensures !(q.ruleId == 0 || q.eventHash == 0) && now != 0 && Reachable(e.kind, io) ==> Rank(other) >= 7
    ensures Rank(other) >= 4
  {}

  lemma HeldRefusedFirst(h: Keccak, e: Engine, s: RuleState, q: Request, now: uint64, snapshot: Option<Snapshot>,
                         io: Io, other: Error)
    requires q.ruleId != 0 && q.eventHash != 0 && now != 0 && Sound(h, q.ruleId, s)
    requires Held(e, q.ruleId, io) == Some(s) && Fetch(h, e, q.ruleId, io) == Loaded(s)
    ensures var reply := EvaluateStep(h, e, q, now, snapshot, io).1;
            reply.Rejected? && EvaluationReason(e, q, now, snapshot, io, other) ==> Rank(reply.error) <= Rank(other)
  {
    EvaluationRefusal(h, e, s, q, now, snapshot, io);
    CheckedIffAcceptable(s, q, now, snapshot);
    if StateReason(s, q, now, snapshot, other) { CheckRefusedFirst(s, q, now, snapshot, other); }
    if Acceptable(s, q, now, snapshot) {
      EvaluationCommits(h, e, s, q, now, snapshot, io);
      RefusedCommit(h, e, s, q, now, snapshot, io);
    } else {
      CheckRefusedTruly(s, q, now, snapshot);
    }
  }

  /** What stops a policy before the lookup, in order. */
  lemma AdmissionRefusal(plaintext: Option<WirePolicy>, now: uint64)
    ensures var admitted := AdmitPolicy(plaintext, now);
            && (plaintext.None? ==> admitted == Err(Undecodable))
            && (plaintext.Some? && NormalizePolicy(plaintext.value).Err? ==>
                  admitted == Err(InvalidPolicy(NormalizePolicy(plaintext.value).error)))
            && (plaintext.Some? && NormalizePolicy(plaintext.value).Ok? ==>
                  admitted == if 0 < now && plaintext.value.expiresAt <= now then Err(ExpiresInPast)
                              else Ok(NormalizePolicy(plaintext.value).value))
  {}

  lemma AdmissionRefusedFirst(e: Engine, plaintext: Option<WirePolicy>, now: uint64, io: Io, other: Error)
    requires CreationReason(e, plaintext, now, io, other)
    ensures var admitted := AdmitPolicy(plaintext, now);
            if admitted.Err? then Rank(admitted.error) <= Rank(other) else Rank(other) >= 3
  {
    AdmissionRefusal(plaintext, now);
  }

  lemma InstallRefusedFirst(h: Keccak, e: Engine, p: NormalizedPolicy, io: Io)
    requires StatesSound(h, e.cache, e.store) && p.ruleId != 0
    ensures var (reply, known) := (InstallPolicy(h, e, p, io).1,
                                     p.ruleId in e.cache || (p.ruleId in e.store && Reachable(e.kind, io)));
            reply.Rejected? ==>
              && (known ==> reply.error == RuleExists)
              && (p.ruleId !in e.cache && !Reachable(e.kind, io) ==> reply.error == LoadFailure)
  {
    if p.ruleId in e.store { assert Sound(h, p.ruleId, e.store[p.ruleId]); }
  }

  /** Of all the reasons that are true, a refused creation names the first. */
  lemma CreationRefusedFirst(h: Keccak, kind: StoreKind, ops: seq<Op>, plaintext: Option<WirePolicy>, now: uint64,
                             io: Io, other: Error)
    ensures var e := Final(h, kind, ops);
            var reply := Step(h, e, Create(plaintext, now, io)).1;
            reply.Rejected? && CreationReason(e, plaintext, now, io, other) ==> Rank(reply.error) <= Rank(other)
  {
    StatesAlwaysSound(h, kind, ops);
    var e := Final(h, kind, ops);
    if CreationReason(e, plaintext, now, io, other) {
      AdmissionRefusedFirst(e, plaintext, now, io, other);
      if AdmitPolicy(plaintext, now).Ok? {
        InstallOrdered(h, e, plaintext, now, io, other);
      }
    }
  }

  lemma InstallOrdered(h: Keccak, e: Engine, plaintext: Option<WirePolicy>, now: uint64, io: Io, other: Error)
    requires StatesSound(h, e.cache, e.store) && AdmitPolicy(plaintext, now).Ok?
    requires CreationReason(e, plaintext, now, io, other) && Rank(other) >= 3
    ensures var reply := InstallPolicy(h, e, AdmitPolicy(plaintext, now).value, io).1;
            reply.Rejected? ==> Rank(reply.error) <= Rank(other)
  {
    var p := AdmitPolicy(plaintext, now).value;
    AdmittedWellFormed(plaintext, now);
    InstallRefusedTruly(h, e, p, io);
    InstallRefusedFirst(h, e, p, io);
    assert p.ruleId == plaintext.value.ruleId;
  }
}
