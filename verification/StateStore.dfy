/** The heap side of state_store.go and engine.go: mutable rule states and the two stores that keep them. */
module StateStore {
  import opened Base
  import opened Policy
  import opened Authorization
  import opened Machine
  import opened Resp
  import opened RedisRecord

  /** eventAuthorization: reached through a pointer, so its expiry can be set in place. */
  class EventAuthorizationCell {
    const eventValueUsd18: int
    const triggered: bool
    const protectedUsd18: int
    const protectBps: uint16
    const scheduleId: uint32
    var lastExpiry: uint64

    constructor (a: EventAuthorization)
      ensures View() == a
    {
      eventValueUsd18, triggered, protectedUsd18 := a.eventValueUsd18, a.triggered, a.protectedUsd18;
      protectBps, scheduleId, lastExpiry := a.protectBps, a.scheduleId, a.lastExpiry;
    }

    function View(): EventAuthorization
      reads this
    {
      EventAuthorization(eventValueUsd18, triggered, protectedUsd18, protectBps, scheduleId, lastExpiry)
    }
  }

  /** policyState. */
  class PolicyState {
    const policy: NormalizedPolicy
    const commitment: Hash
    var lastTriggered: uint64
    var authorizations: map<Hash, EventAuthorizationCell>
    var usedNonces: set<uint64>

    constructor (p: NormalizedPolicy, commitment: Hash)
      ensures View() == RuleState(p, commitment, 0, map[], {})
      ensures authorizations == map[]
    {
      this.policy, this.commitment := p, commitment;
      lastTriggered, authorizations, usedNonces := 0, map[], {};
    }

    /** The value gob writes: no pointer survives. */
    function View(): RuleState
      reads this, authorizations.Values
    {
      RuleState(policy, commitment, lastTriggered,
                map event | event in authorizations :: authorizations[event].View(), usedNonces)
    }

    ghost function Objects(): set<object>
      reads this
    {
      {this} + authorizations.Values
    }

    /** No two events share an authorization object. */
    ghost predicate Unshared()
      reads this
    {
      forall e, e' :: e in authorizations && e' in authorizations && e != e' ==> authorizations[e] != authorizations[e']
    }
  }

  /** gob decoding: every object of the result is new. */
  method Decode(s: RuleState) returns (p: PolicyState)
    ensures p.View() == s && fresh(p.Objects()) && p.Unshared()
  {
    p := new PolicyState(s.policy, s.commitment);
    p.lastTriggered, p.usedNonces := s.lastTriggered, s.usedNonces;
    var cells: map<Hash, EventAuthorizationCell> := map[];
    var remaining := s.authorizations.Keys;
    while remaining != {}
      invariant cells.Keys + remaining == s.authorizations.Keys && cells.Keys !! remaining
      invariant forall event :: event in cells ==> fresh(cells[event])
      invariant forall e, e' :: e in cells && e' in cells && e != e' ==> cells[e] != cells[e']
      invariant forall event :: event in cells ==> cells[event].View() == s.authorizations[event]
      invariant p.lastTriggered == s.lastTriggered && p.usedNonces == s.usedNonces
      decreases remaining
    {
      var event :| event in remaining;
      var cell := new EventAuthorizationCell(s.authorizations[event]);
      cells := cells[event := cell];
      remaining := remaining - {event};
    }
    p.authorizations := cells;
    assert p.View().authorizations == s.authorizations;
  }

  /** clonePolicyState: encode, then decode. */
  method Clone(source: PolicyState) returns (copied: PolicyState)
    ensures copied.View() == source.View() && fresh(copied.Objects()) && copied.Unshared()
  {
    copied := Decode(source.View());
  }

  ghost function AllObjects(states: map<Hash, PolicyState>): set<object>
    reads states.Values
  {
    states.Values
    + set p: PolicyState, a: EventAuthorizationCell | p in states.Values && a in p.authorizations.Values :: a
  }

  ghost function Views(states: map<Hash, PolicyState>): map<Hash, RuleState>
    reads states.Values, AllObjects(states)
  {
    map r | r in states :: states[r].View()
  }

  /** Rule states that were not written look the same. */
  twostate lemma ViewsKept(states: map<Hash, PolicyState>)
    requires forall p :: p in states.Values ==> unchanged(p)
    requires forall cell :: cell in old(AllObjects(states)) ==> unchanged(cell)
    ensures Views(states) == old(Views(states))
  {}

  class MemoryStore {
    var values: map<Hash, PolicyState>

    constructor ()
      ensures values == map[]
    {
      values := map[];
    }

    /** Load hands out the stored object itself. */
    method Load(r: Hash) returns (result: LoadResult<PolicyState>)
      ensures result == if r == 0 then LoadFailed else if r in values then Loaded(values[r]) else Missing
    {
      if r == 0 { return LoadFailed; }
      if r in values { return Loaded(values[r]); }
      return Missing;
    }

    /** Save keeps the object it is given. */
    method Save(r: Hash, state: PolicyState) returns (ok: bool)
      modifies this
      ensures ok <==> r != 0 && state.policy.ruleId == r
      ensures values == if ok then old(values)[r := state] else old(values)
    {
      if r == 0 || state.policy.ruleId != r { return false; }
      values := values[r := state];
      return true;
    }
  }

  /** The Redis server: one database, one command per connection. */
  class RedisServer {
    var db: map<string, string>

    constructor ()
      ensures db == map[]
    {
      db := map[];
    }

    method Serve(wire: string) returns (reply: string)
      modifies this
      ensures match ReadCommand(wire)
              case None => db == old(db) && reply == "-ERR\r\n"
              case Some((args, _)) => db == ExecuteDb(old(db), args) && reply == ExecuteReply(old(db), args)
    {
      match ReadCommand(wire)
      case None => reply := "-ERR\r\n";
      case Some((args, _)) =>
        reply := ExecuteReply(db, args);
        db := ExecuteDb(db, args);
    }
  }

  /** The records on the server load as the states last written, subject to the binding check. */
  ghost predicate Agrees(c: Primitives, d: Deployment, db: map<string, string>, contents: map<Hash, RuleState>) {
    forall r :: LoadRecord(c, d, db, r) == Machine.Load(c.keccak, RedisKind, contents, r, Io(false, Saved))
  }

  lemma SaveAgrees(c: Primitives, d: Deployment, db: map<string, string>, contents: map<Hash, RuleState>,
                   r: Hash, s: RuleState, nonce: seq<byte>)
    requires Lawful(c) && Agrees(c, d, db, contents)
    requires |nonce| == NONCE_SIZE && r != 0 && s.policy.ruleId == r
    ensures Agrees(c, d, SaveRecord(c, d, db, r, s, nonce), contents[r := s])
  {
    SavedLoadsBack(c, d, db, r, s, nonce);
    forall r': Hash | r' != r
      ensures LoadRecord(c, d, SaveRecord(c, d, db, r, s, nonce), r') == LoadRecord(c, d, db, r')
    {
      SaveIsolated(c, d, db, r, s, nonce, d, r');
    }
  }

  /** An empty server holds no rule. */
  lemma EmptyAgrees(c: Primitives, d: Deployment)
    ensures Agrees(c, d, map[], map[])
  {}

  class RedisStore {
    const prims: Primitives
    const deployment: Deployment
    const server: RedisServer

    /** What was last written for each rule. */
    ghost var contents: map<Hash, RuleState>

    ghost predicate Valid()
      reads this, server
    {
      Lawful(prims) && Agrees(prims, deployment, server.db, contents)
    }

    /** A process start: the server may hold records already, written by earlier processes. */
    constructor (prims: Primitives, deployment: Deployment, server: RedisServer, ghost contents: map<Hash, RuleState>)
      requires Lawful(prims) && Agrees(prims, deployment, server.db, contents)
      ensures Valid() && this.contents == contents
      ensures this.server == server && this.prims == prims && this.deployment == deployment
    {
      this.prims, this.deployment, this.server := prims, deployment, server;
      this.contents := contents;
    }

    /** doConn: frame the command piece by piece, send it, read one reply. A link that is down before sends nothing. */
    method DoConn(args: seq<string>, link: SaveOutcome) returns (answer: Answer)
      modifies server
      ensures link.FailedBefore? ==> server.db == old(server.db)
      ensures !link.FailedBefore? ==> server.db == ExecuteDb(old(server.db), args)
      ensures answer == if link.Saved? then ReadReply(ExecuteReply(old(server.db), args)) else Failed
    {
      if link.FailedBefore? { return Failed; }
      var wire := "*" + Numerals.Decimal(|args|) + CRLF;
      var i := 0;
      while i < |args|
        invariant 0 <= i <= |args|
        invariant wire + Bulks(args[i..]) == Frame(args)
      {
        wire := wire + Bulk(args[i]);
        assert args[i..][1..] == args[i + 1..];
        i := i + 1;
      }
      assert wire == Frame(args) + "" by { assert args[i..] == []; assert wire + "" == wire; }
      FrameReadsBack(args, "");
      var reply := server.Serve(wire);
      if link.FailedAfter? { return Failed; }
      return ReadReply(reply);
    }

    method Save(r: Hash, state: PolicyState, nonce: seq<byte>, link: SaveOutcome) returns (ok: bool)
      requires Valid() && |nonce| == NONCE_SIZE
      modifies this, server
      ensures Valid()
      ensures var outcome := SaveResult(RedisKind, r, old(state.View()), Io(false, link));
              && (ok <==> outcome.Saved?)
              && contents == if outcome.FailedBefore? then old(contents) else old(contents)[r := old(state.View())]
    {
      if r == 0 || state.policy.ruleId != r { return false; }
      ghost var s := state.View();
      var record := Record(prims, deployment, r, state.View(), nonce);
      SaveAgrees(prims, deployment, server.db, contents, r, s, nonce);
      ok := Set(Key(deployment, r), record, link);
      if !link.FailedBefore? { contents := contents[r := s]; }
    }

    /** command("SET", k, v). */
    method Set(k: string, v: string, link: SaveOutcome) returns (ok: bool)
      modifies server
      ensures ok <==> link.Saved?
      ensures server.db == if link.FailedBefore? then old(server.db) else old(server.db)[k := v]
    {
      SetAnswer(server.db, k, v);
      var answer := DoConn(["SET", k, v], link);
      ok := answer.Text?;
    }

    /** Load builds a new object from the record, or refuses it. */
    method Load(r: Hash, linkDown: bool) returns (result: LoadResult<PolicyState>)
      requires Valid()
      modifies server
      ensures Valid() && server.db == old(server.db)
      ensures match Machine.Load(prims.keccak, RedisKind, contents, r, Io(linkDown, Saved))
              case LoadFailed => result == LoadFailed
              case Missing => result == Missing
              case Loaded(s) => result.Loaded? && result.state.View() == s && fresh(result.state.Objects())
    {
      if r == 0 { return LoadFailed; }
      var answer := DoConn(["GET", Key(deployment, r)], if linkDown then FailedBefore else Saved);
      GetAnswer(server.db, Key(deployment, r));
      match answer
      case Failed => return LoadFailed;
      case Text(text) =>
        match Interpret(prims, deployment, r, text)
        case LoadFailed => return LoadFailed;
        case Missing => return Missing;
        case Loaded(s) =>
          var p := Decode(s);
          return Loaded(p);
    }
  }

  /** The stateStore interface value: one of the two stores behind it. */
  datatype Backend = Memory(memory: MemoryStore) | Redis(redis: RedisStore) {
    function Kind(): StoreKind {
      if Memory? then MemoryKind else RedisKind
    }

    ghost function Footprint(): set<object> {
      if Memory? then {memory} else {redis, redis.server}
    }

    /** The objects the store shares with its callers. */
    ghost function Shared(): set<object>
      reads Footprint(), if Memory? then memory.values.Values else {}
    {
      if Memory? then AllObjects(memory.values) else {}
    }

    ghost predicate Valid(h: Keccak)
      reads Footprint()
    {
      Redis? ==> redis.Valid() && redis.prims.keccak == h
    }

    ghost function Contents(): map<Hash, RuleState>
      reads Footprint(), if Memory? then memory.values.Values else {}, Shared()
    {
      if Memory? then Views(memory.values) else redis.contents
    }

    /** A store whose objects were not written holds what it held. */
    twostate lemma ContentsKept()
      requires unchanged(Footprint())
      requires forall o :: o in old(Shared()) ==> unchanged(o)
      ensures Contents() == old(Contents())
    {
      if Memory? {
        assert unchanged(memory) && memory.values == old(memory.values);
        forall p: PolicyState | p in memory.values.Values ensures unchanged(p) { assert p in old(Shared()); }
        forall o | o in old(AllObjects(memory.values)) ensures unchanged(o) { assert o in old(Shared()); }
        ViewsKept(memory.values);
      }
    }

    method Load(h: Keccak, r: Hash, io: Io) returns (result: LoadResult<PolicyState>)
      requires Valid(h)
      modifies Footprint()
      ensures Valid(h) && Contents() == old(Contents()) && (Memory? ==> memory.values == old(memory.values))
      ensures match Machine.Load(h, Kind(), Contents(), r, io)
              case LoadFailed => result == LoadFailed
              case Missing => result == Missing
              case Loaded(s) => result.Loaded? && result.state.View() == s
      ensures result.Loaded? ==>
                fresh(result.state.Objects()) || (Memory? && r in memory.values && result.state == memory.values[r])
    {
      match this
      case Memory(m) => result := m.Load(r);
      case Redis(s) => result := s.Load(r, io.loadFails);
    }

    method Save(h: Keccak, r: Hash, state: PolicyState, nonce: seq<byte>, io: Io) returns (ok: bool)
      requires Valid(h) && |nonce| == NONCE_SIZE
      modifies Footprint()
      ensures Valid(h)
      ensures var outcome := SaveResult(Kind(), r, old(state.View()), io);
              && (ok <==> outcome.Saved?)
              && Contents() == if outcome.FailedBefore? then old(Contents())
                               else old(Contents())[r := old(state.View())]
      ensures Memory? ==> memory.values == if ok then old(memory.values)[r := state] else old(memory.values)
    {
      match this
      case Memory(m) => ok := m.Save(r, state);
      case Redis(s) => ok := s.Save(r, state, nonce, io.save);
    }
  }
}
