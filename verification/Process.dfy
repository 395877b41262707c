/** Whole runs on the heap: one process after another, over one Redis store or a new memory store each. */
module Process {
  import opened Base
  import opened Machine
  import opened RedisRecord
  import opened StateStore
  import Ext = Extension

  /** Answer one request. */
  method Handle(extension: Ext.Extension, op: Op, nonce: seq<byte>) returns (reply: Reply)
    requires extension.Valid() && |nonce| == NONCE_SIZE && !op.Restart?
    modifies extension, extension.store.Footprint()
    ensures extension.Valid() && (extension.View(), reply) == Step(extension.keccak, old(extension.View()), op)
  {
    match op
    case Create(plaintext, now, io) => reply := extension.ProcessCreatePolicy(plaintext, now, io, nonce);
    case Evaluate(q, now, snapshot, io) => reply := extension.ProcessEvaluateGuard(q, now, snapshot, io, nonce);
  }

  /** A new process: Redis keeps its records, a memory store dies with its process. */
  method Reboot(extension: Ext.Extension) returns (reborn: Ext.Extension)
    requires extension.Valid()
    ensures fresh(reborn) && reborn.Valid() && reborn.keccak == extension.keccak
    ensures reborn.store == extension.store || fresh(reborn.store.Footprint())
    ensures (reborn.View(), Silent) == Step(extension.keccak, extension.View(), Restart)
  {
    var store := extension.store;
    if store.Memory? {
      var memory := new MemoryStore();
      store := Memory(memory);
    }
    reborn := new Ext.Extension(extension.keccak, store);
  }

  /** One operation: a request to this process, or the start of the next one. */
  method Advance(extension: Ext.Extension, op: Op, nonce: seq<byte>) returns (next: Ext.Extension, reply: Reply)
    requires extension.Valid() && |nonce| == NONCE_SIZE
    modifies extension, extension.store.Footprint()
    ensures next.Valid() && next.keccak == extension.keccak && (next == extension || fresh(next))
    ensures next.store == extension.store || fresh(next.store.Footprint())
    ensures (next.View(), reply) == Step(extension.keccak, old(extension.View()), op)
  {
    if op.Restart? {
      next := Reboot(extension);
      reply := Silent;
    } else {
      next := extension;
      reply := Handle(extension, op, nonce);
    }
  }

  method Start(keccak: Keccak, store: Backend) returns (extension: Ext.Extension)
    requires store.Valid(keccak)
    ensures extension.Valid() && fresh(extension) && extension.keccak == keccak && extension.store == store
    ensures extension.View() == Engine(store.Kind(), map[], old(store.Contents()), 0, 0)
  {
    ghost var contents := store.Contents();
    extension := new Ext.Extension(keccak, store);
    assert store.Contents() == contents;
  }

  /** Starting over whatever the store holds, serve the operations in order. */
  method Serve(keccak: Keccak, store: Backend, ops: seq<Op>, nonces: seq<seq<byte>>)
    returns (extension: Ext.Extension, replies: seq<Reply>)
    requires store.Valid(keccak) && |nonces| == |ops| && forall i :: 0 <= i < |nonces| ==> |nonces[i]| == NONCE_SIZE
    modifies store.Footprint()
    ensures extension.Valid()
    ensures (extension.View(), replies) == Run(keccak, Engine(store.Kind(), map[], old(store.Contents()), 0, 0), ops)
  {
    ghost var e0 := Engine(store.Kind(), map[], store.Contents(), 0, 0);
    extension := Start(keccak, store);
    replies := [];
    for i := 0 to |ops|
      invariant extension.Valid() && extension.keccak == keccak && fresh(extension)
      invariant extension.store == store || fresh(extension.store.Footprint())
      invariant (extension.View(), replies) == Run(keccak, e0, ops[..i])
    {
      RunStep(keccak, e0, ops[..i], ops[i]);
      assert ops[..i] + [ops[i]] == ops[..i + 1];
      var reply;
      extension, reply := Advance(extension, ops[i], nonces[i]);
      replies := replies + [reply];
    }
    assert ops[..|ops|] == ops;
  }
}
