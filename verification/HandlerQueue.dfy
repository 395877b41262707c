/**
 * typescript/src/base/server.ts: Server.serialize. Promises and their reactions follow ECMA-262,
 * section 27.2: a reaction becomes a job once its source settles, and jobs may run in any order here,
 * which includes the first-in first-out order of the standard.
 */
module HandlerQueue {
  datatype Promise = Pending | Fulfilled | Rejected

  /** What a reaction does when its job runs. */
  datatype Handler = RunFn(fn: nat) | Ignore

  /** source.then(handler, handler), settling target. */
  datatype Reaction = Reaction(source: nat, target: nat, handler: Handler, fired: bool)

  /**
   * `started` lists the functions in the order they began; `running` holds, for each one at work, the promise
   * it settles.
   */
  datatype Loop = Loop(queue: nat, promises: seq<Promise>, reactions: seq<Reaction>, started: seq<nat>,
                       running: map<nat, nat>)

  datatype Event =
    | Enqueue                        // a request calls serialize
    | RunJob(reaction: nat)          // the event loop takes a ready job
    | Settle(fn: nat, ok: bool)      // a started function returns, throws, resolves or rejects

  function Idle(): Loop {
    Loop(0, [Fulfilled], [], [], map[])
  }

  predicate Ready(s: Loop, i: nat) {
    i < |s.reactions| && !s.reactions[i].fired
    && s.reactions[i].source < |s.promises| && !s.promises[s.reactions[i].source].Pending?
  }

  /** The number of functions enqueued so far names the next one. */
  function NextFn(s: Loop): nat {
    |s.reactions| / 2
  }

  /** Two then-calls: one runs fn after the queue, one swallows its outcome and becomes the queue. */
  function Serialize(s: Loop): Loop {
    var run := |s.promises|;
    s.(queue := run + 1,
       promises := s.promises + [Pending, Pending],
       reactions := s.reactions + [Reaction(s.queue, run, RunFn(NextFn(s)), false),
                                   Reaction(run, run + 1, Ignore, false)])
  }

  function Settled(promises: seq<Promise>, i: nat, outcome: Promise): seq<Promise> {
    if i < |promises| then promises[i := outcome] else promises
  }

  function Fire(s: Loop, i: nat): Loop
    requires i < |s.reactions|
  {
    var reaction := s.reactions[i];
    var fired := s.(reactions := s.reactions[i := reaction.(fired := true)]);
    match reaction.handler
    case RunFn(fn) => fired.(started := s.started + [fn], running := s.running[fn := reaction.target])
    case Ignore => fired.(promises := Settled(s.promises, reaction.target, Fulfilled))
  }

  /** A function that ends settles the promise of the then-call that ran it. */
  function Finish(s: Loop, fn: nat, ok: bool): Loop
    requires fn in s.running
  {
    var promise := s.running[fn];
    s.(promises := Settled(s.promises, promise, if ok then Fulfilled else Rejected), running := s.running - {fn})
  }

  function Step(s: Loop, e: Event): Loop {
    match e
    case Enqueue => Serialize(s)
    case RunJob(i) => if Ready(s, i) then Fire(s, i) else s
    case Settle(fn, ok) => if fn in s.running then Finish(s, fn, ok) else s
  }

  function Run(events: seq<Event>): Loop {
    if events == [] then Idle() else Step(Run(events[..|events| - 1]), events[|events| - 1])
  }

  // ---- the program ----

  class Server {
    var loop: Loop

    constructor ()
      ensures loop == Idle()
    {
      loop := Idle();
    }

    /** promise.then(handler, handler): a new pending promise. */
    method Then(source: nat, handler: Handler) returns (promise: nat)
      modifies this
      ensures promise == |old(loop).promises|
      ensures loop == old(loop).(promises := old(loop).promises + [Pending],
                                 reactions := old(loop).reactions + [Reaction(source, promise, handler, false)])
    {
      promise := |loop.promises|;
      loop := loop.(promises := loop.promises + [Pending],
                    reactions := loop.reactions + [Reaction(source, promise, handler, false)]);
    }

    method SerializeFn() returns (run: nat)
      modifies this
      ensures loop == Serialize(old(loop)) && run == |old(loop).promises|
    {
      run := Then(loop.queue, RunFn(NextFn(loop)));
      var queue := Then(run, Ignore);
      loop := loop.(queue := queue);
      assert loop.promises == Serialize(old(loop)).promises && loop.reactions == Serialize(old(loop)).reactions;
    }
  }

  // ---- the chain ----

  /** Reaction 2k runs function k between gates 2k and 2k+1; reaction 2k+1 opens the next gate. */
  predicate Linked(s: Loop) {
    && |s.promises| == |s.reactions| + 1
    && |s.reactions| % 2 == 0
    && s.queue == |s.reactions|
    && forall i :: 0 <= i < |s.reactions| ==>
         && s.reactions[i].source == i && s.reactions[i].target == i + 1
         && s.reactions[i].handler == if i % 2 == 0 then RunFn(i / 2) else Ignore
  }

  /** Promises up to the frontier have settled, the rest wait; everything before the frontier has fired. */
  predicate Frontier(s: Loop, f: nat) {
    && f < |s.promises|
    && (forall i :: 0 <= i < |s.promises| ==> (s.promises[i].Pending? <==> i > f))
    && (forall i :: 0 <= i < |s.reactions| ==> (s.reactions[i].fired <==> i < f || (i == f && s.running != map[])))
    && (s.running == map[] || (f % 2 == 0 && f < |s.reactions| && s.running == map[f / 2 := f + 1]))
    && |s.started| == (f + 1) / 2 + |s.running|
    && forall k :: 0 <= k < |s.started| ==> s.started[k] == k
  }

  ghost predicate Chained(s: Loop) {
    Linked(s) && exists f: nat :: Frontier(s, f)
  }

  lemma EnqueueChained(s: Loop)
    requires Chained(s)
    ensures Chained(Serialize(s))
  {
    var f: nat :| Frontier(s, f);
    assert Linked(Serialize(s)) by {
      assert |s.reactions| / 2 * 2 == |s.reactions|;
    }
    assert Frontier(Serialize(s), f);
  }

  lemma FireChained(s: Loop, i: nat)
    requires Chained(s) && Ready(s, i)
    ensures Chained(Fire(s, i))
    ensures s.running == map[]
  {
    var f: nat :| Frontier(s, f);
    assert i == f;
    var s' := Fire(s, i);
    if i % 2 == 0 {
      assert s'.running == map[f / 2 := f + 1];
      assert Frontier(s', f);
    } else {
      assert Frontier(s', f + 1);
    }
  }

  lemma FinishChained(s: Loop, fn: nat, ok: bool)
    requires Chained(s) && fn in s.running
    ensures Chained(Finish(s, fn, ok))
  {
    var f: nat :| Frontier(s, f);
    assert s.running == map[f / 2 := f + 1] && f == 2 * fn;
    var s' := Finish(s, fn, ok);
    assert s'.running == map[];
    assert Frontier(s', f + 1);
  }

  lemma {:induction false} RunsChained(events: seq<Event>)
    ensures Chained(Run(events))
  {
    if events == [] {
      assert Frontier(Idle(), 0);
    } else {
      RunsChained(events[..|events| - 1]);
      var s := Run(events[..|events| - 1]);
      match events[|events| - 1]
      case Enqueue => EnqueueChained(s);
      case RunJob(i) => if Ready(s, i) { FireChained(s, i); }
      case Settle(fn, ok) => if fn in s.running { FinishChained(s, fn, ok); }
    }
  }

  /** Under any interleaving at most one function runs, and functions start in the order they were enqueued. */
  lemma {:induction false} OneAtATimeInOrder(events: seq<Event>)
    ensures var s := Run(events);
            && |s.running| <= 1
            && |s.started| <= NextFn(s)
            && (forall k :: 0 <= k < |s.started| ==> s.started[k] == k)
            && (forall fn :: fn in s.running ==> |s.started| == fn + 1)
  {
    RunsChained(events);
    var s := Run(events);
    var f: nat :| Frontier(s, f);
    var n := NextFn(s);
    assert |s.reactions| == 2 * n && f <= 2 * n;
    if s.running != map[] {
      assert s.running == map[f / 2 := f + 1] && |s.running| == 1;
      assert |s.started| == f / 2 + 1 <= n;
    } else {
      assert |s.started| == (f + 1) / 2 <= n;
    }
  }

  /** A started function's predecessors have all settled, by success or failure. */
  lemma {:induction false} StartsAfterPredecessors(events: seq<Event>, fn: nat, earlier: nat)
    requires fn in Run(events).started && earlier < fn
    ensures earlier !in Run(events).running
    ensures 2 * earlier + 1 < |Run(events).promises| && !Run(events).promises[2 * earlier + 1].Pending?
  {
    RunsChained(events);
    var s := Run(events);
    var f: nat :| Frontier(s, f);
    if s.running != map[] { assert |map[f / 2 := f + 1]| == 1; }
  }

  /** Nothing wedges the queue: unless every enqueued function has settled, one is running or a job is ready. */
  lemma {:induction false} NeverWedged(events: seq<Event>)
    ensures var s := Run(events);
            || s.running != map[]
            || (exists i :: Ready(s, i))
            || (|s.started| == NextFn(s) && forall p :: 0 <= p < |s.promises| ==> !s.promises[p].Pending?)
  {
    RunsChained(events);
    var s := Run(events);
    var f: nat :| Frontier(s, f);
    if s.running == map[] && f < |s.reactions| { assert Ready(s, f); }
  }

  // ---- what the callers get ----

  /** Function k's caller holds promise 2k + 1. */
  lemma {:induction false} ReturnedPromise(events: seq<Event>)
    ensures |Run(events).promises| == 2 * NextFn(Run(events)) + 1
  {
    RunsChained(events);
  }

  /** A settled promise never changes. */
  lemma StepKeepsOutcome(s: Loop, e: Event, p: nat)
    requires Chained(s) && p < |s.promises| && !s.promises[p].Pending?
    ensures p < |Step(s, e).promises| && Step(s, e).promises[p] == s.promises[p]
  {
    var f: nat :| Frontier(s, f);
  }

  lemma {:induction false} RunSnoc(events: seq<Event>, e: Event)
    ensures Run(events + [e]) == Step(Run(events), e)
  {
    assert (events + [e])[..|events|] == events;
  }

  lemma {:induction false} OutcomeKept(events: seq<Event>, later: seq<Event>, p: nat)
    requires p < |Run(events).promises| && !Run(events).promises[p].Pending?
    ensures p < |Run(events + later).promises| && Run(events + later).promises[p] == Run(events).promises[p]
  {
    if later == [] {
      assert events + later == events;
    } else {
      var init, e := later[..|later| - 1], later[|later| - 1];
      assert events + later == events + init + [e];
      OutcomeKept(events, init, p);
      RunsChained(events + init);
      RunSnoc(events + init, e);
      StepKeepsOutcome(Run(events + init), e, p);
    }
  }

  /** A caller's promise settles as its own function ended, whatever other functions did or do, and stays so. */
  lemma {:induction false} OutcomeDelivered(events: seq<Event>, fn: nat, ok: bool, later: seq<Event>)
    requires fn in Run(events).running
    ensures var s := Run(events + [Settle(fn, ok)] + later);
            2 * fn + 1 < |s.promises| && s.promises[2 * fn + 1] == if ok then Fulfilled else Rejected
  {
    RunsChained(events);
    var s := Run(events);
    var f: nat :| Frontier(s, f);
    assert s.running == map[f / 2 := f + 1] && f == 2 * fn;
    RunSnoc(events, Settle(fn, ok));
    OutcomeKept(events + [Settle(fn, ok)], later, 2 * fn + 1);
  }
}
