# AVERLOCK guard authorization: a verified model

AVERLOCK turns private rules into signed, time-limited decisions. A trusted extension process keeps one
state per rule (an immutable policy and its commitment, a cooldown clock, the used nonces, and a frozen
decision per event), answers `CREATE_POLICY` and `EVALUATE_GUARD` requests, and writes every accepted
change through to a durable store before it answers. The project models that process, the store and the
codecs around it, the second implementation that checks its answers, and three smaller protocols.
`dafny verify dfyconfig.toml` checks everything.

## How the model is built

* `Base`, `Numerals`, `Abi`: fixed-width integers (Go's wrapping `uint64` addition is written out), decimal
  strings as `math/big` prints and reads them, and 32-byte words. Keccak-256 is a parameter, any function
  from bytes to hashes; only preimages are proved injective.
* `Policy`, `DecisionCodec`: policy validation, the commitment, the canonical 352-byte decision and its hash.
* `Authorization`: one rule. `CheckRequest`, `Decide` and `Apply` are the checks, the first decision and the
  state change of an evaluation; a history is a sequence of accepted evaluations (`Grant`).
* `Machine`: the whole engine as a state machine. A step is one locked section; work outside the lock reads
  no shared state, so an interleaving of requests is a sequence of steps. The environment picks timestamps,
  snapshots, whether a load fails, and whether a save succeeds, fails before taking effect or fails after
  taking effect. `Restart` drops the cache and the counters; Redis keeps its contents, memory does not.
* `Extension`, `StateStore`: the same engine on the heap. Rule states and event authorizations are objects,
  cache and memory store share them, the Redis store owns a connection to a server object. Every method is
  proved to take exactly the machine's step. `Process` composes the steps: whole runs on the heap, restarts
  included, are the machine's runs, so every theorem about runs holds of the objects.
* `Histories`: the ledger of a run, a function that gives for every cached and every durable state the operations
  whose writes led to it, in order of arrival. `Scripts` is the converse: every acceptable history has its run.
* `Safety`, `Runs`, `Verdicts`, `Clocks`, `Restarts`, `Conservation`, `Acceptance`, `Replies`: the theorems about
  runs and about single requests.
* `RedisRecord`, `Resp`: keys, associated data, sealed envelopes and the Redis wire protocol. AES-GCM is an
  ideal cipher, and gob, base64 and JSON are lossless encodings, all given as function parameters.
* `PolicyAppHelper`: the independent preparer and checker.
* `Registration`, `HandlerQueue`, `Rounding`: the resumable TEE registration, the promise-chained handler
  queue of the TypeScript server, and the three floors from XRP drops to token units.

## What holds only under a condition

Several promises fail for some inputs of the code. The model keeps the code as it is and proves exactly when
the promise holds. Wherever a promise spans a restart the store kind is part of the condition: the memory
store, which is the default, loses everything when the process restarts. A durable store below is Redis, or the memory store until it restarts.

* Over a durable store, validity windows of acknowledged decisions on one event are disjoint in every run whose
  trusted times plus 600 fit `uint64` (`Runs.WindowsDisjointInRun`). Among all runs of a store kind with times up to
  a limit this holds for a policy exactly when the store is Redis and the earlier of the limit and `expiresAt`, plus
  600, fits (`Runs.WindowsDisjointIff`; a limit of zero admits no evaluation). Policy validation does not bound
  `expiresAt`.
* Nonces and rules are used once, and verdicts on one event agree, in every run exactly when the store is Redis
  (`Runs.UsedOnceIff`, `Runs.VerdictsAgreeIff`). Over the memory store a restarted process repeats every answer
  (`Runs.MemoryStoreForgets`) and can contradict it (`Runs.TwoLivesAcknowledged`).
* First triggers in the history behind a state are a cooldown apart in every run, over either store, exactly when
  `expiresAt + cooldownSeconds` fits `uint64`, or no amount that fits a word triggers the policy
  (`Runs.CooldownInRunsIff`).
* Over a durable store the cooldown clock in the cache never runs backwards while that sum fits
  (`Clocks.CachedClockNeverFalls`; the exact condition is `Clocks.ClockMonotoneIff`). The stored clock can: a
  trigger at time 100 whose save fails after taking effect, then a trigger at 50 that is saved, leave 100 and
  then 50 in the store. It is monotone exactly over Redis when no failed save takes effect
  (`Clocks.DurableClockIff`).
* Restarts are invisible exactly when the store is Redis, loads succeed and no failed save took effect
  (`Restarts.RestartsHiddenIff`).
* A signed evaluation passes the consumer's checks exactly when the snapshot was prepared no later than the
  trusted time and the window's end did not wrap (`PolicyAppHelper.EvaluationVerifiesIff`).
* A committed evaluation is answered exactly when its event value fits a word (`Replies.AnsweredIff`); the
  production snapshot reader only produces such values (`Replies.NoAnswerLost`).
* A state saved to Redis loads back exactly when its commitment is its policy's (`RedisRecord.SavedLoadsBack`);
  every state the engine saves meets this.

Code and documentation disagree in two places, and the model follows the code. The early section of
`docs/end-to-end-guard-flow.md` (lines 31-35) describes the `AVERLOCK_GUARD_RESULT_V1` domain and a decision bound to
the payment timestamp; its later section (lines 67-82) supersedes that with the V2 domain and the trusted instruction
timestamp, which `codec.go` and `extension.go` implement. `docs/fcc-private-rules.md` says that policy state lives in
memory only, while the Redis store exists.

## Model

| member | source | states |
|---|---|---|
| Runs.AcknowledgedDecisionsAgree | packages/fcc-extension/go/internal/extension/extension.go:192-293 | over Redis with any out-of-order times, failing saves and restarts, and over the memory store until it restarts, two acknowledged decisions of one rule never share a nonce, and on one event they carry the same verdict, the later one evaluated after the earlier one's window has closed unless a window that the run opened for the event wrapped |
| Runs.WindowsDisjointInRun | packages/fcc-extension/go/internal/extension/extension.go:222-261 | over a durable store (Redis, or memory without a restart), in every run whose trusted times plus 600 seconds fit 64 bits, whatever the policy's expiry, and for every early-expiring policy in any run, windows acknowledged for one event are disjoint |
| Runs.AcknowledgedOperation | packages/fcc-extension/go/internal/extension/extension.go:256-292 | over a durable store an acknowledged decision answers its own operation, which stays behind every cached and durable copy of the rule's state |
| Runs.AcknowledgedMatches | packages/fcc-extension/go/internal/extension/extension.go:256-292 | over either store, across restarts, an acknowledged decision answers its own operation: rule, event, nonce, time, amount and a 600-second window |
| Runs.WindowsDisjointIff | packages/fcc-extension/go/internal/extension/extension.go:222-257 | among the runs of a store kind with trusted times up to any limit, none acknowledges overlapping windows for a policy, if and only if the store is Redis (or the limit zero) and 600 seconds after the earlier of limit and expiry fits 64 bits |
| Runs.VerdictsAgreeIff | packages/fcc-extension/go/internal/extension/extension.go:217-261 | in all runs of a store kind, decisions acknowledged for one event say the same, if and only if the store is Redis |
| Runs.TwoLivesAcknowledged | packages/fcc-extension/go/internal/extension/state_store.go:33-51 | the run that shows what memory costs: before and after a restart, one rule, event, nonce and instant are acknowledged with different amounts |
| Scripts.HistoryRealized | packages/fcc-extension/go/internal/extension/extension.go:111-293 | over either store, every acceptable history of word-sized amounts is acknowledged request by request by a run whose ledger records exactly that history, so counterexamples are runs of the engine |
| Histories.RunsAreHistories | packages/fcc-extension/go/internal/extension/extension.go:176-265 | every cached or durable state is what the ledger's operations make of the fresh rule: evaluations of the run in order of arrival, each with a write that took effect |
| Histories.AcknowledgedStaysBehind | packages/fcc-extension/go/internal/extension/extension.go:178-261 | over a durable store no failure or restart drops an acknowledged evaluation from the operations behind a rule's state |
| Runs.TriggersSpacedInRuns | packages/fcc-extension/go/internal/extension/extension.go:242-251 | in the operations behind each cached or durable state, first authorizations of triggered events are at least a cooldown apart, whatever order requests arrive in |
| Runs.CooldownInRunsIff | packages/fcc-extension/go/internal/extension/extension.go:238-251 | no run with word-sized amounts ever puts two first triggers of a policy within a cooldown, if and only if the cooldown's addition cannot wrap or no word-sized amount triggers the policy |
| Authorization.CooldownRespectedIff | packages/fcc-extension/go/internal/extension/extension.go:238-251 | the same equivalence over all acceptable histories of word-sized amounts |
| Authorization.ClockNeverDecreases | packages/fcc-extension/go/internal/extension/extension.go:242-251 | within one accepted history the cooldown clock never runs backwards while its addition cannot wrap |
| Authorization.WindowsInOrder | packages/fcc-extension/go/internal/extension/extension.go:222-257 | in an accepted history, a later evaluation of an event lies strictly after an earlier one's window, if no window between them wrapped |
| Clocks.CachedClockNeverFalls | packages/fcc-extension/go/internal/extension/extension.go:176-261 | over a durable store, restarts and failures included, no later cached clock and no stored clock undercuts a clock the rule once showed in the cache |
| Clocks.ClockMonotoneIff | packages/fcc-extension/go/internal/extension/extension.go:242-251 | in all runs of a store kind a policy's cached clock never runs backwards, if and only if the policy never triggers, or the store is Redis and the cooldown's addition cannot wrap or the policy lives one second |
| Clocks.DurableClockIff | packages/fcc-extension/go/internal/extension/extension.go:250-261 | in all runs of a store kind and an environment the stored clocks of non-wrapping rules never run backwards, if and only if the store is Redis and no failed save takes effect |
| Clocks.LateFailureRewinds | packages/fcc-extension/go/internal/extension/extension.go:250-261 | the run that shows it: a late trigger whose save fails after taking effect, then an early one that is saved |
| Authorization.TriggersSpaced | packages/fcc-extension/go/internal/extension/extension.go:242-251 | without wrap-around, every accepted history spaces its triggers by the cooldown |
| Authorization.ProtectedShare | packages/fcc-extension/go/internal/extension/extension.go:246-247 | the protected share of an amount is never negative and never more than the amount |
| Verdicts.AcknowledgedDecisionsJustified | packages/fcc-extension/go/internal/extension/extension.go:228-292 | over a durable store every acknowledged decision answers its own operation and carries the policy's verdict on the first evaluation of its event among the operations behind the durable state: triggered exactly when a history-only specification says protection is due, for the policy's share of the amount rounded down |
| Verdicts.TriggersExactlyWhenDue | packages/fcc-extension/go/internal/extension/extension.go:238-251 | the stateful trigger test with its clock agrees with the specification told from the history alone: eligible amount, first evaluation, a cooldown after every earlier due one |
| Verdicts.VerdictsFrozen | packages/fcc-extension/go/internal/extension/extension.go:217-257 | an authorization keeps the verdict of its first evaluation through any number of refreshes |
| Safety.RunsAreSafe | packages/fcc-extension/go/internal/extension/extension.go:111-293 | all states stay well-formed and bound to their rule, every copy of a state remembers each acknowledged decision, and all replies are pairwise compatible, over every run with a durable store |
| Safety.StatesAlwaysSound | packages/fcc-extension/go/internal/extension/extension.go:111-293 | over either store and any restarts, every cached and stored state is well-formed, bound to its rule and cached only where stored |
| Safety.StepKeeps | packages/fcc-extension/go/internal/extension/extension.go:139-158 | creation, evaluation and a restart over Redis each keep the invariant, whatever the environment does |
| Safety.CommittedReply | packages/fcc-extension/go/internal/extension/extension.go:256-292 | the signed bytes decode to the committed verdict, and the committed state remembers it |
| Safety.ResponseOf | packages/fcc-extension/go/internal/extension/engine.go:112-134 | printing, re-parsing, hashing and encoding a committed verdict lose nothing, exactly up to values that overflow a word |
| Runs.CreatedOnce | packages/fcc-extension/go/internal/extension/extension.go:139-161 | over a durable store at most one creation per rule is acknowledged in a run, and it announces the commitment the rule then keeps |
| Runs.DurableStatesLoad | packages/fcc-extension/go/internal/extension/state_store.go:165-220 | every stored state of every run, acknowledged or not, passes the load's binding check and comes back equal |
| Runs.PolicyImmutable | packages/fcc-extension/go/internal/extension/extension.go:139-158 | over a durable store, once a rule is saved, its policy and commitment never change in the rest of the run |
| Runs.MemoryStoreForgets | packages/fcc-extension/go/internal/extension/state_store.go:33-51 | over the memory store, requests repeated after a restart get the same replies word for word |
| Runs.MemoryRepeats | packages/fcc-extension/go/internal/extension/state_store.go:33-51 | a memory-store run that acknowledges the same creation twice and the same nonce twice |
| Runs.UsedOnceIff | packages/fcc-extension/go/internal/extension/state_store.go:26-51 | across restarts, no run acknowledges a nonce or a creation twice for one rule, if and only if the store is Redis |
| Restarts.EngineRefinesRules | packages/fcc-extension/go/internal/extension/extension.go:139-195 | cache plus Redis store behaves as a single map from rules to states, reply for reply |
| Restarts.RestartsInvisible | packages/fcc-extension/go/internal/extension/extension.go:176-195 | over Redis, restarts inserted anywhere change neither a reply nor the durable state, given clean loads and saves |
| Restarts.RestartsHiddenIff | packages/fcc-extension/go/internal/extension/extension.go:176-261 | a store kind and an environment hide restarts in all runs, if and only if the store is Redis, its loads succeed and its failed saves have no effect |
| Conservation.CountersConserved | packages/fcc-extension/go/internal/extension/extension.go:252-265 | until the next restart the evaluation count is the number of used nonces over the cached states and the trigger count the number of their triggered events, refreshes not counted; a rule that is not cached was never evaluated |
| Replies.AnsweredIff | packages/fcc-extension/go/internal/extension/extension.go:258-292 | only committed evaluations are signed, and a committed one is signed exactly when its event value fits a word |
| Replies.NoAnswerLost | packages/fcc-extension/go/internal/extension/consumption.go:129-137 | with snapshots decoded from 32-byte words, an evaluation is committed if and only if it is signed |
| Replies.DecisionReply | packages/fcc-extension/go/internal/extension/extension.go:267-292 | the signed decision carries the request's rule, event and nonce, the snapshot's value, the trusted time and a 600-second window |
| Acceptance.CommittedIff | packages/fcc-extension/go/internal/extension/extension.go:164-293 | after any run, over either store, an evaluation is committed if and only if its ids and time are non-zero, its rule can be had, the rule is alive and the nonce unused, the snapshot is of that rule, complete, positive and not consumed, an earlier decision on the event has the same amount and has run out, and the save is acknowledged; it is signed if the amount also fits a word, and the store changes exactly then or when the save fails late |
| Acceptance.EvaluationRefusedTruly | packages/fcc-extension/go/internal/extension/extension.go:164-293 | every refused evaluation names a reason that is true of the request, the rule's state, the snapshot or the environment |
| Acceptance.EvaluationRefusedFirst | packages/fcc-extension/go/internal/extension/extension.go:164-293 | of all the reasons that are true, a refused evaluation names the first in the fixed order of the checks |
| Acceptance.CreatedIff | packages/fcc-extension/go/internal/extension/extension.go:111-161 | in any state and at any time a creation is acknowledged, with its commitment, if and only if the wire policy normalizes, outlives a known trusted time, is neither cached nor stored, and load and save succeed |
| Acceptance.CreationRefusedTruly | packages/fcc-extension/go/internal/extension/extension.go:111-156 | every refused creation names a true reason |
| Acceptance.CreationRefusedFirst | packages/fcc-extension/go/internal/extension/extension.go:111-156 | of all the reasons that are true, a refused creation names the first |
| Replies.SnapshotDecoded | packages/fcc-extension/go/internal/extension/consumption.go:132-137 | the six snapshot words and the consumed word are each read into their own field, the preparation time modulo 2^64 |
| Replies.SnapshotLengths | packages/fcc-extension/go/internal/extension/consumption.go:129-131 | return data is accepted if and only if it is six words and one word long |
| Replies.SnapshotFits | packages/fcc-extension/go/internal/extension/consumption.go:129-137 | a decoded snapshot's event value is present and below 2^256 |
| Replies.RefusalLeavesNoTrace | packages/fcc-extension/go/internal/extension/extension.go:192-290 | a refused request moves no counter and no state, at most caching the stored copy, and only a save that failed after taking effect changes the store; the one exception is the refusal to encode, which comes after the commit |
| Extension.Extension.ProcessEvaluateGuard | packages/fcc-extension/go/internal/extension/extension.go:164-293 | on the heap, an evaluation takes exactly the machine's step and writes no object that the cache or the memory store could reach before |
| Extension.Extension.ProcessCreatePolicy | packages/fcc-extension/go/internal/extension/extension.go:111-162 | on the heap, a creation takes exactly the machine's step and writes no published object |
| Extension.Extension.Find | packages/fcc-extension/go/internal/extension/extension.go:178-191 | a rule is taken from the cache, else from the store and then cached; a failed lookup changes nothing |
| Extension.Extension.Answer | packages/fcc-extension/go/internal/extension/extension.go:192-292 | copying, checking, deciding, saving, publishing, counting and replying together are the machine's decision step |
| Extension.Extension.Commit | packages/fcc-extension/go/internal/extension/extension.go:258-292 | nothing is published, counted or answered before the save is acknowledged, and a new trigger is counted exactly once |
| Extension.GrantInPlace | packages/fcc-extension/go/internal/extension/extension.go:217-257 | freezing, using the nonce and opening the window in place give the specified successor state |
| Extension.Freeze | packages/fcc-extension/go/internal/extension/extension.go:217-255 | an event keeps its frozen authorization object or gets a new one with the first decision, shared with no other event |
| Extension.Refresh | packages/fcc-extension/go/internal/extension/extension.go:256-257 | using a nonce and opening a window changes no other event's authorization |
| Extension.FirstDecision | packages/fcc-extension/go/internal/extension/extension.go:238-253 | the stepwise first decision is the specified one, and the clock moves exactly when it triggers |
| Extension.Extension.constructor | packages/fcc-extension/go/internal/extension/extension.go:51-59 | a starting process has an empty cache, zero counters and whatever the store holds |
| Process.Serve | packages/fcc-extension/go/internal/extension/extension.go:41-59 | a whole run on the heap, each restart a new process over the same Redis store or a new memory store, ends in the machine's state with the machine's replies |
| StateStore.Clone | packages/fcc-extension/go/internal/extension/extension.go:295-309 | the copy looks the same and shares no object with the original |
| StateStore.MemoryStore.Load | packages/fcc-extension/go/internal/extension/state_store.go:36-44 | the memory store hands out the very object it holds, and tells a missing rule from an invalid one |
| StateStore.MemoryStore.Save | packages/fcc-extension/go/internal/extension/state_store.go:45-51 | the memory store keeps the very object it is given, if it is bound to the rule |
| StateStore.RedisStore.DoConn | packages/fcc-extension/go/internal/extension/state_store.go:263-297 | the command written piece by piece is executed with exactly its arguments, and the reply read back is the server's; a lost reply still leaves the effect |
| StateStore.RedisStore.constructor | packages/fcc-extension/go/internal/extension/state_store.go:66-92 | a new process may start over records that earlier processes left on the server |
| StateStore.RedisStore.Save | packages/fcc-extension/go/internal/extension/state_store.go:165-186 | a save replaces the rule's state and nothing else, or has no effect; the records on the server keep loading as the states last written |
| StateStore.RedisStore.Load | packages/fcc-extension/go/internal/extension/state_store.go:187-230 | a load rebuilds the state last written from new objects, or refuses it, and leaves the database alone |
| StateStore.SaveAgrees | packages/fcc-extension/go/internal/extension/state_store.go:165-220 | after a save, what every rule loads from the records agrees with the map of written states |
| RedisRecord.SavedLoadsBack | packages/fcc-extension/go/internal/extension/state_store.go:165-220 | a saved state loads back equal if and only if its commitment matches its policy, although saving does not check that |
| RedisRecord.LoadedIsBound | packages/fcc-extension/go/internal/extension/state_store.go:211-220 | whatever bytes the server holds, a loaded state belongs to its rule and carries its policy's commitment |
| RedisRecord.LoadedIff | packages/fcc-extension/go/internal/extension/state_store.go:187-230 | a rule loads exactly when its record is a version 1 envelope with a 12-byte nonce that opens under the rule's own name to a bound state; an empty record is missing, anything else refused |
| RedisRecord.NamesSpelled | packages/fcc-extension/go/internal/extension/state_store.go:156-164 | keys and associated data character by character, and no key for the zero rule |
| RedisRecord.HexSpelled | packages/fcc-extension/go/internal/extension/state_store.go:156-164 | a rule is spelled 0x and the 64 lower-case hexadecimal digits of its value |
| RedisRecord.NamesInjective | packages/fcc-extension/go/internal/extension/state_store.go:156-164 | chain, extension and rule can each be recovered from a key and from the associated data |
| RedisRecord.SaveIsolated | packages/fcc-extension/go/internal/extension/state_store.go:156-220 | saving one rule changes nothing that another rule or another deployment loads |
| RedisRecord.RelocatedRecordRefused | packages/fcc-extension/go/internal/extension/state_store.go:162-220 | a sealed record copied to another rule or deployment is refused there |
| Resp.FrameReadsBack | packages/fcc-extension/go/internal/extension/state_store.go:264-271 | a framed command parses back to exactly its arguments, whatever bytes they contain |
| Resp.BulkReadsBack | packages/fcc-extension/go/internal/extension/state_store.go:272-290 | the client's reader returns a bulk reply's exact bytes |
| Resp.ShortBulkFails | packages/fcc-extension/go/internal/extension/state_store.go:277-290 | a bulk reply that breaks off anywhere is a failure, not a shorter value |
| Resp.AnswersAreBulksOrStatuses | packages/fcc-extension/go/internal/extension/state_store.go:272-297 | only complete first lines of bulk or status replies are answers; an error reply is a failure |
| Resp.GetSpelled | packages/fcc-extension/go/internal/extension/state_store.go:222-271 | the bytes a lookup sends |
| Resp.SetSpelled | packages/fcc-extension/go/internal/extension/state_store.go:185-271 | the bytes a save sends |
| Resp.GetAnswer | packages/fcc-extension/go/internal/extension/state_store.go:222-231 | a GET reads the stored value, or the empty text for a missing key |
| DecisionCodec.DecodeInvertsEncode | packages/fcc-extension/go/pkg/decision/codec.go:62-95 | decoding accepts exactly the image of encoding and inverts it, for a strict and for a lax word unpacker |
| DecisionCodec.LaxUnpackingIsHarmless | packages/fcc-extension/go/pkg/decision/codec.go:74-93 | an unpacker that drops high bits makes no difference, because of the canonical re-encoding |
| DecisionCodec.HashPreimageInjective | packages/fcc-extension/go/pkg/decision/codec.go:97-111 | the hash preimage determines the chain and every field of the decision |
| DecisionCodec.EncodesIffLaidOut | packages/fcc-extension/go/pkg/decision/codec.go:48-68 | encoding succeeds exactly for V2-domain decisions with word-sized amounts, and its bytes are exactly the eleven published words in order |
| DecisionCodec.StrictDecode | packages/fcc-extension/go/pkg/decision/codec.go:70-95 | every byte string's answer: wrong length, a word too wide for its field, a foreign domain, or a decision, exactly on these conditions in this order |
| DecisionCodec.EncodeRefusals | packages/fcc-extension/go/pkg/decision/codec.go:48-65 | a decision is refused exactly for a foreign domain or else an amount that is not a word |
| DecisionCodec.ResultHashExact | packages/fcc-extension/go/pkg/decision/codec.go:97-111 | a result hash exists exactly for a positive word-sized chain ID and an encodable decision, and hashes the encoding with the chain ID inserted after the domain |
| Policy.AcceptedIffWellFormed | packages/fcc-extension/go/internal/extension/engine.go:54-97 | the policies that validation can produce are exactly the well-formed ones, each from its canonical spelling |
| Policy.NormalizesIffSpells | packages/fcc-extension/go/internal/extension/engine.go:54-97 | a wire policy normalizes to a policy if and only if that policy is well-formed and the wire fields spell it, in any accepted numeral form |
| Policy.PolicyRefusedTruly | packages/fcc-extension/go/internal/extension/engine.go:54-83 | every refused policy names a true reason, and the first of those that are |
| Policy.CommitmentPreimageInjective | packages/fcc-extension/go/internal/extension/engine.go:99-110 | the commitment preimage determines all seven policy fields |
| Numerals.SetStringOfDecimal | packages/fcc-extension/go/internal/extension/engine.go:85-97 | parsing inverts printing for every non-negative integer |
| Numerals.SetStringExact | packages/fcc-extension/go/internal/extension/engine.go:85-97 | exactly the digit strings with at most one sign in front are numbers, and only a minus negates |
| Numerals.LeadingDigit | packages/fcc-extension/go/internal/extension/engine.go:85-97 | decimal numerals are read most significant digit first |
| Numerals.LeadingByte | packages/fcc-extension/go/internal/extension/consumption.go:132-136 | words are read most significant byte first |
| Abi.PackInjective | packages/fcc-extension/go/internal/extension/engine.go:99-109 | argument lists with equal packings are equal |
| Abi.WordsInPlace | packages/fcc-extension/go/internal/extension/engine.go:99-109 | the i-th word of packed data is the i-th 32-byte block |
| PolicyAppHelper.ValidatorsAgree | packages/fcc-extension/tools/cmd/policy-app-helper/main.go:129-156 | preparer and engine accept the same wire policies and compute the same commitment |
| PolicyAppHelper.VerifiedIff | packages/fcc-extension/tools/cmd/policy-app-helper/main.go:177-201 | the creation check passes exactly the accepted creation of the prepared rule and commitment in a successful action |
| PolicyAppHelper.EvaluationVerifiedIff | packages/fcc-extension/tools/cmd/policy-app-helper/main.go:88-120 | for all bytes and expectations, the evaluation check passes exactly the canonical encoding of a decision with the expected rule, event, positive value and nonce and a window that opens no earlier than the preparation and lasts at most 600 seconds |
| PolicyAppHelper.CreationVerifies | packages/fcc-extension/tools/cmd/policy-app-helper/main.go:177-201 | every acknowledged creation passes the helper's check against its own prepared policy |
| PolicyAppHelper.EvaluationVerifiesIff | packages/fcc-extension/tools/cmd/policy-app-helper/main.go:105-120 | every signed evaluation of every run, over either store, passes the consumer's checks for its request, if and only if the snapshot is not from the future and the window does not wrap |
| Registration.PromotionsAreLatest | packages/fcc-extension/tools/pkg/fccutils/registration.go:59-172 | through any crashes, lost replies, failed or torn state saves and resumed runs, every promotion is of the latest availability check made on chain, which used the latest attestation made on chain, and no letter is recorded twice |
| Registration.RegisteredOnce | packages/fcc-extension/tools/pkg/fccutils/registration.go:75-103 | while the registry misses no earlier registration, the machine is pre-registered at most once, lost replies and crashes included |
| Registration.RunCompletes | packages/fcc-extension/tools/pkg/fccutils/registration.go:59-172 | a run that nothing halts does every step it still owes once and in order, pre-registers exactly an unregistered machine, promotes the newest check or the given one, and removes its file or leaves it complete |
| Registration.RunStaysInOrder | packages/fcc-extension/tools/pkg/fccutils/registration.go:75-167 | however a run ends, what it did on chain is a prefix of the steps it owed, in order |
| Registration.RemovedOnlyWhenComplete | packages/fcc-extension/tools/pkg/fccutils/registration.go:59-172 | the state file is removed only by a run that nothing halted, and an unreadable or torn one stops a run at once |
| Registration.SavedStepsNotRepeated | packages/fcc-extension/tools/pkg/fccutils/registration.go:75-151 | a step the state file records is executed by no later run until a completed run removes the file |
| Registration.Registrar.RegisterNode | packages/fcc-extension/tools/pkg/fccutils/registration.go:59-172 | one invocation has exactly the specified effect on the state file and on the outside world |
| HandlerQueue.OneAtATimeInOrder | packages/fcc-extension/typescript/src/base/server.ts:179-191 | under every interleaving at most one handler runs, and handlers start in the order they were enqueued |
| HandlerQueue.StartsAfterPredecessors | packages/fcc-extension/typescript/src/base/server.ts:184-191 | a handler starts only once all earlier ones have resolved or rejected |
| HandlerQueue.NeverWedged | packages/fcc-extension/typescript/src/base/server.ts:179-191 | no rejection wedges the queue: until everything has settled, a handler is running or a job is ready |
| HandlerQueue.OutcomeDelivered | packages/fcc-extension/typescript/src/base/server.ts:184-191 | a caller's promise settles as its own function ended, whatever the others do, and never changes |
| HandlerQueue.ReturnedPromise | packages/fcc-extension/typescript/src/base/server.ts:184-191 | the promise the next caller gets is the one its function settles |
| HandlerQueue.Server.SerializeFn | packages/fcc-extension/typescript/src/base/server.ts:184-191 | the two chained calls extend the promise graph as specified and return the handler's own promise |
| Rounding.RoundingChain | docs/end-to-end-guard-flow.md:29-41 | the three floors never pay more than a single floor of the payment's share, lose less than 1 + 2*10^6/price units, and at most one unit from a price of 2*10^6 on |
| Rounding.ThreeFloors | packages/contracts/src/GuardManager.sol:357-368 | each of the three divisions is the floor of its own quotient, and only a positive price has token units |
| Rounding.PreflightExact | apps/web/src/lib/averlock/payment-flow.ts:14-17 | preflight passes exactly for a live, unconsumed decision that, if triggered, is funded and has a positive stored price; it approves just what the transfer needs, and the transfer never exceeds the payment's own share |
| Rounding.PreflightRefusals | apps/web/src/lib/averlock/payment-flow.ts:14-17 | which refusal a decision gets: consumed first, then expired, then an invalid price, which stops triggered decisions only |

## Left out

* Concurrent processes on one store: the lock is local to a process, and two of them could overwrite each other.
* A Redis write that takes effect only after a later one: a failed save takes effect at once or never.
* Nil big integers: an absent snapshot amount is modelled; nil policy, codec and state arguments, which the source rejects with its range errors, are not.
- RedisRecord.RelocatedRecordRefused: AES-GCM is an ideal cipher here, so forgery and nonce reuse have no probability.
- HandlerQueue.NeverWedged: it is freedom from deadlock, not fairness of the event loop; a handler that never settles still blocks its successors, as in the source. Extra job ticks for a handler that returns a promise are part of its running time.
- Restarts.RestartsHiddenIff: it speaks of environments in which requests can succeed at all.
- Verdicts.AcknowledgedDecisionsJustified: the cooldown part is stated where the cooldown's addition cannot wrap; beyond that `Runs.CooldownInRunsIff` shows it fails.
- Clocks.DurableClockIff: like `Restarts.RestartsHiddenIff`, it speaks of environments in which requests can succeed at all.
- Runs.CooldownInRunsIff: amounts are word-sized, as the production snapshot reader delivers them (`Replies.SnapshotFits`).
* The Redis reply reader's number scanner: blanks after the sign and numbers beyond 64 bits, which no modelled server sends.
* JSON decoding, ECIES decryption, ECDSA signatures, TLS, AUTH and SELECT, HTTP and JSON-RPC: they appear as outcomes that may fail.
* Environment parsing (`stateStoreFromEnv`, `parseRedisURL`, `sealKey`) and the text of error messages.
* The helper's exit messages: a failed check is one failure.
* The `/state` policy count, which counts cached rules only and drops after a restart by design.
* On-chain execution (`GuardManager`, `ProtectionVault`): the snapshot and its consumed flag are environment input; only the two `mulDiv` floors at `packages/contracts/src/GuardManager.sol:357` and `:368` enter the rounding chain.
* Web pages, API routes, polling, wallet calls, greeting scaffolds, report and validation tooling: single-branch checks over I/O.
