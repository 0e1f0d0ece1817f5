# Aztec Connect: tree notes, the job-queue worker and the bridge resolver, in Dafny

This project models three small cores of the Aztec Connect code base and proves
properties of each.

- **Tree-note codec** (`TreeNotes`, on top of `ByteCodec`). A tree note is the
  plaintext record behind a note commitment. It holds the owner's Grumpkin public
  key, a 256-bit value, a 32-bit asset id and nonce, and three 32-byte buffers: the
  note secret, the creator's public key and the input nullifier. `toBuffer` writes
  it in a fixed 200-byte big-endian layout. `fromBuffer` reads that layout back with
  a moving cursor. `recover` rebuilds a note from the 72-byte plaintext that
  `createViewingKey` encrypts. Bytes are integers in 0..255. Node's `Buffer.slice`
  clamps its bounds, and `readUInt32BE` throws a range error; both are modelled as
  such.
- **Job-queue worker frontend** (`JobQueueFrontend`). A worker claims jobs from a
  coordinator and keeps each lease alive with a heartbeat. It runs the job on the
  Pedersen, Pippenger or FFT backend and reports the result once. The frontend is a
  class whose methods update `running`, the listener registration, the pending
  heartbeat timer and the interruptible sleep. A ghost trace records every
  coordinator call (`GetJob`, `Ping`, `Complete`) and every sleep. What the
  coordinator and the backends answer is an input. One loop iteration's answers and
  concurrent events (a `stop()`, a `new_job` notification) form a `Round`. The loop
  method is proved against a pure specification, `LoopTrace`, and the protocol
  properties are proved as lemmas about that specification.
- **Bridge resolver** (`BridgeResolver`). The sequencer resolves gas figures for
  DeFi bridges by looking up their bridge call data in a configured list. The
  blockchain's own figure is the fallback. Only the rules the resolver's tests
  assert are modelled, because the implementation file is not part of this model.
  The blockchain is two parameters: its bridge-gas figure and its
  `allowThirdPartyContracts` flag.

Four behaviours of the worker's code are easy to miss:

- For a target matching none of its cases, `process` returns `undefined`. The job
  is then completed with no data and an empty error (`CompletionOfProcess`).
- A heartbeat ping that fails ends the heartbeat chain, because the catch block
  does not reschedule. It is not retried on the next tick (`Frontend.Ping`).
- A report can carry neither data nor an error: a job with an unknown target, or
  one whose backend returns `undefined`, has no data and an empty error. A
  backend that throws a value without a `message` (a string, say) is reported
  with no data and an `undefined` error.
- A backend that throws `undefined` or `null` makes `error = e.message` itself
  throw. `processJob` then rejects without calling `completeJob`, and the loop's
  catch block clears the heartbeat timer and sleeps. That job is claimed but
  never completed (`IterationShape`, `LoopCompletesEachClaimOnce`).

## Model

| member | source | states |
|---|---|---|
| `ByteCodec.ToBytesBE` | barretenberg.js/src/note_algorithms/tree_note.ts:34 | `toBufferBE(v, width)` gives exactly `width` bytes for a number below 256^width; `FromToBytesBE` is its inverse |
| `ByteCodec.FromBytesBE` | barretenberg.js/src/note_algorithms/tree_note.ts:56 | `toBigIntBE` of n bytes is a number below 256^n; `ToFromBytesBE` is its inverse |
| `ByteCodec.FromToBytesBE` | barretenberg.js/src/note_algorithms/tree_note.ts:34-36 | decoding the big-endian encoding of a number that fits the width gives the number back |
| `ByteCodec.ToFromBytesBE` | barretenberg.js/src/note_algorithms/tree_note.ts:56-60 | encoding a decoded byte string at its own width gives the same bytes back |
| `ByteCodec.Slice` | barretenberg.js/src/note_algorithms/tree_note.ts:62-68 | `buf.slice` clamps both bounds to the buffer: the length is clamped, and in range it is the plain sub-sequence |
| `ByteCodec.ReadUInt32BE` | barretenberg.js/src/note_algorithms/tree_note.ts:58-60 | succeeds exactly when four bytes are available at the offset, giving their big-endian value; otherwise a range error naming the offset |
| `TreeNotes.Value32` | barretenberg.js/src/note_algorithms/tree_note.ts:34 | `toBufferBE(value, 32)` is 32 bytes that decode to the value |
| `TreeNotes.UInt32BE` | barretenberg.js/src/note_algorithms/tree_note.ts:35-36 | `numToUInt32BE` is 4 bytes that decode to the number |
| `TreeNotes.ToBuffer` | barretenberg.js/src/note_algorithms/tree_note.ts:32-42 | the serialisation is 104 bytes plus the lengths of the three unchecked buffers |
| `TreeNotes.ToBufferLayout` | barretenberg.js/src/note_algorithms/tree_note.ts:32-42 | a well-formed note serialises to 200 bytes: value at 0..32, asset id at 32..36, nonce at 36..40, owner key at 40..104, note secret at 104..136, creator key at 136..168, nullifier at 168..200 |
| `TreeNotes.ToBufferLength` | barretenberg.js/src/note_algorithms/tree_note.ts:32-42 | a well-formed note serialises to SIZE bytes; the length is SIZE exactly when the three buffers total 96 bytes |
| `TreeNotes.SizeDoesNotImplyWellFormed` | barretenberg.js/src/note_algorithms/tree_note.ts:32-42 | a note with a 64-byte secret and an empty creator key also serialises to 200 bytes, and does not survive decoding |
| `TreeNotes.MakeAddress` | barretenberg.js/src/note_algorithms/tree_note.ts:62 | the address is built exactly when the slice is 64 bytes, and is that slice |
| `TreeNotes.ReadU32` | barretenberg.js/src/note_algorithms/tree_note.ts:58-60 | the 32-bit read succeeds exactly when four bytes remain, with their big-endian value |
| `TreeNotes.ReadValue` | barretenberg.js/src/note_algorithms/tree_note.ts:56 | with 32 bytes available, the value is their big-endian number |
| `TreeNotes.FromBuffer` | barretenberg.js/src/note_algorithms/tree_note.ts:54-70 | decoding succeeds exactly when at least 104 bytes are present; shorter buffers fail at the asset-id read, the nonce read or the address length, in source order |
| `TreeNotes.ReadTreeNote` | barretenberg.js/src/note_algorithms/tree_note.ts:54-70 | the cursor-advancing reader returns exactly what the fixed-offset decoder returns |
| `TreeNotes.FromBufferToBuffer` | barretenberg.js/src/note_algorithms/tree_note.ts:32-70 | every well-formed note decodes from its own serialisation |
| `TreeNotes.FromBufferFields` | barretenberg.js/src/note_algorithms/tree_note.ts:55-68 | on 200 or more bytes the fields are read at offsets 0, 32, 36, 40, 104, 136 and 168 |
| `TreeNotes.ToBufferFromBuffer` | barretenberg.js/src/note_algorithms/tree_note.ts:54-70 | every 200-byte string decodes to a well-formed note whose serialisation is that string |
| `TreeNotes.FromBufferIgnoresTail` | barretenberg.js/src/note_algorithms/tree_note.ts:54-70 | bytes after the first 200 do not change the decoded note |
| `TreeNotes.Empty` | barretenberg.js/src/note_algorithms/tree_note.ts:10-18 | EMPTY is well formed, has value, asset id and nonce 0, and three all-zero 32-byte buffers |
| `TreeNotes.EmptySize` | barretenberg.js/src/note_algorithms/tree_note.ts:19 | SIZE, the length of EMPTY's serialisation, is 200 |
| `TreeNotes.ViewingKeyNoteBuf` | barretenberg.js/src/note_algorithms/tree_note.ts:45-50 | the viewing-key plaintext is 40 bytes plus the creator key |
| `TreeNotes.Recover` | barretenberg.js/src/note_algorithms/tree_note.ts:116-121 | recovery succeeds exactly when 40 bytes are present; the value, asset id and nonce are the big-endian numbers at 0..32, 32..36 and 36..40; the owner key, note secret and nullifier come from the arguments unchanged, and the creator key is bytes 40..72 |
| `TreeNotes.RecoverViewingKeyNoteBuf` | barretenberg.js/src/note_algorithms/tree_note.ts:45-121 | recovering a note's viewing-key plaintext returns its value, asset id and nonce; the whole note comes back exactly when its creator key has at most 32 bytes |
| `JobQueueFrontend.Process` | sdk/src/core_sdk_flavours/job_queue/job_queue_frontend.ts:129-141 | a target matching no case returns `undefined`; an FFT job whose factory throws fails with what the factory threw |
| `JobQueueFrontend.CompletionOf` | sdk/src/core_sdk_flavours/job_queue/job_queue_frontend.ts:109-117 | no report exactly when `undefined` or `null` was thrown; a returned value is reported with an empty error; a thrown value is reported with no data, and with its message exactly when it has one |
| `JobQueueFrontend.ProcessRouting` | sdk/src/core_sdk_flavours/job_queue/job_queue_frontend.ts:129-141 | Pedersen and Pippenger jobs call their adapter with the arguments unchanged; FFT jobs take the first argument as the circuit size and pass only the rest; other targets give `undefined` |
| `JobQueueFrontend.ProcessUsesOnlyItsBackend` | sdk/src/core_sdk_flavours/job_queue/job_queue_frontend.ts:129-141 | a job's outcome depends only on the backend its target selects |
| `JobQueueFrontend.CompletionOfProcess` | sdk/src/core_sdk_flavours/job_queue/job_queue_frontend.ts:109-141 | an unknown target is reported with no data and an empty error; a Pedersen or Pippenger job loses its report exactly when its adapter throws `undefined` or `null`; an FFT job whose factory throws an error is reported with no data and that message |
| `JobQueueFrontend.HeartbeatChain` | sdk/src/core_sdk_flavours/job_queue/job_queue_frontend.ts:98-107 | heartbeat tick k is sent exactly when every earlier ping was answered with the job's own id; all ticks ping that job |
| `JobQueueFrontend.IterationShape` | sdk/src/core_sdk_flavours/job_queue/job_queue_frontend.ts:79-117 | an iteration calls `getJob` once; it completes the job it claimed, once, after pings for that job only, unless `processJob` rejects, when it completes nothing; without a job, or after a failure, it ends by sleeping |
| `JobQueueFrontend.LoopCompletesEachClaimOnce` | sdk/src/core_sdk_flavours/job_queue/job_queue_frontend.ts:79-127 | over the loop, `getJob` is called once per iteration run; the completed job ids are the claimed ids whose `processJob` did not reject, in order; with no rejection they are exactly the claimed ids |
| `JobQueueFrontend.NoClaimAfterStop` | sdk/src/core_sdk_flavours/job_queue/job_queue_frontend.ts:68-80 | once `stop()` lands in round k, later rounds change nothing, and `getJob` is called at most k + 1 times |
| `JobQueueFrontend.ProcessedLength` | sdk/src/core_sdk_flavours/job_queue/job_queue_frontend.ts:79-96 | the loop runs a prefix of the rounds, ending at the first one with a stop, or all of them if none has one |
| `JobQueueFrontend.LoopInvariantStep` | sdk/src/core_sdk_flavours/job_queue/job_queue_frontend.ts:80-95 | one iteration advances the loop specification by that round's events, and the loop goes on exactly when no stop landed in it |
| `JobQueueFrontend.InterruptableSleep.constructor` | sdk/src/core_sdk_flavours/job_queue/job_queue_frontend.ts:16-18 | a new sleeper is not sleeping, and its initial interrupt promise is already resolved |
| `JobQueueFrontend.InterruptableSleep.BeginSleep` | sdk/src/core_sdk_flavours/job_queue/job_queue_frontend.ts:20-24 | starting a sleep installs a fresh, unresolved interrupt promise |
| `JobQueueFrontend.InterruptableSleep.Interrupt` | sdk/src/core_sdk_flavours/job_queue/job_queue_frontend.ts:28-30 | `interrupt` resolves the current interrupt promise and changes nothing else |
| `JobQueueFrontend.InterruptableSleep.EndSleep` | sdk/src/core_sdk_flavours/job_queue/job_queue_frontend.ts:20-26 | the race settles on the interrupt promise, cutting the sleep short, exactly when that promise was resolved during the sleep |
| `JobQueueFrontend.InterruptIsNotRemembered` | sdk/src/core_sdk_flavours/job_queue/job_queue_frontend.ts:20-30 | an interrupt issued while nothing sleeps does not cut the next sleep short |
| `JobQueueFrontend.InterruptEndsSleep` | sdk/src/core_sdk_flavours/job_queue/job_queue_frontend.ts:20-30 | an interrupt issued during a sleep ends it before its timer |
| `JobQueueFrontend.Frontend.constructor` | sdk/src/core_sdk_flavours/job_queue/job_queue_frontend.ts:36-56 | a new frontend is not running, not subscribed, has no heartbeat timer pending, and owns a fresh sleeper |
| `JobQueueFrontend.Frontend.Start` | sdk/src/core_sdk_flavours/job_queue/job_queue_frontend.ts:62-66 | `start` registers the `new_job` listener and sets `running` |
| `JobQueueFrontend.Frontend.Stop` | sdk/src/core_sdk_flavours/job_queue/job_queue_frontend.ts:68-73 | `stop` unregisters the listener, clears `running` and interrupts the sleep |
| `JobQueueFrontend.Frontend.NotifyNewJob` | sdk/src/core_sdk_flavours/job_queue/job_queue_frontend.ts:63-77 | a notification interrupts the sleep exactly when the listener is registered |
| `JobQueueFrontend.Frontend.Ping` | sdk/src/core_sdk_flavours/job_queue/job_queue_frontend.ts:98-107 | each ping is one coordinator call; the next heartbeat is armed exactly when the coordinator answers with the same id |
| `JobQueueFrontend.Frontend.Heartbeat` | sdk/src/core_sdk_flavours/job_queue/job_queue_frontend.ts:84-107 | the timer ticks that fire while a job runs produce exactly the heartbeat chain of the specification; a timer is still armed afterwards exactly when every reply matched the job's id |
| `JobQueueFrontend.Frontend.ProcessJob` | sdk/src/core_sdk_flavours/job_queue/job_queue_frontend.ts:109-127 | `processJob` calls `completeJob` exactly once with the job's id and report, whatever `completeJob` answers; it rejects, calling nothing, exactly when the job threw `undefined` or `null` |
| `JobQueueFrontend.Frontend.SleepRound` | sdk/src/core_sdk_flavours/job_queue/job_queue_frontend.ts:88-93 | the loop's sleep is cut short exactly when `stop()` lands during it or a notification arrives while the listener is registered |
| `JobQueueFrontend.Frontend.RunIteration` | sdk/src/core_sdk_flavours/job_queue/job_queue_frontend.ts:81-94 | one loop body: arm the heartbeat, process and clear it for a job; sleep for no job, after a failed `getJob` or after a rejected `processJob`; the events are the round's specified ones |
| `JobQueueFrontend.Frontend.LoopTurn` | sdk/src/core_sdk_flavours/job_queue/job_queue_frontend.ts:80-95 | one turn of the `while` keeps the loop invariant |
| `JobQueueFrontend.Frontend.RunLoop` | sdk/src/core_sdk_flavours/job_queue/job_queue_frontend.ts:79-96 | the loop's events are the specified loop trace, it runs exactly the rounds up to the first stop, and it is still running exactly when no stop landed |
| `BridgeResolver.FindIndex` | yarn-project/falafel/src/bridge/bridge_resolver.test.ts:64-67 | finds the first entry with the given key, and none exactly when no entry has it |
| `BridgeResolver.GetBridgeConfig` | yarn-project/falafel/src/bridge/bridge_resolver.test.ts:64-67 | returns a configured entry with the given key, and none exactly when the key is not configured |
| `BridgeResolver.GetBridgeConfigOfEntry` | yarn-project/falafel/src/bridge/bridge_resolver.test.ts:64-67 | with distinct keys, looking up an entry's key returns that entry |
| `BridgeResolver.GetBridgeConfigs` | yarn-project/falafel/src/bridge/bridge_resolver.test.ts:69-71 | returns the configured list unchanged and in order |
| `BridgeResolver.GetFullBridgeGas` | yarn-project/falafel/src/bridge/bridge_resolver.test.ts:73-77 | the configured gas for a known bridge; the blockchain's figure otherwise, whatever the third-party flag |
| `BridgeResolver.CeilDiv` | yarn-project/falafel/src/bridge/bridge_resolver.test.ts:79-85 | `Math.ceil(a / b)` is the least q with q * b >= a |
| `BridgeResolver.GetMinBridgeTxGas` | yarn-project/falafel/src/bridge/bridge_resolver.test.ts:79-102 | a known bridge's gas divided among its transactions, rounded up; an unknown bridge's blockchain gas divided by the default batch size when third-party contracts are allowed, else the error 'Cannot get gas. Unrecognised DeFi-bridge' |
| `BridgeResolver.CeilDivExact` | yarn-project/falafel/src/bridge/bridge_resolver.test.ts:92-94 | when the division is exact, rounding up gives the plain quotient |
| `BridgeResolver.MinBridgeTxGasExact` | yarn-project/falafel/src/bridge/bridge_resolver.test.ts:87-95 | for an unknown bridge whose gas divides by the batch size, the result is the plain quotient |
| `BridgeResolver.MinBridgeTxGasOfZero` | yarn-project/falafel/src/bridge/bridge_resolver.test.ts:13-18 | a configured bridge with zero gas needs zero gas per transaction |
| `BridgeResolver.TestKeysDistinct` | yarn-project/falafel/src/bridge/bridge_resolver.test.ts:6-37 | the test list's keys 1 to 5 are distinct |
| `BridgeResolver.TestLookups` | yarn-project/falafel/src/bridge/bridge_resolver.test.ts:64-67 | each test key looks up its own entry |
| `BridgeResolver.TestMinGas` | yarn-project/falafel/src/bridge/bridge_resolver.test.ts:79-85 | the test list's per-transaction figures are 100000, 0, 12500, 6250 and 33334 |
| `BridgeResolver.TestThirdParty` | yarn-project/falafel/src/bridge/bridge_resolver.test.ts:73-102 | for the unconfigured bridges of the tests: full gas 200000, min gas 10000 when allowed, the error when not |

## Left out

- `createViewingKey`, `createFromEphPriv` and `createFromEphPub` are left out. They are elliptic-curve work and key derivation. Only the plaintext layout `createViewingKey` builds is modelled (`ViewingKeyNoteBuf`).
- `GrumpkinAddress`, `toBufferBE`, `toBigIntBE` and `numToUInt32BE` are not part of this model. They are modelled as big-endian encodings of fixed width.
- `GrumpkinAddress.one()` is a parameter of `Empty`, because its bytes are not part of this model.
- The `GrumpkinAddress` constructor is assumed to reject buffers that are not 64 bytes. So `fromBuffer` fails when fewer than 64 bytes follow offset 40.
- `toBigIntBE` on an empty slice is modelled as 0. The model does not report a separate error for it, and every such buffer fails at the following `readUInt32BE` anyway.
- `TreeNote.value` is typed below 2^256, and `assetId` and `nonce` below 2^32. Values `toBufferBE` cannot hold, and numbers `numToUInt32BE` would reject, are outside the model's types.
- `LATEST_VERSION` is a constant that nothing in the core uses.
- Node's `buf.slice` returns a view that shares memory with `buf`, so the buffers of a note decoded by `fromBuffer` or `recover` alias the input buffer. The model's byte strings are values, so later writes through either buffer are not modelled.
- Real timers, `Promise.race`, the 1000 ms fetch and ping intervals, and the `debug` logging are left out. Time is abstract: a sleep ends by its timer or by an interrupt.
- `Frontend.Ping`: the ping and the coordinator's answer are one atomic step. So the race is excluded in which a ping sent before the `clearTimeout` at line 86 re-arms a timer after the job finished. The model proves nothing about that race.
- `Frontend.Heartbeat`: every heartbeat tick of a job is placed before its `completeJob` call. Ticks that interleave with the `completeJob` request are not modelled.
- `Frontend.Start`: this sets the flags only. `RunLoop` is the loop that `start` begins. `stop`'s `await this.runningPromise` is modelled as `RunLoop` returning.
- `Frontend.ProcessJob`: the `completeJob` answer is an input with no effect. A failure is logged and swallowed, and logging is not modelled. A thrown object whose `message` is not a string is treated as having a string message.
- `init` (CRS loading into the Pippenger client), the Pedersen, Pippenger and FFT kernels, and their job-queue client wrappers are left out. Their calls are function inputs that return a value or throw.
- The `JobQueue` coordinator is not part of this model, and neither is its lease bookkeeping. Only the answers it gives to `getJob`, `ping` and `completeJob` are modelled.
- The `JobQueueTarget` enumeration is not part of this model. `OtherTarget` stands for any value that matches no case.
- `GetMinBridgeTxGas`: for an unknown bridge whose gas does not divide by the batch size, the tests pin nothing. The model rounds up, as it does for known bridges. The bridge resolver implementation is not part of this model.
- `BridgeResolver.GetMinBridgeTxGas`: `numTxs` and the default batch size are typed positive. A zero divisor, which JavaScript turns into `Infinity` or `NaN`, is outside the model's types.
- `getBridgeGas` is modelled as one figure, independent of the bridge call data, as the tests mock it. `rollupFrequency` is carried but not used.
- `sdk/src/database/database.ts` is an asynchronous persistence interface with no behaviour.
- `yarn-project/blockchain/src/deploy/deployers/deploy_faucet.ts` is contract deployment and console I/O.
- The jest mocks and the `console.log` spying in the bridge test are left out.
