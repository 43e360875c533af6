# node-ocgcore core, modelled in Dafny

The repository binds a native card-game duel engine to Node. This model covers its three pieces of logic of its own:

- **Seed-array codec** (`src/helpers/seed-array.ts`, module `SeedArray`, file `seed_array.dfy`).
  `createSeedArray` packs a list of unsigned 32-bit seeds into a `Buffer`, one little-endian word per seed, in input order.
  `readSeedArray` reads `count` words back.
  Both are imperative methods over `array<byte>` with loop invariants. They are proved against the functions `Encode` and `Decode`.
  The lemmas about `Encode` and `Decode` cover length, byte placement, locality, prefix decoding and the round trip in both directions.
  Node's `writeUInt32LE` and `readUInt32LE` throw a `RangeError` for a value outside `[0, 2^32)` or a read past the end of the buffer.
  Those throws are modelled as `Failure` results, not as preconditions.
- **Call-interception emitter** (`src/events/ocgcore-emitter.ts`, module `CoreEmitter`, file `ocgcore_emitter.dfy`).
  The class `OCGCoreEmitter` holds the wrapped core object, the event emitter's listener registry and a trace of every `emit` and every native call.
  `Get` is the proxy's `get` trap. `Invoke` is a call of the wrapper that `get` returns for a function member.
  `DispatchTrace` is the five steps that one call appends: two emissions, the native call, two emissions.
  `InvokeAll` makes a series of such calls, and its trace is `SessionTrace`.
  The lemmas state the event order, the exactly-one-pair property for single calls and for whole series of calls, payload pass-through, and the topic of each registration helper.
- **Card record** (`src/struct/CardData.ts`, module `CardStruct`, file `card_data.dfy`).
  `createCardData` fills every absent field with 0 and an absent `setcode` with sixteen zeros.
  It is checked against an independent field-wise rule (`Resolve`) and against the struct layout (`CardDataLayout`).

`wrappers.dfy` holds `Option` and `Result`.

`createSeedArray([])` gives an empty buffer, and `RoundTrip` covers the empty list.
The generic topic is always emitted before the per-member topic (`src/events/ocgcore-emitter.ts` lines 45-46, 58-59 and 64-71).

A member named `call` would make `before:<name>` equal `before:call`, so its generic listeners would fire twice per call (`CallMemberCollides`).
None of the twenty members of the binding table has that name (`CoreMembersNotCall`).
The counting lemmas `DispatchCounts` and `SessionCounts` therefore assume `name != "call"`.

## Model

| member | source | states |
|---|---|---|
| `SeedArray.UnLE32OfLE32` | src/helpers/seed-array.ts:21 | reading back the four little-endian bytes of a uint32 gives the value written |
| `SeedArray.LE32OfUnLE32` | src/helpers/seed-array.ts:37 | re-encoding the word read from any four bytes gives the same four bytes |
| `SeedArray.EncodeLength` | src/helpers/seed-array.ts:17 | the buffer has exactly 4 bytes per seed, and it is empty exactly when there are no seeds |
| `SeedArray.EncodeAppend` | src/helpers/seed-array.ts:20-22 | the encoding of a concatenation is the concatenation of the encodings (seeds are written in input order) |
| `SeedArray.EncodeAt` | src/helpers/seed-array.ts:20-22 | bytes 4k..4k+3 are the little-endian word of seed k |
| `SeedArray.EncodeLocal` | src/helpers/seed-array.ts:20-22 | changing seed k changes no byte outside 4k..4k+3 |
| `SeedArray.LittleEndianExample` | src/helpers/seed-array.ts:21 | 0x01020304 is stored lowest byte first as 04 03 02 01, and 0xFFFFFFFF as four 255s |
| `SeedArray.FirstNonUint32` | src/helpers/seed-array.ts:20-21 | locates the first seed outside [0, 2^32); every earlier seed is in range |
| `SeedArray.DecodeAt` | src/helpers/seed-array.ts:36-38 | decoding gives exactly count values, value i being the word at offset 4i |
| `SeedArray.DecodeOfPrefix` | src/helpers/seed-array.ts:36-38 | decoding count words reads only the first 4 * count bytes |
| `SeedArray.DecodeEncodePrefix` | src/helpers/seed-array.ts:36-38 | decoding the first k words of an encoding gives the first k seeds |
| `SeedArray.RoundTrip` | src/helpers/seed-array.ts:15-40 | decoding all words of the encoding gives the seeds back, for every list of uint32 values |
| `SeedArray.EncodeDecode` | src/helpers/seed-array.ts:15-40 | encoding the decoded words gives back exactly the first 4 * count bytes of the buffer |
| `SeedArray.WriteUInt32LE` | src/helpers/seed-array.ts:21 | the Buffer write fails on an out-of-range value or offset and changes nothing; otherwise it stores the value's four bytes at the offset and leaves all other bytes alone |
| `SeedArray.ReadUInt32LE` | src/helpers/seed-array.ts:37 | the Buffer read fails exactly when the four bytes do not fit; otherwise it returns the word at the offset |
| `SeedArray.CreateSeedArray` | src/helpers/seed-array.ts:15-25 | succeeds exactly when every seed is a uint32, failing with the first bad seed; on success the buffer has 4 * \|seeds\| bytes equal to `Encode(seeds)` |
| `SeedArray.ReadSeedArray` | src/helpers/seed-array.ts:33-41 | succeeds exactly when 4 * count fits the buffer, failing at offset 4 * (length / 4); a count of 0 or less reads nothing; on success it returns `Decode` of the buffer |
| `CardStruct.Fields` | src/struct/CardData.ts:7-20 | lists a record's twelve fields in struct order; only the setcode slot holds an array |
| `CardStruct.CreateCardData` | src/struct/CardData.ts:43-58 | the result's setcode has length 16 exactly when the input had none or had one of length 16 (no length check) |
| `CardStruct.CreateCardDataFieldwise` | src/struct/CardData.ts:45-56 | each output field is its input field if present, else the zero of its type (0, or sixteen zeros for setcode) |
| `CardStruct.SuppliedFieldKept` | src/struct/CardData.ts:45-56 | a supplied field, an explicit 0 included, is copied unchanged |
| `CardStruct.AbsentFieldZero` | src/struct/CardData.ts:45-56 | an absent field becomes the zero of its type |
| `CardStruct.FieldsIndependent` | src/struct/CardData.ts:45-56 | two inputs that agree except on field i give outputs that agree except on field i |
| `CardStruct.DefaultCardData` | src/struct/CardData.ts:43-57 | with no argument every scalar is 0, setcode is sixteen zeros, and the record fits the struct |
| `CardStruct.CreateCardDataConforms` | src/struct/CardData.ts:43-57 | the result fits the struct's native field types exactly when every supplied field already does |
| `CardStruct.FieldOrder` | src/struct/CardData.ts:7-20 | the record has the twelve declared fields in struct order, and setcode is a 16-element uint16 array |
| `CoreEmitter.TopicsDistinct` | src/events/ocgcore-emitter.ts:45-68 | for a member not named `call`, the six topics of a dispatch are pairwise distinct |
| `CoreEmitter.CallMemberCollides` | src/events/ocgcore-emitter.ts:45-59 | for a member named `call`, the per-member before and after topics equal the generic ones |
| `CoreEmitter.CoreMembersNotCall` | src/index.ts:115-136 | no member of the binding table is named `call` |
| `CoreEmitter.AddListener` | src/events/ocgcore-emitter.ts:85-115 | `on` appends the listener to exactly its topic, with no deduplication, and leaves every other topic unchanged |
| `CoreEmitter.AddListenerTwice` | src/events/ocgcore-emitter.ts:85-86 | two registrations on one topic are both kept, in registration order |
| `CoreEmitter.DispatchOrder` | src/events/ocgcore-emitter.ts:45-73 | a dispatch is `before:call`, `before:<name>`, then the native call with the caller's arguments, then the after pair exactly when the call returned or the error pair exactly when it threw, never both and never neither |
| `CoreEmitter.DispatchPayloads` | src/events/ocgcore-emitter.ts:38-71 | every payload carries the member name, the caller's arguments and the timestamp; both before payloads are the call event; the after payloads are the call event plus the returned value, and the error payloads the call event plus the thrown one; every emission notifies its topic's listeners in registration order |
| `CoreEmitter.DispatchCounts` | src/events/ocgcore-emitter.ts:45-73 | one dispatch puts one emission on `before:call` and one on `after:call` or on `error`, as the call ended, and makes exactly one native call, with the caller's arguments |
| `CoreEmitter.SessionCounts` | src/events/ocgcore-emitter.ts:37-73 | over any series of calls, the trace gains 5 steps per call; the native calls are the requested ones, each once and in order, with their arguments; `before:call` fires once per call; `after:call` fires once per call that returned and `error` once per call that threw |
| `CoreEmitter.InvokeAll` | src/events/ocgcore-emitter.ts:37-74 | a series of wrapper calls appends exactly `SessionTrace` to the emitter's trace and returns each underlying call's own outcome |
| `CoreEmitter.OCGCoreEmitter.constructor` | src/events/ocgcore-emitter.ts:21-24 | a new emitter wraps the given core with no listeners and an empty trace |
| `CoreEmitter.OCGCoreEmitter.Get` | src/events/ocgcore-emitter.ts:33-77 | a function member yields a wrapper; any other member yields its raw value, and an absent one `undefined`; reading emits nothing |
| `CoreEmitter.OCGCoreEmitter.Emit` | src/events/ocgcore-emitter.ts:45 | appends one entry (topic, payload, the topic's current listeners in order) to the trace, leaves the registry alone, and reports whether the topic had listeners |
| `CoreEmitter.OCGCoreEmitter.Invoke` | src/events/ocgcore-emitter.ts:37-74 | returns or re-throws the underlying call's own outcome on the caller's arguments, and appends exactly that call's dispatch trace: the before pair, the native call, then the after or error pair; the core and the registry are unchanged |
| `CoreEmitter.OCGCoreEmitter.On` | src/events/ocgcore-emitter.ts:86 | adds the listener to its topic and returns the emitter itself |
| `CoreEmitter.OCGCoreEmitter.OnBeforeCall` | src/events/ocgcore-emitter.ts:85-87 | registers on `before:call` only and returns the emitter |
| `CoreEmitter.OCGCoreEmitter.OnAfterCall` | src/events/ocgcore-emitter.ts:92-94 | registers on `after:call` only and returns the emitter |
| `CoreEmitter.OCGCoreEmitter.OnBeforeMethod` | src/events/ocgcore-emitter.ts:99-101 | registers on `before:<name>` only and returns the emitter |
| `CoreEmitter.OCGCoreEmitter.OnAfterMethod` | src/events/ocgcore-emitter.ts:106-108 | registers on `after:<name>` only and returns the emitter |
| `CoreEmitter.OCGCoreEmitter.OnError` | src/events/ocgcore-emitter.ts:113-115 | registers on `error` only and returns the emitter |

## Left out

- CoreEmitter.OCGCoreEmitter.Invoke: Node's event emitter throws when `error` is emitted with no `error` listener. In that case the caller would see that throw, not the original error, and `error:<name>` would not fire. The model assumes this does not happen: it always records both error emissions and re-throws the original error.
- CoreEmitter.OCGCoreEmitter.Emit: for `error` with no listener, Node's `emit` throws `ERR_UNHANDLED_ERROR`. The model instead records the emission and returns `false`.
- CoreEmitter.OCGCoreEmitter.Emit: listeners are identifiers and are never run. What a listener does, and any exception it raises, is not modelled. The trace records which listeners each emit would call, in registration order.
- CoreEmitter.OCGCoreEmitter.On: the event emitter's `newListener` event and its max-listeners warning are library behaviour and are not modelled.
- CoreEmitter.OCGCoreEmitter.Invoke: the `Date.now()` timestamp is the parameter `now`. The underlying call's `this` binding is not modelled: a member's function sees only its arguments.
- CoreEmitter.OCGCoreEmitter.Get: every `get` returns a fresh wrapper function. The model does not capture the identity of those wrappers, and it models no proxy trap other than `get`.
- CoreEmitter.OCGCoreEmitter.constructor: takes the core object as given. Loading the native library (`ocgCore` in `src/index.ts`: file-system checks, `koffi.load`, the `lib.func` table) is I/O and foreign binding.
- CoreEmitter.Value: host values are a small datatype. Arguments and results are values, so a buffer argument the native call writes into is not modelled as shared memory.
- SeedArray.CreateSeedArray: seeds are integers. Node's handling of fractional or non-numeric seed values is not modelled. The partly written buffer left behind by a throw is unreachable, so the model returns only the error.
- SeedArray.ReadSeedArray: count is an integer. A fractional count is not modelled.
- CardStruct.CreateCardData: a supplied `setcode` array is returned by reference in the host, so a later change to either array shows in both. The model's `setcode` is a sequence value and does not capture that sharing.
- CardStruct.CardData: numbers are unbounded integers. `createCardData` does no range checks, and `CreateCardDataConforms` states when the result fits the native types. The `koffi.struct` byte layout and padding are foreign marshalling: only field order, field types and the 16-element `setcode` array are recorded.
- `src/types/ocgcore.d.ts` contributes only the member names listed in `CoreEmitter.CoreMembers`.
- The native duel engine is opaque. Each callable member is an arbitrary function from arguments to a returned or thrown value.
