# up-rpc core, modelled in Dafny

up-rpc is a desktop gRPC client: an Electron app makes gRPC calls for a web UI
that edits requests and shows responses. This project models the four parts of
it that can be stated exactly, and proves properties of them.

- **Call sessions** (`calls.dfy`, module `Calls`). This is the app's registry
  of service stubs and open streaming calls. `GetCallStub` caches one stub per
  service name and reuses it while the host stays the same. `Call` dispatches
  each call mode to its own strategy. The client-streaming and bidirectional
  strategies reuse the call registered under the request id, or open one call
  and register it. A terminal status event and `CloseCall` end or cancel the
  call and remove the entry. The transport is abstract: a call is a handle,
  each handle keeps counters of the `end()` and `cancel()` calls it received,
  and each invocation of the request's callback is logged as a `Notice`;
  `CloseCall` returns its error as a result instead. The gRPC events are
  explicit methods: `OnData`, `OnResponse` and `OnStatus`.
- **Binary metadata codec** (`metadata.dfy`, module `Metadata`, built on
  `bytes.dfy`). `encode` writes a value into a 16-byte buffer through the
  DataView setter its parse type selects. `decode` reads the value back from
  offset 0 through the matching getter. Integers are exact byte arithmetic:
  widths 1, 2, 4 and 8, two's complement or unsigned, little- or big-endian,
  with JavaScript's wrap-around on store. Floats are kept as uninterpreted bit
  patterns.
- **Request and response caches** (`proto_store.dfy`, class
  `ProtoStore.Store`). These are three maps keyed by method id: request
  streams, response caches and running flags. Streams hold the newest body
  first.
- **Response panel logic** (`response.dfy`, module `Response`). This covers:
  - `convertValue`, a second decoder that knows only nine formats;
  - the "-bin" key test that decides whether a metadata value is decoded;
  - `BufferValue.convert`, which shows a placeholder when no parse type is set;
  - `handleChange`, which records a chosen parse type on the method record
    (class `Response.MethodRecord`).

`types.dfy` holds the call modes and `wrappers.dfy` holds `Option`.

Decisions where the code itself shows two readings:

- **Stub cache key.** The stub cache is keyed by the service name alone, and
  the model keys it the same way.
- **Empty namespace.** `loadService` has a separate branch for an empty
  namespace, which shows that a service at the root is meant to be found
  there. The branch reads the root member named "" instead (a finding below).
  `Calls.Lookup` takes the service named by the request from the root.
- **Closing a missing id.** `closeCall` has an else-branch that reports
  "This request not exist: " + id. That shows an error is intended for an id
  with no entry. The code destructures the missing entry first, which throws
  before that branch can run. `Calls.Registry.CloseCall` returns the error text.

The definition of `Mode.isWriteStream` is not part of this model. It is taken
to hold for the client-streaming and bidirectional modes.

A `Number(n)` value stands for a JavaScript number holding an integer exactly,
that is |n| <= 2^53. The codec's "every integer" lemmas are meant for those
integers and for BigInts.

## Model

| member | source | states |
|---|---|---|
| Metadata.AccessorOf | uprpc-web/src/utils/metadata.ts:7-66 | every listed parse type selects a well-formed DataView accessor; an unlisted one selects none. Each accessor has the width its name promises (the aliases one byte), the byte order its LE/BE suffix names, float kind exactly for the Float and Double names, and unsigned kind exactly for the Uint names, except that BigUint64BE gets the signed accessor |
| Metadata.Get | uprpc-web/src/utils/metadata.ts:72-112 | a getter at offset 0 fails with a RangeError exactly when the view is shorter than the accessor's width |
| Metadata.Set | uprpc-web/src/utils/metadata.ts:7-66 | a setter fails with a TypeError exactly when a Number goes to a BigInt setter or the reverse; otherwise the buffer keeps its length and every byte past the width |
| Metadata.EncodeView | uprpc-web/src/utils/metadata.ts:3-67 | the encoded view is 16 bytes; bytes from the format's width on are zero; an unlisted format leaves all 16 bytes zero; the TypeError condition |
| Metadata.Encode | uprpc-web/src/utils/metadata.ts:3-68 | the method allocates a fresh 16-byte array and leaves in it exactly the bytes EncodeView describes, or reports the TypeError |
| Metadata.Decode | uprpc-web/src/utils/metadata.ts:70-115 | decode fails with a RangeError exactly when a listed format's width exceeds the view; an unlisted format gives text |
| Metadata.DecodeAfterEncode | uprpc-web/src/utils/metadata.ts:8-112 | for every integer format and every integer, decoding the encoded view gives the integer wrapped to the accessor's width and signedness |
| Metadata.RoundTrip | uprpc-web/src/utils/metadata.ts:13-110 | for every integer format except BigUint64BE and every value in the range its name promises (width from the name's bit count, sign from Int/Uint), decode(encode(v, f), f) == v |
| Metadata.EncodeAfterDecode | uprpc-web/src/utils/metadata.ts:70-112 | re-encoding a decoded integer reproduces the first width bytes it was read from |
| Metadata.DecodeReadsPrefix | uprpc-web/src/utils/metadata.ts:71-112 | decode reads from offset 0 only: two views that agree on the first width bytes decode alike |
| Metadata.LittleEndianLayout | uprpc-web/src/utils/metadata.ts:13-14 | each integer format named LE of width 2, 4 or 8 stores the little-endian bytes of the value modulo 256^w, with the least significant byte at offset 0 |
| Metadata.ByteOrdersAreReversed | uprpc-web/src/utils/metadata.ts:13-17 | each big-endian format of width 2, 4 or 8 stores the reverse of its little-endian twin's bytes |
| Metadata.AliasesAreSingleByte | uprpc-web/src/utils/metadata.ts:8-11 | IntLE, IntBE and Int8 encode and decode one signed byte; UintLE, UintBE and Uint8 encode and decode one unsigned byte |
| Metadata.BigUint64BEDecodesSigned | uprpc-web/src/utils/metadata.ts:111-112 | BigUint64BE gives back v for v < 2^63 and v - 2^64 from 2^63 up |
| Metadata.BigUint64BERoundTripFails | uprpc-web/src/utils/metadata.ts:63-64 | 2^63 is in BigUint64BE's range and does not survive the round trip |
| Metadata.UnlistedDecodesToPlaceholder | uprpc-web/src/utils/metadata.ts:113-114 | an unlisted format decodes to "[Buffer ... N bytes]", whose digits parse back to the view's length |
| Metadata.IntendedAccessorOf | uprpc-web/src/utils/metadata.ts:111-112 | the corrected table differs from the code's only for BigUint64BE, which reads through the unsigned 64-bit getter |
| Metadata.IntendedRoundTrip | uprpc-web/src/utils/metadata.ts:63-112 | with the corrected table the stored bytes are unchanged and every integer format, BigUint64BE included, round-trips across its range |
| Response.ConvertAccessor | uprpc-web/src/pages/components/Response.tsx:102-123 | each of the nine formats convertValue lists reads through the same accessor decode uses |
| Response.ConvertAgreesWithDecodeExactlyOnListed | uprpc-web/src/pages/components/Response.tsx:102-124 | over the value's own bytes (ConvertValue), convertValue and decode agree if and only if the format is one of the nine listed; on every other format convertValue gives the fixed text |
| Response.ConvertReadsSignedIntegers | uprpc-web/src/pages/components/Response.tsx:105-114 | over the value's own bytes (ConvertValue), Int8, Int16LE/BE and Int32LE/BE give the two's-complement value of bytes 0..w-1 in the stated byte order |
| Response.ConvertValue | uprpc-web/src/pages/components/Response.tsx:102-125 | over the value's own bytes, convertValue fails with a RangeError exactly when a listed format is wider than the value, and gives the fixed text "翻译过" for every format it does not list |
| Response.ConvertValueAsWritten | uprpc-web/src/pages/components/Response.tsx:103 | as written, the DataView constructor throws a TypeError exactly when the value is a typed array; on a bare ArrayBuffer it reads as ConvertValue does |
| Response.ConvertThrowsOnTypedArray | uprpc-web/src/pages/components/Response.tsx:103 | on a typed array, which decode reads, convertValue as written throws for every parse type |
| Response.BufferConvert | uprpc-web/src/pages/components/Response.tsx:89-94 | with no parse type the cell shows decode's placeholder with the value's length; otherwise it shows convertValue's result |
| Response.IsBinaryKey | uprpc-web/src/pages/components/Response.tsx:57 | the key test holds if and only if the key is some text followed by "-bin" |
| Response.ValueCell | uprpc-web/src/pages/components/Response.tsx:56-62 | a value is rendered as a decodable buffer if and only if its key ends in "-bin", which must carry bytes; any other value, bytes included, is shown raw |
| Response.MethodRecord.HandleChange | uprpc-web/src/pages/components/Response.tsx:17-22 | a null responseMds becomes []; exactly one {id, key, parseType} is appended to requestMds when that list exists; name and body are unchanged |
| ProtoStore.Store.constructor | uprpc-web/src/stores/proto.ts:11-14 | the three maps start empty, and the invariant holds |
| ProtoStore.Store.OnEndStream | uprpc-web/src/stores/proto.ts:27-29 | running[id] becomes false and nothing else changes; the cache invariant is kept |
| ProtoStore.Store.OnResponse | uprpc-web/src/stores/proto.ts:33-48 | the first response creates {body, metadata, [body]}; a later one prepends its body and keeps body and metadata; an entry with a null stream is left alone; the invariant is kept, and under it the entry's stream starts with the new body and ends with the entry's body |
| ProtoStore.Store.RemoveCache | uprpc-web/src/stores/proto.ts:80-85 | the id leaves all three maps and every other id is untouched |
| ProtoStore.Store.Push | uprpc-web/src/stores/proto.ts:87-101 | a first push creates the stream [body]; a later push prepends the body, so the stream grows by one; a missing stream stays missing; under the invariant the stream is never missing, starts with the body and grows by exactly one |
| ProtoStore.Store.Send | uprpc-web/src/stores/proto.ts:71-78 | afterwards the id's request stream is exactly [body], it has no response, and running[id] is true if and only if the mode is not Unary |
| ProtoStore.Store.StopStream | uprpc-web/src/stores/proto.ts:103-107 | running[id] becomes false and the other maps are unchanged |
| ProtoStore.NewestFirstScenario | uprpc-web/src/stores/proto.ts:71-98 | after a send and two pushes the request stream is [c, b, a]; two responses give body x and stream [y, x]; the next send leaves the stream [d], no response, and the id running |
| Calls.LookupAsWritten | uprpc-app/src/grpc/calls.ts:59-66 | the code's lookup finds a service exactly when the root member named by the namespace is one (for an empty namespace, the member ""), or the namespace holds a service of that name; the service returned is the one at that path |
| Calls.Lookup | uprpc-app/src/grpc/calls.ts:61-65 | the corrected lookup finds a service exactly when the path resolves: at the root for an empty namespace, under the namespace otherwise; the service returned is the one at that path; it agrees with the code for a non-empty namespace |
| Calls.EmptyNamespaceFindsNothing | uprpc-app/src/grpc/calls.ts:61-62 | with an empty namespace the code's lookup misses a service at the root, which the corrected lookup finds |
| Calls.WiringFor | uprpc-app/src/grpc/calls.ts:93-138 | unary and server-streaming calls send exactly the request body first and the writing modes send nothing; only non-unary calls listen for status; server-streaming and bidirectional calls listen for data; all but bidirectional calls pass the response callback |
| Calls.StatusNotice | uprpc-app/src/grpc/calls.ts:155-158 | code 0 reports the trailing metadata and no error, any other code reports the details as the error; both close the stream |
| Calls.Registry.constructor | uprpc-app/src/grpc/calls.ts:6-7 | both tables start empty and no call is open |
| Calls.Registry.RegisteredStreamsAreUnique | uprpc-app/src/grpc/calls.ts:112-120 | when every open writing call is the one registered for its id, at most one writing call is open per id |
| Calls.Registry.GetCallStub | uprpc-app/src/grpc/calls.ts:21-37 | the cached stub is returned exactly when one exists under the service name with the request's host; otherwise a new client is built and overwrites that entry, or loading or lookup fails and nothing changes |
| Calls.Registry.Call | uprpc-app/src/grpc/calls.ts:76-91 | each mode runs its own strategy; unary and server-streaming calls leave callCache unchanged and open nothing for a body JSON.parse rejects; the writing modes reuse the registered call without opening one, or open exactly one and register {methodMode, call}; a missing method leaves callCache unchanged in every mode; the registry invariants are kept |
| Calls.Registry.MakeUnaryCall | uprpc-app/src/grpc/calls.ts:93-98 | a body JSON.parse rejects gives BadBody and opens nothing; otherwise one call is opened whose first message is the request body and whose metadata is the request's, with no status or data listener, or none for a missing method; callCache is unchanged |
| Calls.Registry.MakeServerStreamCall | uprpc-app/src/grpc/calls.ts:100-108 | a body JSON.parse rejects gives BadBody and opens nothing; otherwise one call is opened whose first message is the request body and whose metadata is the request's, with status and data listeners, or none for a missing method; callCache is unchanged |
| Calls.Registry.MakeClientStreamCall | uprpc-app/src/grpc/calls.ts:110-123 | reuses callCache[id] without opening a call, or opens exactly one and registers it under the id |
| Calls.Registry.MakeBidirectionalStreamCall | uprpc-app/src/grpc/calls.ts:125-138 | the same reuse-or-open-and-register behaviour, and the call is opened with metadata only |
| Calls.Registry.CloseCall | uprpc-app/src/grpc/calls.ts:39-47 | a registered call receives exactly one end() and its entry is removed; an absent id gives "This request not exist: " + id and touches no transport |
| Calls.Registry.OnData | uprpc-app/src/grpc/calls.ts:140-147 | a data event is passed to the callback exactly when the call listens for data and has a callback |
| Calls.Registry.OnResponse | uprpc-app/src/grpc/calls.ts:69-74 | the response goes to the callback with the error's metadata and the error itself |
| Calls.Registry.OnStatus | uprpc-app/src/grpc/calls.ts:149-162 | the outcome is reported, the call is ended (writing mode) or cancelled, and callCache no longer holds the request's id |
| Calls.Registry.OnStatusOwnEntry | uprpc-app/src/grpc/calls.ts:153-162 | the corrected listener removes the entry only while it holds this call, and keeps at most one open writing call per id |
| Calls.ReuseThenReopen | uprpc-app/src/grpc/calls.ts:112-161 | three client-streaming pushes on one id open one call; its status ends it and removes the entry; the next push opens a fresh call |
| Calls.StaleStatusDropsNewerEntry | uprpc-app/src/grpc/calls.ts:161 | close, push again, then the first call's status: a further push leaves two open writing calls for the same id |
| Calls.StaleStatusWithOwnEntry | uprpc-app/src/grpc/calls.ts:161 | the same sequence with the corrected listener keeps one open call, which the further push reuses |

## Left out

- The gRPC library is not modelled: proto loading, building the package definition, credentials and constructing a service client. `GetCallStub` takes the loaded definition as a parameter, with None meaning the load failed.
- `parseMetadata` and `parseMds` are not part of this model. Metadata passes through them unchanged.
- The event emitter runs events one at a time, as explicit method calls. The "error" listener only logs, so it is left out, and so is console logging.
- A missing method name makes the code throw a TypeError. The model returns `NoSuchMethod` and opens nothing.
- JSON parsing is not modelled. Whether `JSON.parse` accepts a request body is the `bodyIsJson` parameter of `Call`, `MakeUnaryCall` and `MakeServerStreamCall`, and a rejected body is the `BadBody` result.
- Calls.Registry.GetCallStub: uses the corrected Lookup. With an empty namespace it returns a stub for a service at the root, where the code finds nothing and throws.
- Calls.Registry.OnResponse: the code's unary callback wrapper calls the callback even when none was given, which throws. The model records no notice in that case.
- Calls.WiringFor: for a server-streaming call the code passes the callback wrapper as the stub's third argument, which is the options slot of `(argument, metadata, options)`, so the library never calls it. The model still marks such a call as having a response callback, so `OnResponse` can record notices for server-streaming calls that never occur.
- `callCache` and `clientCaches` are plain JavaScript objects in the code, so an id such as "constructor" or "toString" finds an inherited prototype member. The model uses maps with no such keys: for those ids it opens and registers a call where the code takes the inherited function as the registered call.
- Calls.Registry.CloseCall: the code throws on an absent id before its error branch runs. The model returns the error text instead.
- Float32 and Float64 values are bit patterns of their width. Conversion between a JavaScript number and an IEEE value is not modelled, so NaN canonicalisation and rounding are missing too.
- Metadata.Set: `Settable`/`Encodable` exclude a float given to an integer setter, a BigInt given to setFloat32 or setFloat64 (a TypeError in JavaScript), and a string given to any setter. JavaScript's coercions and errors for them are not modelled.
- ConvertAgreesWithDecodeExactlyOnListed: it is stated about ConvertValue, which views the value's own bytes. On the typed arrays decode reads, convertValue as written throws a TypeError before its switch (a finding below), so as written no value is read by both decoders.
- ConvertReadsSignedIntegers: the same. Its closed forms hold for ConvertValue, and for convertValue as written only on a bare ArrayBuffer.
- The metadata values the app hands to the panel are assumed to be bytes for every "-bin" key (`ValueCell` requires this). Bytes under another key are shown raw.
- Response.BufferConvert: uses the corrected ConvertValue. As written, any chosen parse type makes convertValue throw a TypeError on the typed array the cell holds (Response.tsx:103). ValueCell's `shown` inherits this, so for a "-bin" key with a parse type it shows a read where the code throws.
- `handleChange` passes a shallow copy of the method to `onChange`. That is a UI callback and is left out.
- The store's `unshift` mutates the stream array in place. The model replaces it with a new sequence, which is the same contents without the sharing.
- IPC (`window.rpc`), MobX observability and generator plumbing are left out. So are `getProtos`, `importProto`, `reloadProto`, `deleteProto` and `save`, which only forward to IPC.
- `Request.tsx` and all rendering (widgets, tabs, the parse-type menu) are left out.
- The numeric values of `ParseType` are not part of this model. The 22 names plus `Unlisted` stand for them, and `Unlisted` covers any other number and null.

## Findings

| source | as written | input that shows it | evidently intended | confidence | as-written member | corrected member |
|---|---|---|---|---|---|---|
| uprpc-web/src/utils/metadata.ts:111-112 | BigUint64BE is written with setBigInt64 and read with getBigInt64 | the BigInt 2^63 encodes as 80 00 .. 00 and decodes to -2^63 | read and write through the unsigned 64-bit accessors, as BigUint64LE does | high that it is unintended; not executed | Metadata.BigUint64BERoundTripFails | Metadata.IntendedRoundTrip |
| uprpc-app/src/grpc/calls.ts:61-62 | with an empty namespace the service is taken from the root member named "" | a definition whose root holds the service "Greeter", namespace "", service "Greeter": nothing is found, and constructing it throws | take the service from the root member named by the service name | high; not executed | Calls.EmptyNamespaceFindsNothing | Calls.Lookup |
| uprpc-app/src/grpc/calls.ts:161 | the status listener deletes callCache[request.id] whichever call the entry holds | client-streaming id "s": push, closeCall("s"), push again, then the first call's status arrives; the next push opens a third call while the second is still open | delete the entry only while it holds the call whose status arrived | medium, since it depends on a status arriving after closeCall and a re-push; not executed | Calls.StaleStatusDropsNewerEntry | Calls.Registry.OnStatusOwnEntry |
| uprpc-web/src/pages/components/Response.tsx:103 | convertValue passes the value itself to `new DataView`, with the typed array's byteOffset and length | a Uint8Array or Buffer over the bytes 01 00: the DataView constructor throws a TypeError for every parse type, while decode reads 1 as Int16LE | view `value.buffer` from `value.byteOffset` for `value.length` bytes, as decode does | high that a typed array throws; not executed | Response.ConvertThrowsOnTypedArray | Response.ConvertValue |
