# socket.io-encrypt-ext, modelled in Dafny

`index.js` is a socket.io middleware. It is a factory that takes a pre-shared secret and
returns `(socket, next) => socket`. It saves the socket's own `emit`, `on`, `off`,
`removeEventListener` and `removeListener`, then replaces them:

- `emit` encrypts every data argument of a non-reserved event. The result is one
  envelope `{msg: [ciphertext, ...]}`. A trailing function is the acknowledgement callback
  and stays outside the envelope.
- `on` wraps each handler of a non-reserved event in a closure. The closure decrypts an
  incoming envelope before calling the handler. If decryption fails, the closure emits
  `"error"` with code `ERR_DECRYPTION_ERROR` and does not call the handler.
- `off` finds the wrapper through a `WeakMap` from handler to wrapper.
  `removeListener` and `removeEventListener` are aliases of `off`.

The model has five modules, one per component:

- `Values` (values.dfy): JSON values, arguments (value, function or `Error` object),
  `Option`/`Result`, and the constants `"msg"` and `"ERR_DECRYPTION_ERROR"`.
- `Primitives` (primitives.dfy): the AES cipher and the JSON codec. Both are opaque.
  Each is a pair of function values, and its round-trip law is a predicate
  (`Cipher.Reversible`, `Codec.Reversible`). The lemmas that need a law take it as a
  precondition. `Crypto` bundles the cipher, the codec and the secret.
- `Envelope` (envelope.dfy): the outgoing transform `encrypt` and the incoming transform
  `decrypt`, plus what a wrapper closure decides to do with its arguments. `EncryptArgs` is
  the loop of `encrypt`, proved equal to the specification function `Outgoing`. `OpenAll` is
  the `map` inside `decrypt`, which is all-or-nothing. `Incoming` is the wrapper's decision.
  Lemmas state the envelope shape, the no-data pass-through and the round trip
  `Incoming(Outgoing(args))`.
- `Underlying` (emitter.dfy): the wrapped emitter. It holds a sequence of
  `(event, handler)` registrations and a log of emitted `(event, args)`.
  Its `off` removes the most recent matching registration, as Node's `EventEmitter` does.
- `Interceptor` (socket.dfy): the class `EncryptedSocket`, with the `handlers` map as a
  field. Its methods are specified by the pure steps `OnStep` and `OffStep` on a `Registry`
  value. The lemmas about those steps cover registering, unregistering twice, and a handler
  shared between two events.

Handlers are identities (`User(id)` for the application's functions, `Wrapped(k)` for
the k-th closure the middleware creates). Calling an application handler is recorded in
the `calls` log.

Two behaviours of the code are proved as written:

- The wrapper replaces the whole argument list with the decrypted `msg` elements. Any
  argument after the envelope, such as a receive-side acknowledgement function, does not
  reach the handler (`EnvelopeIsOpened`, `RoundTrip`).
- The `WeakMap` holds one wrapper per handler, not one per registration. So one handler
  registered on two events keeps both wrappers registered after `off` on both events
  (`SharedHandlerKeepsBothWrappers`).

The envelope field is always `msg` (index.js:28, 67). An object without an own `msg` key
reaches the handler unchanged, and nothing rejects extra keys (index.js:64-67).

## Model

| member | source | states |
|---|---|---|
| `Primitives.SealOpen` | index.js:22-38 | under the cipher and codec round-trip laws, opening the ciphertext of a JSON value with the same secret returns that value |
| `Primitives.ForeignOpenFails` | index.js:35-38 | with a cipher that rejects foreign secrets, a ciphertext made under one secret does not open under another |
| `Envelope.DataArgs` | index.js:17-21 | the data arguments are all arguments except the last one when it is a function; they are a prefix of the arguments, one shorter exactly when there is an ack |
| `Envelope.EncryptArgs` | index.js:14-31 | the loop that pushes ciphertexts and sets aside the ack returns exactly `Outgoing(args)` |
| `Envelope.NoDataPassesThrough` | index.js:27 | there is no data exactly when the arguments are empty or are a single function, and then the arguments are returned unchanged |
| `Envelope.EnvelopeShape` | index.js:17-30 | otherwise the result is `[{msg}]`, or `[{msg}, ack]` with the original trailing function. `msg[i]` seals the i-th argument, and earlier functions are sealed too |
| `Envelope.OpenAll` | index.js:33-46 | succeeds exactly when every element opens; then it has one result per element, in order; otherwise it fails with `ERR_DECRYPTION_ERROR` and returns no partial list |
| `Envelope.Decrypt` | index.js:33-47 | succeeds exactly when `msg` is an array whose every element opens; then the result holds the opened elements in order; otherwise it fails with `ERR_DECRYPTION_ERROR` |
| `Envelope.PlainArgsPassThrough` | index.js:63-76 | arguments whose first element is not an object with an own `msg` key reach the handler unchanged |
| `Envelope.EnvelopeIsOpened` | index.js:63-76 | an envelope reaches the handler as exactly the opened `msg` elements in order, dropping later arguments; otherwise `ERR_DECRYPTION_ERROR` is reported, and then `msg` is not an array or some element does not open |
| `Envelope.RoundTrip` | index.js:14-39 | under the round-trip laws and when every data argument is a JSON value, `Incoming(Outgoing(args))` calls the handler with the data arguments in order, or with `args` itself when there is no data |
| `Envelope.NonLastFunctionReportsError` | index.js:17-38 | when the codec cannot parse back the text written for a function, a function in a non-last position is sealed but makes the receiver report `ERR_DECRYPTION_ERROR` for the whole delivery |
| `Envelope.ForeignSecretReportsError` | index.js:33-46 | a non-empty payload sent under one secret and received under another is reported as `ERR_DECRYPTION_ERROR` when the cipher rejects foreign secrets |
| `Underlying.RemoveLast` | index.js:84-92 | the emitter's removal drops only the last matching registration and keeps the order of the rest; it changes nothing when there is no match |
| `Interceptor.StepsKeepCoherent` | index.js:79-92 | `on` and `off` keep the registry coherent: each mapped handler points at a wrapper that calls it, and each registered wrapper was created by the middleware |
| `Interceptor.OnRegistersFreshWrapper` | index.js:63-80 | `on` for a non-reserved event registers only a new wrapper that was not registered before, maps the handler to it and overwrites any earlier mapping |
| `Interceptor.OffUndoesOn` | index.js:79-92 | `off` after `on` removes exactly the wrapper and the mapping. A second `off` falls back to the bare handler, and changes nothing when the bare handler is not registered directly on the event |
| `Interceptor.SharedHandlerKeepsBothWrappers` | index.js:79-92 | with one handler on two events, the mapping names only the second wrapper, and `off` on both events leaves both wrappers registered |
| `Interceptor.EncryptedSocket.constructor` | index.js:49-53 | setup starts with an empty handler map and no wrappers, over the saved original methods |
| `Interceptor.EncryptedSocket.Emit` | index.js:55-58 | a reserved event is forwarded unchanged; any other is forwarded as `Outgoing(args)`; registrations are untouched |
| `Interceptor.EncryptedSocket.On` | index.js:60-81 | the new state is `OnStep` of the old one: a reserved event registers the handler itself, any other a fresh wrapper recorded in the map |
| `Interceptor.EncryptedSocket.Off` | index.js:83-93 | the new state is `OffStep` of the old one: reserved bypass, otherwise the mapped wrapper is removed and the mapping deleted, or the handler itself is removed |
| `Interceptor.EncryptedSocket.RemoveEventListener` | index.js:95-97 | behaves exactly as `off` |
| `Interceptor.EncryptedSocket.RemoveListener` | index.js:99-101 | behaves exactly as `off` |
| `Interceptor.EncryptedSocket.InvokeWrapped` | index.js:63-77 | a wrapper either calls its handler with the arguments or their decryption, or emits `"error"` with the error code through the original `emit` and calls nothing |

## Left out

- The AES cipher and the JSON codec (CryptoJS and `JSON`): they are opaque function values,
  and their round-trip laws are preconditions. UTF-8 decoding is folded into the cipher's
  possible failure.
- The random salt of AES encryption: the modelled `encrypt` is a function, so the same
  input gives the same ciphertext. No stated property depends on ciphertexts being equal or
  different.
- `ForeignSecretReportsError` assumes a cipher that rejects foreign secrets. CryptoJS AES is
  not authenticated, and a wrong key usually fails only at UTF-8 decoding or `JSON.parse`.
- The weak references of the `WeakMap` (garbage collection is not expressible). It is an
  ordinary map.
- The contents of `./reserved-events` and `./symbol`: reserved-events is not part of this
  model and is a constructor parameter. The saved methods are the wrapped `Emitter` object.
- The `next` continuation, the `this` binding of `handler.call`, and the values the replaced
  methods return (whatever the saved methods return).
- Primitives.Crypto.Open: a non-string `msg` element is modelled as never opening. CryptoJS
  treats a non-string as a cipher-parameters object: a number or boolean yields an empty
  plaintext that `JSON.parse` rejects (also a failure), but an object shaped like cipher
  parameters can decrypt, which the model does not capture.
- The codec on non-JSON arguments: the round trip is stated only for JSON values. A
  non-last function is covered by `NonLastFunctionReportsError` (the receiver reports the
  error), under a codec law rather than from JSON itself. An `Error` argument is sealed like
  data; that it comes back as a plain object is not modelled.
- A `null` first argument: `typeof null` is `"object"`, so `Object.hasOwn` throws a
  `TypeError` out of the wrapper. The model treats `null` as a plain value.
- The text of the error message (it embeds the cipher's exception message). Only the code is
  kept.
- Numbers are unbounded integers, not IEEE doubles.
- Transport, delivery of incoming events to registered listeners, and invocation of
  acknowledgements: these belong to the wrapped emitter. A single wrapper invocation is
  `InvokeWrapped`. The emitter's `off` removes the most recent match, as Node's
  `EventEmitter` does. The socket.io client's emitter removes the first match instead.
- `Interceptor.EncryptedSocket.On` requires that a handler passed as `Wrapped(k)` names a
  wrapper that exists. A JavaScript function value always exists.
