/** The two argument transforms of the middleware: `encrypt` on the way out (index.js:14-31)
    and `decrypt` plus the wrapped handler's decision on the way in (index.js:33-47, 63-77). */
module Envelope {
  import opened Values
  import opened Primitives

  // ---------------------------------------------------------------- outgoing

  /** Only the last argument, and only when it is a function, is the acknowledgement. */
  predicate HasAck(args: seq<Arg>) {
    |args| > 0 && args[|args| - 1].Fn?
  }

  /** The arguments that get encrypted: all of them except a trailing function. */
  function DataArgs(args: seq<Arg>): (data: seq<Arg>)
    ensures |data| == if HasAck(args) then |args| - 1 else |args|
    ensures data == args[..|data|]
  {
    if HasAck(args) then args[..|args| - 1] else args
  }

  /** The `msg` array: one ciphertext per data argument, in order. */
  function Ciphertexts(c: Crypto, data: seq<Arg>): (msg: seq<Value>) {
    seq(|data|, i requires 0 <= i < |data| => Str(c.Seal(data[i])))
  }

  /** The wire envelope `{msg: [...]}`. */
  function EnvelopeOf(msg: seq<Value>): Value {
    Obj(map[MsgField := Arr(msg)])
  }

  /** What the outgoing transform is meant to produce: the arguments unchanged when there is
      no data, otherwise one envelope followed by the acknowledgement if there is one. */
  function Outgoing(c: Crypto, args: seq<Arg>): seq<Arg> {
    var data := DataArgs(args);
    if data == [] then args
    else [Val(EnvelopeOf(Ciphertexts(c, data)))] + (if HasAck(args) then [args[|args| - 1]] else [])
  }

  /** The loop of `encrypt`: push a ciphertext for every argument except a function in the
      last position, which is kept aside as the acknowledgement. */
  method EncryptArgs(c: Crypto, args: seq<Arg>) returns (out: seq<Arg>)
    ensures out == Outgoing(c, args)
  {
    var msg: seq<Value> := [];
    var ack: Option<Arg> := None;
    for i := 0 to |args|
      invariant msg == Ciphertexts(c, if i == |args| then DataArgs(args) else args[..i])
      invariant ack == if i == |args| && HasAck(args) then Some(args[|args| - 1]) else None
    {
      if i == |args| - 1 && args[i].Fn? {
        ack := Some(args[i]);
      } else {
        msg := msg + [Str(c.Seal(args[i]))];
      }
    }
    if |msg| == 0 {
      return args;
    }
    out := [Val(EnvelopeOf(msg))];
    if ack.Some? {
      out := out + [ack.value];
    }
  }

  /** With no data argument (no arguments, or only a trailing function) nothing is built. */
  lemma NoDataPassesThrough(c: Crypto, args: seq<Arg>)
    ensures DataArgs(args) == [] <==> args == [] || (|args| == 1 && args[0].Fn?)
    ensures DataArgs(args) == [] ==> Outgoing(c, args) == args
  {
  }

  /** Otherwise the result is exactly `[{msg}]` or `[{msg}, ack]`: `msg[i]` seals the i-th
      argument, every position but the last is sealed even when it holds a function, and the
      acknowledgement is the original trailing function. */
  lemma EnvelopeShape(c: Crypto, args: seq<Arg>)
    requires DataArgs(args) != []
    ensures var out := Outgoing(c, args);
      && |out| == (if HasAck(args) then 2 else 1)
      && out[0] == Val(EnvelopeOf(Ciphertexts(c, DataArgs(args))))
      && (HasAck(args) ==> out[1] == args[|args| - 1])
    ensures forall i :: 0 <= i < |args| - 1 ==> Ciphertexts(c, DataArgs(args))[i] == Str(c.Seal(args[i]))
    ensures !HasAck(args) ==> Ciphertexts(c, DataArgs(args))[|args| - 1] == Str(c.Seal(args[|args| - 1]))
  {
  }

  // ---------------------------------------------------------------- incoming

  /** Decrypt-then-parse mapped over the `msg` array inside a `try`: all elements open, or
      the whole call fails with the decryption error code and no partial list. */
  function OpenAll(c: Crypto, items: seq<Value>): (r: Result<seq<Arg>, string>)
    ensures r.Success? <==> forall i :: 0 <= i < |items| ==> c.Open(items[i]).Some?
    ensures r.Success? ==> |r.value| == |items|
    ensures r.Success? ==> forall i :: 0 <= i < |items| ==> r.value[i] == Val(c.Open(items[i]).value)
    ensures r.Failure? ==> r.error == DecryptionErrorCode
    decreases |items|
  {
    if items == [] then Success([])
    else match c.Open(items[0])
      case None => Failure(DecryptionErrorCode)
      case Some(v) =>
        match OpenAll(c, items[1..])
        case Failure(e) => Failure(e)
        case Success(rest) => Success([Val(v)] + rest)
  }

  /** `decrypt` of a received `msg` value: mapping over anything but an array throws inside
      the `try` and is reported with the same code. */
  function Decrypt(c: Crypto, encrypted: Value): (r: Result<seq<Arg>, string>)
    ensures r.Success? <==> encrypted.Arr? && forall i :: 0 <= i < |encrypted.items| ==> c.Open(encrypted.items[i]).Some?
    ensures r.Success? ==> |r.value| == |encrypted.items|
    ensures r.Success? ==> forall i :: 0 <= i < |encrypted.items| ==> r.value[i] == Val(c.Open(encrypted.items[i]).value)
    ensures r.Failure? ==> r.error == DecryptionErrorCode
  {
    if encrypted.Arr? then OpenAll(c, encrypted.items) else Failure(DecryptionErrorCode)
  }

  /** The first argument is an object that has `msg` as an own key. */
  predicate CarriesEnvelope(args: seq<Arg>) {
    |args| > 0 && args[0].Val? && args[0].v.Obj? && MsgField in args[0].v.fields
  }

  /** What one invocation of a wrapped handler does: call the user's handler with these
      arguments, or emit `"error"` with this code and return without calling it. */
  datatype Outcome = CallHandler(args: seq<Arg>) | ReportError(code: string)

  function Incoming(c: Crypto, args: seq<Arg>): Outcome {
    if CarriesEnvelope(args) then
      match Decrypt(c, args[0].v.fields[MsgField])
      case Success(decrypted) => CallHandler(decrypted)
      case Failure(code) => ReportError(code)
    else CallHandler(args)
  }

  /** Anything that is not an object with an own `msg` key reaches the handler unchanged. */
  lemma PlainArgsPassThrough(c: Crypto, args: seq<Arg>)
    requires !CarriesEnvelope(args)
    ensures Incoming(c, args) == CallHandler(args)
  {
  }

  /** An envelope reaches the handler as exactly the opened `msg` elements, in order; any
      arguments after the envelope (a receive-side acknowledgement) are not passed on. If
      any element fails, or `msg` is not an array, the decryption error is reported instead. */
  lemma EnvelopeIsOpened(c: Crypto, args: seq<Arg>)
    requires CarriesEnvelope(args)
    ensures var msg := args[0].v.fields[MsgField];
      match Incoming(c, args)
      case CallHandler(a) =>
        && msg.Arr? && |a| == |msg.items|
        && (forall i :: 0 <= i < |a| ==> c.Open(msg.items[i]).Some? && a[i] == Val(c.Open(msg.items[i]).value))
      case ReportError(code) =>
        && code == DecryptionErrorCode
        && (!msg.Arr? || exists i :: 0 <= i < |msg.items| && c.Open(msg.items[i]).None?)
  {
  }

  /** Round trip: what the outgoing transform produces, handed to a wrapped handler under the
      same secret, calls the user's handler with the original data arguments in order (or,
      when there were none, with the arguments as sent). A trailing acknowledgement is not
      among them. */
  lemma RoundTrip(c: Crypto, args: seq<Arg>)
    requires c.Sound()
    requires forall i :: 0 <= i < |DataArgs(args)| ==> DataArgs(args)[i].Val?
    ensures Incoming(c, Outgoing(c, args)) == CallHandler(if DataArgs(args) == [] then args else DataArgs(args))
  {
  }

  /** A function in a non-last position is sealed like data, but its text does not parse on
      the receiving side, so the whole delivery reports the decryption error. */
  lemma NonLastFunctionReportsError(c: Crypto, args: seq<Arg>, i: nat)
    requires c.cipher.Reversible() && c.codec.RejectsFunctionText()
    requires i < |args| - 1 && args[i].Fn?
    ensures Incoming(c, Outgoing(c, args)) == ReportError(DecryptionErrorCode)
  {
    var text := c.codec.stringify(args[i]);
    assert c.cipher.decrypt(c.cipher.encrypt(text, c.secret), c.secret) == Some(text);
    assert c.Open(Ciphertexts(c, DataArgs(args))[i]).None?;
  }

  /** Sent under one secret and received under another, any non-empty payload makes the
      wrapped handler report the decryption error, provided the cipher rejects foreign secrets. */
  lemma ForeignSecretReportsError(c: Crypto, secret': Secret, args: seq<Arg>)
    requires c.cipher.RejectsForeignSecret() && secret' != c.secret
    requires DataArgs(args) != []
    ensures Incoming(Crypto(c.cipher, c.codec, secret'), Outgoing(c, args)) == ReportError(DecryptionErrorCode)
  {
  }
}
