/** Values that travel as event arguments, and the small wrapper types used throughout. */
module Values {

  datatype Option<+T> = None | Some(value: T)

  datatype Result<+T, +E> = Success(value: T) | Failure(error: E)

  /** A JSON-representable value: what `JSON.stringify` writes and `JSON.parse` reads back. */
  datatype Value =
    | Null
    | Bool(b: bool)
    | Num(n: int)
    | Str(s: string)
    | Arr(items: seq<Value>)
    | Obj(fields: map<string, Value>)

  /** One argument of an emit call or of a handler invocation: a plain value, a function
      (an acknowledgement callback, or any other callable), or an `Error` object. */
  datatype Arg =
    | Val(v: Value)
    | Fn(id: nat)
    | ErrorObj(code: string)

  /** The error code attached to every decryption or parse failure on receive. */
  const DecryptionErrorCode: string := "ERR_DECRYPTION_ERROR"

  /** The single field of the wire envelope. */
  const MsgField: string := "msg"
}
