/** The foreign primitives the middleware calls: the AES cipher and the JSON codec.
    Both are opaque; what the middleware relies on is stated as laws over them. */
module Primitives {
  import opened Values

  type Secret = string

  /** CryptoJS AES encryption to a string, and decryption followed by UTF-8 decoding, which
      may throw. */
  datatype Cipher = Cipher(encrypt: (string, Secret) -> string, decrypt: (string, Secret) -> Option<string>)
  {
    /** Decrypting with the secret that encrypted recovers the plaintext. */
    ghost predicate Reversible() {
      forall t, s :: decrypt(encrypt(t, s), s) == Some(t)
    }

    /** Decrypting with any other secret fails (an authenticated cipher). */
    ghost predicate RejectsForeignSecret() {
      forall t, s, s' :: s != s' ==> decrypt(encrypt(t, s), s').None?
    }
  }

  /** JSON serialisation of any argument, and JSON parsing, which may throw. */
  datatype Codec = Codec(stringify: Arg -> string, parse: string -> Option<Value>)
  {
    /** Parsing the text of a JSON value gives that value back. */
    ghost predicate Reversible() {
      forall v :: parse(stringify(Val(v))) == Some(v)
    }

    /** The text written for a function (`undefined`, encrypted as empty text) does not parse. */
    ghost predicate RejectsFunctionText() {
      forall id :: parse(stringify(Fn(id))).None?
    }
  }

  /** Everything one instance of the middleware closes over: the cipher, the codec and the
      pre-shared secret given to the factory. */
  datatype Crypto = Crypto(cipher: Cipher, codec: Codec, secret: Secret)
  {
    ghost predicate Sound() {
      cipher.Reversible() && codec.Reversible()
    }

    /** The ciphertext for one outgoing argument. */
    function Seal(a: Arg): string {
      cipher.encrypt(codec.stringify(a), secret)
    }

    /** One element of an incoming `msg` array: decrypt, then parse. A non-string element is
        modelled as not opening. */
    function Open(item: Value): (r: Option<Value>)
      ensures !item.Str? ==> r.None?
    {
      if !item.Str? then None
      else match cipher.decrypt(item.s, secret)
        case None => None
        case Some(text) => codec.parse(text)
    }
  }

  /** Sealing a JSON value and opening it under the same secret gives the value back. */
  lemma SealOpen(c: Crypto, v: Value)
    requires c.Sound()
    ensures c.Open(Str(c.Seal(Val(v)))) == Some(v)
  {
  }

  /** Opening a sealed item under a different secret fails when the cipher is authenticated. */
  lemma ForeignOpenFails(c: Crypto, secret': Secret, a: Arg)
    requires c.cipher.RejectsForeignSecret() && secret' != c.secret
    ensures Crypto(c.cipher, c.codec, secret').Open(Str(c.Seal(a))).None?
  {
  }
}
