/** The emitter the middleware wraps: the methods it saves before patching (index.js:49-53).
    Only the state the middleware reads or changes is kept: the registrations and the log of
    emitted events. Transport, delivery and acknowledgements belong to it and are not modelled. */
module Underlying {
  import opened Values

  /** A handler's identity: one the application supplied, or the k-th wrapper closure the
      middleware created. */
  datatype HandlerId = User(id: nat) | Wrapped(k: nat)

  datatype Listener = Listener(event: string, handler: HandlerId)

  datatype Emission = Emission(event: string, args: seq<Arg>)

  /** The position of the last occurrence of `x` in `s`. */
  function LastIndexOf<T(==)>(s: seq<T>, x: T): (j: nat)
    requires x in s
    ensures j < |s| && s[j] == x && x !in s[j + 1..]
    decreases |s|
  {
    if s[|s| - 1] == x then |s| - 1
    else
      assert x in s[..|s| - 1] by { var i :| 0 <= i < |s| && s[i] == x; assert s[..|s| - 1][i] == x; }
      LastIndexOf(s[..|s| - 1], x)
  }

  /** Removing a listener removes its most recent registration, if any, and nothing else. */
  function RemoveLast<T(==)>(s: seq<T>, x: T): (r: seq<T>)
    ensures x !in s ==> r == s
    ensures x in s ==> |r| == |s| - 1 && multiset(r) == multiset(s) - multiset{x}
    ensures x in s ==> exists j :: 0 <= j < |s| && s[j] == x && x !in s[j + 1..] && r == s[..j] + s[j + 1..]
    ensures forall y :: y in r ==> y in s
  {
    if x !in s then s
    else
      var j := LastIndexOf(s, x);
      assert s == s[..j] + [x] + s[j + 1..];
      s[..j] + s[j + 1..]
  }

  /** Removing an element right after appending it gives back the sequence before the append. */
  lemma RemoveLastAppended<T>(s: seq<T>, x: T)
    ensures RemoveLast(s + [x], x) == s
  {
  }

  class Emitter {
    var listeners: seq<Listener>
    var sent: seq<Emission>

    constructor ()
      ensures listeners == [] && sent == []
    {
      listeners := [];
      sent := [];
    }

    method Emit(event: string, args: seq<Arg>)
      modifies this
      ensures sent == old(sent) + [Emission(event, args)]
      ensures listeners == old(listeners)
    {
      sent := sent + [Emission(event, args)];
    }

    method On(event: string, handler: HandlerId)
      modifies this
      ensures listeners == old(listeners) + [Listener(event, handler)]
      ensures sent == old(sent)
    {
      listeners := listeners + [Listener(event, handler)];
    }

    method Off(event: string, handler: HandlerId)
      modifies this
      ensures listeners == RemoveLast(old(listeners), Listener(event, handler))
      ensures sent == old(sent)
    {
      listeners := RemoveLast(listeners, Listener(event, handler));
    }
  }
}
