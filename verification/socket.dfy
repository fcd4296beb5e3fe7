/** The middleware itself (index.js:11-105): a socket whose `emit`, `on`, `off`,
    `removeListener` and `removeEventListener` are replaced by versions that encrypt outgoing
    payloads and wrap every handler in a decrypting closure. */
module Interceptor {
  import opened Values
  import opened Primitives
  import opened Envelope
  import opened Underlying

  /** The handler bookkeeping the middleware and the wrapped emitter share: the `handlers`
      map from an application handler to its current wrapper, which handler each wrapper
      closure calls, how many wrappers exist, and the emitter's registrations. */
  datatype Registry = Registry(
    handlers: map<HandlerId, HandlerId>,
    wraps: map<nat, HandlerId>,
    nextWrapped: nat,
    listeners: seq<Listener>)
  {
    /** Every mapped handler points at a wrapper that calls it; every wrapper, registered or
        not, is one the middleware created. */
    ghost predicate Coherent() {
      && (forall h :: h in handlers ==> handlers[h].Wrapped? && handlers[h].k in wraps && wraps[handlers[h].k] == h)
      && (forall k :: k in wraps ==> k < nextWrapped)
      && (forall l :: l in listeners && l.handler.Wrapped? ==> l.handler.k in wraps)
    }

    /** A handler value that exists: the application's own, or a wrapper already created. */
    predicate Known(handler: HandlerId) {
      handler.User? || handler.k in wraps
    }
  }

  /** `socket.on` (index.js:60-81): a reserved event registers the handler itself; any other
      registers a fresh wrapper and maps the handler to it, replacing an earlier mapping. */
  function OnStep(reserved: set<string>, st: Registry, event: string, handler: HandlerId): Registry {
    if event in reserved then
      st.(listeners := st.listeners + [Listener(event, handler)])
    else
      var w := Wrapped(st.nextWrapped);
      Registry(st.handlers[handler := w], st.wraps[st.nextWrapped := handler], st.nextWrapped + 1,
               st.listeners + [Listener(event, w)])
  }

  /** `socket.off` (index.js:83-93): a reserved event removes the handler itself; any other
      removes the mapped wrapper and forgets the mapping, or, with no mapping, removes the
      handler itself. */
  function OffStep(reserved: set<string>, st: Registry, event: string, handler: HandlerId): Registry {
    if event in reserved then
      st.(listeners := RemoveLast(st.listeners, Listener(event, handler)))
    else if handler in st.handlers then
      st.(handlers := st.handlers - {handler}, listeners := RemoveLast(st.listeners, Listener(event, st.handlers[handler])))
    else
      st.(listeners := RemoveLast(st.listeners, Listener(event, handler)))
  }

  lemma StepsKeepCoherent(reserved: set<string>, st: Registry, event: string, handler: HandlerId)
    requires st.Coherent()
    ensures st.Known(handler) ==> OnStep(reserved, st, event, handler).Coherent()
    ensures OffStep(reserved, st, event, handler).Coherent()
  {
  }

  /** A registration on a non-reserved event uses a wrapper no registration uses yet, and the
      handler now maps to it. */
  lemma OnRegistersFreshWrapper(reserved: set<string>, st: Registry, event: string, handler: HandlerId)
    requires st.Coherent() && event !in reserved
    ensures var st' := OnStep(reserved, st, event, handler);
      && st'.handlers[handler] == Wrapped(st.nextWrapped)
      && st'.wraps[st.nextWrapped] == handler
      && st'.listeners == st.listeners + [Listener(event, Wrapped(st.nextWrapped))]
      && (forall l :: l in st.listeners ==> l.handler != Wrapped(st.nextWrapped))
  {
  }

  /** `off` after `on` with the same event and handler removes exactly the wrapper `on`
      registered and the mapping; a second `off` finds no mapping and removes the handler
      itself, which changes nothing when it was never registered directly. */
  lemma OffUndoesOn(reserved: set<string>, st: Registry, event: string, handler: HandlerId)
    requires st.Coherent() && event !in reserved
    ensures var once := OffStep(reserved, OnStep(reserved, st, event, handler), event, handler);
      && once.listeners == st.listeners
      && once.handlers == st.handlers - {handler}
      && handler !in once.handlers
      && (Listener(event, handler) !in st.listeners ==> OffStep(reserved, once, event, handler) == once)
  {
    OnRegistersFreshWrapper(reserved, st, event, handler);
    RemoveLastAppended(st.listeners, Listener(event, Wrapped(st.nextWrapped)));
  }

  /** One handler registered on two different events has one mapping, to its second
      wrapper. `off` on the first event then removes nothing (the second wrapper is not
      registered there) yet drops the mapping, so `off` on the second event falls back to the
      bare handler and removes nothing either: both wrappers stay registered. */
  lemma SharedHandlerKeepsBothWrappers(reserved: set<string>, st: Registry, e1: string, e2: string, handler: HandlerId)
    requires st.Coherent() && e1 !in reserved && e2 !in reserved && e1 != e2 && handler.User?
    requires Listener(e1, handler) !in st.listeners && Listener(e2, handler) !in st.listeners
    ensures var w1, w2 := Wrapped(st.nextWrapped), Wrapped(st.nextWrapped + 1);
      var on2 := OnStep(reserved, OnStep(reserved, st, e1, handler), e2, handler);
      var off2 := OffStep(reserved, OffStep(reserved, on2, e1, handler), e2, handler);
      && on2.handlers[handler] == w2
      && off2.listeners == st.listeners + [Listener(e1, w1), Listener(e2, w2)]
      && handler !in off2.handlers
  {
  }

  /** A user handler invocation, as recorded by the model. */
  datatype HandlerCall = HandlerCall(handler: HandlerId, args: seq<Arg>)

  class EncryptedSocket {
    const crypto: Crypto
    const reserved: set<string>
    /** The socket's original methods, saved before they are replaced. */
    const inner: Emitter
    /** The `WeakMap` of index.js:12, as an ordinary map. */
    var handlers: map<HandlerId, HandlerId>
    /** The handler each wrapper closure calls (the closure's captured `handler`). */
    var wraps: map<nat, HandlerId>
    var nextWrapped: nat
    /** The invocations of application handlers made by wrapper closures. */
    var calls: seq<HandlerCall>

    ghost function State(): Registry
      reads this, inner
    {
      Registry(handlers, wraps, nextWrapped, inner.listeners)
    }

    ghost predicate Valid()
      reads this, inner
    {
      State().Coherent()
    }

    /** Setup (index.js:11-12, 49-53): no wrapper exists yet, so every registration already
        on the socket is an application handler. */
    constructor (crypto: Crypto, reserved: set<string>, inner: Emitter)
      requires forall l :: l in inner.listeners ==> l.handler.User?
      ensures Valid()
      ensures this.crypto == crypto && this.reserved == reserved && this.inner == inner
      ensures handlers == map[] && wraps == map[] && nextWrapped == 0 && calls == []
    {
      this.crypto := crypto;
      this.reserved := reserved;
      this.inner := inner;
      handlers := map[];
      wraps := map[];
      nextWrapped := 0;
      calls := [];
    }

    /** `socket.emit` (index.js:55-58). */
    method Emit(event: string, args: seq<Arg>)
      requires Valid()
      modifies inner
      ensures Valid() && State() == old(State())
      ensures inner.sent == old(inner.sent) + [Emission(event, if event in reserved then args else Outgoing(crypto, args))]
    {
      if event in reserved {
        inner.Emit(event, args);
        return;
      }
      var out := EncryptArgs(crypto, args);
      inner.Emit(event, out);
    }

    method On(event: string, handler: HandlerId)
      requires Valid() && State().Known(handler)
      modifies this, inner
      ensures Valid() && State() == OnStep(reserved, old(State()), event, handler)
      ensures inner.sent == old(inner.sent) && calls == old(calls)
    {
      StepsKeepCoherent(reserved, State(), event, handler);
      if event in reserved {
        inner.On(event, handler);
        return;
      }
      var w := Wrapped(nextWrapped);
      wraps := wraps[nextWrapped := handler];
      nextWrapped := nextWrapped + 1;
      handlers := handlers[handler := w];
      inner.On(event, w);
    }

    method Off(event: string, handler: HandlerId)
      requires Valid()
      modifies this, inner
      ensures Valid() && State() == OffStep(reserved, old(State()), event, handler)
      ensures inner.sent == old(inner.sent) && calls == old(calls)
    {
      StepsKeepCoherent(reserved, State(), event, handler);
      if event in reserved {
        inner.Off(event, handler);
        return;
      }
      if handler in handlers {
        var proper := handlers[handler];
        handlers := handlers - {handler};
        inner.Off(event, proper);
        return;
      }
      inner.Off(event, handler);
    }

    /** `socket.removeEventListener` (index.js:95-97): the same as `off`. */
    method RemoveEventListener(event: string, handler: HandlerId)
      requires Valid()
      modifies this, inner
      ensures Valid() && State() == OffStep(reserved, old(State()), event, handler)
      ensures inner.sent == old(inner.sent) && calls == old(calls)
    {
      Off(event, handler);
    }

    /** `socket.removeListener` (index.js:99-101): the same as `off`. */
    method RemoveListener(event: string, handler: HandlerId)
      requires Valid()
      modifies this, inner
      ensures Valid() && State() == OffStep(reserved, old(State()), event, handler)
      ensures inner.sent == old(inner.sent) && calls == old(calls)
    {
      Off(event, handler);
    }

    /** The k-th wrapper closure invoked by the emitter (index.js:63-77): it calls its
        handler with the arguments or their decryption, or emits `"error"` through the
        original `emit`, unencrypted, and returns without calling the handler. */
    method InvokeWrapped(k: nat, args: seq<Arg>)
      requires Valid() && k in wraps
      modifies this, inner
      ensures Valid() && State() == old(State())
      ensures match Incoming(crypto, args)
        case CallHandler(a) =>
          calls == old(calls) + [HandlerCall(wraps[k], a)] && inner.sent == old(inner.sent)
        case ReportError(code) =>
          calls == old(calls) && inner.sent == old(inner.sent) + [Emission("error", [ErrorObj(code)])]
    {
      var args := args;
      if CarriesEnvelope(args) {
        var decrypted := Decrypt(crypto, args[0].v.fields[MsgField]);
        if decrypted.Failure? {
          inner.Emit("error", [ErrorObj(decrypted.error)]);
          return;
        }
        args := decrypted.value;
      }
      calls := calls + [HandlerCall(wraps[k], args)];
    }
  }
}
