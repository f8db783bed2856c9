/**
 * The Mini Apps event emitter: a typed channel (`on`/`off`), a raw channel
 * (`subscribe`/`unsubscribe`) fed by a mirror subscription on the typed one,
 * the window listeners that feed both, and dispose.
 */
module MiniAppsEmitter {
  import opened JsValues
  import opened Parsing
  import opened EventParsers
  import opened Registry
  import opened Dispatch

  /** The cleanup list handed to `createCleanup`, in order. */
  function CleanupOrder(): seq<CleanupAction>
  {
    [RemoveEventHandlers, DetachResize, DetachMessage, ClearRaw, ClearTyped]
  }

  /** The log entries of running `actions` in order. */
  function Performed(actions: seq<CleanupAction>): seq<Entry>
  {
    seq(|actions|, i requires 0 <= i < |actions| => CleanedUp(actions[i]))
  }

  class MiniAppsEventEmitter {
    /** How the parsing library reads JSON text (see Parsing.TextDecoder). */
    const decodeText: TextDecoder
    /** Whether the generic emitter's `count` includes `subscribe` listeners. */
    const countsSubscribers: bool

    /** `mainEmitter`'s `on` registrations, in order. */
    var typed: seq<Registration>
    /** `mainEmitter`'s mirror subscription into the raw channel. */
    var mirrored: bool
    /** `subEmitter`'s listeners of `event`, in order. */
    var raw: seq<ListenerId>
    /** The native-method shims installed by `defineEventHandlers`. */
    var handlersDefined: bool
    var resizeAttached: bool
    var messageAttached: bool
    /** The cleanup steps dispose has still to run; emptied by the first dispose. */
    var pendingCleanup: seq<CleanupAction>
    /** Every listener call, diagnostic and cleanup step, in order. */
    ghost var log: seq<Entry>

    /** Either fully set up and not yet disposed, or disposed with everything detached. */
    ghost predicate Valid()
      reads this
    {
      || (pendingCleanup == CleanupOrder() && mirrored && handlersDefined && resizeAttached && messageAttached)
      || (pendingCleanup == [] && !mirrored && !handlersDefined && !resizeAttached && !messageAttached)
    }

    predicate Disposed()
      reads this
    {
      pendingCleanup == []
    }

    /** `createMiniAppsEventEmitter()` */
    constructor (decodeText: TextDecoder, countsSubscribers: bool)
      ensures Valid() && !Disposed()
      ensures this.decodeText == decodeText && this.countsSubscribers == countsSubscribers
      ensures typed == [] && raw == [] && log == []
    {
      this.decodeText := decodeText;
      this.countsSubscribers := countsSubscribers;
      typed, raw := [], [];
      mirrored := true;
      handlersDefined := true;
      resizeAttached, messageAttached := true, true;
      pendingCleanup := CleanupOrder();
      log := [];
    }

    /**
     * `count`: the typed registry's count plus the raw registry's. It is zero
     * exactly when no listener of the caller's is registered and the generic
     * emitter does not count the mirror.
     */
    function Count(): (n: nat)
      reads this
      ensures n == 0 <==> typed == [] && raw == [] && !(countsSubscribers && mirrored)
    {
      |typed| + (if countsSubscribers && mirrored then 1 else 0) + |raw|
    }

    /** `mainEmitter.emit(name, ...args)` */
    method Emit(name: string, args: seq<Value>)
      modifies this`log
      ensures log == old(log) + Deliveries(typed, mirrored, raw, name, args)
    {
      log := log + Deliveries(typed, mirrored, raw, name, args);
    }

    /** The window `message` listener. */
    method HandleMessage(fromParent: bool, data: Value, innerWidth: int)
      modifies this`log
      ensures log == old(log) + OutcomeEntries(Handle(fromParent, data, decodeText, innerWidth), typed, mirrored, raw)
      ensures typed == [] && raw == [] && !mirrored ==> forall e :: e in log[|old(log)|..] ==> e.Logged?
    {
      ClearedRegistriesDeliverNothing(Handle(fromParent, data, decodeText, innerWidth));
      if !fromParent {
        return;
      }
      var envelope := DecodeEnvelope(data, decodeText);
      if envelope.None? {
        return;
      }
      var env := envelope.value;
      var payload := env.eventData;
      var lookup := LookupParser(env.eventType);
      if lookup.Registered? {
        var parsed := Parse(lookup.parser, env.eventData, decodeText, innerWidth);
        if parsed.Failure? {
          log := log + [Logged(Diagnostic(env.eventType, env, Invalid(parsed.error)))];
          return;
        }
        payload := parsed.value;
      }
      Emit(env.eventType, EmitArgs(payload));
    }

    /** The window `resize` listener: a synthetic, always stable and expanded `viewport_changed`. */
    method OnResize(innerWidth: int, innerHeight: int)
      modifies this`log
      ensures log == old(log) + Deliveries(typed, mirrored, raw, "viewport_changed", [ResizePayload(innerWidth, innerHeight)])
      ensures typed == [] && raw == [] ==> log == old(log)
    {
      Emit("viewport_changed", [ResizePayload(innerWidth, innerHeight)]);
    }

    /** `on(name, listener)` */
    method On(name: string, listener: ListenerId)
      modifies this`typed
      ensures typed == old(typed) + [Registration(name, listener)]
      ensures forall n :: ListenersFor(typed, n) == ListenersFor(old(typed), n) + (if n == name then [listener] else [])
      ensures Count() == old(Count()) + 1
    {
      forall n ensures ListenersFor(old(typed) + [Registration(name, listener)], n) ==
                       ListenersFor(old(typed), n) + (if n == name then [listener] else []) {
        ListenersAfterOn(old(typed), Registration(name, listener), n);
      }
      typed := typed + [Registration(name, listener)];
    }

    /** `off(name, listener)`: a listener not registered under `name` is a no-op. */
    method Off(name: string, listener: ListenerId)
      modifies this`typed
      ensures typed == RemoveFirst(old(typed), Registration(name, listener))
      ensures ListenersFor(typed, name) == RemoveFirst(ListenersFor(old(typed), name), listener)
      ensures forall n :: n != name ==> ListenersFor(typed, n) == ListenersFor(old(typed), n)
      ensures Count() == old(Count()) - (if Registration(name, listener) in old(typed) then 1 else 0)
    {
      var r := Registration(name, listener);
      var before := typed;
      ListenersAfterOff(before, r, name);
      OffLeavesOtherNames(before, r);
      typed := RemoveFirst(before, r);
    }

    /** `subscribe(listener)`: a raw-channel listener. */
    method Subscribe(listener: ListenerId)
      modifies this`raw
      ensures raw == old(raw) + [listener]
      ensures Count() == old(Count()) + 1
    {
      raw := raw + [listener];
    }

    /** `unsubscribe(listener)`: a listener not subscribed is a no-op. */
    method Unsubscribe(listener: ListenerId)
      modifies this`raw
      ensures raw == RemoveFirst(old(raw), listener)
      ensures Count() == old(Count()) - (if listener in old(raw) then 1 else 0)
    {
      raw := RemoveFirst(raw, listener);
    }

    /**
     * One step of the cleanup list. It stands for a single cleanup function as
     * `createCleanup`'s runner calls it; only RunCleanups calls it, and a
     * caller outside dispose would leave the object not Valid().
     */
    method RunCleanup(action: CleanupAction)
      modifies this
      ensures log == old(log) + [CleanedUp(action)]
      ensures handlersDefined == (old(handlersDefined) && action != RemoveEventHandlers)
      ensures resizeAttached == (old(resizeAttached) && action != DetachResize)
      ensures messageAttached == (old(messageAttached) && action != DetachMessage)
      ensures raw == (if action == ClearRaw then [] else old(raw))
      ensures typed == (if action == ClearTyped then [] else old(typed))
      ensures mirrored == (old(mirrored) && action != ClearTyped)
      ensures pendingCleanup == old(pendingCleanup)
    {
      match action {
        case RemoveEventHandlers => handlersDefined := false;
        case DetachResize => resizeAttached := false;
        case DetachMessage => messageAttached := false;
        case ClearRaw => raw := [];
        case ClearTyped => typed, mirrored := [], false;
      }
      log := log + [CleanedUp(action)];
    }

    /**
     * `createCleanup`'s internal runner: the steps in order, each undoing its
     * part of the setup. Only Dispose calls it, with the whole pending list;
     * run on any other list it would leave the object not Valid().
     */
    method RunCleanups(actions: seq<CleanupAction>)
      modifies this
      ensures log == old(log) + Performed(actions)
      ensures handlersDefined == (old(handlersDefined) && RemoveEventHandlers !in actions)
      ensures resizeAttached == (old(resizeAttached) && DetachResize !in actions)
      ensures messageAttached == (old(messageAttached) && DetachMessage !in actions)
      ensures raw == (if ClearRaw in actions then [] else old(raw))
      ensures typed == (if ClearTyped in actions then [] else old(typed))
      ensures mirrored == (old(mirrored) && ClearTyped !in actions)
      ensures pendingCleanup == old(pendingCleanup)
    {
      var i := 0;
      while i < |actions|
        invariant 0 <= i <= |actions|
        invariant pendingCleanup == old(pendingCleanup)
        invariant log == old(log) + Performed(actions[..i])
        invariant handlersDefined == (old(handlersDefined) && RemoveEventHandlers !in actions[..i])
        invariant resizeAttached == (old(resizeAttached) && DetachResize !in actions[..i])
        invariant messageAttached == (old(messageAttached) && DetachMessage !in actions[..i])
        invariant raw == (if ClearRaw in actions[..i] then [] else old(raw))
        invariant typed == (if ClearTyped in actions[..i] then [] else old(typed))
        invariant mirrored == (old(mirrored) && ClearTyped !in actions[..i])
      {
        assert actions[..i + 1] == actions[..i] + [actions[i]];
        RunCleanup(actions[i]);
        i := i + 1;
      }
      assert actions[..i] == actions;
    }

    /**
     * Dispose: the first call runs the cleanup list in order, which detaches
     * everything and clears both registries, mirror included; later calls do
     * nothing.
     */
    method Dispose()
      requires Valid()
      modifies this
      ensures Valid() && Disposed()
      ensures log == old(log) + Performed(old(pendingCleanup))
      ensures !old(Disposed()) ==> typed == [] && raw == [] && !mirrored && Count() == 0
      ensures old(Disposed()) ==> typed == old(typed) && raw == old(raw) && log == old(log)
    {
      if pendingCleanup == [] {
        return;
      }
      RunCleanups(pendingCleanup);
      pendingCleanup := [];
    }
  }
}
