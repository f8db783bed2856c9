/**
 * The inbound path of the bridge as values: decoding the envelope of a
 * window message, choosing what to do with it, and the deliveries one
 * emission makes on the typed channel and its raw mirror.
 */
module Dispatch {
  import opened Wrappers
  import opened JsValues
  import opened Parsing
  import opened EventParsers
  import opened Registry

  /** `{ eventType: string, eventData?: unknown }` as parsed from `event.data`. */
  datatype Envelope = Envelope(eventType: string, eventData: Value)

  /** Why a known event was not emitted. */
  datatype Cause = Invalid(error: ParseError) | NotAFunction

  /** What the `error` logger receives: the event type, the envelope and the cause. */
  datatype Diagnostic = Diagnostic(eventType: string, message: Envelope, cause: Cause)

  /** What the message listener does with one window message. */
  datatype Outcome =
    | Ignored
    | Emitted(name: string, args: seq<Value>)
    | Reported(diagnostic: Diagnostic)

  /** What a raw-channel listener receives. */
  datatype RawEvent = RawEvent(name: string, payload: Value)

  /** The steps of dispose, in the order they are registered. */
  datatype CleanupAction = RemoveEventHandlers | DetachResize | DetachMessage | ClearRaw | ClearTyped

  /** One observable effect: a listener call, a diagnostic, or a cleanup step. */
  datatype Entry =
    | Delivered(listener: ListenerId, name: string, args: seq<Value>)
    | RawDelivered(listener: ListenerId, event: RawEvent)
    | Logged(diagnostic: Diagnostic)
    | CleanedUp(action: CleanupAction)

  function EnvelopeSchema(): seq<Field>
  {
    [Field("eventType", StringValue), Field("eventData", AnyValue)]
  }

  lemma EnvelopeSchemaFacts()
    ensures DistinctKeys(EnvelopeSchema())
    ensures EnvelopeSchema()[0] == Field("eventType", StringValue)
    ensures EnvelopeSchema()[1] == Field("eventData", AnyValue)
  {
  }

  /**
   * Step one of the message listener: a message is an envelope exactly when
   * it denotes a record whose `eventType` is a string.
   */
  function DecodeEnvelope(data: Value, decode: TextDecoder): (r: Option<Envelope>)
    ensures r.Some? <==> AsRecord(data, decode).Some? && Member(data, decode, "eventType").Str?
    ensures r.Some? ==> r.value == Envelope(Member(data, decode, "eventType").s, Member(data, decode, "eventData"))
  {
    EnvelopeSchemaFacts();
    JsonSpec(data, EnvelopeSchema(), decode);
    match Json(data, EnvelopeSchema(), decode)
    case Failure(_) => None
    case Success(v) => Some(Envelope(Get(v.fields, "eventType").s, Get(v.fields, "eventData")))
  }

  /** `data ? [eventType, data] : [eventType]`: a falsy payload is emitted as no argument. */
  function EmitArgs(data: Value): seq<Value>
  {
    if Truthy(data) then [data] else []
  }

  /** Steps two to four: validate with the looked-up parser, then emit or report. */
  function Process(env: Envelope, lookup: Lookup, decode: TextDecoder, innerWidth: int): Outcome
  {
    match lookup
    case Missing => Emitted(env.eventType, EmitArgs(env.eventData))
    case Inherited => Reported(Diagnostic(env.eventType, env, NotAFunction))
    case Registered(p) =>
      match Parse(p, env.eventData, decode, innerWidth)
      case Failure(e) => Reported(Diagnostic(env.eventType, env, Invalid(e)))
      case Success(payload) => Emitted(env.eventType, EmitArgs(payload))
  }

  /**
   * The message listener. Messages not from the parent window and messages
   * that are not envelopes are dropped without a trace; every other message is
   * emitted under its own event type or reported.
   */
  function Handle(fromParent: bool, data: Value, decode: TextDecoder, innerWidth: int): (r: Outcome)
    ensures r.Ignored? <==> !fromParent || DecodeEnvelope(data, decode).None?
    ensures r.Emitted? ==> r.name == DecodeEnvelope(data, decode).value.eventType && |r.args| <= 1
    ensures r.Reported? ==> r.diagnostic.message == DecodeEnvelope(data, decode).value
                            && r.diagnostic.eventType == r.diagnostic.message.eventType
  {
    if !fromParent then Ignored
    else
      match DecodeEnvelope(data, decode)
      case None => Ignored
      case Some(env) => Process(env, LookupParser(env.eventType), decode, innerWidth)
  }

  /** The message listener with the lookup as the source writes it (see LookupAsWritten). */
  function HandleAsWritten(fromParent: bool, data: Value, decode: TextDecoder, innerWidth: int): (r: Outcome)
    ensures r.Ignored? <==> !fromParent || DecodeEnvelope(data, decode).None?
  {
    if !fromParent then Ignored
    else
      match DecodeEnvelope(data, decode)
      case None => Ignored
      case Some(env) => Process(env, LookupAsWritten(env.eventType), decode, innerWidth)
  }

  /** An event type without a registered validator is emitted with its data unchanged. */
  lemma UnregisteredEventPassesThrough(data: Value, decode: TextDecoder, innerWidth: int)
    requires DecodeEnvelope(data, decode).Some?
    requires OwnParser(DecodeEnvelope(data, decode).value.eventType).None?
    ensures Handle(true, data, decode, innerWidth) ==
              Emitted(Member(data, decode, "eventType").s,
                      if Truthy(Member(data, decode, "eventData")) then [Member(data, decode, "eventData")] else [])
  {
  }

  /**
   * An event type with a registered validator: a rejected payload yields one
   * diagnostic carrying the type, the envelope and the cause, and no emission;
   * an accepted payload is always emitted as an argument.
   */
  lemma RegisteredEventOutcome(data: Value, decode: TextDecoder, innerWidth: int)
    requires DecodeEnvelope(data, decode).Some?
    requires OwnParser(DecodeEnvelope(data, decode).value.eventType).Some?
    ensures var env := DecodeEnvelope(data, decode).value;
            var result := Parse(OwnParser(env.eventType).value, env.eventData, decode, innerWidth);
            Handle(true, data, decode, innerWidth) ==
              if result.Failure? then Reported(Diagnostic(env.eventType, env, Invalid(result.error)))
              else Emitted(env.eventType, [result.value])
  {
    var env := DecodeEnvelope(data, decode).value;
    ParsedPayloadIsRecord(OwnParser(env.eventType).value, env.eventData, decode, innerWidth);
  }

  /** Away from the names every object inherits, the source's lookup is the intended one. */
  lemma AsWrittenAgreesOffPrototype(data: Value, decode: TextDecoder, innerWidth: int)
    requires DecodeEnvelope(data, decode).Some? ==>
               DecodeEnvelope(data, decode).value.eventType !in ObjectPrototypeMembers
    ensures HandleAsWritten(true, data, decode, innerWidth) == Handle(true, data, decode, innerWidth)
  {
  }

  /**
   * The discrepancy: an envelope named after an inherited member of a plain
   * object is reported as a failure instead of being passed through.
   */
  lemma PrototypeNameReportedAsWritten(decode: TextDecoder, innerWidth: int)
    ensures var data := Obj(map["eventType" := Str("toString"), "eventData" := Num(1)]);
            && HandleAsWritten(true, data, decode, innerWidth)
                 == Reported(Diagnostic("toString", Envelope("toString", Num(1)), NotAFunction))
            && Handle(true, data, decode, innerWidth) == Emitted("toString", [Num(1)])
  {
    var data := Obj(map["eventType" := Str("toString"), "eventData" := Num(1)]);
    assert Member(data, decode, "eventType") == Str("toString");
    assert Member(data, decode, "eventData") == Num(1);
    assert OwnParser("toString").None?;
  }

  /** `event.args[0]`: the payload the raw mirror forwards (undefined for no argument). */
  function FirstArg(args: seq<Value>): Value
  {
    if args == [] then Undefined else args[0]
  }

  /** The typed-channel listeners `ls` called, in order, with `args`. */
  function NotifyTyped(ls: seq<ListenerId>, name: string, args: seq<Value>): (es: seq<Entry>)
    ensures |es| == |ls|
    ensures forall i :: 0 <= i < |ls| ==> es[i] == Delivered(ls[i], name, args)
  {
    if ls == [] then [] else [Delivered(ls[0], name, args)] + NotifyTyped(ls[1..], name, args)
  }

  /** The raw-channel listeners `ls` called, in order, with `ev`. */
  function NotifyRaw(ls: seq<ListenerId>, ev: RawEvent): (es: seq<Entry>)
    ensures |es| == |ls|
    ensures forall i :: 0 <= i < |ls| ==> es[i] == RawDelivered(ls[i], ev)
  {
    if ls == [] then [] else [RawDelivered(ls[0], ev)] + NotifyRaw(ls[1..], ev)
  }

  /**
   * `mainEmitter.emit(name, ...args)`: the typed listeners of `name`, then,
   * through the mirror subscription, every raw listener with `{name, payload}`.
   */
  function Deliveries(typed: seq<Registration>, mirrored: bool, raw: seq<ListenerId>, name: string, args: seq<Value>): seq<Entry>
  {
    NotifyTyped(ListenersFor(typed, name), name, args)
      + (if mirrored then NotifyRaw(raw, RawEvent(name, FirstArg(args))) else [])
  }

  /** The effects of one message-listener outcome. */
  function OutcomeEntries(o: Outcome, typed: seq<Registration>, mirrored: bool, raw: seq<ListenerId>): seq<Entry>
  {
    match o
    case Ignored => []
    case Emitted(name, args) => Deliveries(typed, mirrored, raw, name, args)
    case Reported(d) => [Logged(d)]
  }

  /**
   * One emission reaches exactly the typed listeners of its name and, while
   * the mirror is subscribed, exactly the raw listeners, whether or not the
   * name has typed listeners; nothing else happens.
   */
  lemma EmissionReaches(typed: seq<Registration>, mirrored: bool, raw: seq<ListenerId>, name: string, args: seq<Value>)
    ensures forall l ::
              (Delivered(l, name, args) in Deliveries(typed, mirrored, raw, name, args) <==> l in ListenersFor(typed, name))
    ensures forall l ::
              (RawDelivered(l, RawEvent(name, FirstArg(args))) in Deliveries(typed, mirrored, raw, name, args) <==> mirrored && l in raw)
    ensures forall e :: e in Deliveries(typed, mirrored, raw, name, args) ==>
              e == Delivered(e.listener, name, args) || e == RawDelivered(e.listener, RawEvent(name, FirstArg(args)))
  {
    var ts := NotifyTyped(ListenersFor(typed, name), name, args);
    var rs := if mirrored then NotifyRaw(raw, RawEvent(name, FirstArg(args))) else [];
    var d := Deliveries(typed, mirrored, raw, name, args);
    assert d == ts + rs;
    forall l | l in ListenersFor(typed, name) ensures Delivered(l, name, args) in d {
      var i :| 0 <= i < |ListenersFor(typed, name)| && ListenersFor(typed, name)[i] == l;
      assert d[i] == ts[i];
    }
    forall l | mirrored && l in raw ensures RawDelivered(l, RawEvent(name, FirstArg(args))) in d {
      var i :| 0 <= i < |raw| && raw[i] == l;
      assert d[|ts| + i] == rs[i];
    }
  }

  /**
   * A falsy payload (`null`, `undefined`, `false`, `0`, `""`) reaches typed
   * listeners as no argument and raw listeners as `undefined`.
   */
  lemma FalsyPayloadEmittedBare(typed: seq<Registration>, raw: seq<ListenerId>, name: string, data: Value)
    requires !Truthy(data)
    ensures Deliveries(typed, true, raw, name, EmitArgs(data)) ==
              NotifyTyped(ListenersFor(typed, name), name, []) + NotifyRaw(raw, RawEvent(name, Undefined))
  {
  }

  /** With both registries cleared and the mirror gone, a message can only leave a diagnostic. */
  lemma ClearedRegistriesDeliverNothing(o: Outcome)
    ensures forall e :: e in OutcomeEntries(o, [], false, []) ==> e.Logged?
  {
  }

  /** The payload of the synthetic `viewport_changed` sent on every window resize. */
  function ResizePayload(innerWidth: int, innerHeight: int): Value
  {
    Obj(map[ "width" := Num(innerWidth), "height" := Num(innerHeight),
             "is_state_stable" := Bool(true), "is_expanded" := Bool(true) ])
  }

  /**
   * The synthetic payload is one the `viewport_changed` validator accepts and
   * returns unchanged: subscribers cannot tell it from a host event.
   */
  lemma ResizePayloadIsViewportEvent(innerWidth: int, innerHeight: int, decode: TextDecoder, anyWidth: int)
    ensures Parse(ViewportChanged, ResizePayload(innerWidth, innerHeight), decode, anyWidth)
              == Success(ResizePayload(innerWidth, innerHeight))
  {
    var v := ResizePayload(innerWidth, innerHeight);
    ViewportChangedParsed(v, decode, anyWidth);
    assert Member(v, decode, "width") == Num(innerWidth);
    assert Member(v, decode, "height") == Num(innerHeight);
    assert Member(v, decode, "is_state_stable") == Bool(true);
    assert Member(v, decode, "is_expanded") == Bool(true);
    var fields := map[ "height" := Num(innerHeight), "width" := Num(innerWidth),
                       "is_state_stable" := Bool(true), "is_expanded" := Bool(true) ];
    assert fields == v.fields;
  }
}
