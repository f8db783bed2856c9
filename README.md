# Telegram Mini Apps bridge: inbound event emitter

This project models the inbound half of the Telegram Mini Apps bridge,
`createMiniAppsEventEmitter` in
`packages/bridge/src/events/event-emitter/createMiniAppsEventEmitter.ts`, and
proves properties of the model in Dafny.

The bridge listens to `message` events posted by the parent window (the
Telegram client). It drops everything that is not a `{eventType, eventData?}`
envelope from the parent. It validates the payloads of the four events whose
shape the host is known to get wrong: `clipboard_text_received`,
`custom_method_invoked`, `popup_closed` and `viewport_changed`. It emits the
result on a typed channel (`on`/`off`). A mirror subscription copies every
emission to a raw channel (`subscribe`/`unsubscribe`) as `{name, payload}`.
A failed validation goes to the diagnostic logger instead of being emitted.
A window `resize` listener injects a synthetic `viewport_changed` event
through the same emit path. `count` adds up both registries. Dispose runs an
ordered cleanup list that detaches the window listeners and clears both
registries.

Files:

- `values.dfy` (`JsValues`): the JSON-like wire value, property reads and JavaScript truthiness.
- `parsing.dfy` (`Parsing`): the parsing primitives (`string()`, `number()`, `boolean()`, `.optional()`) and the record parser `json(schema)`, with its general contract.
- `event_parsers.dfy` (`EventParsers`): the `parsers` table, one lemma per registered event, and the lookup by event name.
- `registry.dfy` (`Registry`): the generic emitter's listener registries as insertion-ordered sequences.
- `dispatch.dfy` (`Dispatch`): the envelope decoder, the message listener as a function from message to outcome, and the deliveries one emission makes.
- `emitter.dfy` (`MiniAppsEmitter`): the emitter as a class. Its methods are specified by the functions above. A ghost `log` records every listener call, diagnostic and cleanup step.
- `wrappers.dfy` (`Wrappers`): `Option` and `Result`.

Inputs the code reads from its environment are parameters:

- `fromParent` stands for `event.source === window.parent`.
- `innerWidth`/`innerHeight` stand for the window's dimensions.
- Listeners are ids, which stand for function identity.

Two behaviours of libraries the emitter calls are not visible in its source.
They are made explicit:

- `TextDecoder` is how the record parser reads a string given where a record is expected. It may accept or reject JSON text.
- `countsSubscribers` says whether the generic emitter's `count` includes the internal mirror subscription.

Line 118 emits a falsy payload with no argument:

- A parsed or passed-through payload that is falsy (`null`, `undefined`, `false`, `0`, `""`) is emitted with no argument. Raw listeners therefore receive `payload: undefined` for it, not the original value (`Dispatch.FalsyPayloadEmittedBare`).

## Model

| member | source | states |
|---|---|---|
| Parsing.ParseFieldsSucceeds | packages/bridge/src/events/event-emitter/createMiniAppsEventEmitter.ts:104-107 | a `json(schema)` parse succeeds exactly when every field parser accepts the record's property (a missing property reads as `undefined`) |
| Parsing.ParseFieldsValues | packages/bridge/src/events/event-emitter/createMiniAppsEventEmitter.ts:104-107 | on success the result has exactly the schema's keys, each holding what its field parser returned |
| Parsing.ParseFieldsFailure | packages/bridge/src/events/event-emitter/createMiniAppsEventEmitter.ts:104-107 | a failure names the first rejected field, in schema order, with that field's own error |
| Parsing.JsonSpec | packages/bridge/src/events/event-emitter/createMiniAppsEventEmitter.ts:18-47 | the same facts for a whole value: a value that denotes no record fails with an unexpected-type error |
| EventParsers.ClipboardTextReceivedParsed | packages/bridge/src/events/event-emitter/createMiniAppsEventEmitter.ts:18-21 | succeeds iff the value is a record with a string `req_id` and a `data` that is `null`, a string or absent; the result keeps both values, so `null` stays `null` |
| EventParsers.CustomMethodInvokedParsed | packages/bridge/src/events/event-emitter/createMiniAppsEventEmitter.ts:22-26 | succeeds iff `req_id` is a string and `error` is absent or a string, whatever `result` is; `result` is returned unchanged |
| EventParsers.PopupClosedParsed | packages/bridge/src/events/event-emitter/createMiniAppsEventEmitter.ts:27-37 | a `null` or absent payload gives `{button_id: undefined}`; a `null` or absent `button_id` becomes `undefined`; any other `button_id` must be a string |
| EventParsers.ViewportChangedParsed | packages/bridge/src/events/event-emitter/createMiniAppsEventEmitter.ts:38-47 | succeeds iff `height` is a number, both flags are booleans and `width` is a number, `null` or absent; a `null`/absent width becomes the window's inner width; the other fields keep their values |
| EventParsers.ParsedPayloadIsRecord | packages/bridge/src/events/event-emitter/createMiniAppsEventEmitter.ts:117-118 | every payload a registered validator accepts is a record, so it is always emitted as an argument |
| EventParsers.LookupParser | packages/bridge/src/events/event-emitter/createMiniAppsEventEmitter.ts:114 | the intended lookup: a validator exactly for the four names the table defines, nothing inherited |
| EventParsers.LookupAsWritten | packages/bridge/src/events/event-emitter/createMiniAppsEventEmitter.ts:114 | the lookup as written: indexing a plain object finds an inherited non-validator exactly for the names of `Object.prototype` members |
| Dispatch.DecodeEnvelope | packages/bridge/src/events/event-emitter/createMiniAppsEventEmitter.ts:101-111 | a message is an envelope iff it denotes a record whose `eventType` is a string; the envelope holds that string and `eventData` as it is |
| Dispatch.Handle | packages/bridge/src/events/event-emitter/createMiniAppsEventEmitter.ts:95-126 | a message is ignored iff it is not from the parent or not an envelope; an emission carries the envelope's event type and at most one argument; a report carries the envelope and its event type |
| Dispatch.HandleAsWritten | packages/bridge/src/events/event-emitter/createMiniAppsEventEmitter.ts:95-126 | the listener with the lookup as written; it drops exactly the same messages |
| Dispatch.UnregisteredEventPassesThrough | packages/bridge/src/events/event-emitter/createMiniAppsEventEmitter.ts:113-118 | for an event type with no validator, `eventData` is emitted unchanged, as an argument iff it is truthy |
| Dispatch.RegisteredEventOutcome | packages/bridge/src/events/event-emitter/createMiniAppsEventEmitter.ts:116-125 | for an event type with a validator: a rejection gives exactly one diagnostic (type, envelope, cause) and no emission; an acceptance emits the parsed payload as the one argument |
| Dispatch.AsWrittenAgreesOffPrototype | packages/bridge/src/events/event-emitter/createMiniAppsEventEmitter.ts:114 | for any event type that is not an `Object.prototype` member name, the listener as written behaves as intended |
| Dispatch.PrototypeNameReportedAsWritten | packages/bridge/src/events/event-emitter/createMiniAppsEventEmitter.ts:114-125 | an envelope of type `toString` is reported as a failure by the code as written, but passed through by the intended lookup |
| Dispatch.NotifyTyped | packages/bridge/src/events/event-emitter/createMiniAppsEventEmitter.ts:118 | the typed listeners are called once each, in registration order, with the emitted arguments |
| Dispatch.NotifyRaw | packages/bridge/src/events/event-emitter/createMiniAppsEventEmitter.ts:69-71 | the raw listeners are called once each, in subscription order, with the mirrored event |
| Dispatch.EmissionReaches | packages/bridge/src/events/event-emitter/createMiniAppsEventEmitter.ts:69-71 | an emission reaches exactly the typed listeners of its name, and, while the mirror is subscribed, every raw listener with `{name, payload: args[0]}`, whether or not the name has typed listeners |
| Dispatch.FalsyPayloadEmittedBare | packages/bridge/src/events/event-emitter/createMiniAppsEventEmitter.ts:118 | a falsy payload reaches typed listeners as no argument and raw listeners as `undefined` |
| Dispatch.ClearedRegistriesDeliverNothing | packages/bridge/src/events/event-emitter/createMiniAppsEventEmitter.ts:128-129 | with both registries and the mirror cleared, handling a message calls no listener |
| Dispatch.ResizePayloadIsViewportEvent | packages/bridge/src/events/event-emitter/createMiniAppsEventEmitter.ts:85-92 | the synthetic resize payload is accepted by the `viewport_changed` validator and returned unchanged |
| Registry.ListenersFor | packages/bridge/src/events/event-emitter/createMiniAppsEventEmitter.ts:133 | a listener is in a name's list iff it was registered under that name |
| Registry.RemoveFirst | packages/bridge/src/events/event-emitter/createMiniAppsEventEmitter.ts:134 | removes one element when the listener is present and is a no-op when it is absent |
| Registry.FirstIndex | packages/bridge/src/events/event-emitter/createMiniAppsEventEmitter.ts:134 | the position of a registered listener's first occurrence: it holds the listener, and no earlier position does |
| Registry.RemoveFirstIsFirstAndKeepsOrder | packages/bridge/src/events/event-emitter/createMiniAppsEventEmitter.ts:138-140 | removal takes out the first occurrence of the listener, and every other element keeps its order |
| Registry.RemoveFirstKeepsOthers | packages/bridge/src/events/event-emitter/createMiniAppsEventEmitter.ts:138-140 | removal takes away exactly one occurrence of the listener and keeps every other element |
| Registry.ListenersAfterOn | packages/bridge/src/events/event-emitter/createMiniAppsEventEmitter.ts:133 | registering appends the listener to its own name's list and leaves other names' lists unchanged |
| Registry.ListenersAfterOff | packages/bridge/src/events/event-emitter/createMiniAppsEventEmitter.ts:134 | removing a registration removes the listener's first occurrence from its own name's list only |
| Registry.OffLeavesOtherNames | packages/bridge/src/events/event-emitter/createMiniAppsEventEmitter.ts:134 | removing a registration leaves every other name's list unchanged |
| MiniAppsEmitter.MiniAppsEventEmitter.constructor | packages/bridge/src/events/event-emitter/createMiniAppsEventEmitter.ts:53-130 | a new emitter has empty registries, the mirror subscribed, the shims and both window listeners attached, and the full cleanup list pending |
| MiniAppsEmitter.MiniAppsEventEmitter.Count | packages/bridge/src/events/event-emitter/createMiniAppsEventEmitter.ts:141-143 | `count`, the typed registry's count plus the raw registry's, is zero exactly when neither registry holds a listener and the mirror is not counted |
| MiniAppsEmitter.MiniAppsEventEmitter.Emit | packages/bridge/src/events/event-emitter/createMiniAppsEventEmitter.ts:69-71 | an emission adds exactly the typed deliveries and the mirrored raw deliveries to the log |
| MiniAppsEmitter.MiniAppsEventEmitter.HandleMessage | packages/bridge/src/events/event-emitter/createMiniAppsEventEmitter.ts:95-126 | the listener's effects are exactly those of `Handle`'s outcome; once the registries are cleared it can only log a diagnostic |
| MiniAppsEmitter.MiniAppsEventEmitter.OnResize | packages/bridge/src/events/event-emitter/createMiniAppsEventEmitter.ts:85-92 | each resize emits `viewport_changed` with the window's dimensions and both flags true, through the same emit path, so raw listeners see it too |
| MiniAppsEmitter.MiniAppsEventEmitter.On | packages/bridge/src/events/event-emitter/createMiniAppsEventEmitter.ts:133 | appends the listener to its name's list, changes no other list, and raises `count` by one |
| MiniAppsEmitter.MiniAppsEventEmitter.Off | packages/bridge/src/events/event-emitter/createMiniAppsEventEmitter.ts:134 | removes the listener from its name's list only; a listener not registered is a no-op; `count` drops by one iff it was registered |
| MiniAppsEmitter.MiniAppsEventEmitter.Subscribe | packages/bridge/src/events/event-emitter/createMiniAppsEventEmitter.ts:135-137 | appends a raw listener and raises `count` by one |
| MiniAppsEmitter.MiniAppsEventEmitter.Unsubscribe | packages/bridge/src/events/event-emitter/createMiniAppsEventEmitter.ts:138-140 | removes a raw listener; one not subscribed is a no-op |
| MiniAppsEmitter.MiniAppsEventEmitter.RunCleanup | packages/bridge/src/events/event-emitter/createMiniAppsEventEmitter.ts:77-130 | each cleanup step undoes exactly its own part of the setup |
| MiniAppsEmitter.MiniAppsEventEmitter.RunCleanups | packages/bridge/src/events/event-emitter/createMiniAppsEventEmitter.ts:77-130 | running a cleanup list logs each step in order; afterwards a part of the setup is gone exactly when the list held its step |
| MiniAppsEmitter.MiniAppsEventEmitter.Dispose | packages/bridge/src/events/event-emitter/createMiniAppsEventEmitter.ts:77-130 | the first call runs the cleanup list in order and leaves both registries and the mirror cleared, with `count` zero; a second call changes nothing |

## Findings

| source | as written | input that shows it | evidently intended | confidence | as-written member | corrected member |
|---|---|---|---|---|---|---|
| packages/bridge/src/events/event-emitter/createMiniAppsEventEmitter.ts:114 | `parsers[eventType]` indexes a plain object literal. Names of `Object.prototype` members find an inherited function, which is truthy and has no `parse`. The call throws and the message is reported as a failed validation. | `{eventType: "toString", eventData: 1}` from the parent window | an event type with no registered validator is emitted with its data unchanged | medium, not executed | Dispatch.PrototypeNameReportedAsWritten | Dispatch.UnregisteredEventPassesThrough |

The rest of the model uses the intended lookup, `EventParsers.LookupParser`.

## Left out

- The parsing library: its primitives are modelled as accepting exactly a value of their own kind (`.optional()` adds `undefined`). Any other coercion it may perform is not modelled. Whether `json()` decodes JSON text is a parameter (`TextDecoder`), not a claim.
- The record parser `json(schema)`: its behaviour is a modelling choice, because the library is not part of this model. The result holds exactly the schema's keys. Input keys outside the schema are dropped, and a key whose field parser returns `undefined` is kept with that value (as in `{button_id: undefined}`). The result equalities in the four per-event lemmas rest on this choice. "Other fields pass through" holds for the schema's fields.
- Arrays and numbers: the value type has no arrays, and numbers are integers. IEEE floating point (`NaN`, `-0`, fractions) is not modelled.
- The generic emitter's internal behaviour:
  - `on`'s `once` option is not modelled.
  - `off` removes the first matching registration; the library may differ.
  - Within one emission, the model calls typed listeners before the mirror. The library decides the relative order.
  - What a throwing listener does to its siblings is not modelled.
  - The model's listeners never throw, so an accepted event never produces a diagnostic. In the source, the `try` that covers parsing also covers `mainEmitter.emit`. If the library lets a listener's exception escape `emit`, the event is partly delivered and the exception is logged as a diagnostic.
  - A listener that subscribes or unsubscribes during a dispatch is not modelled.
- The return values of `on` and `subscribe` are not modelled. `on` is the library's `on`, bound to the typed emitter. `subscribe` returns what the library's `on` returns on the raw emitter.
- The window:
  - `window.parent`, `window.innerWidth`/`innerHeight` and `onWindow` are inputs, not I/O.
  - The model does not stop the window from invoking a detached listener. The attachment flags only record detachment.
- `defineEventHandlers`, `removeEventHandlers` and `createCleanup` are not part of this model beyond being abstract steps. Error isolation between cleanup steps is not asserted. The model runs the cleanup list at most once, so a second dispose does nothing. This is a modelling choice about `createCleanup`, whose code is not part of this model.
- The diagnostic's message text and the issue URL are not modelled; the diagnostic carries the event type, the envelope and the cause.
- MiniAppsEmitter.MiniAppsEventEmitter.Count: whether the library's `count` includes the internal mirror subscription is the `countsSubscribers` parameter. The model does not decide it.
