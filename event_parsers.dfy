/**
 * The validators the bridge registers for the Mini Apps events whose payloads
 * the host is known to send in irregular shapes, and the lookup of a
 * validator by event name.
 */
module EventParsers {
  import opened Wrappers
  import opened JsValues
  import opened Parsing

  /** The events that have a registered validator. */
  datatype EventParser =
    | ClipboardTextReceived
    | CustomMethodInvoked
    | PopupClosed
    | ViewportChanged

  /** `data` of `clipboard_text_received`: `null` is kept, otherwise an optional string. */
  function ClipboardData(v: Value): Result<Value, ParseError>
  {
    if v.Null? then Success(v) else OptionalString(v)
  }

  /** `button_id` of `popup_closed`: `null` and `undefined` both mean no button. */
  function PopupButtonId(v: Value): Result<Value, ParseError>
  {
    if Nullish(v) then Success(Undefined) else StringValue(v)
  }

  /** `width` of `viewport_changed`: a missing width is the window's inner width. */
  function ViewportWidth(innerWidth: int): FieldParser
  {
    (v: Value) => if Nullish(v) then Success(Num(innerWidth)) else NumberValue(v)
  }

  function ClipboardSchema(): seq<Field>
  {
    [Field("req_id", StringValue), Field("data", ClipboardData)]
  }

  function CustomMethodSchema(): seq<Field>
  {
    [Field("req_id", StringValue), Field("result", AnyValue), Field("error", OptionalString)]
  }

  function PopupSchema(): seq<Field>
  {
    [Field("button_id", PopupButtonId)]
  }

  function ViewportSchema(innerWidth: int): seq<Field>
  {
    [ Field("height", NumberValue), Field("width", ViewportWidth(innerWidth)),
      Field("is_state_stable", BooleanValue), Field("is_expanded", BooleanValue) ]
  }

  /** `parsers[name].parse(v)`, with the window's inner width read at parse time. */
  function Parse(p: EventParser, v: Value, decode: TextDecoder, innerWidth: int): Result<Value, ParseError>
  {
    match p
    case ClipboardTextReceived => Json(v, ClipboardSchema(), decode)
    case CustomMethodInvoked => Json(v, CustomMethodSchema(), decode)
    case PopupClosed => Json(if Nullish(v) then Obj(map[]) else v, PopupSchema(), decode)
    case ViewportChanged => Json(v, ViewportSchema(innerWidth), decode)
  }

  /** The names the `parsers` table defines itself. */
  function OwnParser(name: string): Option<EventParser>
  {
    match name
    case "clipboard_text_received" => Some(ClipboardTextReceived)
    case "custom_method_invoked" => Some(CustomMethodInvoked)
    case "popup_closed" => Some(PopupClosed)
    case "viewport_changed" => Some(ViewportChanged)
    case _ => None
  }

  /**
   * What `parsers[name]` yields: a registered validator, a member every plain
   * object inherits (truthy, but with no `parse`), or nothing.
   */
  datatype Lookup = Registered(parser: EventParser) | Inherited | Missing

  /** The properties a plain object literal inherits from `Object.prototype`. */
  const ObjectPrototypeMembers: set<string> :=
    { "constructor", "hasOwnProperty", "isPrototypeOf", "propertyIsEnumerable",
      "toLocaleString", "toString", "valueOf", "__proto__",
      "__defineGetter__", "__defineSetter__", "__lookupGetter__", "__lookupSetter__" }

  /** The lookup as the source writes it: an indexing of a plain object literal. */
  function LookupAsWritten(name: string): (r: Lookup)
    ensures r.Inherited? <==> OwnParser(name).None? && name in ObjectPrototypeMembers
  {
    match OwnParser(name)
    case Some(p) => Registered(p)
    case None => if name in ObjectPrototypeMembers then Inherited else Missing
  }

  /** The lookup as intended: only the table's own entries are validators. */
  function LookupParser(name: string): (r: Lookup)
    ensures !r.Inherited?
    ensures r.Registered? <==> OwnParser(name).Some?
  {
    match OwnParser(name)
    case Some(p) => Registered(p)
    case None => Missing
  }

  lemma ClipboardSchemaFacts()
    ensures DistinctKeys(ClipboardSchema())
    ensures (set i | 0 <= i < |ClipboardSchema()| :: ClipboardSchema()[i].key) == {"req_id", "data"}
  {
    var s := ClipboardSchema();
    assert s[0].key == "req_id" && s[1].key == "data";
  }

  /**
   * `clipboard_text_received`: a string `req_id` is required; `data` may be
   * `null` (kept), a string or absent, and any other kind fails.
   */
  lemma ClipboardTextReceivedParsed(v: Value, decode: TextDecoder, innerWidth: int)
    ensures Parse(ClipboardTextReceived, v, decode, innerWidth).Success? <==>
              && AsRecord(v, decode).Some?
              && Member(v, decode, "req_id").Str?
              && (Member(v, decode, "data").Null? || Member(v, decode, "data").Str? || Member(v, decode, "data").Undefined?)
    ensures Parse(ClipboardTextReceived, v, decode, innerWidth).Success? ==>
              Parse(ClipboardTextReceived, v, decode, innerWidth).value ==
                Obj(map["req_id" := Member(v, decode, "req_id"), "data" := Member(v, decode, "data")])
  {
    var s := ClipboardSchema();
    ClipboardSchemaFacts();
    JsonSpec(v, s, decode);
    assert s[0] == Field("req_id", StringValue) && s[1] == Field("data", ClipboardData);
    if Json(v, s, decode).Success? {
      var out := Json(v, s, decode).value.fields;
      assert out["req_id"] == s[0].parse(Member(v, decode, "req_id")).value;
      assert out["data"] == s[1].parse(Member(v, decode, "data")).value;
      assert out == map["req_id" := Member(v, decode, "req_id"), "data" := Member(v, decode, "data")];
    } else if AsRecord(v, decode).Some? {
      var i :| 0 <= i < |s| && s[i].parse(Member(v, decode, s[i].key)).Failure?;
      assert i == 0 || i == 1;
    }
  }

  lemma CustomMethodSchemaFacts()
    ensures DistinctKeys(CustomMethodSchema())
    ensures (set i | 0 <= i < |CustomMethodSchema()| :: CustomMethodSchema()[i].key) == {"req_id", "result", "error"}
  {
    var s := CustomMethodSchema();
    assert s[0].key == "req_id" && s[1].key == "result" && s[2].key == "error";
  }

  /**
   * `custom_method_invoked`: a string `req_id` is required, `result` is kept
   * whatever its shape (absent included), and `error` is absent or a string.
   */
  lemma CustomMethodInvokedParsed(v: Value, decode: TextDecoder, innerWidth: int)
    ensures Parse(CustomMethodInvoked, v, decode, innerWidth).Success? <==>
              && AsRecord(v, decode).Some?
              && Member(v, decode, "req_id").Str?
              && (Member(v, decode, "error").Undefined? || Member(v, decode, "error").Str?)
    ensures Parse(CustomMethodInvoked, v, decode, innerWidth).Success? ==>
              Parse(CustomMethodInvoked, v, decode, innerWidth).value ==
                Obj(map[ "req_id" := Member(v, decode, "req_id"),
                         "result" := Member(v, decode, "result"),
                         "error" := Member(v, decode, "error") ])
  {
    var s := CustomMethodSchema();
    CustomMethodSchemaFacts();
    JsonSpec(v, s, decode);
    assert s[0] == Field("req_id", StringValue) && s[1] == Field("result", AnyValue) && s[2] == Field("error", OptionalString);
    if Json(v, s, decode).Success? {
      var out := Json(v, s, decode).value.fields;
      assert out["req_id"] == s[0].parse(Member(v, decode, "req_id")).value;
      assert out["result"] == s[1].parse(Member(v, decode, "result")).value;
      assert out["error"] == s[2].parse(Member(v, decode, "error")).value;
      assert out == map[ "req_id" := Member(v, decode, "req_id"),
                         "result" := Member(v, decode, "result"),
                         "error" := Member(v, decode, "error") ];
    } else if AsRecord(v, decode).Some? {
      var i :| 0 <= i < |s| && s[i].parse(Member(v, decode, s[i].key)).Failure?;
      assert i == 0 || i == 2;
    }
  }

  lemma PopupSchemaFacts()
    ensures DistinctKeys(PopupSchema())
    ensures (set i | 0 <= i < |PopupSchema()| :: PopupSchema()[i].key) == {"button_id"}
  {
    assert PopupSchema()[0].key == "button_id";
  }

  /**
   * `popup_closed`: a `null` or absent payload reads as `{}`; a `null` or
   * absent `button_id` becomes `undefined`; any other `button_id` must be a
   * string.
   */
  lemma PopupClosedParsed(v: Value, decode: TextDecoder, innerWidth: int)
    ensures Nullish(v) ==> Parse(PopupClosed, v, decode, innerWidth) == Success(Obj(map["button_id" := Undefined]))
    ensures !Nullish(v) ==>
              (Parse(PopupClosed, v, decode, innerWidth).Success? <==>
                 && AsRecord(v, decode).Some?
                 && (Nullish(Member(v, decode, "button_id")) || Member(v, decode, "button_id").Str?))
    ensures Parse(PopupClosed, v, decode, innerWidth).Success? ==>
              Parse(PopupClosed, v, decode, innerWidth).value ==
                Obj(map["button_id" := if Nullish(v) || Nullish(Member(v, decode, "button_id")) then Undefined
                                       else Member(v, decode, "button_id")])
  {
    var s := PopupSchema();
    var u := if Nullish(v) then Obj(map[]) else v;
    PopupSchemaFacts();
    JsonSpec(u, s, decode);
    assert s[0] == Field("button_id", PopupButtonId);
    if Json(u, s, decode).Success? {
      var out := Json(u, s, decode).value.fields;
      assert out["button_id"] == s[0].parse(Member(u, decode, "button_id")).value;
      assert out == map["button_id" := out["button_id"]];
    }
  }

  lemma ViewportSchemaFacts(innerWidth: int)
    ensures DistinctKeys(ViewportSchema(innerWidth))
    ensures (set i | 0 <= i < |ViewportSchema(innerWidth)| :: ViewportSchema(innerWidth)[i].key)
              == {"height", "width", "is_state_stable", "is_expanded"}
  {
    var s := ViewportSchema(innerWidth);
    assert s[0].key == "height" && s[1].key == "width" && s[2].key == "is_state_stable" && s[3].key == "is_expanded";
  }

  /**
   * `viewport_changed`: `height` must be a number and both flags booleans; a
   * `null` or absent `width` is replaced by the window's inner width, any
   * other `width` must be a number; the other fields keep their values.
   */
  lemma ViewportChangedParsed(v: Value, decode: TextDecoder, innerWidth: int)
    ensures Parse(ViewportChanged, v, decode, innerWidth).Success? <==>
              && AsRecord(v, decode).Some?
              && Member(v, decode, "height").Num?
              && (Nullish(Member(v, decode, "width")) || Member(v, decode, "width").Num?)
              && Member(v, decode, "is_state_stable").Bool?
              && Member(v, decode, "is_expanded").Bool?
    ensures Parse(ViewportChanged, v, decode, innerWidth).Success? ==>
              Parse(ViewportChanged, v, decode, innerWidth).value ==
                Obj(map[ "height" := Member(v, decode, "height"),
                         "width" := if Nullish(Member(v, decode, "width")) then Num(innerWidth)
                                    else Member(v, decode, "width"),
                         "is_state_stable" := Member(v, decode, "is_state_stable"),
                         "is_expanded" := Member(v, decode, "is_expanded") ])
  {
    var s := ViewportSchema(innerWidth);
    ViewportSchemaFacts(innerWidth);
    JsonSpec(v, s, decode);
    assert s[0] == Field("height", NumberValue) && s[1] == Field("width", ViewportWidth(innerWidth));
    assert s[2] == Field("is_state_stable", BooleanValue) && s[3] == Field("is_expanded", BooleanValue);
    if Json(v, s, decode).Success? {
      var out := Json(v, s, decode).value.fields;
      assert out["height"] == s[0].parse(Member(v, decode, "height")).value;
      assert out["width"] == s[1].parse(Member(v, decode, "width")).value;
      assert out["is_state_stable"] == s[2].parse(Member(v, decode, "is_state_stable")).value;
      assert out["is_expanded"] == s[3].parse(Member(v, decode, "is_expanded")).value;
      assert out == map[ "height" := out["height"], "width" := out["width"],
                         "is_state_stable" := out["is_state_stable"], "is_expanded" := out["is_expanded"] ];
    } else if AsRecord(v, decode).Some? {
      var i :| 0 <= i < |s| && s[i].parse(Member(v, decode, s[i].key)).Failure?;
      assert 0 <= i < 4;
    }
  }

  /** Every payload a registered validator accepts is a record, hence truthy. */
  lemma {:induction false} ParsedPayloadIsRecord(p: EventParser, v: Value, decode: TextDecoder, innerWidth: int)
    ensures Parse(p, v, decode, innerWidth).Success? ==>
              Parse(p, v, decode, innerWidth).value.Obj? && Truthy(Parse(p, v, decode, innerWidth).value)
  {
  }
}
