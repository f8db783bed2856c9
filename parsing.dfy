/**
 * The parsing primitives the bridge builds its validators from: `string()`,
 * `number()`, `boolean()`, `.optional()` and the record parser `json(schema)`.
 * Each primitive accepts exactly a value of its own kind. Whether the record
 * parser also decodes JSON text is left open: a string given where a record
 * is expected is handed to a `TextDecoder`, an input of the model.
 */
module Parsing {
  import opened Wrappers
  import opened JsValues

  /** Why a value was rejected: a wrong kind, possibly inside a named field. */
  datatype ParseError = UnexpectedType | InField(key: string, cause: ParseError)

  type FieldParser = Value -> Result<Value, ParseError>

  /** How the record parser reads JSON text, if it reads it at all. */
  type TextDecoder = string -> Option<map<string, Value>>

  /** `string()` */
  function StringValue(v: Value): Result<Value, ParseError>
  {
    if v.Str? then Success(v) else Failure(UnexpectedType)
  }

  /** `number()` */
  function NumberValue(v: Value): Result<Value, ParseError>
  {
    if v.Num? then Success(v) else Failure(UnexpectedType)
  }

  /** `boolean()` */
  function BooleanValue(v: Value): Result<Value, ParseError>
  {
    if v.Bool? then Success(v) else Failure(UnexpectedType)
  }

  /** `string().optional()`: `undefined` is accepted as itself. */
  function OptionalString(v: Value): Result<Value, ParseError>
  {
    if v.Undefined? then Success(v) else StringValue(v)
  }

  /** `(value) => value`: a field taken as it is. */
  function AnyValue(v: Value): Result<Value, ParseError>
  {
    Success(v)
  }

  /** One entry of a `json({...})` schema. */
  datatype Field = Field(key: string, parse: FieldParser)

  ghost predicate DistinctKeys(schema: seq<Field>)
  {
    forall i, j :: 0 <= i < j < |schema| ==> schema[i].key != schema[j].key
  }

  /** The record a value denotes: itself if it is one, or what the decoder reads from text. */
  function AsRecord(v: Value, decode: TextDecoder): Option<map<string, Value>>
  {
    match v
    case Obj(m) => Some(m)
    case Str(s) => decode(s)
    case _ => None
  }

  /** Property `key` of the record `v` denotes (`undefined` when it denotes none). */
  function Member(v: Value, decode: TextDecoder, key: string): Value
  {
    match AsRecord(v, decode)
    case Some(m) => Get(m, key)
    case None => Undefined
  }

  /** Runs each schema field's parser on the record's property, in schema order. */
  function ParseFields(m: map<string, Value>, schema: seq<Field>): Result<map<string, Value>, ParseError>
    decreases |schema|
  {
    if schema == [] then Success(map[])
    else
      var f := schema[0];
      match f.parse(Get(m, f.key))
      case Failure(e) => Failure(InField(f.key, e))
      case Success(x) =>
        match ParseFields(m, schema[1..])
        case Failure(e) => Failure(e)
        case Success(rest) => Success(rest[f.key := x])
  }

  /** `json(schema).parse(v)`: the result holds exactly the schema's keys. */
  function Json(v: Value, schema: seq<Field>, decode: TextDecoder): Result<Value, ParseError>
  {
    match AsRecord(v, decode)
    case None => Failure(UnexpectedType)
    case Some(m) =>
      match ParseFields(m, schema)
      case Failure(e) => Failure(e)
      case Success(out) => Success(Obj(out))
  }

  /** Every field parser accepts its property of `m`. */
  ghost predicate AllFieldsParse(m: map<string, Value>, schema: seq<Field>)
  {
    forall i :: 0 <= i < |schema| ==> schema[i].parse(Get(m, schema[i].key)).Success?
  }

  lemma TailDistinct(schema: seq<Field>)
    requires schema != [] && DistinctKeys(schema)
    ensures DistinctKeys(schema[1..])
  {
    var tail := schema[1..];
    forall i, j | 0 <= i < j < |tail| ensures tail[i].key != tail[j].key {
      assert tail[i] == schema[i + 1] && tail[j] == schema[j + 1];
    }
  }

  /** The record parser succeeds exactly when every field parser accepts its property. */
  lemma {:induction false} ParseFieldsSucceeds(m: map<string, Value>, schema: seq<Field>)
    ensures ParseFields(m, schema).Success? <==> AllFieldsParse(m, schema)
    decreases |schema|
  {
    if schema != [] {
      var tail := schema[1..];
      ParseFieldsSucceeds(m, tail);
      if AllFieldsParse(m, schema) {
        forall i | 0 <= i < |tail| ensures tail[i].parse(Get(m, tail[i].key)).Success? {
          assert tail[i] == schema[i + 1];
        }
      } else if schema[0].parse(Get(m, schema[0].key)).Success? {
        var i :| 0 <= i < |schema| && schema[i].parse(Get(m, schema[i].key)).Failure?;
        assert tail[i - 1] == schema[i];
      }
    }
  }

  /** On success each schema key holds what its parser returned, and there are no other keys. */
  lemma {:induction false} ParseFieldsValues(m: map<string, Value>, schema: seq<Field>)
    requires DistinctKeys(schema)
    requires ParseFields(m, schema).Success?
    ensures ParseFields(m, schema).value.Keys == (set i | 0 <= i < |schema| :: schema[i].key)
    ensures forall i :: 0 <= i < |schema| ==>
              && schema[i].parse(Get(m, schema[i].key)).Success?
              && ParseFields(m, schema).value[schema[i].key] == schema[i].parse(Get(m, schema[i].key)).value
    decreases |schema|
  {
    ParseFieldsSucceeds(m, schema);
    if schema != [] {
      var tail := schema[1..];
      TailDistinct(schema);
      ParseFieldsValues(m, tail);
      var f := schema[0];
      var rest := ParseFields(m, tail).value;
      var out := ParseFields(m, schema).value;
      assert out == rest[f.key := f.parse(Get(m, f.key)).value];
      forall k | k in out.Keys ensures k in (set i | 0 <= i < |schema| :: schema[i].key) {
        if k != f.key {
          var i :| 0 <= i < |tail| && tail[i].key == k;
          assert schema[i + 1].key == k;
        }
      }
      forall i | 0 <= i < |schema|
        ensures schema[i].key in out.Keys
        ensures schema[i].parse(Get(m, schema[i].key)).Success?
        ensures out[schema[i].key] == schema[i].parse(Get(m, schema[i].key)).value
      {
        if i > 0 {
          assert tail[i - 1] == schema[i];
          assert schema[i].key != f.key;
        }
      }
    }
  }

  /** A failure names the first field, in schema order, that was rejected. */
  lemma {:induction false} ParseFieldsFailure(m: map<string, Value>, schema: seq<Field>)
    requires ParseFields(m, schema).Failure?
    ensures exists i :: && 0 <= i < |schema|
                        && schema[i].parse(Get(m, schema[i].key)).Failure?
                        && ParseFields(m, schema).error == InField(schema[i].key, schema[i].parse(Get(m, schema[i].key)).error)
                        && forall j :: 0 <= j < i ==> schema[j].parse(Get(m, schema[j].key)).Success?
    decreases |schema|
  {
    var f := schema[0];
    var head := f.parse(Get(m, f.key));
    if head.Success? {
      var tail := schema[1..];
      ParseFieldsFailure(m, tail);
      var i :| && 0 <= i < |tail|
               && tail[i].parse(Get(m, tail[i].key)).Failure?
               && ParseFields(m, tail).error == InField(tail[i].key, tail[i].parse(Get(m, tail[i].key)).error)
               && forall j :: 0 <= j < i ==> tail[j].parse(Get(m, tail[j].key)).Success?;
      assert schema[i + 1] == tail[i];
      forall j | 0 <= j < i + 1 ensures schema[j].parse(Get(m, schema[j].key)).Success? {
        if j > 0 { assert schema[j] == tail[j - 1]; }
      }
    } else {
      assert 0 < |schema| && ParseFields(m, schema).error == InField(f.key, head.error);
    }
  }

  /** `json(schema)` on a value: the record-level consequence of ParseFieldsSucceeds and ParseFieldsValues. */
  lemma JsonSpec(v: Value, schema: seq<Field>, decode: TextDecoder)
    requires DistinctKeys(schema)
    ensures Json(v, schema, decode).Success? <==>
              && AsRecord(v, decode).Some?
              && forall i :: 0 <= i < |schema| ==> schema[i].parse(Member(v, decode, schema[i].key)).Success?
    ensures Json(v, schema, decode).Success? ==>
              && Json(v, schema, decode).value.Obj?
              && Json(v, schema, decode).value.fields.Keys == (set i | 0 <= i < |schema| :: schema[i].key)
              && forall i :: 0 <= i < |schema| ==>
                   && schema[i].parse(Member(v, decode, schema[i].key)).Success?
                   && Json(v, schema, decode).value.fields[schema[i].key] == schema[i].parse(Member(v, decode, schema[i].key)).value
    ensures AsRecord(v, decode).None? ==> Json(v, schema, decode) == Failure(UnexpectedType)
  {
    if AsRecord(v, decode).Some? {
      var m := AsRecord(v, decode).value;
      ParseFieldsSucceeds(m, schema);
      if ParseFields(m, schema).Success? {
        ParseFieldsValues(m, schema);
      }
    }
  }
}
