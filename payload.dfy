/**
 * Raw record payloads and the field-level validation that the schema
 * declarations of the record classes ask for: a required field, an optional
 * field defaulting to None, a field with a literal default, and what happens
 * to keys the class does not declare.
 */
module Payload {
  import opened Wrappers

  /** A JSON-like field value as it arrives in a raw mapping. */
  datatype Value =
    | Null
    | Bool(b: bool)
    | Int(i: int)
    | Str(s: string)
    | List(items: seq<Value>)
    | Object(fields: map<string, Value>)

  /** A raw mapping from field names to values, the input of every record constructor. */
  type Raw = map<string, Value>

  /** One validation failure, located by field name. */
  datatype FieldError =
    | Missing(field: string)
    | WrongType(field: string)
    | Forbidden(field: string)
    | Inside(field: string, cause: FieldError)

  /** Validation reports every failing field at once. */
  type Errors = set<FieldError>

  /** What a record does with keys it does not declare (the `extra` setting of its config). */
  datatype ExtraPolicy = Allow | Forbid

  /** A required string field. */
  function RequiredStr(raw: Raw, key: string): (r: Result<string, Errors>)
    ensures r.Err? ==> r.error == {if key in raw then WrongType(key) else Missing(key)}
  {
    if key !in raw then Err({Missing(key)})
    else if raw[key].Str? then Ok(raw[key].s)
    else Err({WrongType(key)})
  }

  /** A string field whose default is None; an explicit null also reads as None. */
  function OptionalStr(raw: Raw, key: string): (r: Result<Option<string>, Errors>)
    ensures r.Ok? && key in raw ==> OptStrValue(r.value) == raw[key]
    ensures r.Err? ==> r.error == {WrongType(key)}
  {
    if key !in raw || raw[key].Null? then Ok(None)
    else if raw[key].Str? then Ok(Some(raw[key].s))
    else Err({WrongType(key)})
  }

  /** A dictionary field whose default is None. */
  function OptionalObject(raw: Raw, key: string): (r: Result<Option<Raw>, Errors>)
    ensures r.Ok? && key in raw ==> OptObjectValue(r.value) == raw[key]
    ensures r.Err? ==> r.error == {WrongType(key)}
  {
    if key !in raw || raw[key].Null? then Ok(None)
    else if raw[key].Object? then Ok(Some(raw[key].fields))
    else Err({WrongType(key)})
  }

  /** A boolean field with a literal default; null is not a boolean. */
  function BoolOr(raw: Raw, key: string, default: bool): (r: Result<bool, Errors>)
    ensures r.Ok? && key in raw ==> Bool(r.value) == raw[key]
    ensures r.Err? ==> r.error == {WrongType(key)}
  {
    if key !in raw then Ok(default)
    else if raw[key].Bool? then Ok(raw[key].b)
    else Err({WrongType(key)})
  }

  /** The errors a field check raised, none when it passed. */
  function ErrorsOf<T>(r: Result<T, Errors>): (es: Errors)
    ensures r.Ok? ==> es == {}
    ensures r.Err? ==> es == r.error
  {
    if r.Err? then r.error else {}
  }

  /** A field of any type with a default; every value is accepted. */
  function AnyOr(raw: Raw, key: string, default: Value): Value
  {
    if key in raw then raw[key] else default
  }

  /** The keys of `raw` that the record does not declare, with their values. */
  function Undeclared(raw: Raw, declared: set<string>): (u: Raw)
    ensures u.Keys == raw.Keys - declared
    ensures forall k :: k in u ==> u[k] == raw[k]
  {
    raw - declared
  }

  /** The errors an extra policy raises for undeclared keys. */
  function ExtraErrors(policy: ExtraPolicy, raw: Raw, declared: set<string>): (es: Errors)
    ensures policy == Forbid ==> forall k :: k in raw && k !in declared ==> Forbidden(k) in es
    ensures policy != Forbid ==> es == {}
    ensures forall e :: e in es ==> e.Forbidden? && e.field in raw && e.field !in declared
  {
    if policy == Forbid then set k | k in raw.Keys && k !in declared :: Forbidden(k) else {}
  }

  /** The undeclared keys a record keeps under an extra policy. */
  function KeptExtras(policy: ExtraPolicy, raw: Raw, declared: set<string>): Raw
  {
    if policy == Allow then Undeclared(raw, declared) else map[]
  }

  /** Errors raised by a nested record, relocated under the field that holds it. */
  function Relocate(key: string, es: Errors): (r: Errors)
    ensures forall e :: e in es ==> Inside(key, e) in r
    ensures forall x :: x in r ==> x.Inside? && x.field == key && x.cause in es
    ensures |es| > 0 ==> |r| > 0
  {
    var r := set e | e in es :: Inside(key, e);
    if |es| > 0 then
      var e :| e in es;
      assert Inside(key, e) in r;
      r
    else r
  }

  /** The value an optional string dumps to. */
  function OptStrValue(o: Option<string>): Value
  {
    if o.Some? then Str(o.value) else Null
  }

  /** The value an optional dictionary dumps to. */
  function OptObjectValue(o: Option<Raw>): Value
  {
    if o.Some? then Object(o.value) else Null
  }
}
