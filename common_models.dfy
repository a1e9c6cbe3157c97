/**
 * The shared records of the QCSchema model layer: the driver enumeration and
 * its derivative order, provenance and model specifications (open records that
 * keep undeclared keys), the error record and the failed-operation record with
 * their fixed string renderings.
 */
module CommonModels {
  import opened Wrappers
  import opened Payload

  // ---------------------------------------------------------------------------
  // List lookup
  // ---------------------------------------------------------------------------

  /** Python's `list.index`: the first position of `x`; None where Python raises ValueError. */
  function IndexOf<T(==)>(xs: seq<T>, x: T): (r: Option<nat>)
    ensures r.None? <==> x !in xs
    ensures r.Some? ==> r.value < |xs| && xs[r.value] == x
    ensures r.Some? ==> forall j :: 0 <= j < r.value ==> xs[j] != x
    decreases |xs|
  {
    if |xs| == 0 then None
    else if xs[0] == x then Some(0)
    else
      match IndexOf(xs[1..], x)
      case None => None
      case Some(i) => Some(i + 1)
  }

  // ---------------------------------------------------------------------------
  // DriverEnum
  // ---------------------------------------------------------------------------

  /** The allowed quantum chemistry drivers. */
  datatype Driver = Energy | Gradient | Hessian | Properties

  const AllDrivers: seq<Driver> := [Energy, Gradient, Hessian, Properties]

  /** The member's declared name; each name belongs to exactly one member. */
  function DriverName(d: Driver): (r: string)
    ensures r == "energy" <==> d == Energy
    ensures r == "gradient" <==> d == Gradient
    ensures r == "hessian" <==> d == Hessian
    ensures r == "properties" <==> d == Properties
  {
    match d
    case Energy => "energy"
    case Gradient => "gradient"
    case Hessian => "hessian"
    case Properties => "properties"
  }

  /** The member's string value (the enumeration is also a `str`): each member is valued by its own name. */
  function DriverValue(d: Driver): (r: string)
    ensures r == DriverName(d)
  {
    match d
    case Energy => "energy"
    case Gradient => "gradient"
    case Hessian => "hessian"
    case Properties => "properties"
  }

  /** Looking a member up by value; None where the enumeration rejects the string. */
  function ParseDriver(s: string): (r: Option<Driver>)
    ensures r.Some? ==> DriverValue(r.value) == s
    ensures r.None? ==> forall d: Driver :: DriverValue(d) != s
  {
    if s == "energy" then Some(Energy)
    else if s == "gradient" then Some(Gradient)
    else if s == "hessian" then Some(Hessian)
    else if s == "properties" then Some(Properties)
    else None
  }

  /** The derivative orders by name, as listed in `derivative_int`. */
  const Egh: seq<string> := ["energy", "gradient", "hessian", "third", "fourth", "fifth"]

  /**
   * `derivative_int`: `properties` is 0, every other member its position in
   * `Egh`. None stands for the ValueError `list.index` would raise; the
   * contract shows it never happens.
   */
  function DerivativeInt(d: Driver): (r: Option<nat>)
    ensures r.Some? && r.value <= 2
    ensures d == Properties ==> r.value == 0
    ensures d != Properties ==> r.value < |Egh| && Egh[r.value] == DriverValue(d)
  {
    if DriverValue(d) == "properties" then Some(0)
    else IndexOf(Egh, DriverValue(d))
  }

  /** The exact table of derivative orders. */
  lemma DerivativeIntTable()
    ensures DerivativeInt(Energy) == Some(0)
    ensures DerivativeInt(Gradient) == Some(1)
    ensures DerivativeInt(Hessian) == Some(2)
    ensures DerivativeInt(Properties) == Some(0)
  {
  }

  /** Without its special case `properties` would fail: it is not in `Egh`. */
  lemma PropertiesNotInEgh()
    ensures IndexOf(Egh, DriverValue(Properties)) == None
  {
  }

  /** The `third`, `fourth` and `fifth` entries of `Egh` name no member. */
  lemma HigherOrdersUnreachable()
    ensures forall i :: 3 <= i < |Egh| ==> ParseDriver(Egh[i]) == None
  {
  }

  /** The enumeration has exactly four members, distinct, each valued by its own name. */
  lemma DriverMembers()
    ensures |AllDrivers| == 4
    ensures forall d: Driver :: d in AllDrivers
    ensures forall i, j :: 0 <= i < j < |AllDrivers| ==> DriverValue(AllDrivers[i]) != DriverValue(AllDrivers[j])
    ensures forall d: Driver :: DriverName(d) == DriverValue(d)
  {
    forall d: Driver ensures d in AllDrivers {
      match d
      case Energy => assert AllDrivers[0] == d;
      case Gradient => assert AllDrivers[1] == d;
      case Hessian => assert AllDrivers[2] == d;
      case Properties => assert AllDrivers[3] == d;
    }
  }

  /** Looking up a member by its own value gives it back. */
  lemma DriverRoundTrip(d: Driver)
    ensures ParseDriver(DriverValue(d)) == Some(d)
  {
  }

  // ---------------------------------------------------------------------------
  // Field presence helpers
  // ---------------------------------------------------------------------------

  /** The key is absent, null, or a string. */
  predicate StrOrNull(raw: Raw, key: string)
  {
    key !in raw || raw[key].Null? || raw[key].Str?
  }

  /** The key is absent, null, or a dictionary. */
  predicate ObjectOrNull(raw: Raw, key: string)
  {
    key !in raw || raw[key].Null? || raw[key].Object?
  }

  /** The key is present and a string. */
  predicate IsStr(raw: Raw, key: string)
  {
    key in raw && raw[key].Str?
  }

  /** The key is absent or a boolean. */
  predicate BoolOrAbsent(raw: Raw, key: string)
  {
    key !in raw || raw[key].Bool?
  }

  /**
   * The `extra` setting of the common base record class, which is not part of
   * this model; the records below that do not override it reject undeclared keys.
   */
  const BaseModelPolicy: ExtraPolicy := Forbid

  /** The `extra = "allow"` setting that Provenance and Model declare. */
  const OpenRecordPolicy: ExtraPolicy := Allow

  // ---------------------------------------------------------------------------
  // Provenance (open record)
  // ---------------------------------------------------------------------------

  datatype Provenance = Provenance(creator: string, version: Option<string>, routine: Option<string>, undeclared: Raw)

  const ProvenanceFields: set<string> := {"creator", "version", "routine"}

  /** Undeclared keys never shadow a declared field. */
  predicate ProvenanceValid(p: Provenance)
  {
    p.undeclared.Keys !! ProvenanceFields
  }

  /** An error reported for a Provenance input names a field that actually fails its check. */
  predicate ProvenanceErrorJustified(raw: Raw, e: FieldError)
  {
    || (e == Missing("creator") && "creator" !in raw)
    || (e == WrongType("creator") && "creator" in raw && !IsStr(raw, "creator"))
    || (e == WrongType("version") && !StrOrNull(raw, "version"))
    || (e == WrongType("routine") && !StrOrNull(raw, "routine"))
  }

  /** Validating a raw mapping as Provenance: `creator` is required, the rest default to None, extras are kept. */
  function ParseProvenance(raw: Raw): (r: Result<Provenance, Errors>)
    ensures r.Ok? <==> "creator" in raw && raw["creator"].Str? && StrOrNull(raw, "version") && StrOrNull(raw, "routine")
    ensures r.Err? ==> |r.error| > 0
    ensures "creator" in raw && !IsStr(raw, "creator") ==> r.Err? && WrongType("creator") in r.error
    ensures !StrOrNull(raw, "version") ==> r.Err? && WrongType("version") in r.error
    ensures !StrOrNull(raw, "routine") ==> r.Err? && WrongType("routine") in r.error
    ensures "creator" !in raw ==> r.Err? && Missing("creator") in r.error
    ensures r.Ok? ==> ProvenanceValid(r.value) && "creator" in raw && raw["creator"] == Str(r.value.creator)
    ensures r.Ok? ==> ("version" !in raw ==> r.value.version == None) && ("routine" !in raw ==> r.value.routine == None)
    ensures r.Ok? ==> ("version" in raw ==> OptStrValue(r.value.version) == raw["version"])
    ensures r.Ok? ==> ("routine" in raw ==> OptStrValue(r.value.routine) == raw["routine"])
    ensures r.Ok? ==> r.value.undeclared.Keys == raw.Keys - ProvenanceFields
    ensures r.Ok? ==> forall k :: k in r.value.undeclared ==> r.value.undeclared[k] == raw[k]
  {
    var creator := RequiredStr(raw, "creator");
    var version := OptionalStr(raw, "version");
    var routine := OptionalStr(raw, "routine");
    var extra := ExtraErrors(OpenRecordPolicy, raw, ProvenanceFields);
    if creator.Ok? && version.Ok? && routine.Ok? && extra == {} then
      Ok(Provenance(creator.value, version.value, routine.value, KeptExtras(OpenRecordPolicy, raw, ProvenanceFields)))
    else
      Err(ErrorsOf(creator)
        + ErrorsOf(version)
        + ErrorsOf(routine)
        + extra)
  }

  /** Every reported error names a field that actually fails its check. */
  lemma ProvenanceErrorsJustified(raw: Raw)
    requires ParseProvenance(raw).Err?
    ensures forall e :: e in ParseProvenance(raw).error ==> ProvenanceErrorJustified(raw, e)
  {
    var creator := RequiredStr(raw, "creator");
    var version := OptionalStr(raw, "version");
    var routine := OptionalStr(raw, "routine");
    assert ExtraErrors(OpenRecordPolicy, raw, ProvenanceFields) == {};
    assert ParseProvenance(raw).error == ErrorsOf(creator) + ErrorsOf(version) + ErrorsOf(routine);
    forall e | e in ParseProvenance(raw).error
      ensures ProvenanceErrorJustified(raw, e)
    {
      if e in ErrorsOf(creator) {
        assert e == Missing("creator") || e == WrongType("creator");
      } else if e in ErrorsOf(version) {
        assert e == WrongType("version");
      } else {
        assert e == WrongType("routine");
      }
    }
  }

  /** The mapping a Provenance record dumps to: declared fields plus the kept extras. */
  function DumpProvenance(p: Provenance): (r: Raw)
    ensures r.Keys == ProvenanceFields + p.undeclared.Keys
    ensures r["creator"] == Str(p.creator)
    ensures r["version"] == OptStrValue(p.version) && r["routine"] == OptStrValue(p.routine)
    ensures forall k :: k in p.undeclared && k !in ProvenanceFields ==> r[k] == p.undeclared[k]
  {
    p.undeclared + map["creator" := Str(p.creator), "version" := OptStrValue(p.version), "routine" := OptStrValue(p.routine)]
  }

  /** Dumping and validating again gives back the same record. */
  lemma ProvenanceRoundTrip(p: Provenance)
    requires ProvenanceValid(p)
    ensures ParseProvenance(DumpProvenance(p)) == Ok(p)
  {
    var raw := DumpProvenance(p);
    assert RequiredStr(raw, "creator") == Ok(p.creator);
    assert OptionalStr(raw, "version") == Ok(p.version);
    assert OptionalStr(raw, "routine") == Ok(p.routine);
    assert Undeclared(raw, ProvenanceFields).Keys == p.undeclared.Keys;
    assert Undeclared(raw, ProvenanceFields) == p.undeclared;
  }

  /** A validated record's dump agrees with its input on every input key, extras included. */
  lemma ProvenanceDumpKeepsInput(raw: Raw)
    requires ParseProvenance(raw).Ok?
    ensures forall k :: k in raw ==>
      (k in DumpProvenance(ParseProvenance(raw).value) && DumpProvenance(ParseProvenance(raw).value)[k] == raw[k])
  {
  }

  /** Validation is idempotent through a dump. */
  lemma ProvenanceIdempotent(raw: Raw)
    requires ParseProvenance(raw).Ok?
    ensures ParseProvenance(DumpProvenance(ParseProvenance(raw).value)) == ParseProvenance(raw)
  {
    ProvenanceRoundTrip(ParseProvenance(raw).value);
  }

  // ---------------------------------------------------------------------------
  // Model (open record)
  // ---------------------------------------------------------------------------

  datatype Model = Model(method_: string, basis: Option<string>, undeclared: Raw)

  const ModelFields: set<string> := {"method", "basis"}

  /** Undeclared keys never shadow a declared field. */
  predicate ModelValid(m: Model)
  {
    m.undeclared.Keys !! ModelFields
  }

  /** An error reported for a Model input names a field that actually fails its check. */
  predicate ModelErrorJustified(raw: Raw, e: FieldError)
  {
    || (e == Missing("method") && "method" !in raw)
    || (e == WrongType("method") && "method" in raw && !IsStr(raw, "method"))
    || (e == WrongType("basis") && !StrOrNull(raw, "basis"))
  }

  /** Validating a raw mapping as Model: `method` is required, `basis` defaults to None, extras are kept. */
  function ParseModel(raw: Raw): (r: Result<Model, Errors>)
    ensures r.Ok? <==> "method" in raw && raw["method"].Str? && StrOrNull(raw, "basis")
    ensures r.Err? ==> |r.error| > 0
    ensures "method" in raw && !IsStr(raw, "method") ==> r.Err? && WrongType("method") in r.error
    ensures !StrOrNull(raw, "basis") ==> r.Err? && WrongType("basis") in r.error
    ensures "method" !in raw ==> r.Err? && Missing("method") in r.error
    ensures r.Ok? ==> ModelValid(r.value) && "method" in raw && raw["method"] == Str(r.value.method_)
    ensures r.Ok? ==> ("basis" !in raw ==> r.value.basis == None)
    ensures r.Ok? ==> ("basis" in raw ==> OptStrValue(r.value.basis) == raw["basis"])
    ensures r.Ok? ==> r.value.undeclared.Keys == raw.Keys - ModelFields
    ensures r.Ok? ==> forall k :: k in r.value.undeclared ==> r.value.undeclared[k] == raw[k]
  {
    var method_ := RequiredStr(raw, "method");
    var basis := OptionalStr(raw, "basis");
    var extra := ExtraErrors(OpenRecordPolicy, raw, ModelFields);
    if method_.Ok? && basis.Ok? && extra == {} then
      Ok(Model(method_.value, basis.value, KeptExtras(OpenRecordPolicy, raw, ModelFields)))
    else
      Err(ErrorsOf(method_)
        + ErrorsOf(basis)
        + extra)
  }

  /** Every reported error names a field that actually fails its check. */
  lemma ModelErrorsJustified(raw: Raw)
    requires ParseModel(raw).Err?
    ensures forall e :: e in ParseModel(raw).error ==> ModelErrorJustified(raw, e)
  {
    var method_ := RequiredStr(raw, "method");
    var basis := OptionalStr(raw, "basis");
    assert ExtraErrors(OpenRecordPolicy, raw, ModelFields) == {};
    assert ParseModel(raw).error == ErrorsOf(method_) + ErrorsOf(basis);
    forall e | e in ParseModel(raw).error
      ensures ModelErrorJustified(raw, e)
    {
      if e in ErrorsOf(method_) {
        assert e == Missing("method") || e == WrongType("method");
      } else {
        assert e == WrongType("basis");
      }
    }
  }

  /** The mapping a Model record dumps to: declared fields plus the kept extras. */
  function DumpModel(m: Model): (r: Raw)
    ensures r.Keys == ModelFields + m.undeclared.Keys
    ensures r["method"] == Str(m.method_) && r["basis"] == OptStrValue(m.basis)
    ensures forall k :: k in m.undeclared && k !in ModelFields ==> r[k] == m.undeclared[k]
  {
    m.undeclared + map["method" := Str(m.method_), "basis" := OptStrValue(m.basis)]
  }

  /** Dumping and validating again gives back the same record. */
  lemma ModelRoundTrip(m: Model)
    requires ModelValid(m)
    ensures ParseModel(DumpModel(m)) == Ok(m)
  {
    var raw := DumpModel(m);
    assert RequiredStr(raw, "method") == Ok(m.method_);
    assert OptionalStr(raw, "basis") == Ok(m.basis);
    assert Undeclared(raw, ModelFields).Keys == m.undeclared.Keys;
    assert Undeclared(raw, ModelFields) == m.undeclared;
  }

  /** A validated record's dump agrees with its input on every input key, extras included. */
  lemma ModelDumpKeepsInput(raw: Raw)
    requires ParseModel(raw).Ok?
    ensures forall k :: k in raw ==>
      (k in DumpModel(ParseModel(raw).value) && DumpModel(ParseModel(raw).value)[k] == raw[k])
  {
  }

  /** Validation is idempotent through a dump. */
  lemma ModelIdempotent(raw: Raw)
    requires ParseModel(raw).Ok?
    ensures ParseModel(DumpModel(ParseModel(raw).value)) == ParseModel(raw)
  {
    ModelRoundTrip(ParseModel(raw).value);
  }

  // ---------------------------------------------------------------------------
  // ComputeError
  // ---------------------------------------------------------------------------

  datatype ComputeError = ComputeError(error_type: string, error_message: string, extras: Option<Raw>)

  const ComputeErrorFields: set<string> := {"error_type", "error_message", "extras"}

  /** An error reported for a ComputeError input names a field that actually fails its check, or an undeclared key. */
  predicate ComputeErrorErrorJustified(raw: Raw, e: FieldError)
  {
    || (e.Missing? && e.field in {"error_type", "error_message"} && e.field !in raw)
    || (e.WrongType? && e.field in {"error_type", "error_message"} && e.field in raw && !IsStr(raw, e.field))
    || (e == WrongType("extras") && !ObjectOrNull(raw, "extras"))
    || (e.Forbidden? && e.field in raw && e.field !in ComputeErrorFields)
  }

  /** Validating a raw mapping as ComputeError: type and message are required, `extras` defaults to None. */
  function ParseComputeError(raw: Raw): (r: Result<ComputeError, Errors>)
    ensures r.Ok? <==>
      && "error_type" in raw && raw["error_type"].Str?
      && "error_message" in raw && raw["error_message"].Str?
      && ObjectOrNull(raw, "extras")
      && raw.Keys <= ComputeErrorFields
    ensures r.Err? ==> |r.error| > 0
    ensures "error_type" in raw && !IsStr(raw, "error_type") ==> r.Err? && WrongType("error_type") in r.error
    ensures "error_message" in raw && !IsStr(raw, "error_message") ==> r.Err? && WrongType("error_message") in r.error
    ensures !ObjectOrNull(raw, "extras") ==> r.Err? && WrongType("extras") in r.error
    ensures "error_type" !in raw ==> r.Err? && Missing("error_type") in r.error
    ensures "error_message" !in raw ==> r.Err? && Missing("error_message") in r.error
    ensures forall k :: k in raw && k !in ComputeErrorFields ==> r.Err? && Forbidden(k) in r.error
    ensures r.Ok? ==> raw["error_type"] == Str(r.value.error_type) && raw["error_message"] == Str(r.value.error_message)
    ensures r.Ok? ==> ("extras" !in raw ==> r.value.extras == None)
    ensures r.Ok? ==> ("extras" in raw ==> OptObjectValue(r.value.extras) == raw["extras"])
  {
    var errorType := RequiredStr(raw, "error_type");
    var errorMessage := RequiredStr(raw, "error_message");
    var extras := OptionalObject(raw, "extras");
    var extra := ExtraErrors(BaseModelPolicy, raw, ComputeErrorFields);
    if errorType.Ok? && errorMessage.Ok? && extras.Ok? && extra == {} then
      Ok(ComputeError(errorType.value, errorMessage.value, extras.value))
    else
      Err(ErrorsOf(errorType)
        + ErrorsOf(errorMessage)
        + ErrorsOf(extras)
        + extra)
  }

  /** Every reported error names a field that actually fails its check. */
  lemma ComputeErrorErrorsJustified(raw: Raw)
    requires ParseComputeError(raw).Err?
    ensures forall e :: e in ParseComputeError(raw).error ==> ComputeErrorErrorJustified(raw, e)
  {
    var errorType := RequiredStr(raw, "error_type");
    var errorMessage := RequiredStr(raw, "error_message");
    var extras := OptionalObject(raw, "extras");
    var extra := ExtraErrors(BaseModelPolicy, raw, ComputeErrorFields);
    assert ParseComputeError(raw).error == ErrorsOf(errorType) + ErrorsOf(errorMessage) + ErrorsOf(extras) + extra;
    forall e | e in ParseComputeError(raw).error
      ensures ComputeErrorErrorJustified(raw, e)
    {
      if e in ErrorsOf(errorType) {
        assert e == Missing("error_type") || e == WrongType("error_type");
      } else if e in ErrorsOf(errorMessage) {
        assert e == Missing("error_message") || e == WrongType("error_message");
      } else if e in ErrorsOf(extras) {
        assert e == WrongType("extras");
      } else {
        assert e in extra;
      }
    }
  }

  /** The mapping a ComputeError dumps to. */
  function DumpComputeError(e: ComputeError): (r: Raw)
    ensures r.Keys == ComputeErrorFields
    ensures r["error_type"] == Str(e.error_type) && r["error_message"] == Str(e.error_message)
    ensures r["extras"] == OptObjectValue(e.extras)
  {
    map["error_type" := Str(e.error_type), "error_message" := Str(e.error_message), "extras" := OptObjectValue(e.extras)]
  }

  /** Dumping and validating again gives back the same record. */
  lemma ComputeErrorRoundTrip(e: ComputeError)
    ensures ParseComputeError(DumpComputeError(e)) == Ok(e)
  {
    assert DumpComputeError(e).Keys == ComputeErrorFields;
  }

  /** Validation is idempotent through a dump. */
  lemma ComputeErrorIdempotent(raw: Raw)
    requires ParseComputeError(raw).Ok?
    ensures ParseComputeError(DumpComputeError(ParseComputeError(raw).value)) == ParseComputeError(raw)
  {
    ComputeErrorRoundTrip(ParseComputeError(raw).value);
  }

  // ---------------------------------------------------------------------------
  // FailedOperation
  // ---------------------------------------------------------------------------

  datatype FailedOperation = FailedOperation(
    id: Option<string>,
    input_data: Value,
    success: bool,
    error: ComputeError,
    extras: Option<Raw>)

  const FailedOperationFields: set<string> := {"id", "input_data", "success", "error", "extras"}

  /**
   * An error reported for the `error` field: it is absent, it is not a
   * mapping, or the nested record reported the wrapped error itself.
   */
  predicate ErrorFieldErrorJustified(raw: Raw, e: FieldError)
  {
    || (e == Missing("error") && "error" !in raw)
    || (e == WrongType("error") && "error" in raw && !raw["error"].Object?)
    || (e.Inside? && e.field == "error" && "error" in raw && raw["error"].Object?
        && ParseComputeError(raw["error"].fields).Err? && e.cause in ParseComputeError(raw["error"].fields).error)
  }

  /** The required nested `error` field, validated as a ComputeError. */
  function ParseErrorField(raw: Raw): (r: Result<ComputeError, Errors>)
    ensures r.Ok? <==> "error" in raw && raw["error"].Object? && ParseComputeError(raw["error"].fields).Ok?
    ensures r.Ok? ==> ParseComputeError(raw["error"].fields) == Ok(r.value)
    ensures r.Err? ==> |r.error| > 0
    ensures "error" !in raw ==> r == Err({Missing("error")})
    ensures "error" in raw && !raw["error"].Object? ==> r == Err({WrongType("error")})
    ensures r.Err? ==> forall e :: e in r.error ==> ErrorFieldErrorJustified(raw, e)
    ensures "error" in raw && raw["error"].Object? && ParseComputeError(raw["error"].fields).Err? ==>
      r.Err? && forall e :: e in ParseComputeError(raw["error"].fields).error ==> Inside("error", e) in r.error
  {
    if "error" !in raw then Err({Missing("error")})
    else if raw["error"].Object? then
      match ParseComputeError(raw["error"].fields)
      case Ok(e) => Ok(e)
      case Err(es) => Err(Relocate("error", es))
    else Err({WrongType("error")})
  }

  /** An error reported for a FailedOperation input names a field that actually fails its check, or an undeclared key. */
  predicate FailedOperationErrorJustified(raw: Raw, e: FieldError)
  {
    || ErrorFieldErrorJustified(raw, e)
    || (e == WrongType("id") && !StrOrNull(raw, "id"))
    || (e == WrongType("success") && !BoolOrAbsent(raw, "success"))
    || (e == WrongType("extras") && !ObjectOrNull(raw, "extras"))
    || (e.Forbidden? && e.field in raw && e.field !in FailedOperationFields)
  }

  /**
   * Validating a raw mapping as FailedOperation: `error` is required and must
   * itself validate; `success` defaults to false and is not forced to stay
   * false; `id`, `input_data` and `extras` default to None.
   */
  function ParseFailedOperation(raw: Raw): (r: Result<FailedOperation, Errors>)
    ensures r.Ok? <==>
      && "error" in raw && raw["error"].Object? && ParseComputeError(raw["error"].fields).Ok?
      && StrOrNull(raw, "id") && BoolOrAbsent(raw, "success") && ObjectOrNull(raw, "extras")
      && raw.Keys <= FailedOperationFields
    ensures r.Err? ==> |r.error| > 0
    ensures "error" in raw && !raw["error"].Object? ==> r.Err? && WrongType("error") in r.error
    ensures !StrOrNull(raw, "id") ==> r.Err? && WrongType("id") in r.error
    ensures !BoolOrAbsent(raw, "success") ==> r.Err? && WrongType("success") in r.error
    ensures !ObjectOrNull(raw, "extras") ==> r.Err? && WrongType("extras") in r.error
    ensures "error" !in raw ==> r.Err? && Missing("error") in r.error
    ensures "error" in raw && raw["error"].Object? && ParseComputeError(raw["error"].fields).Err? ==>
      r.Err? && forall e :: e in ParseComputeError(raw["error"].fields).error ==> Inside("error", e) in r.error
    ensures forall k :: k in raw && k !in FailedOperationFields ==> r.Err? && Forbidden(k) in r.error
    ensures r.Ok? ==> ParseComputeError(raw["error"].fields) == Ok(r.value.error)
    ensures r.Ok? ==> ("success" !in raw ==> !r.value.success) && ("id" !in raw ==> r.value.id == None)
    ensures r.Ok? ==> ("input_data" !in raw ==> r.value.input_data == Null) && ("extras" !in raw ==> r.value.extras == None)
    ensures r.Ok? ==> ("success" in raw ==> Bool(r.value.success) == raw["success"]) && ("id" in raw ==> OptStrValue(r.value.id) == raw["id"])
    ensures r.Ok? ==> ("input_data" in raw ==> r.value.input_data == raw["input_data"]) && ("extras" in raw ==> OptObjectValue(r.value.extras) == raw["extras"])
  {
    var id := OptionalStr(raw, "id");
    var inputData := AnyOr(raw, "input_data", Null);
    var success := BoolOr(raw, "success", false);
    var error := ParseErrorField(raw);
    var extras := OptionalObject(raw, "extras");
    var extra := ExtraErrors(BaseModelPolicy, raw, FailedOperationFields);
    if id.Ok? && success.Ok? && error.Ok? && extras.Ok? && extra == {} then
      Ok(FailedOperation(id.value, inputData, success.value, error.value, extras.value))
    else
      Err(ErrorsOf(id)
        + ErrorsOf(success)
        + ErrorsOf(error)
        + ErrorsOf(extras)
        + extra)
  }

  /** Every reported error names a field that actually fails its check. */
  lemma FailedOperationErrorsJustified(raw: Raw)
    requires ParseFailedOperation(raw).Err?
    ensures forall e :: e in ParseFailedOperation(raw).error ==> FailedOperationErrorJustified(raw, e)
  {
    var id := OptionalStr(raw, "id");
    var success := BoolOr(raw, "success", false);
    var error := ParseErrorField(raw);
    var extras := OptionalObject(raw, "extras");
    var extra := ExtraErrors(BaseModelPolicy, raw, FailedOperationFields);
    assert ParseFailedOperation(raw).error == ErrorsOf(id) + ErrorsOf(success) + ErrorsOf(error) + ErrorsOf(extras) + extra;
    forall e | e in ParseFailedOperation(raw).error
      ensures FailedOperationErrorJustified(raw, e)
    {
      if e in ErrorsOf(id) {
        assert e == WrongType("id");
      } else if e in ErrorsOf(success) {
        assert e == WrongType("success");
      } else if e in ErrorsOf(error) {
        assert ErrorFieldErrorJustified(raw, e);
      } else if e in ErrorsOf(extras) {
        assert e == WrongType("extras");
      } else {
        assert e in extra;
      }
    }
  }

  /** The mapping a FailedOperation dumps to, with the error dumped as a nested mapping. */
  function DumpFailedOperation(f: FailedOperation): (r: Raw)
    ensures r.Keys == FailedOperationFields
    ensures r["id"] == OptStrValue(f.id) && r["input_data"] == f.input_data && r["success"] == Bool(f.success)
    ensures r["error"] == Object(DumpComputeError(f.error)) && r["extras"] == OptObjectValue(f.extras)
  {
    map[
      "id" := OptStrValue(f.id),
      "input_data" := f.input_data,
      "success" := Bool(f.success),
      "error" := Object(DumpComputeError(f.error)),
      "extras" := OptObjectValue(f.extras)]
  }

  /** Dumping and validating again gives back the same record. */
  lemma FailedOperationRoundTrip(f: FailedOperation)
    ensures ParseFailedOperation(DumpFailedOperation(f)) == Ok(f)
  {
    ComputeErrorRoundTrip(f.error);
    assert DumpFailedOperation(f).Keys == FailedOperationFields;
  }

  /** Validation is idempotent through a dump. */
  lemma FailedOperationIdempotent(raw: Raw)
    requires ParseFailedOperation(raw).Ok?
    ensures ParseFailedOperation(DumpFailedOperation(ParseFailedOperation(raw).value)) == ParseFailedOperation(raw)
  {
    FailedOperationRoundTrip(ParseFailedOperation(raw).value);
  }

  /** Nothing keeps `success` false: an explicit true is accepted as given. */
  lemma FailedOperationSuccessNotEnforced(raw: Raw, e: ComputeError)
    requires raw.Keys == {"error", "success"}
    requires raw["error"] == Object(DumpComputeError(e)) && raw["success"] == Bool(true)
    ensures ParseFailedOperation(raw) == Ok(FailedOperation(None, Null, true, e, None))
  {
    ComputeErrorRoundTrip(e);
    assert "id" !in raw && "input_data" !in raw && "extras" !in raw;
    assert OptionalStr(raw, "id") == Ok(None);
    assert AnyOr(raw, "input_data", Null) == Null;
    assert BoolOr(raw, "success", false) == Ok(true);
    assert ParseErrorField(raw) == Ok(e);
    assert OptionalObject(raw, "extras") == Ok(None);
    assert ExtraErrors(BaseModelPolicy, raw, FailedOperationFields) == {};
  }

  // ---------------------------------------------------------------------------
  // String renderings
  // ---------------------------------------------------------------------------

  const ComputeErrorPrefix: string := "ComputeError" + "(error_type="
  const MessageSeparator: string := " error_message:\n"
  const ComputeErrorSuffix: string := "\n)"
  const FailedOperationPrefix: string := "FailedOperation" + "(error="
  const FailedOperationSuffix: string := ")"

  /**
   * `str(ComputeError)`: the class name, the type, the message on its own
   * line, and a closing parenthesis on the next; `extras` does not appear.
   */
  function ComputeErrorStr(e: ComputeError): (r: string)
    ensures var a := |ComputeErrorPrefix|;
      var b := a + |e.error_type|;
      var c := b + |MessageSeparator|;
      && |r| == c + |e.error_message| + |ComputeErrorSuffix|
      && r[..a] == ComputeErrorPrefix
      && r[a..b] == e.error_type
      && r[b..c] == MessageSeparator
      && r[c..|r| - |ComputeErrorSuffix|] == e.error_message
      && r[|r| - |ComputeErrorSuffix|..] == ComputeErrorSuffix
  {
    Slices(ComputeErrorPrefix, e.error_type, MessageSeparator, e.error_message, ComputeErrorSuffix);
    ComputeErrorPrefix + e.error_type + MessageSeparator + e.error_message + ComputeErrorSuffix
  }

  /** `str(FailedOperation)`: the rendering of its error, verbatim, wrapped; no other field appears. */
  function FailedOperationStr(f: FailedOperation): (r: string)
    ensures |r| == |FailedOperationPrefix| + |ComputeErrorStr(f.error)| + |FailedOperationSuffix|
    ensures r[..|FailedOperationPrefix|] == FailedOperationPrefix
    ensures r[|FailedOperationPrefix|..|r| - |FailedOperationSuffix|] == ComputeErrorStr(f.error)
    ensures r[|r| - |FailedOperationSuffix|..] == FailedOperationSuffix
  {
    Seams(FailedOperationPrefix, ComputeErrorStr(f.error), FailedOperationSuffix);
    FailedOperationPrefix + ComputeErrorStr(f.error) + FailedOperationSuffix
  }

  /**
   * Splits `body` as `t + sep + m`, where `t` runs up to the first occurrence
   * of the separator's opening character. None when `sep` does not follow there.
   */
  function SplitFirst(body: string, sep: string): Option<(string, string)>
  {
    if |sep| == 0 then None
    else
      match IndexOf(body, sep[0])
      case None => None
      case Some(k) =>
        if |body| - k >= |sep| && body[k..k + |sep|] == sep
        then Some((body[..k], body[k + |sep|..]))
        else None
  }

  /** The text between `prefix` and `suffix`; None when `s` is not so wrapped. */
  function Strip(s: string, prefix: string, suffix: string): Option<string>
  {
    if |s| < |prefix| + |suffix| || s[..|prefix|] != prefix || s[|s| - |suffix|..] != suffix then None
    else Some(s[|prefix|..|s| - |suffix|])
  }

  /**
   * Reads `prefix + t + sep + m + suffix` back into `(t, m)`, splitting at the
   * first occurrence of the separator's opening character. None for any
   * string not of that shape.
   */
  function Unwrap(s: string, prefix: string, sep: string, suffix: string): Option<(string, string)>
  {
    match Strip(s, prefix, suffix)
    case None => None
    case Some(body) => SplitFirst(body, sep)
  }

  /** Reads an error rendering back: the type runs up to the first space. */
  function ParseComputeErrorStr(s: string): Option<(string, string)>
  {
    Unwrap(s, ComputeErrorPrefix, MessageSeparator, ComputeErrorSuffix)
  }

  /** Reads a failed-operation rendering back to its error's type and message. */
  function ParseFailedOperationStr(s: string): Option<(string, string)>
  {
    match Strip(s, FailedOperationPrefix, FailedOperationSuffix)
    case None => None
    case Some(inner) => ParseComputeErrorStr(inner)
  }

  /** Cutting a three-part concatenation at its seams gives the parts back. */
  lemma Seams<T>(a: seq<T>, b: seq<T>, c: seq<T>)
    ensures var s := a + b + c;
      && |s| == |a| + |b| + |c|
      && s[..|a|] == a
      && s[|a|..|s| - |c|] == b
      && s[|s| - |c|..] == c
  {
    var s := a + b + c;
    assert s[..|a|] == a;
    assert s[|a|..|s| - |c|] == b;
    assert s[|s| - |c|..] == c;
  }

  /** The five parts of a concatenation sit at consecutive offsets. */
  lemma Slices<T>(a: seq<T>, b: seq<T>, c: seq<T>, d: seq<T>, e: seq<T>)
    ensures var s := a + b + c + d + e;
      var i := |a|;
      var j := i + |b|;
      var k := j + |c|;
      && |s| == k + |d| + |e|
      && s[..i] == a
      && s[i..j] == b
      && s[j..k] == c
      && s[k..|s| - |e|] == d
      && s[|s| - |e|..] == e
  {
    var s := a + b + c + d + e;
    var i, j, k := |a|, |a| + |b|, |a| + |b| + |c|;
    assert s[..i] == a;
    assert s[i..j] == b;
    assert s[j..k] == c;
    assert s[k..|s| - |e|] == d;
    assert s[|s| - |e|..] == e;
  }

  /** Five-part concatenation regrouped around its middle three parts. */
  lemma Regroup<T>(a: seq<T>, b: seq<T>, c: seq<T>, d: seq<T>, e: seq<T>)
    ensures a + b + c + d + e == a + (b + c + d) + e
  {
  }

  /** `SplitFirst` inverts the concatenation whenever `t` avoids the separator's opening character. */
  lemma SplitFirstRoundTrip(t: string, sep: string, m: string)
    requires |sep| > 0 && sep[0] !in t
    ensures SplitFirst(t + sep + m, sep) == Some((t, m))
  {
    var body := t + sep + m;
    assert body[|t|] == sep[0];
    assert body[..|t|] == t;
    assert body[|t|..|t| + |sep|] == sep;
    assert body[|t| + |sep|..] == m;
  }

  /** Whatever `SplitFirst` accepts is the concatenation of the parts it returns. */
  lemma SplitFirstSound(body: string, sep: string, t: string, m: string)
    requires SplitFirst(body, sep) == Some((t, m))
    ensures |sep| > 0 && sep[0] !in t && t + sep + m == body
  {
    var k := IndexOf(body, sep[0]).value;
    var n := |sep|;
    assert t == body[..k] && body[k..k + n] == sep && m == body[k + n..];
    assert forall j :: 0 <= j < |t| ==> t[j] == body[j];
    assert body == body[..k] + body[k..k + n] + body[k + n..];
  }

  /** `Unwrap` inverts the wrapping whenever `t` avoids the separator's opening character. */
  lemma UnwrapRoundTrip(prefix: string, t: string, sep: string, m: string, suffix: string)
    requires |sep| > 0 && sep[0] !in t
    ensures Unwrap(prefix + t + sep + m + suffix, prefix, sep, suffix) == Some((t, m))
  {
    Regroup(prefix, t, sep, m, suffix);
    StripRoundTrip(prefix, t + sep + m, suffix);
    SplitFirstRoundTrip(t, sep, m);
  }

  /** `Strip` removes exactly the wrapping it was given. */
  lemma StripRoundTrip(prefix: string, body: string, suffix: string)
    ensures Strip(prefix + body + suffix, prefix, suffix) == Some(body)
  {
    Seams(prefix, body, suffix);
  }

  /** Whatever `Strip` accepts is the wrapping of the text it returns. */
  lemma StripSound(s: string, prefix: string, suffix: string, body: string)
    requires Strip(s, prefix, suffix) == Some(body)
    ensures s == prefix + body + suffix
  {
    assert s == s[..|prefix|] + s[|prefix|..|s| - |suffix|] + s[|s| - |suffix|..];
  }

  /** Whatever `Unwrap` accepts is the wrapping of a `t` that avoids the separator's opening character. */
  lemma UnwrapSound(s: string, prefix: string, sep: string, suffix: string, t: string, m: string)
    requires Unwrap(s, prefix, sep, suffix) == Some((t, m))
    ensures |sep| > 0 && sep[0] !in t && prefix + t + sep + m + suffix == s
  {
    var body := Strip(s, prefix, suffix).value;
    StripSound(s, prefix, suffix, body);
    SplitFirstSound(body, sep, t, m);
    Regroup(prefix, t, sep, m, suffix);
  }

  /** A space-free error type makes the error rendering readable back. */
  lemma ComputeErrorStrRoundTrip(e: ComputeError)
    requires ' ' !in e.error_type
    ensures ParseComputeErrorStr(ComputeErrorStr(e)) == Some((e.error_type, e.error_message))
  {
    assert MessageSeparator[0] == ' ';
    UnwrapRoundTrip(ComputeErrorPrefix, e.error_type, MessageSeparator, e.error_message, ComputeErrorSuffix);
  }

  /** Whatever the reader accepts is exactly the rendering of some error with a space-free type. */
  lemma ParseComputeErrorStrSound(s: string, extras: Option<Raw>)
    requires ParseComputeErrorStr(s).Some?
    ensures ' ' !in ParseComputeErrorStr(s).value.0
    ensures ComputeErrorStr(ComputeError(ParseComputeErrorStr(s).value.0, ParseComputeErrorStr(s).value.1, extras)) == s
  {
    assert MessageSeparator[0] == ' ';
    var (t, m) := ParseComputeErrorStr(s).value;
    UnwrapSound(s, ComputeErrorPrefix, MessageSeparator, ComputeErrorSuffix, t, m);
  }

  /** Moving a separator's worth of text between the two fields leaves the concatenation unchanged. */
  lemma ShiftAcross<T>(p: seq<T>, x: seq<T>, sep: seq<T>, y: seq<T>, z: seq<T>, q: seq<T>)
    ensures p + (x + sep + y) + sep + z + q == p + x + sep + (y + sep + z) + q
  {
  }

  /** The rendering does not determine the error when the type contains the separator. */
  lemma ComputeErrorStrNotInjective()
    ensures ComputeErrorStr(ComputeError("a" + MessageSeparator + "b", "c", None))
      == ComputeErrorStr(ComputeError("a", "b" + MessageSeparator + "c", None))
  {
    ShiftAcross(ComputeErrorPrefix, "a", MessageSeparator, "b", "c", ComputeErrorSuffix);
  }

  /** A space-free error type makes the failed-operation rendering readable back. */
  lemma FailedOperationStrRoundTrip(f: FailedOperation)
    requires ' ' !in f.error.error_type
    ensures ParseFailedOperationStr(FailedOperationStr(f)) == Some((f.error.error_type, f.error.error_message))
  {
    ComputeErrorStrRoundTrip(f.error);
  }

  /** Whatever the failed-operation reader accepts is exactly the rendering of any record whose error has that type and message. */
  lemma ParseFailedOperationStrSound(s: string, f: FailedOperation)
    requires ParseFailedOperationStr(s) == Some((f.error.error_type, f.error.error_message))
    ensures ' ' !in f.error.error_type
    ensures FailedOperationStr(f) == s
  {
    var inner := Strip(s, FailedOperationPrefix, FailedOperationSuffix).value;
    StripSound(s, FailedOperationPrefix, FailedOperationSuffix, inner);
    ParseComputeErrorStrSound(inner, f.error.extras);
  }

  // ---------------------------------------------------------------------------
  // Schema names
  // ---------------------------------------------------------------------------

  const QcschemaInputDefault: string := "qcschema_input"
  const QcschemaOutputDefault: string := "qcschema_output"
  const QcschemaOptimizationInputDefault: string := "qcschema_optimization_input"
  const QcschemaOptimizationOutputDefault: string := "qcschema_optimization_output"
  const QcschemaMoleculeDefault: string := "qcschema_molecule"
}
