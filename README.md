# QCElemental common models

A Dafny model of the shared records in QCElemental's QCSchema model layer
(`qcelemental/models/common_models.py`):

- `DriverEnum` becomes the datatype `Driver` (`energy`, `gradient`, `hessian`, `properties`).
  `derivative_int` becomes `DerivativeInt`. It is written as the source writes it: a special
  case for `properties`, then a `list.index` lookup in the list
  `energy, gradient, hessian, third, fourth, fifth`. The `ValueError` that `list.index`
  can raise is modelled as `None`, and the contract proves that it never happens.
- `Provenance`, `Model`, `ComputeError` and `FailedOperation` are datatypes. Each one is
  built by a validating constructor `Parse…` from a raw mapping (`map<string, Value>`,
  where `Value` is a JSON-like tree). The constructor either returns the record with its
  declared defaults filled in, or returns the set of field errors: a missing required
  field, a value of the wrong type, a forbidden undeclared key, or an error inside the
  nested `error` record.
- `Provenance` and `Model` are open records (`extra = "allow"`). Their undeclared keys are
  kept verbatim in an `undeclared` sideband map and written back out by `Dump…`.
- `ComputeError` and `FailedOperation` both inherit the `extra` setting of the common base
  class. That class (`qcelemental/models/basemodels.py`) is not part of this model. The
  model assumes its setting is "forbid", stated once as `BaseModelPolicy`. `common_models.py`
  itself does not settle this: pydantic's own default, "ignore", fits it equally well.
- Both `__str__` methods are modelled as string functions. Each has an independent reader
  (`ParseComputeErrorStr`, `ParseFailedOperationStr`), and lemmas prove the round trip in
  both directions.
- Each record has a `Dump…` function giving the mapping that `dict()` would produce. The
  round-trip and idempotence lemmas connect it with the constructor.

The field `method` of `Model` is named `method_` in Dafny, because `method` is a keyword.

## Model

| member | source | states |
|---|---|---|
| `CommonModels.IndexOf` | qcelemental/models/common_models.py:57 | `list.index`: None exactly when the element is absent; otherwise a valid position holding the element, with no earlier occurrence |
| `CommonModels.DriverName` | qcelemental/models/common_models.py:47-50 | the four member names `energy`, `gradient`, `hessian`, `properties`, each belonging to exactly one member |
| `CommonModels.DriverValue` | qcelemental/models/common_models.py:44-50 | each member's string value equals its own name |
| `CommonModels.ParseDriver` | qcelemental/models/common_models.py:44-50 | looking a member up by string value returns a member with exactly that value, and returns None only when no member has that value |
| `CommonModels.DerivativeInt` | qcelemental/models/common_models.py:52-57 | never fails, for every member; the result is at most 2; `properties` gives 0; every other member gives the position of its value in the `egh` list |
| `CommonModels.DerivativeIntTable` | qcelemental/models/common_models.py:52-57 | energy gives 0, gradient 1, hessian 2 and properties 0 |
| `CommonModels.PropertiesNotInEgh` | qcelemental/models/common_models.py:53-55 | the index lookup alone would fail for `properties`, so the special case is needed |
| `CommonModels.HigherOrdersUnreachable` | qcelemental/models/common_models.py:44-57 | `third`, `fourth` and `fifth` name no member |
| `CommonModels.DriverMembers` | qcelemental/models/common_models.py:44-50 | the enum has exactly four members with distinct values, and each member's value equals its name |
| `CommonModels.DriverRoundTrip` | qcelemental/models/common_models.py:44-50 | looking a member up by its own value gives the same member back |
| `CommonModels.ParseProvenance` | qcelemental/models/common_models.py:13-23 | accepted exactly when `creator` is a string and `version`/`routine` are absent, null or strings; a missing `creator` is reported, and so is each present field of the wrong kind; `version`/`routine` default to None, and a supplied value is stored as given; every undeclared key is kept with its value, and nothing else is kept |
| `CommonModels.ProvenanceErrorsJustified` | qcelemental/models/common_models.py:13-23 | every reported error names a field that really fails: `creator` absent or not a string, `version`/`routine` neither null nor a string |
| `CommonModels.DumpProvenance` | qcelemental/models/common_models.py:13-23 | the dump has exactly the three declared keys plus the kept extras, each declared key holding its field (None as null) and each extra its own value |
| `CommonModels.ProvenanceRoundTrip` | qcelemental/models/common_models.py:13-23 | validating the dump of a record gives the same record back, extras included |
| `CommonModels.ProvenanceDumpKeepsInput` | qcelemental/models/common_models.py:21-23 | the dump of a validated record agrees with the input on every input key, so undeclared keys come out unchanged |
| `CommonModels.ProvenanceIdempotent` | qcelemental/models/common_models.py:13-23 | validating, dumping and validating again gives the same result |
| `CommonModels.ParseModel` | qcelemental/models/common_models.py:26-41 | accepted exactly when `method` is a string and `basis` is absent, null or a string; a missing `method` is reported, and so is each present field of the wrong kind; `basis` defaults to None, and a supplied value is stored as given; undeclared keys are kept with their values |
| `CommonModels.ModelErrorsJustified` | qcelemental/models/common_models.py:26-41 | every reported error names a field that really fails: `method` absent or not a string, `basis` neither null nor a string |
| `CommonModels.DumpModel` | qcelemental/models/common_models.py:26-41 | the dump has exactly `method` and `basis` plus the kept extras, each holding its field or its own value |
| `CommonModels.ModelRoundTrip` | qcelemental/models/common_models.py:26-41 | validating the dump of a record gives the same record back, extras included |
| `CommonModels.ModelDumpKeepsInput` | qcelemental/models/common_models.py:39-41 | the dump of a validated record agrees with the input on every input key |
| `CommonModels.ModelIdempotent` | qcelemental/models/common_models.py:26-41 | validating, dumping and validating again gives the same result |
| `CommonModels.ParseComputeError` | qcelemental/models/common_models.py:60-70 | accepted exactly when `error_type` and `error_message` are strings, `extras` is absent, null or a dictionary, and there are no other keys; each missing required field, each present field of the wrong kind and each undeclared key is reported; `extras` defaults to None, and a supplied `extras` is stored as given |
| `CommonModels.ComputeErrorErrorsJustified` | qcelemental/models/common_models.py:60-70 | every reported error names a field that really fails (a required field absent or not a string, `extras` neither null nor a dictionary) or an undeclared key |
| `CommonModels.DumpComputeError` | qcelemental/models/common_models.py:60-70 | the dump has exactly the keys `error_type`, `error_message`, `extras`, each holding its field (None as null) |
| `CommonModels.ComputeErrorRoundTrip` | qcelemental/models/common_models.py:60-70 | validating the dump of any error record gives the same record back |
| `CommonModels.ComputeErrorIdempotent` | qcelemental/models/common_models.py:60-70 | validating, dumping and validating again gives the same result |
| `CommonModels.ParseErrorField` | qcelemental/models/common_models.py:96-99 | the required `error` field is accepted exactly when it is a mapping that validates as a ComputeError, and then holds that record; an absent `error` is reported as missing and a non-mapping as the wrong kind; each of the nested record's errors is reported under `error`, and every error reported under `error` is one the nested record raised |
| `CommonModels.ParseFailedOperation` | qcelemental/models/common_models.py:76-103 | accepted exactly when `error` is a mapping that validates as a ComputeError, `id` is absent/null/string, `success` is absent or boolean, `extras` is absent/null/dictionary, and there are no other keys; a missing `error` is reported, and so is each present field of the wrong kind; the nested errors are reported under `error`; `success` defaults to false; `id`, `input_data` and `extras` default to None; a supplied `success`, `id`, `input_data` or `extras` is stored as given |
| `CommonModels.FailedOperationErrorsJustified` | qcelemental/models/common_models.py:76-103 | every reported error names a field that really fails, an undeclared key, or an error the nested `error` record itself raised |
| `CommonModels.DumpFailedOperation` | qcelemental/models/common_models.py:76-103 | the dump has exactly the five declared keys, each holding its field, with `error` dumped as a nested ComputeError mapping |
| `CommonModels.FailedOperationRoundTrip` | qcelemental/models/common_models.py:76-103 | validating the dump of any failed-operation record gives the same record back |
| `CommonModels.FailedOperationIdempotent` | qcelemental/models/common_models.py:76-103 | validating, dumping and validating again gives the same result |
| `CommonModels.FailedOperationSuccessNotEnforced` | qcelemental/models/common_models.py:91-95 | a mapping holding a valid `error` and an explicit `success: true` is accepted, and `success` is kept true: nothing forces it to be false |
| `CommonModels.ComputeErrorStr` | qcelemental/models/common_models.py:72-73 | the rendering is `ComputeError(error_type=`, the type, ` error_message:` and a newline, the message, then a newline and `)`, each piece at its fixed offset; `extras` does not appear |
| `CommonModels.ComputeErrorStrRoundTrip` | qcelemental/models/common_models.py:72-73 | the rendering `ComputeError(error_type=<t> error_message:\n<m>\n)` reads back to `(t, m)` whenever `t` contains no space |
| `CommonModels.ParseComputeErrorStrSound` | qcelemental/models/common_models.py:72-73 | every string the reader accepts is exactly the rendering of the type and message it returns, whatever the extras, and the type contains no space |
| `CommonModels.ComputeErrorStrNotInjective` | qcelemental/models/common_models.py:72-73 | two different type/message pairs can render to the same string when the type contains the message separator |
| `CommonModels.FailedOperationStr` | qcelemental/models/common_models.py:105-106 | the rendering is `FailedOperation(error=`, then the ComputeError rendering verbatim, then `)` |
| `CommonModels.ParseFailedOperationStrSound` | qcelemental/models/common_models.py:105-106 | every string the failed-operation reader accepts is exactly the rendering of any record whose error has the type and message it returns, and that type contains no space |
| `CommonModels.FailedOperationStrRoundTrip` | qcelemental/models/common_models.py:105-106 | the failed-operation rendering reads back to its error's type and message whenever the type contains no space |

## Left out

- Pydantic type coercion is not modelled. For example, pydantic turns a number given for a `str` field into a string, and `"yes"` given for a `bool` field into true. Here a field accepts only a value of its declared kind.
- The immutability of records (`allow_mutation`), which comes from the base class, is not modelled. Dafny datatypes are immutable anyway.
- The wording and order of pydantic's error messages are not modelled. The model reports which field failed and how, as a set of errors.
- Floating-point values are not modelled: `Value` has no float case. None of the modelled fields is numeric.
- `ndarray_encoder` is not modelled: it is numpy array flattening, which is a foreign library.
- The `Schema(...)` descriptions, `canonical_repr` and JSON-schema generation are not modelled: they are library behaviour of pydantic and of the base class.
- `qcelemental/models/basemodels.py` is not part of this model. Its `extra` setting is taken to be "forbid" (`BaseModelPolicy`).
- Passing an already-built `ComputeError` object as `error` is modelled as passing its dump.
- `__class__.__name__` is fixed to the class's own name. Subclasses that would print a different name are not modelled.
- The `qcschema_*_default` names appear only as constants, with no contracts.
- The basis-set, result, wavefunction-protocol and trajectory-protocol records are not modelled: their implementations (`basis.py`, `results.py`) are not part of this model. The same goes for the tests in `qcelemental/tests/test_model_results.py` that exercise them.
- ComputeErrorStrRoundTrip: requires an `error_type` with no space. The reader `ParseComputeErrorStr` ends the type at the first space, so it cannot read back a type that holds any space. No reader could do better for every type: by ComputeErrorStrNotInjective, a type that holds the whole separator ` error_message:` plus newline renders the same as a different type/message pair.
- FailedOperationStrRoundTrip: requires an `error_type` with no space, because it reads the inner rendering with the same reader.
