/**
 * The structured error entries the backend reports per field, and the two
 * dictionary helpers the serializers build their error maps with.
 */
module ErrorHelpers {
  import opened Wrappers

  /** A value stored in an error entry: the code string, or the keyword parameters. */
  datatype ErrValue = CodeValue(code: string) | ParamsValue(params: map<string, int>)

  /** The dictionary `api_err_dict` returns. */
  type ErrDict = map<string, ErrValue>

  /** A serializer's error map: field name to the list of its error entries. */
  type FieldErrors = map<string, seq<ErrDict>>

  /**
   * `api_err_dict(err_code, **err_params)`: always an `err_code` entry; an
   * `err_params` entry exactly when some keyword parameter was given.
   */
  function ApiErrDict(errCode: string, errParams: map<string, int>): (r: ErrDict)
    ensures "err_code" in r && r["err_code"] == CodeValue(errCode)
    ensures "err_params" in r <==> errParams != map[]
    ensures "err_params" in r ==> r["err_params"] == ParamsValue(errParams)
    ensures forall key :: key in r ==> key == "err_code" || key == "err_params"
  {
    if errParams != map[] then
      map["err_code" := CodeValue(errCode), "err_params" := ParamsValue(errParams)]
    else
      map["err_code" := CodeValue(errCode)]
  }

  /** An entry without parameters: `api_err_dict(code)`. */
  function Err(code: string): ErrDict
  {
    ApiErrDict(code, map[])
  }

  /** Reads the code back out of an error entry ("" when it has none). */
  function CodeOf(d: ErrDict): string
  {
    if "err_code" in d && d["err_code"].CodeValue? then d["err_code"].code else ""
  }

  /** Reads the keyword parameters back out of an error entry. */
  function ParamsOf(d: ErrDict): map<string, int>
  {
    if "err_params" in d && d["err_params"].ParamsValue? then d["err_params"].params else map[]
  }

  /** Reading an entry back gives exactly the code and parameters it was built from. */
  lemma ApiErrDictRoundTrip(errCode: string, errParams: map<string, int>)
    ensures CodeOf(ApiErrDict(errCode, errParams)) == errCode
    ensures ParamsOf(ApiErrDict(errCode, errParams)) == errParams
  {
  }

  /** The codes of a list of entries, in order. */
  function Codes(errs: seq<ErrDict>): (r: seq<string>)
    ensures |r| == |errs|
    ensures forall i :: 0 <= i < |errs| ==> r[i] == CodeOf(errs[i])
  {
    if errs == [] then [] else [CodeOf(errs[0])] + Codes(errs[1..])
  }

  /** The codes of a one-entry list. */
  lemma CodesOfErr(code: string)
    ensures Codes([Err(code)]) == [code]
  {
    ApiErrDictRoundTrip(code, map[]);
  }

  /** `errors.get(field, [])`: what `setdefault` finds for a field. */
  function Entry(errors: FieldErrors, field: string): seq<ErrDict>
  {
    if field in errors then errors[field] else []
  }

  /**
   * `errors.setdefault(field, []).extend(more)`: the field's list grows by
   * `more` at its end, the field becomes a key, and no other field changes.
   */
  function SetDefaultExtend(errors: FieldErrors, field: string, more: seq<ErrDict>): (r: FieldErrors)
    ensures field in r && r[field] == Entry(errors, field) + more
  {
    errors[field := Entry(errors, field) + more]
  }

  /** `setdefault(...).extend` adds at most its own field and leaves every other field as it was. */
  lemma SetDefaultExtendFrame(errors: FieldErrors, field: string, more: seq<ErrDict>)
    ensures SetDefaultExtend(errors, field, more).Keys == errors.Keys + {field}
    ensures forall f :: f in errors && f != field ==> SetDefaultExtend(errors, field, more)[f] == errors[f]
  {
  }

  /** Two error maps with the same fields and the same list in each field are the same map. */
  lemma FieldErrorsExtensional(a: FieldErrors, b: FieldErrors)
    requires forall f :: f in a <==> f in b
    requires forall f | f in a :: a[f] == b[f]
    ensures a == b
  {
  }

  /**
   * `remove_empty_list_fields`, which is imported from this module but not
   * part of it as shown: assumed to drop exactly the fields whose list is empty.
   */
  function RemoveEmptyListFields(errors: FieldErrors): FieldErrors
  {
    map f | f in errors && errors[f] != [] :: errors[f]
  }

  /** Dropping empty lists changes no field's list as `errors.get(field, [])` sees it. */
  lemma RemoveEmptyListFieldsEntry(errors: FieldErrors, field: string)
    ensures field in RemoveEmptyListFields(errors) <==> field in errors && errors[field] != []
    ensures field in RemoveEmptyListFields(errors) ==> RemoveEmptyListFields(errors)[field] == errors[field]
    ensures Entry(RemoveEmptyListFields(errors), field) == Entry(errors, field)
  {
  }
}
