/**
 * The frontend's view of one backend error: an `ApiError` is an object with
 * a `code` (and optional `params`); react-hook-form carries it in its
 * `message` slot unchanged.
 */
module ApiErrors {
  import opened Wrappers
  import opened Js

  /** The shape `getApiError` recognises as an `ApiError`: an object with a `code` key. */
  predicate IsApiError(v: JsValue)
  {
    HasKey(v, "code")
  }

  /** `rhfMessage`: a type cast only, so the value itself is stored as the form message. */
  function RhfMessage(error: JsValue): (r: JsValue)
    requires IsApiError(error)
    ensures r == error
  {
    error
  }

  /**
   * `getApiError`: a falsy message gives null; an object with a `code` key is
   * returned as it is; a non-empty string `s` becomes `{code: s}`; anything
   * else gives null.
   */
  function GetApiError(message: JsValue): (r: Option<JsValue>)
    ensures !Truthy(message) ==> r == None
    ensures IsApiError(message) ==> r == Some(message)
    ensures message.Str? && message.s != "" ==> r == Some(Obj([("code", message)]))
    ensures r.Some? <==> IsApiError(message) || (message.Str? && message.s != "")
    ensures r.Some? ==> IsApiError(r.value)
  {
    if !Truthy(message) then None
    else if TypeOf(message) == "object" && message != Null && HasKey(message, "code") then Some(message)
    else if TypeOf(message) == "string" then
      assert Obj([("code", message)]).props[0].0 == "code";
      Some(Obj([("code", message)]))
    else None
  }

  /** An error survives the trip through the form: reading back the stored message gives the same error. */
  lemma ErrorRoundTrip(error: JsValue)
    requires IsApiError(error)
    ensures GetApiError(RhfMessage(error)) == Some(error)
  {
  }

  /** A string message read back a second time is stable: `{code: s}` is itself recognised unchanged. */
  lemma {:induction false} StringMessageStable(s: string)
    requires s != ""
    ensures GetApiError(Str(s)).Some?
    ensures GetApiError(GetApiError(Str(s)).value) == GetApiError(Str(s))
    ensures Lookup(GetApiError(Str(s)).value.props, "code") == Str(s)
  {
    var e := GetApiError(Str(s)).value;
    assert e == Obj([("code", Str(s))]);
    assert IsApiError(e);
  }
}
