/**
 * The global DRF exception handler: it turns any exception into the
 * response envelope, with the exception's detail normalised into
 * `{field: [CODE, ...]}`.
 */
module ExceptionHandler {
  import opened Wrappers
  import opened Responses

  // ------------------------------------------------------------ normalize_code

  /** Python's `str.upper` on the ASCII letters; every other character is kept. */
  function UpperChar(c: char): char
  {
    if 'a' <= c <= 'z' then (c as int - 32) as char else c
  }

  function Upper(s: string): (r: string)
    ensures |r| == |s|
    ensures forall i :: 0 <= i < |s| ==> r[i] == UpperChar(s[i])
  {
    if s == [] then [] else [UpperChar(s[0])] + Upper(s[1..])
  }

  /** `s.replace(" ", "_")` */
  function ReplaceSpaces(s: string): (r: string)
    ensures |r| == |s|
    ensures forall i :: 0 <= i < |s| ==> r[i] == (if s[i] == ' ' then '_' else s[i])
  {
    if s == [] then [] else [if s[0] == ' ' then '_' else s[0]] + ReplaceSpaces(s[1..])
  }

  /** One item of an exception's detail. */
  datatype Item =
    | ErrorDetailItem(text: string, code: Option<string>) // a DRF ErrorDetail: its text and its code
    | OtherItem(repr: string)                            // anything else, by its `str()`

  /** The text `normalize_code` upper-cases: an ErrorDetail's code, or its text when the code is empty or None. */
  function CodeSource(item: Item): string
  {
    match item
    case ErrorDetailItem(text, code) => if code.Some? && code.value != "" then code.value else text
    case OtherItem(repr) => repr
  }

  /** `normalize_code` */
  function NormalizeCode(item: Item): (r: string)
    ensures |r| == |CodeSource(item)|
    ensures ' ' !in r
  {
    ReplaceSpaces(Upper(CodeSource(item)))
  }

  /** One character of a normalised code, defined on its own: spaces become `_`, ASCII letters are upper-cased. */
  function NormalChar(c: char): char
  {
    if c == ' ' then '_' else UpperChar(c)
  }

  /** `normalize_code` works character by character, as `NormalChar` says. */
  lemma NormalizeCodePointwise(item: Item)
    ensures forall i :: 0 <= i < |CodeSource(item)| ==> NormalizeCode(item)[i] == NormalChar(CodeSource(item)[i])
  {
  }

  /** A normalised code is a fixed point: normalising its text again changes nothing. */
  lemma NormalizeCodeIdempotent(item: Item)
    ensures NormalizeCode(OtherItem(NormalizeCode(item))) == NormalizeCode(item)
  {
    var r := NormalizeCode(item);
    var again := NormalizeCode(OtherItem(r));
    assert |again| == |r|;
    forall i | 0 <= i < |r|
      ensures again[i] == r[i]
    {
      assert r[i] == NormalChar(CodeSource(item)[i]);
    }
  }

  // ------------------------------------------------------- extract_error_codes

  /** The value under one key of a dict detail: a list or tuple of items, or a single item. */
  datatype FieldItems = ItemList(items: seq<Item>) | SingleItem(item: Item)

  /** An exception's detail: a dict (its items in order), a list or tuple, or anything else. */
  datatype Detail =
    | DictDetail(entries: seq<(string, FieldItems)>)
    | ListDetail(items: seq<Item>)
    | ScalarDetail(item: Item)

  /** The codes of a list of items, one per item and in order. */
  function ItemCodes(items: seq<Item>): (r: seq<string>)
    ensures |r| == |items|
    ensures forall i :: 0 <= i < |items| ==> r[i] == NormalizeCode(items[i])
  {
    if items == [] then [] else [NormalizeCode(items[0])] + ItemCodes(items[1..])
  }

  /** A non-list value is treated as a one-element list. */
  function AsItems(value: FieldItems): seq<Item>
  {
    match value
    case ItemList(items) => items
    case SingleItem(item) => [item]
  }

  type CodeMap = map<string, seq<string>>

  /** The codes of the dict entries, later entries overwriting earlier ones with the same key. */
  function DictCodes(entries: seq<(string, FieldItems)>): (r: CodeMap)
    ensures forall f :: f in r <==> exists i :: 0 <= i < |entries| && entries[i].0 == f
  {
    if entries == [] then map[]
    else
      var last := entries[|entries| - 1];
      var r := DictCodes(entries[..|entries| - 1])[last.0 := ItemCodes(AsItems(last.1))];
      assert forall f :: f in r ==> exists i :: 0 <= i < |entries| && entries[i].0 == f by {
        forall f | f in r
          ensures exists i :: 0 <= i < |entries| && entries[i].0 == f
        {
          if f != last.0 {
            var i :| 0 <= i < |entries| - 1 && entries[..|entries| - 1][i].0 == f;
            assert entries[i].0 == f;
          }
        }
      }
      assert forall f :: (exists i :: 0 <= i < |entries| && entries[i].0 == f) ==> f in r by {
        forall f | exists i :: 0 <= i < |entries| && entries[i].0 == f
          ensures f in r
        {
          var i :| 0 <= i < |entries| && entries[i].0 == f;
          if i < |entries| - 1 {
            assert entries[..|entries| - 1][i].0 == f;
          }
        }
      }
      r
  }

  /** What `extract_error_codes` returns for a detail. */
  function ErrorCodes(detail: Detail): CodeMap
  {
    match detail
    case DictDetail(entries) => DictCodes(entries)
    case ListDetail(items) => map["_error" := ItemCodes(items)]
    case ScalarDetail(item) => map["_error" := [NormalizeCode(item)]]
  }

  /** The keys of a dict detail hold no repetition, as those of a Python dict never do. */
  predicate DistinctKeys(entries: seq<(string, FieldItems)>)
  {
    forall i, j :: 0 <= i < j < |entries| ==> entries[i].0 != entries[j].0
  }

  /**
   * A dict detail keeps its keys, and every key gets one code per item, in
   * order; a non-list value becomes a one-element list.
   */
  lemma {:induction false} DictCodesEntries(entries: seq<(string, FieldItems)>, i: int)
    requires DistinctKeys(entries) && 0 <= i < |entries|
    ensures entries[i].0 in DictCodes(entries)
    ensures DictCodes(entries)[entries[i].0] == ItemCodes(AsItems(entries[i].1))
    ensures |DictCodes(entries)[entries[i].0]| == (if entries[i].1.SingleItem? then 1 else |entries[i].1.items|)
  {
    var n := |entries| - 1;
    if i < n {
      assert DistinctKeys(entries[..n]);
      DictCodesEntries(entries[..n], i);
      assert entries[..n][i] == entries[i];
      assert entries[i].0 != entries[n].0;
    }
  }

  /** A list detail and a scalar detail both go under `_error`, the list keeping its length and order. */
  lemma ListAndScalarCodes(detail: Detail)
    requires !detail.DictDetail?
    ensures ErrorCodes(detail).Keys == {"_error"}
    ensures detail.ListDetail? ==> |ErrorCodes(detail)["_error"]| == |detail.items|
                                   && forall i :: 0 <= i < |detail.items| ==> ErrorCodes(detail)["_error"][i] == NormalizeCode(detail.items[i])
    ensures detail.ScalarDetail? ==> ErrorCodes(detail)["_error"] == [NormalizeCode(detail.item)]
  {
  }

  /** The codes of a list grow by one code when the list grows by one item. */
  lemma ItemCodesAppend(items: seq<Item>, item: Item)
    ensures ItemCodes(items + [item]) == ItemCodes(items) + [NormalizeCode(item)]
  {
  }

  /** `[normalize_code(item) for item in items]` */
  method ListCodes(items: seq<Item>) returns (codes: seq<string>)
    ensures codes == ItemCodes(items)
  {
    codes := [];
    for j := 0 to |items|
      invariant codes == ItemCodes(items[..j])
    {
      codes := codes + [NormalizeCode(items[j])];
      assert items[..j + 1] == items[..j] + [items[j]];
      ItemCodesAppend(items[..j], items[j]);
    }
    assert items[..|items|] == items;
  }

  /** `extract_error_codes`: a dict detail is walked entry by entry, filling `errors[field]`. */
  method ExtractErrorCodes(detail: Detail) returns (errors: CodeMap)
    ensures errors == ErrorCodes(detail)
  {
    match detail {
      case DictDetail(entries) =>
        errors := map[];
        for k := 0 to |entries|
          invariant errors == DictCodes(entries[..k])
        {
          var (field, value) := entries[k];
          var items := if value.ItemList? then value.items else [value.item];
          var codes := ListCodes(items);
          errors := errors[field := codes];
          assert entries[..k + 1][..k] == entries[..k];
        }
        assert entries[..|entries|] == entries;
      case ListDetail(items) =>
        var codes := ListCodes(items);
        errors := map["_error" := codes];
      case ScalarDetail(item) =>
        errors := map["_error" := [NormalizeCode(item)]];
    }
  }

  // --------------------------------------------------- custom_exception_handler

  /** The exception classes the handler tests for with `isinstance`. */
  datatype ExcClass =
    | InvalidToken | TokenError
    | ValidationError | AuthenticationFailed | NotAuthenticated
    | PermissionDenied | NotFound | Throttled

  /**
   * An exception, by the set of handled classes it is an instance of (an
   * InvalidToken is also an AuthenticationFailed), its `detail` attribute if
   * it has one, and its `str()`.
   */
  datatype Exc = Exc(classes: set<ExcClass>, detail: Option<Detail>, repr: string)

  /** The response DRF's default `exception_handler` returns, when it returns one. */
  datatype DrfResponse = DrfResponse(data: Detail, statusCode: Option<int>)

  /** `getattr(exc, "detail", exc)` */
  function DetailOf(exc: Exc): Detail
  {
    if exc.detail.Some? then exc.detail.value else ScalarDetail(OtherItem(exc.repr))
  }

  /** A code map as the JSON object it is rendered to. */
  function CodesJson(codes: CodeMap): Json
  {
    JObject(map f | f in codes :: JList(seq(|codes[f]|, i requires 0 <= i < |codes[f]| => JStr(codes[f][i]))))
  }

  /** `{"_error": [code]}` */
  function SingleError(code: string): CodeMap
  {
    map["_error" := [code]]
  }

  /**
   * `custom_exception_handler`. `drfDefault` is what DRF's own handler
   * returns for the exception; it is consulted only after every handled class
   * has been ruled out. Every branch reports failure with a fixed envelope.
   */
  function CustomExceptionHandler(exc: Exc, drfDefault: Option<DrfResponse>): (r: Response)
    ensures r.body.Keys == ENVELOPE_KEYS
    ensures r.body["success"] == JBool(false)
    ensures r.body["message"] == JNull && r.body["data"] == EMPTY_OBJECT && r.body["meta"] == EMPTY_OBJECT
    ensures r.status in {HTTP_401_UNAUTHORIZED, HTTP_422_UNPROCESSABLE_ENTITY, HTTP_403_FORBIDDEN,
                         HTTP_404_NOT_FOUND, HTTP_429_TOO_MANY_REQUESTS, HTTP_500_INTERNAL_SERVER_ERROR}
                        || (drfDefault.Some? && r.body["code"] == JStr("API_ERROR"))
  {
    var classes := exc.classes;
    if InvalidToken in classes || TokenError in classes then
      ApiResponse(false, "TOKEN_INVALID", errors := CodesJson(SingleError("TOKEN_INVALID")),
                  httpStatus := HTTP_401_UNAUTHORIZED)
    else if ValidationError in classes then
      ApiResponse(false, "VALIDATION_ERROR", errors := CodesJson(ErrorCodes(DetailOf(exc))),
                  httpStatus := HTTP_422_UNPROCESSABLE_ENTITY)
    else if AuthenticationFailed in classes || NotAuthenticated in classes then
      ApiResponse(false, "AUTH_FAILED", errors := CodesJson(ErrorCodes(DetailOf(exc))),
                  httpStatus := HTTP_401_UNAUTHORIZED)
    else if PermissionDenied in classes then
      ApiResponse(false, "FORBIDDEN", errors := CodesJson(ErrorCodes(DetailOf(exc))),
                  httpStatus := HTTP_403_FORBIDDEN)
    else if NotFound in classes then
      ApiResponse(false, "NOT_FOUND", errors := CodesJson(SingleError("NOT_FOUND")),
                  httpStatus := HTTP_404_NOT_FOUND)
    else if Throttled in classes then
      ApiResponse(false, "RATE_LIMITED", errors := CodesJson(SingleError("RATE_LIMITED")),
                  httpStatus := HTTP_429_TOO_MANY_REQUESTS)
    else if drfDefault.Some? then
      ApiResponse(false, "API_ERROR", errors := CodesJson(ErrorCodes(drfDefault.value.data)),
                  httpStatus := drfDefault.value.statusCode.GetOr(HTTP_400_BAD_REQUEST))
    else
      ApiResponse(false, "SERVER_ERROR", errors := CodesJson(SingleError("INTERNAL_SERVER_ERROR")),
                  httpStatus := HTTP_500_INTERNAL_SERVER_ERROR)
  }

  /** The code and status the handler gives, read off the envelope. */
  function Verdict(r: Response): (string, int)
  {
    (if "code" in r.body && r.body["code"].JStr? then r.body["code"].s else "", r.status)
  }

  /** Token errors are checked first: they win even over an authentication failure or a validation error. */
  lemma TokenErrorsFirst(exc: Exc, drfDefault: Option<DrfResponse>)
    requires InvalidToken in exc.classes || TokenError in exc.classes
    ensures Verdict(CustomExceptionHandler(exc, drfDefault)) == ("TOKEN_INVALID", HTTP_401_UNAUTHORIZED)
    ensures CustomExceptionHandler(exc, drfDefault).body["errors"] == CodesJson(SingleError("TOKEN_INVALID"))
  {
  }

  /**
   * The status table of the handler for exceptions that are not token
   * errors: validation 422, authentication 401, permission 403, with the
   * errors taken from the exception's detail.
   */
  lemma DetailBranches(exc: Exc, drfDefault: Option<DrfResponse>)
    requires InvalidToken !in exc.classes && TokenError !in exc.classes
    ensures var r := CustomExceptionHandler(exc, drfDefault);
            && (ValidationError in exc.classes ==>
                  Verdict(r) == ("VALIDATION_ERROR", HTTP_422_UNPROCESSABLE_ENTITY)
                  && r.body["errors"] == CodesJson(ErrorCodes(DetailOf(exc))))
            && (ValidationError !in exc.classes && (AuthenticationFailed in exc.classes || NotAuthenticated in exc.classes) ==>
                  Verdict(r) == ("AUTH_FAILED", HTTP_401_UNAUTHORIZED)
                  && r.body["errors"] == CodesJson(ErrorCodes(DetailOf(exc))))
            && (ValidationError !in exc.classes && AuthenticationFailed !in exc.classes
                && NotAuthenticated !in exc.classes && PermissionDenied in exc.classes ==>
                  Verdict(r) == ("FORBIDDEN", HTTP_403_FORBIDDEN)
                  && r.body["errors"] == CodesJson(ErrorCodes(DetailOf(exc))))
  {
  }

  /**
   * Below the token, validation, authentication and permission classes,
   * NotFound (checked before Throttled) and Throttled give fixed
   * single-code error maps.
   */
  lemma FixedBranches(exc: Exc, drfDefault: Option<DrfResponse>)
    requires InvalidToken !in exc.classes && TokenError !in exc.classes
    requires ValidationError !in exc.classes && AuthenticationFailed !in exc.classes
    requires NotAuthenticated !in exc.classes && PermissionDenied !in exc.classes
    ensures NotFound in exc.classes ==>
              Verdict(CustomExceptionHandler(exc, drfDefault)) == ("NOT_FOUND", HTTP_404_NOT_FOUND)
              && CustomExceptionHandler(exc, drfDefault).body["errors"] == CodesJson(SingleError("NOT_FOUND"))
    ensures NotFound !in exc.classes && Throttled in exc.classes ==>
              Verdict(CustomExceptionHandler(exc, drfDefault)) == ("RATE_LIMITED", HTTP_429_TOO_MANY_REQUESTS)
              && CustomExceptionHandler(exc, drfDefault).body["errors"] == CodesJson(SingleError("RATE_LIMITED"))
  {
  }

  /**
   * An exception of none of the handled classes falls through to DRF's own
   * handler: API_ERROR with DRF's status (400 when it has none) if DRF
   * answers, and otherwise 500 SERVER_ERROR.
   */
  lemma FallThrough(exc: Exc, drfDefault: Option<DrfResponse>)
    requires exc.classes == {}
    ensures drfDefault.Some? ==>
              Verdict(CustomExceptionHandler(exc, drfDefault))
              == ("API_ERROR", drfDefault.value.statusCode.GetOr(HTTP_400_BAD_REQUEST))
              && CustomExceptionHandler(exc, drfDefault).body["errors"] == CodesJson(ErrorCodes(drfDefault.value.data))
    ensures drfDefault.None? ==>
              Verdict(CustomExceptionHandler(exc, drfDefault)) == ("SERVER_ERROR", HTTP_500_INTERNAL_SERVER_ERROR)
              && CustomExceptionHandler(exc, drfDefault).body["errors"] == CodesJson(SingleError("INTERNAL_SERVER_ERROR"))
  {
  }
}
