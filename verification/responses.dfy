/**
 * The response envelope every backend endpoint and the exception handler
 * return: six fixed keys, with `data`, `errors` and `meta` defaulting to an
 * empty object.
 */
module Responses {
  /** JSON values as DRF renders them; `JNull` stands for Python's None. */
  datatype Json =
    | JNull
    | JBool(b: bool)
    | JInt(i: int)
    | JStr(s: string)
    | JList(elems: seq<Json>)
    | JObject(fields: map<string, Json>)

  /** A DRF `Response`: a body and an HTTP status. */
  datatype Response = Response(body: map<string, Json>, status: int)

  const HTTP_200_OK := 200
  const HTTP_400_BAD_REQUEST := 400
  const HTTP_401_UNAUTHORIZED := 401
  const HTTP_403_FORBIDDEN := 403
  const HTTP_404_NOT_FOUND := 404
  const HTTP_422_UNPROCESSABLE_ENTITY := 422
  const HTTP_429_TOO_MANY_REQUESTS := 429
  const HTTP_500_INTERNAL_SERVER_ERROR := 500

  const ENVELOPE_KEYS: set<string> := {"success", "code", "message", "data", "errors", "meta"}

  const EMPTY_OBJECT := JObject(map[])

  /** `{} if value is None else value` */
  function OrEmpty(value: Json): (r: Json)
    ensures r != JNull
    ensures value != JNull ==> r == value
    ensures value == JNull ==> r == EMPTY_OBJECT
  {
    if value == JNull then EMPTY_OBJECT else value
  }

  /**
   * `api_response`: success and code are copied verbatim, the message
   * unchanged (None included), and data, errors and meta are never null.
   */
  function ApiResponse(success: bool, code: string, data: Json := JNull, errors: Json := JNull,
                       message: Json := JNull, meta: Json := JNull, httpStatus: int := HTTP_200_OK): (r: Response)
    ensures r.body.Keys == ENVELOPE_KEYS
    ensures r.body["success"] == JBool(success) && r.body["code"] == JStr(code)
    ensures r.body["message"] == message
    ensures r.body["data"] != JNull && r.body["errors"] != JNull && r.body["meta"] != JNull
    ensures data != JNull ==> r.body["data"] == data
    ensures errors != JNull ==> r.body["errors"] == errors
    ensures meta != JNull ==> r.body["meta"] == meta
    ensures r.status == httpStatus
  {
    Response(map["success" := JBool(success),
                 "code" := JStr(code),
                 "message" := message,
                 "data" := OrEmpty(data),
                 "errors" := OrEmpty(errors),
                 "meta" := OrEmpty(meta)],
             httpStatus)
  }

  /** Leaving out every optional argument gives empty objects, a null message and status 200. */
  lemma ApiResponseDefaults(success: bool, code: string)
    ensures var r := ApiResponse(success, code);
            && r.status == HTTP_200_OK
            && r.body["message"] == JNull
            && r.body["data"] == EMPTY_OBJECT && r.body["errors"] == EMPTY_OBJECT && r.body["meta"] == EMPTY_OBJECT
  {
  }
}
