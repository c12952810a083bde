/** The response envelope helpers and the client-address extraction used
    by every route. */
module ApiUtils {
  import opened Wrappers
  import opened Strings
  import opened Json

  /** An HTTP response: a status code and a JSON body. */
  datatype Response = Response(status: int, body: Json)

  /** The per-field messages of a validation failure. */
  type FieldErrors = map<string, seq<string>>

  function ErrorsJson(errors: FieldErrors): Json
  {
    JObj(map key | key in errors :: StrArray(errors[key]))
  }

  /** `apiError(message, status = 400, errors?)`: the body always has `error`
      and has `errors` exactly when a dictionary was passed, even an empty one
      (`...(errors && { errors })` spreads nothing only for `undefined`). */
  function ApiError(message: string, status: int := 400, errors: Option<FieldErrors> := None): (r: Response)
    ensures r.status == status && r.body.JObj?
    ensures "error" in r.body.fields && r.body.fields["error"] == JStr(message)
    ensures "errors" in r.body.fields <==> errors.Some?
    ensures errors.Some? ==> r.body.fields["errors"] == ErrorsJson(errors.value)
    ensures r.body.fields.Keys <= {"error", "errors"}
  {
    var base := map["error" := JStr(message)];
    Response(status, JObj(if errors.Some? then base["errors" := ErrorsJson(errors.value)] else base))
  }

  /** `apiSuccess(data, status = 200)`: the data is the body, unchanged. */
  function ApiSuccess(data: Json, status: int := 200): (r: Response)
    ensures r.status == status && r.body == data
  {
    Response(status, data)
  }

  /** Whether the status is in the 2xx range (`response.ok`). */
  predicate IsOk(r: Response)
  {
    200 <= r.status < 300
  }

  /** `getClientIp`: the trimmed first comma-separated hop of a non-empty
      `x-forwarded-for` header; "unknown" when the header is missing or empty. */
  function GetClientIp(forwardedFor: Option<string>): (ip: string)
    ensures forwardedFor == None || forwardedFor == Some("") ==> ip == "unknown"
  {
    if forwardedFor.Some? && forwardedFor.value != "" then Trim(Split(forwardedFor.value, ',')[0])
    else "unknown"
  }

  /** The address comes from the first hop only: it is the trim of the text
      before the header's first comma, and holds no comma itself. */
  lemma ClientIpIsFirstHop(header: string)
    requires header != ""
    ensures var ip := GetClientIp(Some(header));
      ',' !in ip &&
      exists k :: 0 <= k <= |header| && ',' !in header[..k] && (k == |header| || header[k] == ',') &&
        ip == Trim(header[..k])
  {
    var h := Split(header, ',')[0];
    SplitHead(header, ',');
    if ',' in Trim(h) {
      TrimChars(h, ',');
    }
    assert h == header[..|h|];
  }

  /** The result never holds a comma, whatever the header. */
  lemma ClientIpHasNoComma(forwardedFor: Option<string>)
    ensures ',' !in GetClientIp(forwardedFor)
  {
    if forwardedFor.Some? && forwardedFor.value != "" {
      ClientIpIsFirstHop(forwardedFor.value);
    }
  }
}
