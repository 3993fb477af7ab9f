/** The two response builders of the handler and the values they return. */
module Responses {

  /** One entry of the success body's `files` list: what a client needs to POST one file. */
  datatype Grant = Grant(name: string, url: string, fields: map<string, string>, key: string)

  /**
   * The JSON body, before serialisation: `{"message": ..., "files": [...]}` on success,
   * `{"error": ...}` otherwise.
   */
  datatype Body = Generated(message: string, files: seq<Grant>) | Failed(error: string)

  datatype Response = Response(statusCode: int, headers: map<string, string>, body: Body)

  const AllowOrigin := "Access-Control-Allow-Origin"
  const AllowMethods := "Access-Control-Allow-Methods"
  const AllowHeaders := "Access-Control-Allow-Headers"

  /** The CORS headers every response carries: any origin, POST and OPTIONS, any header. */
  function CorsHeaders(): (h: map<string, string>)
    ensures h.Keys == {AllowOrigin, AllowMethods, AllowHeaders}
    ensures h[AllowOrigin] == "*" && h[AllowMethods] == "POST,OPTIONS" && h[AllowHeaders] == "*"
  {
    map[AllowOrigin := "*", AllowMethods := "POST,OPTIONS", AllowHeaders := "*"]
  }

  /** `success_response`: status 200, the CORS headers, and the body it was given. */
  function SuccessResponse(body: Body): (r: Response)
    ensures r.statusCode == 200 && r.headers == CorsHeaders() && r.body == body
  {
    Response(200, CorsHeaders(), body)
  }

  /** `error_response`: the status it was given, the CORS headers, and `{"error": message}`. */
  function ErrorResponse(status: int, message: string): (r: Response)
    ensures r.statusCode == status && r.headers == CorsHeaders() && r.body == Failed(message)
  {
    Response(status, CorsHeaders(), Failed(message))
  }

  /**
   * The two builders differ only in status and body: for any arguments their headers are
   * the same three CORS entries, and an error response is never a success body.
   */
  lemma BuildersShareHeaders(body: Body, status: int, message: string)
    ensures SuccessResponse(body).headers == ErrorResponse(status, message).headers
    ensures |ErrorResponse(status, message).headers| == 3
    ensures !ErrorResponse(status, message).body.Generated?
  {
  }
}
