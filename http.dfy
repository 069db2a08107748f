/** HTTP responses as the server builds them: a status, a header map and a body. */
module Http {
  import opened Wrappers
  import opened Text

  /** A response; the body is the final contents of the response's memory sink. */
  datatype Response = Response(status: int, headers: map<string, string>, body: string)

  /**
   * A response with a body: the given status, a `Content-Type` header and a
   * `Content-Length` header holding the byte length of the body (the length
   * of the sink the body was written to), and no other header.
   */
  function WithBody(status: int, contentType: string, body: string): (r: Response)
    ensures r.status == status && r.body == body
    ensures r.headers.Keys == {"Content-Type", "Content-Length"}
    ensures r.headers["Content-Type"] == contentType
    ensures ParseDecimal(r.headers["Content-Length"]) == Some(Utf8Length(body))
  {
    DecimalRoundTrip(Utf8Length(body));
    Response(status, map["Content-Type" := contentType, "Content-Length" := Decimal(Utf8Length(body))], body)
  }

  /** The header a client reads the body length from agrees with the body. */
  predicate LengthMatches(r: Response) {
    "Content-Length" in r.headers && ParseDecimal(r.headers["Content-Length"]) == Some(Utf8Length(r.body))
  }

  predicate HasContentType(r: Response, contentType: string) {
    "Content-Type" in r.headers && r.headers["Content-Type"] == contentType
  }
}
