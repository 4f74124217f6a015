/** The JSON responses the payment route handlers return. */
module HttpResponses {
  import opened JsText

  /** The JSON body of a response. */
  datatype Body =
    | MissingEnvBody(error: string, missing: seq<string>)
    | ErrorBody(error: string)
    | ErrorDetailsBody(error: string, details: string)
    | UrlBody(url: string)
    | AccessBody(hasAccess: bool)

  /** A response: status, body, and whether it carries `Cache-Control: no-store`. */
  datatype Response = Response(status: int, body: Body, noStore: bool)

  /** The response of a handler's outer `catch`. */
  function UnexpectedError(details: string, noStore: bool): Response {
    Response(500, ErrorDetailsBody("Unexpected error", details), noStore)
  }

  /** The statuses a constructed response may have: `Response.json` throws a `RangeError`
      for any other. */
  predicate IsConstructibleStatus(status: int) {
    200 <= status <= 599
  }

  /** The message of that `RangeError`, as the Node.js runtime words it. */
  const StatusRangeMessage := "init[\"status\"] must be in the range of 200 to 599, inclusive."

  /** The statuses a response with a body may not have (the Fetch standard's null body
      statuses): `Response.json` throws a `TypeError` for them. */
  predicate IsNullBodyStatus(status: int) {
    status == 101 || status == 204 || status == 205 || status == 304
  }

  /** The message of that `TypeError`, as the Node.js runtime words it. */
  function InvalidStatusMessage(status: int): string {
    "Response constructor: Invalid response status code " + IntToString(status)
  }
}
