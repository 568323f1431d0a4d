/** The JSON responses the two back-end servers send: a status code and a JSON object body. */
module Http {

  /** The JSON values that occur in the servers' response bodies. */
  datatype Json = JString(text: string) | JNumber(number: real) | JBool(flag: bool)

  datatype Response = Response(status: int, body: map<string, Json>)

  /** Status code of a JSON response that the handler returns without an explicit status. */
  const Ok := 200
  const BadRequest := 400
  const InternalServerError := 500
}
