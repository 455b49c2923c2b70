/**
 * What the handlers of both services hand back to the HTTP layer, and the
 * one piece of PHP value semantics their request checks depend on.
 * Headers (Content-Type, CORS) and JSON encoding are not modelled.
 */
module Http {

  /** A response: its status code and the value that is JSON-encoded into its body. */
  datatype Response<+B> = Response(status: int, body: B)

  /**
   * PHP's `empty()` (and `!`) on a string: true exactly for "" and "0".
   * Query parameters and header values are strings, so this is the test
   * behind `!empty($filters[...])` and `if (!$token)`.
   */
  predicate PhpEmpty(s: string)
  {
    s == "" || s == "0"
  }
}
