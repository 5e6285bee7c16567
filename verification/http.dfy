/** HTTP responses as the model sees them. The network itself is a parameter. */
module Http {

  /** A response: its status class, its body text, and the `length` of the JSON value the
      body holds: the element count of an array, the length of a string, and 0 for a value
      without a `length` (there `undefined > 0` is false, as `0 > 0` is). */
  datatype Response = Response(ok: bool, body: string, jsonLength: nat)

  /** What a `fetch` call settles to: a response, or a rejection with its message. */
  datatype Reply = Answered(response: Response) | Rejected(message: string)
}
