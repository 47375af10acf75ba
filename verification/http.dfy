/** What the program sends to and receives from the network. The transport
    itself is not modelled: a response, or the exception raised instead of
    one, is an input to the functions that handle it. */
module Http {
  import Json

  type Bytes = seq<bv8>

  /** A form field value before form encoding: the submitter sends both
      integers and strings. */
  datatype FormValue = FormInt(n: int) | FormText(s: string)

  /** A POST request: target endpoint, header map and form body. */
  datatype Request = Request(endpoint: string, headers: map<string, string>, form: map<string, FormValue>)

  /** The outcome of a GET: the exception it raised (as `str(ex)`), or the
      final response's status code and raw content. */
  datatype GetOutcome = GetRaised(detail: string) | GetResponse(status: int, content: Bytes)

  /** The outcome of `resp.json()`: the decoded document, or the text of the
      decoding exception. */
  datatype Decoded = Decoded(value: Json.Value) | Undecodable(detail: string)

  /** The outcome of a POST: the exception it raised (as `str(ex)`), or the
      response's status code, its body as text, and what decoding that body
      as JSON yields. */
  datatype PostOutcome = PostRaised(detail: string) | PostResponse(status: int, text: string, json: Decoded)
}
