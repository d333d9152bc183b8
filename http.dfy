/**
 * The part of an HTTP response the reaction endpoint produces: a status code,
 * the headers added, and the body text written.
 */
module Http {

  const StatusOK: int := 200
  const StatusBadRequest: int := 400
  const StatusInternalServerError: int := 500

  type Header = (string, string)

  datatype HttpResponse = HttpResponse(status: int, headers: seq<Header>, body: string)

  /** A response as `CreateResponse(status)` makes it: no headers, empty body. */
  function EmptyResponse(status: int): HttpResponse {
    HttpResponse(status, [], "")
  }

  /** The response object the endpoint fills in: created with a status, then headers added and text written. */
  class HttpResponseData {
    const status: int
    var headers: seq<Header>
    var body: string

    /** `req.CreateResponse(status)`. */
    constructor (status: int)
      ensures Value() == EmptyResponse(status)
    {
      this.status := status;
      headers := [];
      body := "";
    }

    /** `Headers.Add(name, value)`. */
    method AddHeader(name: string, value: string)
      modifies this
      ensures Value() == old(Value()).(headers := old(headers) + [(name, value)])
    {
      headers := headers + [(name, value)];
    }

    /** `WriteStringAsync(text)`: the text is appended to the body. */
    method WriteString(text: string)
      modifies this
      ensures Value() == old(Value()).(body := old(body) + text)
    {
      body := body + text;
    }

    function Value(): HttpResponse
      reads this
    {
      HttpResponse(status, headers, body)
    }
  }
}
