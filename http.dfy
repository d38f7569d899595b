/**
  Stand-ins for the parts of Go's net/http that the push handler touches: the
  status codes it writes, the response writer whose WriteHeader it calls, and
  the request with its path, declared content length and body. Reading and
  JSON-decoding the body is abstracted to a decode step whose outcome is fixed
  when the request is made; the body counts how often it was decoded.
*/
module Http {
  import opened Wrappers

  const StatusOK: int := 200
  const StatusBadRequest: int := 400
  const StatusNotFound: int := 404
  const StatusRequestEntityTooLarge: int := 413
  const StatusInternalServerError: int := 500

  /** Records every status header written, in order. */
  class ResponseWriter {
    var statuses: seq<int>

    constructor ()
      ensures statuses == []
    {
      statuses := [];
    }

    method WriteHeader(code: int)
      modifies this
      ensures statuses == old(statuses) + [code]
    {
      statuses := statuses + [code];
    }
  }

  /**
    A request body whose JSON decoding into a T either succeeds, giving
    Some(value), or fails, giving None.
  */
  class Body<T> {
    const parsed: Option<T>
    var decodeCalls: nat

    constructor (parsed: Option<T>)
      ensures this.parsed == parsed && decodeCalls == 0
    {
      this.parsed := parsed;
      decodeCalls := 0;
    }

    method Decode() returns (r: Option<T>)
      modifies this
      ensures r == parsed
      ensures decodeCalls == old(decodeCalls) + 1
    {
      r := parsed;
      decodeCalls := decodeCalls + 1;
    }
  }

  /** The URL path, the declared content length (-1 when unknown) and the body of a request. */
  datatype Request<T> = Request(path: string, contentLength: int, body: Body<T>)
}
