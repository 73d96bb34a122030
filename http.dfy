/** The HTTP client the loader posts through. The network is not modelled:
    a server oracle answers each request, and may take every earlier request
    into account, so a stateful service is covered. */
module Http {
  import opened Types

  /** One POST: its URL, its content type and its body. */
  datatype Request = Request(url: string, contentType: string, body: bytes)

  /** The outcome of a POST: the client failed (no response), or the service
      answered with a status code. */
  datatype Response = TransportFailure(reason: string) | Status(code: int)

  /** The service: the answer to a request, given the requests sent before it. */
  type Server = (seq<Request>, Request) -> Response

  const StatusOK := 200
  const StatusCreated := 201

  /** The status codes the loader treats as success. */
  predicate Accepted(code: int) {
    code == StatusCreated || code == StatusOK
  }

  /** The response the `k`-th request of `log` received. */
  function ResponseAt(server: Server, log: seq<Request>, k: nat): Response
    requires k < |log|
  {
    server(log[..k], log[k])
  }

  /** The HTTP client, with the requests it has sent so far. Closing a
      response body releases a connection only, so it is not modelled. */
  class Client {
    const server: Server
    var log: seq<Request>

    constructor (server: Server)
      ensures this.server == server && log == []
    {
      this.server := server;
      log := [];
    }

    /** `Post(url, contentType, body)`: sends one request and records it. */
    method Post(url: string, contentType: string, body: bytes) returns (rsp: Response)
      modifies this
      ensures log == old(log) + [Request(url, contentType, body)]
      ensures rsp == server(old(log), Request(url, contentType, body))
    {
      var req := Request(url, contentType, body);
      rsp := server(log, req);
      log := log + [req];
    }
  }
}
