/** The parts of Go's `net/http` messages that the proxy filters read and
    change: a multi-valued header map, requests, responses and their bodies. */
module Http {

  /** Header field name (already in canonical form) to its values, in order. */
  type Fields = map<string, seq<string>>

  /** The values stored under `key`, or none. */
  function Values(m: Fields, key: string): seq<string> {
    if key in m then m[key] else []
  }

  /** An `http.Header`: a map that every holder of the message shares and
      that `Del`, `Set` and `Add` change in place. */
  class Header {
    var fields: Fields

    constructor (fields: Fields)
      ensures this.fields == fields
    {
      this.fields := fields;
    }

    method Del(key: string)
      modifies this
      ensures fields == old(fields) - {key}
    {
      fields := fields - {key};
    }

    method Set(key: string, value: string)
      modifies this
      ensures fields == old(fields)[key := [value]]
    {
      fields := fields[key := [value]];
    }

    method Add(key: string, value: string)
      modifies this
      ensures fields == old(fields)[key := Values(old(fields), key) + [value]]
    {
      fields := fields[key := Values(fields, key) + [value]];
    }
  }

  /** The request line fields the filters and their collaborators read. */
  datatype RequestLine = RequestLine(verb: string, host: string, path: string, remoteAddr: string)

  /** What a collaborator sees of a request at the moment it is consulted. */
  datatype ReqView = ReqView(line: RequestLine, header: Fields)

  class Request {
    /** The HTTP method. */
    const verb: string
    const host: string
    /** The path of the request URL. */
    const path: string
    /** The client's `host:port`. */
    const remoteAddr: string
    const header: Header

    constructor (verb: string, host: string, path: string, remoteAddr: string, header: Header)
      ensures this.verb == verb && this.host == host && this.path == path
      ensures this.remoteAddr == remoteAddr && this.header == header
    {
      this.verb := verb;
      this.host := host;
      this.path := path;
      this.remoteAddr := remoteAddr;
      this.header := header;
    }

    function Line(): RequestLine {
      RequestLine(verb, host, path, remoteAddr)
    }

    function View(): ReqView
      reads header
    {
      ReqView(Line(), header.fields)
    }
  }

  /** The outcome of reading a body to its end: its text or a read error. */
  datatype BodyRead = Content(text: string) | ReadFailure(reason: string)

  /** A body stream: still open with what reading it would give, or already
      read to the end and closed. */
  datatype Body = Open(read: BodyRead) | Drained

  /** `ioutil.ReadAll` on a body; a closed body fails like Go's
      "read on closed response body". */
  function ReadAll(b: Body): BodyRead {
    match b
    case Open(r) => r
    case Drained => ReadFailure("http: read on closed response body")
  }

  /** What a collaborator sees of a response at the moment it is consulted. */
  datatype ResView = ResView(statusCode: int, header: Fields, body: Body, request: RequestLine)

  class Response {
    var statusCode: int
    const header: Header
    var body: Body
    /** The request this response answers. */
    const request: Request

    /** `goproxy.NewResponse(r, contentType, status, body)`: a new response
        whose only header is the given content type. */
    constructor (request: Request, contentType: string, status: int, text: string)
      ensures this.request == request && statusCode == status
      ensures body == Open(Content(text))
      ensures fresh(header) && header.fields == map["Content-Type" := [contentType]]
    {
      this.request := request;
      statusCode := status;
      body := Open(Content(text));
      header := new Header(map["Content-Type" := [contentType]]);
    }

    function View(): ResView
      reads this, header
    {
      ResView(statusCode, header.fields, body, request.Line())
    }
  }
}
