/** The per-request argument view (`RequestArgs`), its memoised
    construction from a request, and the body-before-query parameter lookup. */
module Arguments {
  import opened Wrappers

  /** The errors of this layer: a nil request, and `ParameterNotFoundError`. */
  datatype Error = NilRequest | ParameterNotFound

  const FormContentType := "application/x-www-form-urlencoded"

  /** The parts of an `*http.Request` the core reads. `query` is what
      `URL.Query()` yields and `form` what `ParseForm` leaves in `Form`;
      `hasBody` says whether `Body` is non-nil; `context` is the
      `RequestArgs` stored in the request context, or null. */
  datatype Request = Request(
    httpMethod: string,
    path: string,
    header: map<string, seq<string>>,
    query: map<string, seq<string>>,
    hasBody: bool,
    form: map<string, seq<string>>,
    context: RequestArgs?)

  /** The value list of `key` in `m`; an absent key has none. */
  function Values(m: map<string, seq<string>>, key: string): seq<string>
  {
    if key in m then m[key] else []
  }

  /** `Args` reads the first `Content-Type` value of a request that has a
      body, which it can only do when that header has a value. */
  predicate ContentTypeReadable(req: Request)
  {
    req.context == null && req.hasBody && "Content-Type" in req.header ==>
      req.header["Content-Type"] != []
  }

  /** The request has a body whose first `Content-Type` value is the form
      encoding. */
  predicate HasFormBody(req: Request)
  {
    req.hasBody && Values(req.header, "Content-Type") != [] &&
    Values(req.header, "Content-Type")[0] == FormContentType
  }

  /** The body parameters `Args` attaches to a fresh view of `req`: the
      parsed form when the request has a body whose first `Content-Type`
      value is the form encoding, and nothing otherwise. */
  function BodyParamsOf(req: Request): (m: map<string, seq<string>>)
    requires req.hasBody && "Content-Type" in req.header ==> req.header["Content-Type"] != []
    ensures HasFormBody(req) ==> m == req.form
    ensures !HasFormBody(req) ==> m == map[]
  {
    if req.hasBody && "Content-Type" in req.header && req.header["Content-Type"][0] == FormContentType then req.form
    else map[]
  }

  /** `RequestArgs`: headers, URL parameters, query parameters and body
      parameters of one request. The router overwrites `urlParams` in place. */
  class RequestArgs {
    var headers: map<string, seq<string>>
    var urlParams: map<string, string>
    var queryParams: map<string, seq<string>>
    var bodyParams: map<string, seq<string>>

    constructor (headers: map<string, seq<string>>, queryParams: map<string, seq<string>>)
      ensures this.headers == headers && this.queryParams == queryParams
      ensures urlParams == map[] && bodyParams == map[]
    {
      this.headers := headers;
      this.queryParams := queryParams;
      urlParams := map[];
      bodyParams := map[];
    }

    /** The view `Args` builds for a request whose context holds none. */
    ghost predicate BuiltFor(req: Request)
      reads this
      requires req.hasBody && "Content-Type" in req.header ==> req.header["Content-Type"] != []
    {
      headers == req.header && urlParams == map[] && queryParams == req.query &&
      bodyParams == BodyParamsOf(req)
    }

    /** `GetString(key)`: the first body value of `key`, else its first query
      value, else `ParameterNotFoundError`. */
    function GetString(key: string): (r: Result<string, Error>)
      reads this
      ensures var all := Values(bodyParams, key) + Values(queryParams, key);
        if all == [] then r == Failure(ParameterNotFound) else r == Success(all[0])
      ensures r.Success? && Values(bodyParams, key) != [] ==> r.value == bodyParams[key][0]
    {
      if key in bodyParams && |bodyParams[key]| > 0 then Success(bodyParams[key][0])
      else if key in queryParams && |queryParams[key]| > 0 then Success(queryParams[key][0])
      else Failure(ParameterNotFound)
    }
  }

  /** `Args(req)`: fails on a nil request; returns the view already stored in
      the request context; otherwise builds a fresh one. */
  method Args(req: Option<Request>) returns (r: Result<RequestArgs, Error>)
    requires req.Some? ==> ContentTypeReadable(req.value)
    ensures req.None? <==> r.Failure?
    ensures req.None? ==> r == Failure(NilRequest)
    ensures req.Some? && req.value.context != null ==> r == Success(req.value.context)
    ensures req.Some? && req.value.context == null ==>
      r.Success? && fresh(r.value) && r.value.BuiltFor(req.value)
  {
    if req.None? {
      return Failure(NilRequest);
    }
    var rq := req.value;
    if rq.context != null {
      return Success(rq.context);
    }
    var args := new RequestArgs(rq.header, rq.query);
    if rq.hasBody {
      if "Content-Type" in args.headers {
        var contentType := args.headers["Content-Type"];
        if contentType[0] == FormContentType {
          args.bodyParams := rq.form;
        }
      }
    }
    return Success(args);
  }

  /** `ParsedRequest(req)`: nil when `Args` fails, otherwise the request with
      its argument view stored in its context. */
  method ParsedRequest(req: Option<Request>) returns (r: Option<Request>)
    requires req.Some? ==> ContentTypeReadable(req.value)
    ensures req.None? <==> r.None?
    ensures req.Some? ==> r.value.context != null && r.value == req.value.(context := r.value.context)
    ensures req.Some? && req.value.context != null ==> r.value.context == req.value.context
    ensures req.Some? && req.value.context == null ==>
      fresh(r.value.context) && r.value.context.BuiltFor(req.value)
  {
    var args := Args(req);
    if args.Failure? {
      return None;
    }
    r := Some(req.value.(context := args.value));
  }
}
