/**
  Values that flow through the interceptor chain: requests, responses, the
  exceptions an interceptor can see, and the scripted downstream that stands
  for `chain.proceed`.
 */
module Http {

  datatype Option<+T> = None | Some(value: T) {
    function GetOr(default: T): T {
      match this
      case Some(v) => v
      case None => default
    }
  }

  /** Kotlin `Int` and `Long`. */
  type Int32 = x: int | -0x8000_0000 <= x < 0x8000_0000
  type Int64 = x: int | -0x8000_0000_0000_0000 <= x < 0x8000_0000_0000_0000

  /** An HTTP header field; OkHttp keeps headers as an ordered list of name/value pairs. */
  datatype Header = Header(name: string, value: string)

  /** An `HttpUrl`, split into its parts; `encodedPath` always starts with "/". */
  datatype Url = Url(scheme: string, host: string, encodedPath: string, query: Option<string>)

  /** An OkHttp request: method, URL, ordered header list and optional body. */
  datatype Request = Request(httpMethod: string, url: Url, headers: seq<Header>, body: Option<string>)

  /** A response: status code, body text and whether `close()` has been called on it. */
  datatype Response = Response(code: int, body: string, closed: bool)

  /**
    What a call can throw. `RetriesExhausted` is the IOException the retry
    interceptor synthesises; `NumberFormat`, `IllegalArgument` and
    `IllegalState` are the Java exceptions of those names.
   */
  datatype Fault =
    | IoFault(tag: nat)
    | RetriesExhausted(maxRetries: int)
    | NumberFormat(input: string)
    | IllegalArgument(message: string)
    | IllegalState(message: string)
    | OtherFault(tag: nat)

  predicate IsIoException(f: Fault) {
    f.IoFault? || f.RetriesExhausted?
  }

  /** The result of one `proceed`: a response, or an exception. */
  datatype Outcome = Responded(response: Response) | Threw(fault: Fault)

  /** The chain below an interceptor: the outcome of its n-th `proceed` call. */
  type Downstream = nat -> Outcome

  /** OkHttp's `Response.isSuccessful`: a code in [200, 300). */
  predicate IsSuccessful(r: Response) {
    200 <= r.code < 300
  }

  /** The SDK's own interceptors, one instance each per network component. */
  datatype BuiltinInterceptor = AuthToken | Api | HttpLogging | TimeOut | CurlLogging

  /**
    An `okhttp3.Interceptor` instance, compared by identity: the SDK's built-in
    instances, or one the application supplied (told apart by `id`).
   */
  datatype Interceptor = Builtin(kind: BuiltinInterceptor) | Supplied(id: nat)

  /** HttpStatusCode.UNAUTHORIZED.code (section 15.5.2 of RFC 9110). */
  const Unauthorized: int := 401

  // ---------------------------------------------------------------------
  // Header names are compared case-insensitively, as OkHttp's Headers do.

  function LowerAscii(c: char): char {
    if 'A' <= c <= 'Z' then (c as int + 32) as char else c
  }

  predicate SameName(a: string, b: string) {
    |a| == |b| && forall i :: 0 <= i < |a| ==> LowerAscii(a[i]) == LowerAscii(b[i])
  }

  /** `request.header(name)`: the value of the LAST header with that name. */
  function HeaderValue(headers: seq<Header>, name: string): (r: Option<string>)
    ensures r.Some? <==> exists i :: 0 <= i < |headers| && SameName(headers[i].name, name)
    ensures r.Some? ==> exists i :: 0 <= i < |headers| && SameName(headers[i].name, name)
                                   && headers[i].value == r.value
                                   && forall j :: i < j < |headers| ==> !SameName(headers[j].name, name)
  {
    if headers == [] then None
    else
      var last := headers[|headers| - 1];
      if SameName(last.name, name) then Some(last.value)
      else
        var r := HeaderValue(headers[..|headers| - 1], name);
        r
  }

  /** `Request.Builder.removeHeader(name)`: drops every header with that name. */
  function RemoveHeader(headers: seq<Header>, name: string): (r: seq<Header>)
    ensures forall h :: h in r ==> h in headers && !SameName(h.name, name)
    ensures forall h :: h in headers && !SameName(h.name, name) ==> h in r
  {
    if headers == [] then []
    else if SameName(headers[0].name, name) then RemoveHeader(headers[1..], name)
    else [headers[0]] + RemoveHeader(headers[1..], name)
  }

  /** `Request.addHeaderIfAbsent` (an SDK extension not part of this model): a header is
      appended only when no header of that name is present. */
  function AddHeaderIfAbsent(request: Request, name: string, value: string): (r: Request)
  {
    if HeaderValue(request.headers, name).Some? then request
    else request.(headers := request.headers + [Header(name, value)])
  }
}
