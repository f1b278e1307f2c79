/**
  The per-request timeout interceptor (TimeOutInterceptor.kt): three
  directive headers override the chain's connect, read and write timeouts for
  one `proceed`, and are stripped before the request leaves the client.
 */
module TimeOutInterceptor {
  import opened Http

  const ConnectTimeout: string := "CONNECT_TIMEOUT"
  const ReadTimeout: string := "READ_TIMEOUT"
  const WriteTimeout: string := "WRITE_TIMEOUT"

  /** `DEFAULT_LONG_TIMEOUT`: one minute, in milliseconds. */
  const DefaultLongTimeout: Int64 := 60_000

  // ---------------------------------------------------------------------
  // `Integer.valueOf(String)`: an optional sign, then one or more decimal
  // digits, whose value must fit a Kotlin Int.

  predicate IsDigit(c: char) {
    '0' <= c <= '9'
  }

  predicate AllDigits(s: string) {
    forall i :: 0 <= i < |s| ==> IsDigit(s[i])
  }

  /** The value of a run of decimal digits, most significant first. */
  function DigitsValue(s: string): nat
    requires AllDigits(s)
  {
    if s == [] then 0
    else DigitsValue(s[..|s| - 1]) * 10 + (s[|s| - 1] as int - '0' as int)
  }

  /** The integer a decimal numeral with an optional leading sign denotes, or None if `s` is not one. */
  function Numeral(s: string): Option<int> {
    if |s| > 0 && (s[0] == '-' || s[0] == '+') then
      if |s| > 1 && AllDigits(s[1..]) then
        var magnitude: int := DigitsValue(s[1..]);
        Some(if s[0] == '-' then -magnitude else magnitude)
      else None
    else if |s| > 0 && AllDigits(s) then Some(DigitsValue(s))
    else None
  }

  predicate InInt32(x: int) {
    -0x8000_0000 <= x < 0x8000_0000
  }

  /** `Integer.valueOf(s)`: None stands for the NumberFormatException. */
  function ParseInt(s: string): Option<Int32> {
    match Numeral(s)
    case Some(v) => if InInt32(v) then Some(v) else None
    case None => None
  }

  function DigitChar(d: nat): char
    requires d < 10
  {
    ('0' as int + d) as char
  }

  /** The shortest decimal numeral of a natural number. */
  function Decimal(n: nat): (s: string)
    ensures |s| > 0 && AllDigits(s)
  {
    if n < 10 then [DigitChar(n)] else Decimal(n / 10) + [DigitChar(n % 10)]
  }

  /** `Integer.toString(n)`. */
  function FormatInt(n: int): string {
    if n < 0 then "-" + Decimal(-n) else Decimal(n)
  }

  lemma {:induction false} DecimalValue(n: nat)
    ensures DigitsValue(Decimal(n)) == n
  {
    var s := Decimal(n);
    if n < 10 {
      assert s[..|s| - 1] == [];
    } else {
      DecimalValue(n / 10);
      assert s[..|s| - 1] == Decimal(n / 10);
    }
  }

  /**
    Every Int written out in decimal parses back to itself, and every integer
    outside the Int range written out in decimal is rejected.
   */
  lemma ParseFormatRoundTrip(n: int)
    ensures ParseInt(FormatInt(n)) == if InInt32(n) then Some(n) else None
  {
    if n < 0 {
      var magnitude: nat := -n;
      DecimalValue(magnitude);
      assert FormatInt(n)[1..] == Decimal(magnitude);
    } else {
      DecimalValue(n);
    }
  }

  /** Leading zeros and a plus sign are accepted; a lone sign, blanks and a decimal point are not. */
  lemma ParseIntEdgeCases()
    ensures ParseInt("007") == Some(7)
    ensures ParseInt("+12") == Some(12)
    ensures ParseInt("-0") == Some(0)
    ensures ParseInt("") == None
    ensures ParseInt("-") == None
    ensures ParseInt(" 5") == None
    ensures ParseInt("1.5") == None
  {
    assert "007"[..2] == "00" && "00"[..1] == "0" && "0"[..0] == "";
    assert "+12"[1..] == "12" && "12"[..1] == "1" && "1"[..0] == "";
    assert "-0"[1..] == "0" && "0"[..0] == "";
    assert !IsDigit(" 5"[0]);
    assert !IsDigit("1.5"[1]);
  }

  // ---------------------------------------------------------------------
  // The interceptor.

  /** A chain's connect, read and write timeouts, in milliseconds. */
  datatype Timeouts = Timeouts(connectMillis: Int32, readMillis: Int32, writeMillis: Int32)

  /** One directive resolved: the timeout to use, or the text `Integer.valueOf` rejected. */
  datatype Resolution = Resolved(millis: Int32) | Rejected(input: string)

  /** `request.header(name)?.let { Integer.valueOf(it) } ?: current`. */
  function Resolve(headers: seq<Header>, name: string, current: Int32): Resolution {
    match HeaderValue(headers, name)
    case None => Resolved(current)
    case Some(text) =>
      match ParseInt(text)
      case Some(v) => Resolved(v)
      case None => Rejected(text)
  }

  predicate IsDirective(name: string) {
    SameName(name, ConnectTimeout) || SameName(name, ReadTimeout) || SameName(name, WriteTimeout)
  }

  /** The three `removeHeader` calls of the request builder. */
  function StripDirectives(headers: seq<Header>): seq<Header> {
    RemoveHeader(RemoveHeader(RemoveHeader(headers, ConnectTimeout), ReadTimeout), WriteTimeout)
  }

  /** The independent reference: the headers whose names are not directives, in their order. */
  function NonDirectives(headers: seq<Header>): seq<Header> {
    if headers == [] then []
    else if IsDirective(headers[0].name) then NonDirectives(headers[1..])
    else [headers[0]] + NonDirectives(headers[1..])
  }

  /** What the interceptor did: forwarded one request under the given timeouts, or threw before sending anything. */
  datatype TimeoutTrace =
    | Forwarded(request: Request, timeouts: Timeouts, result: Outcome)
    | Failed(fault: Fault)

  /** What OkHttp's `checkDuration` throws for a negative timeout, per setting. */
  const NegativeConnectTimeout: string := "connectTimeout < 0"
  const NegativeReadTimeout: string := "readTimeout < 0"
  const NegativeWriteTimeout: string := "writeTimeout < 0"

  /**
    `TimeOutInterceptor.intercept`: the connect, read and write directives are
    resolved in that order against the chain's current timeouts; the chain
    then takes the connect, read and write timeouts in that order, refusing a
    negative one, and the stripped request is sent once under them.
   */
  function Intercept(request: Request, chain: Timeouts, d: Downstream): TimeoutTrace {
    var connect := Resolve(request.headers, ConnectTimeout, chain.connectMillis);
    if connect.Rejected? then Failed(NumberFormat(connect.input))
    else
      var read := Resolve(request.headers, ReadTimeout, chain.readMillis);
      if read.Rejected? then Failed(NumberFormat(read.input))
      else
        var write := Resolve(request.headers, WriteTimeout, chain.writeMillis);
        if write.Rejected? then Failed(NumberFormat(write.input))
        else Proceed(request.(headers := StripDirectives(request.headers)),
                     Timeouts(connect.millis, read.millis, write.millis), d)
  }

  /** `chain.withConnectTimeout(…).withReadTimeout(…).withWriteTimeout(…).proceed(request)`. */
  function Proceed(request: Request, timeouts: Timeouts, d: Downstream): TimeoutTrace {
    if timeouts.connectMillis < 0 then Failed(IllegalState(NegativeConnectTimeout))
    else if timeouts.readMillis < 0 then Failed(IllegalState(NegativeReadTimeout))
    else if timeouts.writeMillis < 0 then Failed(IllegalState(NegativeWriteTimeout))
    else Forwarded(request, timeouts, d(0))
  }

  /** An acceptable directive resolves to the timeout `Chosen` reads off the headers. */
  lemma ResolveChosen(headers: seq<Header>, name: string, fallback: Int32)
    requires Acceptable(headers, name)
    ensures Resolve(headers, name, fallback) == Resolved(Chosen(headers, name, fallback))
  {
  }

  lemma {:induction false} StripDirectivesStep(headers: seq<Header>)
    requires headers != []
    ensures StripDirectives(headers) ==
      (if IsDirective(headers[0].name) then [] else [headers[0]]) + StripDirectives(headers[1..])
  {
    var h := headers[0];
    var c := RemoveHeader(headers, ConnectTimeout);
    var c' := RemoveHeader(headers[1..], ConnectTimeout);
    var keepC := if SameName(h.name, ConnectTimeout) then [] else [h];
    assert c == keepC + c';
    var r := RemoveHeader(c, ReadTimeout);
    var r' := RemoveHeader(c', ReadTimeout);
    var keepR := if SameName(h.name, ConnectTimeout) || SameName(h.name, ReadTimeout) then [] else [h];
    if keepC == [] {
      assert c == c';
    } else {
      assert c[0] == h && c[1..] == c';
    }
    assert r == keepR + r';
    var w := RemoveHeader(r, WriteTimeout);
    var w' := RemoveHeader(r', WriteTimeout);
    if keepR == [] {
      assert r == r';
    } else {
      assert r[0] == h && r[1..] == r';
    }
    assert w == (if IsDirective(h.name) then [] else [h]) + w';
  }

  /** Stripping the three names keeps exactly the other headers, in their order. */
  lemma {:induction false} StripDirectivesKeepsOthers(headers: seq<Header>)
    ensures StripDirectives(headers) == NonDirectives(headers)
  {
    if headers != [] {
      StripDirectivesStep(headers);
      StripDirectivesKeepsOthers(headers[1..]);
    }
  }

  lemma {:induction false} NonDirectivesSpec(headers: seq<Header>)
    ensures forall h :: h in NonDirectives(headers) <==> h in headers && !IsDirective(h.name)
  {
    if headers != [] {
      NonDirectivesSpec(headers[1..]);
    }
  }

  /**
    Whenever the request is forwarded, none of the three directives is left in
    it (however their names were cased), every other header is kept in its
    order, and the method, URL and body are those of the original request.
   */
  lemma ForwardedRequestStripped(request: Request, chain: Timeouts, d: Downstream)
    requires Intercept(request, chain, d).Forwarded?
    ensures var sent := Intercept(request, chain, d).request;
      && sent.headers == NonDirectives(request.headers)
      && (forall h :: h in sent.headers ==> !IsDirective(h.name))
      && HeaderValue(sent.headers, ConnectTimeout).None?
      && HeaderValue(sent.headers, ReadTimeout).None?
      && HeaderValue(sent.headers, WriteTimeout).None?
      && sent.httpMethod == request.httpMethod && sent.url == request.url && sent.body == request.body
  {
    SentIsStripped(request, chain, d);
    StripDirectivesKeepsOthers(request.headers);
    NonDirectivesSpec(request.headers);
  }

  /** Whatever is forwarded is the chain's request with the directives stripped. */
  lemma SentIsStripped(request: Request, chain: Timeouts, d: Downstream)
    requires Intercept(request, chain, d).Forwarded?
    ensures Intercept(request, chain, d).request == request.(headers := StripDirectives(request.headers))
  {
    var c := Resolve(request.headers, ConnectTimeout, chain.connectMillis);
    var r := Resolve(request.headers, ReadTimeout, chain.readMillis);
    var w := Resolve(request.headers, WriteTimeout, chain.writeMillis);
    assert Intercept(request, chain, d) ==
      Proceed(request.(headers := StripDirectives(request.headers)), Timeouts(c.millis, r.millis, w.millis), d);
  }

  /**
    The request is forwarded exactly when every directive that is present
    parses as an Int and no timeout chosen is negative; each timeout is then
    the parsed directive, or the chain's value when the directive is absent,
    and the response of that one call is returned.
   */
  lemma TimeoutsResolved(request: Request, chain: Timeouts, d: Downstream)
    ensures var r := Intercept(request, chain, d);
      && (r.Forwarded? <==>
            && Acceptable(request.headers, ConnectTimeout)
            && Acceptable(request.headers, ReadTimeout)
            && Acceptable(request.headers, WriteTimeout)
            && Chosen(request.headers, ConnectTimeout, chain.connectMillis) >= 0
            && Chosen(request.headers, ReadTimeout, chain.readMillis) >= 0
            && Chosen(request.headers, WriteTimeout, chain.writeMillis) >= 0)
      && (r.Forwarded? ==>
            && r.result == d(0)
            && r.timeouts.connectMillis == Chosen(request.headers, ConnectTimeout, chain.connectMillis)
            && r.timeouts.readMillis == Chosen(request.headers, ReadTimeout, chain.readMillis)
            && r.timeouts.writeMillis == Chosen(request.headers, WriteTimeout, chain.writeMillis))
  {
    var h := request.headers;
    if Acceptable(h, ConnectTimeout) && Acceptable(h, ReadTimeout) && Acceptable(h, WriteTimeout) {
      ResolveChosen(h, ConnectTimeout, chain.connectMillis);
      ResolveChosen(h, ReadTimeout, chain.readMillis);
      ResolveChosen(h, WriteTimeout, chain.writeMillis);
    }
  }

  /** A directive that is absent, or present with text `Integer.valueOf` accepts. */
  predicate Acceptable(headers: seq<Header>, name: string) {
    HeaderValue(headers, name).Some? ==> ParseInt(HeaderValue(headers, name).value).Some?
  }

  /** The timeout a directive selects, read off the headers directly: the parsed value if it is there, else the fallback. */
  function Chosen(headers: seq<Header>, name: string, fallback: Int32): Int32 {
    var text := HeaderValue(headers, name);
    if text.Some? && ParseInt(text.value).Some? then ParseInt(text.value).value else fallback
  }

  /**
    A malformed directive throws NumberFormatException carrying its text and
    nothing is sent. Directives are parsed connect, read, write, so the first
    malformed one in that order is reported, and a parse failure wins over any
    negative timeout, which is only checked once all three have parsed.
   */
  lemma MalformedDirectiveThrows(request: Request, chain: Timeouts, d: Downstream)
    ensures var h := request.headers;
      && (!Acceptable(h, ConnectTimeout) ==>
            Intercept(request, chain, d) == Failed(NumberFormat(HeaderValue(h, ConnectTimeout).value)))
      && (Acceptable(h, ConnectTimeout) && !Acceptable(h, ReadTimeout) ==>
            Intercept(request, chain, d) == Failed(NumberFormat(HeaderValue(h, ReadTimeout).value)))
      && (Acceptable(h, ConnectTimeout) && Acceptable(h, ReadTimeout) && !Acceptable(h, WriteTimeout) ==>
            Intercept(request, chain, d) == Failed(NumberFormat(HeaderValue(h, WriteTimeout).value)))
  {
  }

  /**
    Once every directive parses, a negative timeout throws
    IllegalStateException before anything is sent, and the first negative one
    in the order connect, read, write is the one reported.
   */
  lemma NegativeTimeoutThrows(request: Request, chain: Timeouts, d: Downstream)
    requires Acceptable(request.headers, ConnectTimeout)
    requires Acceptable(request.headers, ReadTimeout)
    requires Acceptable(request.headers, WriteTimeout)
    ensures var c := Chosen(request.headers, ConnectTimeout, chain.connectMillis);
      var r := Chosen(request.headers, ReadTimeout, chain.readMillis);
      var w := Chosen(request.headers, WriteTimeout, chain.writeMillis);
      && (c < 0 ==> Intercept(request, chain, d) == Failed(IllegalState(NegativeConnectTimeout)))
      && (c >= 0 && r < 0 ==> Intercept(request, chain, d) == Failed(IllegalState(NegativeReadTimeout)))
      && (c >= 0 && r >= 0 && w < 0 ==> Intercept(request, chain, d) == Failed(IllegalState(NegativeWriteTimeout)))
  {
    ResolveChosen(request.headers, ConnectTimeout, chain.connectMillis);
    ResolveChosen(request.headers, ReadTimeout, chain.readMillis);
    ResolveChosen(request.headers, WriteTimeout, chain.writeMillis);
  }
}
