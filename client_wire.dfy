/**
 * The client's copy of the framing (ClienteHttpUtil): the same request
 * builders with a caller-chosen Host, and a response parser that answers
 * `null` where the server's copy lets a bad status code escape.
 */
module ClientWire {
  import opened Wrappers
  import opened Text
  import opened Wire

  /** `construirGET`. */
  function BuildGet(path: String, host: String): String {
    GetMessage(path, host)
  }

  /** `construirPOST`. */
  function BuildPost(path: String, host: String, body: String): String {
    PostMessage(path, host, body)
  }

  /** `HttpResponse.esExitosa`. */
  predicate IsSuccess(r: Response) {
    200 <= r.code < 300
  }

  /** `parsearRespuesta`: `null` for a missing or empty status line, fewer
      than two fields, or a status code `parseInt` refuses; a bad
      Content-Length still escapes as an exception. */
  function ParseResponse(s: String): (r: Outcome<Response>)
    ensures r.Null? <==>
      || ReadLine(s).None?
      || ReadLine(s).value.0 == []
      || |SplitLimit(ReadLine(s).value.0, ' ', 3)| < 2
      || ParseInt(SplitLimit(ReadLine(s).value.0, ' ', 3)[1]).None?
    ensures r.Done? ==> |r.rest| <= |s|
  {
    match ReadLine(s)
    case None => Null
    case Some((line, rest)) =>
      var parts := SplitLimit(line, ' ', 3);
      if line == [] || |parts| < 2 then Null
      else
        match ParseInt(parts[1])
        case None => Null
        case Some(code) =>
          var reason := if |parts| > 2 then parts[2] else [];
          var (h, rest2) := ReadHeaders(rest, map[]);
          match ReadBody(h, rest2)
          case Done(body, rest3) => Done(Response(code, reason, body), rest3)
          case Thrown(f) => Thrown(f)
  }

  /** `parsearRespuesta` over the unread input of the connection's reader. */
  method ReceiveResponse(s: String) returns (r: Outcome<Response>)
    ensures r == ParseResponse(s)
  {
    var first := ReadLine(s);
    if first.None? || first.value.0 == [] {
      return Null;
    }
    var (line, rest) := first.value;
    var parts := SplitLimit(line, ' ', 3);
    if |parts| < 2 {
      return Null;
    }
    var code := ParseInt(parts[1]);
    if code.None? {
      return Null;
    }
    var reason := if |parts| > 2 then parts[2] else [];
    var h, rest2 := ReceiveHeaders(rest);
    var body := ReceiveBody(h, rest2);
    if body.Thrown? {
      return Thrown(body.failure);
    }
    r := Done(Response(code.value, reason, body.value), body.rest);
  }

  /** The status code does not parse: the server's copy throws where this one gives `null`. */
  predicate BadStatus(s: String) {
    && ReadLine(s).Some?
    && ReadLine(s).value.0 != []
    && |SplitLimit(ReadLine(s).value.0, ' ', 3)| >= 2
    && ParseInt(SplitLimit(ReadLine(s).value.0, ' ', 3)[1]).None?
  }

  /** The two response parsers differ only on an unparsable status code. */
  lemma {:induction false} AgreesWithServer(s: String)
    ensures ParseResponse(s) == if BadStatus(s) then Null else Wire.ParseResponse(s)
    ensures BadStatus(s) ==> Wire.ParseResponse(s) == Thrown(NumberFormat)
  {
  }

  /** Round trip: the client reads back a response the server built, when
      the body has as many characters as UTF-8 bytes. */
  lemma {:induction false} ResponseRoundTrip(code: int, reason: String, body: String, more: String)
    requires MinInt <= code <= MaxInt
    requires NoBreak(reason)
    requires Utf8Length(body) == |body| <= MaxInt
    ensures ParseResponse(BuildResponse(code, reason, body) + more) == Done(Response(code, reason, body), more)
  {
    var s := BuildResponse(code, reason, body) + more;
    Wire.ResponseRoundTrip(code, reason, body, more);
    AgreesWithServer(s);
  }

  /** What the server's four wrappers send is a success exactly for 200. */
  lemma {:induction false} BuiltSuccess(body: String, more: String)
    requires Utf8Length(body) == |body| <= MaxInt
    ensures var ok := ParseResponse(BuildOk(body) + more);
      ok.Done? && IsSuccess(ok.value)
    ensures var bad := ParseResponse(BuildBadRequest(body) + more);
      bad.Done? && !IsSuccess(bad.value)
    ensures var forbidden := ParseResponse(BuildForbidden(body) + more);
      forbidden.Done? && !IsSuccess(forbidden.value)
    ensures var missing := ParseResponse(BuildNotFound(body) + more);
      missing.Done? && !IsSuccess(missing.value)
  {
    assert NoBreak("OK") && NoBreak("Bad Request") && NoBreak("Forbidden") && NoBreak("Not Found");
    ResponseRoundTrip(200, "OK", body, more);
    ResponseRoundTrip(400, "Bad Request", body, more);
    ResponseRoundTrip(403, "Forbidden", body, more);
    ResponseRoundTrip(404, "Not Found", body, more);
  }
  /** A POST the client builds reaches the server's parser as sent: method,
      path, the Host it names and the body, with the input after it unread,
      when the body has as many characters as UTF-8 bytes. */
  lemma {:induction false} PostReachesServer(path: String, host: String, body: String, more: String)
    requires ' ' !in path && NoBreak(path) && NoBreak(host)
    requires Utf8Length(body) == |body| <= MaxInt
    ensures var r := Wire.ParseRequest(BuildPost(path, host, body) + more);
      && r.Done? && r.value.verb == "POST" && r.value.path == path
      && GetHeader(r.value, "Host") == Trim(host) && r.value.body == body && r.rest == more
  {
    PostFraming(path, host, body, more);
    PostRoundTrip(path, host, body, more);
    HostName();
  }

  /** A GET the client builds reaches the server's parser with its path,
      the Host it names and no body, and nothing after it is consumed. */
  lemma {:induction false} GetReachesServer(path: String, host: String, more: String)
    requires ' ' !in path && NoBreak(path) && NoBreak(host)
    ensures var r := Wire.ParseRequest(BuildGet(path, host) + more);
      && r.Done? && r.value.verb == "GET" && r.value.path == path
      && GetHeader(r.value, "Host") == Trim(host) && r.value.body == [] && r.rest == more
  {
    GetRoundTrip(path, host, more);
    HostName();
    var r := Wire.ParseRequest(BuildGet(path, host) + more);
    assert r.value.headers == GetHeaderMap(host);
  }

  lemma {:induction false} HostName()
    ensures ToLower("Host") == "host"
  {
    assert ToLower("Host") == ToLower("Hos") + ToLower("t") by {
      ToLowerAppend("Hos", "t");
    }
  }
}
