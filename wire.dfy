/**
 * The server's HTTP/1.1-shaped text framing (HttpUtil): a request line as in
 * section 3 of RFC 9112 or a status line as in section 4 of RFC 9112, header
 * fields up to an empty line, and a body whose size the Content-Length field
 * gives (section 8.6 of RFC 9110). There is no chunked coding.
 *
 * The parsers read from the unread input as a string and hand back what
 * they did not consume. The builders count the body's Content-Length in
 * UTF-8 bytes, while the parsers read that many characters.
 */
module Wire {
  import opened Wrappers
  import opened Text

  type Headers = map<String, String>

  /** HttpRequest. */
  datatype Request = Request(verb: String, path: String, headers: Headers, body: String)

  /** HttpResponse as the parser builds it; the parsed header fields are not kept. */
  datatype Response = Response(code: int, reason: String, body: String)

  /** The exceptions a parser lets escape to its caller. */
  datatype Failure = NumberFormat | NegativeArraySize

  /** What a parser returns: a message and the input after it, `null`, or
      an exception. */
  datatype Outcome<T> = Done(value: T, rest: String) | Null | Thrown(failure: Failure)

  const CrLf: String := "\r\n"

  function Min(a: int, b: int): int { if a <= b then a else b }

  // --------------------------------------------------------- header fields

  /** One header line: around its first ':' when that is past index 0, the
      trimmed lower-case name and the trimmed value overwrite any earlier
      entry; any other line is ignored. */
  function AddHeader(h: Headers, line: String): Headers {
    var k := IndexOf(line, ':');
    if k > 0 then h[ToLower(Trim(line[..k])) := Trim(line[k + 1..])] else h
  }

  /** The header loop: lines until end of input or an empty line. */
  function ReadHeaders(s: String, h: Headers): (r: (Headers, String))
    ensures |r.1| <= |s| && r.1 == s[|s| - |r.1|..]
    decreases |s|
  {
    match ReadLine(s)
    case None => (h, s)
    case Some((line, rest)) =>
      assert rest == s[|s| - |rest|..] by {
        CutLineRest(s);
      }
      if line == [] then (h, rest) else ReadHeaders(rest, AddHeader(h, line))
  }

  lemma {:induction false} CutLineRest(s: String)
    ensures CutLine(s).1 == s[|s| - |CutLine(s).1|..]
    decreases |s|
  {
    if s != [] && !IsBreak(s[0]) {
      CutLineRest(s[1..]);
    }
  }

  /** A name as the parser stores it: trimmed and lower case. */
  predicate NormalName(k: String) {
    IsTrimmed(k) && ToLower(k) == k
  }

  lemma {:induction false} LowerTrimmedIsNormal(s: String)
    ensures NormalName(ToLower(Trim(s)))
  {
    var t := Trim(s);
    var k := ToLower(t);
    if k != [] {
      assert !IsTrimmable(k[0]) && !IsTrimmable(k[|k| - 1]);
    }
    assert ToLower(k) == k;
  }

  /** Every stored name is trimmed and lower case and every stored value is
      trimmed, whatever the header lines were. */
  lemma {:induction false} HeadersNormal(s: String, h: Headers)
    requires forall k :: k in h ==> NormalName(k) && IsTrimmed(h[k])
    ensures var r := ReadHeaders(s, h).0;
      forall k :: k in r ==> NormalName(k) && IsTrimmed(r[k])
    decreases |s|
  {
    match ReadLine(s)
    case None =>
    case Some((line, rest)) =>
      if line != [] {
        var k := IndexOf(line, ':');
        if k > 0 {
          LowerTrimmedIsNormal(line[..k]);
          TrimOfTrimmed(line[k + 1..]);
        }
        HeadersNormal(rest, AddHeader(h, line));
      }
  }

  /** `getHeader`: the value stored under the lower-case name, or "". */
  function GetHeader(req: Request, name: String): String {
    var key := ToLower(name);
    if key in req.headers then req.headers[key] else ""
  }

  // ----------------------------------------------------------------- body

  /** The body read: empty without Content-Length; otherwise the declared
      number of characters, or fewer when the input ends first. A value
      `parseInt` refuses and a negative length escape as exceptions. */
  function ReadBody(h: Headers, s: String): (r: Outcome<String>)
    ensures r.Null? == false
    ensures "content-length" !in h ==> r == Done([], s)
    ensures r.Done? ==> r.value + r.rest == s
    ensures r.Done? && "content-length" in h ==>
      ParseInt(Trim(h["content-length"])).Some? &&
      |r.value| == Min(ParseInt(Trim(h["content-length"])).value, |s|)
    ensures r.Thrown? <==> ("content-length" in h &&
      (ParseInt(Trim(h["content-length"])).None? || ParseInt(Trim(h["content-length"])).value < 0))
  {
    if "content-length" !in h then Done([], s)
    else
      match ParseInt(Trim(h["content-length"]))
      case None => Thrown(NumberFormat)
      case Some(n) =>
        if n < 0 then Thrown(NegativeArraySize)
        else
          var m := Min(n, |s|);
          assert s[..m] + s[m..] == s;
          Done(s[..m], s[m..])
  }

  // --------------------------------------------------------------- parsers

  /** `parsearPeticion`. */
  function ParseRequest(s: String): (r: Outcome<Request>)
    ensures r.Null? <==> ReadLine(s).None? || ReadLine(s).value.0 == [] || |Split(ReadLine(s).value.0, ' ')| < 2
    ensures r.Done? ==> |r.rest| <= |s|
  {
    match ReadLine(s)
    case None => Null
    case Some((line, rest)) =>
      var parts := Split(line, ' ');
      if line == [] || |parts| < 2 then Null
      else
        var (h, rest2) := ReadHeaders(rest, map[]);
        match ReadBody(h, rest2)
        case Done(body, rest3) => Done(Request(ToUpper(parts[0]), parts[1], h, body), rest3)
        case Thrown(f) => Thrown(f)
  }

  /** `parsearRespuesta` (server copy): the status code goes through
      `parseInt` unguarded, so a non-numeric one escapes as an exception. */
  function ParseResponse(s: String): (r: Outcome<Response>)
    ensures r.Null? <==> ReadLine(s).None? || ReadLine(s).value.0 == [] || |SplitLimit(ReadLine(s).value.0, ' ', 3)| < 2
    ensures r.Done? ==> |r.rest| <= |s|
  {
    match ReadLine(s)
    case None => Null
    case Some((line, rest)) =>
      var parts := SplitLimit(line, ' ', 3);
      if line == [] || |parts| < 2 then Null
      else
        match ParseInt(parts[1])
        case None => Thrown(NumberFormat)
        case Some(code) =>
          var reason := if |parts| > 2 then parts[2] else [];
          var (h, rest2) := ReadHeaders(rest, map[]);
          match ReadBody(h, rest2)
          case Done(body, rest3) => Done(Response(code, reason, body), rest3)
          case Thrown(f) => Thrown(f)
  }

  // ------------------------------------------------------ reading a stream

  /** The header `while` loop of `parsearPeticion` and `parsearRespuesta`:
      one `readLine` per turn into a map, until end of input or an empty line. */
  method ReceiveHeaders(s: String) returns (h: Headers, rest: String)
    ensures (h, rest) == ReadHeaders(s, map[])
  {
    h, rest := map[], s;
    while true
      invariant ReadHeaders(rest, h) == ReadHeaders(s, map[])
      decreases |rest|
    {
      var next := ReadLine(rest);
      if next.None? {
        return;
      }
      var (line, after) := next.value;
      if line == [] {
        rest := after;
        return;
      }
      var separator := IndexOf(line, ':');
      if separator > 0 {
        h := h[ToLower(Trim(line[..separator])) := Trim(line[separator + 1..])];
      }
      rest := after;
    }
  }

  /** The body read: a `char[]` of the declared length filled by `read`
      calls, each of which delivers at least one of the characters still
      wanted, until the buffer is full or the input ends. */
  method ReceiveBody(h: Headers, s: String) returns (r: Outcome<String>)
    ensures r == ReadBody(h, s)
  {
    if "content-length" !in h {
      return Done([], s);
    }
    var declared := ParseInt(Trim(h["content-length"]));
    if declared.None? {
      return Thrown(NumberFormat);
    }
    var length := declared.value;
    if length < 0 {
      return Thrown(NegativeArraySize);
    }
    var buffer := new char[length];
    var count := 0;
    var input := s;
    while count < length
      invariant 0 <= count <= length
      invariant count <= |s|
      invariant input == s[count..]
      invariant forall i :: 0 <= i < count ==> buffer[i] == s[i]
      decreases length - count
    {
      if input == [] {
        break;
      }
      var got :| 1 <= got <= length - count && got <= |input|;
      forall j | 0 <= j < got {
        buffer[count + j] := input[j];
      }
      count := count + got;
      input := input[got..];
    }
    assert buffer[..count] == s[..count];
    r := Done(buffer[..count], input);
  }

  /** `parsearPeticion` over the unread input. */
  method ReceiveRequest(s: String) returns (r: Outcome<Request>)
    ensures r == ParseRequest(s)
  {
    var first := ReadLine(s);
    if first.None? || first.value.0 == [] {
      return Null;
    }
    var (line, rest) := first.value;
    var parts := Split(line, ' ');
    if |parts| < 2 {
      return Null;
    }
    var verb := ToUpper(parts[0]);
    var path := parts[1];
    var h, rest2 := ReceiveHeaders(rest);
    var body := ReceiveBody(h, rest2);
    if body.Thrown? {
      return Thrown(body.failure);
    }
    r := Done(Request(verb, path, h, body.value), body.rest);
  }

  /** `parsearRespuesta` (server copy) over the unread input. */
  method ReceiveResponse(s: String) returns (r: Outcome<Response>)
    ensures r == ParseResponse(s)
  {
    var first := ReadLine(s);
    if first.None? || first.value.0 == [] {
      return Null;
    }
    var (line, rest) := first.value;
    var parts := SplitLimit(line, ' ', 3);
    if |parts| < 2 {
      return Null;
    }
    var code := ParseInt(parts[1]);
    if code.None? {
      return Thrown(NumberFormat);
    }
    var reason := if |parts| > 2 then parts[2] else [];
    var h, rest2 := ReceiveHeaders(rest);
    var body := ReceiveBody(h, rest2);
    if body.Thrown? {
      return Thrown(body.failure);
    }
    r := Done(Response(code.value, reason, body.value), body.rest);
  }

  // -------------------------------------------------------------- builders

  const Version: String := "HTTP/1.1"
  const HostName: String := "Host"
  const ContentTypeName: String := "Content-Type"
  const ContentLengthName: String := "Content-Length"
  const ConnectionName: String := "Connection"
  const TextPlain: String := "text/plain; charset=UTF-8"
  const KeepAlive: String := "keep-alive"
  const Localhost: String := "localhost"

  /** A header field as the builders write it: name, ": ", value. */
  function FieldLine(f: (String, String)): String {
    f.0 + [':'] + ([' '] + f.1)
  }

  /** Header fields, each ended by CR LF. */
  function HeaderBlock(fields: seq<(String, String)>): String {
    if fields == [] then [] else FieldLine(fields[0]) + CrLf + HeaderBlock(fields[1..])
  }

  /** `construirRespuesta`: status line, the three fixed fields with the
      body's UTF-8 byte count, an empty line, the body. */
  function BuildResponse(code: int, reason: String, body: String): String {
    StatusLine(code, reason) + CrLf + HeaderBlock(ResponseFields(Utf8Length(body))) + CrLf + body
  }

  function StatusLine(code: int, reason: String): String {
    Version + [' '] + (IntToString(code) + [' '] + reason)
  }

  function ResponseFields(length: nat): seq<(String, String)> {
    [(ContentTypeName, TextPlain),
     (ContentLengthName, NatToString(length)),
     (ConnectionName, KeepAlive)]
  }

  /** `construirRespuesta200`. */
  function BuildOk(body: String): String { BuildResponse(200, "OK", body) }
  /** `construirRespuesta400`. */
  function BuildBadRequest(body: String): String { BuildResponse(400, "Bad Request", body) }
  /** `construirRespuesta403`. */
  function BuildForbidden(body: String): String { BuildResponse(403, "Forbidden", body) }
  /** `construirRespuesta404`. */
  function BuildNotFound(body: String): String { BuildResponse(404, "Not Found", body) }

  /** A request line: method, path and version separated by single spaces. */
  function RequestLine(verb: String, path: String): String {
    verb + [' '] + (path + [' '] + Version)
  }

  /** A GET request to `host`: request line, Host and Connection, an empty
      line, no body. */
  function GetMessage(path: String, host: String): String {
    RequestLine("GET", path) + CrLf + HeaderBlock(GetFields(host)) + CrLf
  }

  /** `construirPeticionGET`: a GET to "localhost". */
  function BuildGet(path: String): String {
    GetMessage(path, Localhost)
  }

  function GetFields(host: String): seq<(String, String)> {
    [(HostName, host), (ConnectionName, KeepAlive)]
  }

  /** A POST request to `host`: request line, Host, Content-Type, the
      body's UTF-8 byte count, Connection, an empty line, the body. */
  function PostMessage(path: String, host: String, body: String): String {
    RequestLine("POST", path) + CrLf + HeaderBlock(PostFields(host, Utf8Length(body))) + CrLf + body
  }

  /** `construirPeticionPOST`: a POST to "localhost". */
  function BuildPost(path: String, body: String): String {
    PostMessage(path, Localhost, body)
  }

  function PostFields(host: String, length: nat): seq<(String, String)> {
    [(HostName, host),
     (ContentTypeName, TextPlain),
     (ContentLengthName, NatToString(length)),
     (ConnectionName, KeepAlive)]
  }

  /** What the header loop stores for the fields of a built response. */
  function ResponseHeaderMap(n: nat): Headers {
    map["content-type" := TextPlain, "content-length" := NatToString(n), "connection" := KeepAlive]
  }

  /** What the header loop stores for the fields of a built POST request. */
  function PostHeaderMap(host: String, n: nat): Headers {
    map["host" := Trim(host), "content-type" := TextPlain, "content-length" := NatToString(n), "connection" := KeepAlive]
  }

  /** What the header loop stores for the fields of a built GET request. */
  function GetHeaderMap(host: String): Headers {
    map["host" := Trim(host), "connection" := KeepAlive]
  }

  // ------------------------------------------------- reading what is built

  /** A field the parser reads back as written. */
  predicate WellFormedField(f: (String, String)) {
    f.0 != [] && ':' !in f.0 && NoBreak(f.0) && NoBreak(f.1)
  }

  /** The map the parser fills from `fields`, later entries winning. */
  function Store(h: Headers, fields: seq<(String, String)>): Headers
    decreases |fields|
  {
    if fields == [] then h else Store(h[ToLower(Trim(fields[0].0)) := Trim(fields[0].1)], fields[1..])
  }

  lemma {:induction false} FieldLineColon(f: (String, String))
    requires WellFormedField(f)
    ensures IndexOf(FieldLine(f), ':') == |f.0|
  {
    var tail := [' '] + f.1;
    assert FieldLine(f) == f.0 + ([':'] + tail);
    IndexOfAppend(f.0, [':'] + tail, ':');
  }

  lemma {:induction false} FieldLineNoBreak(f: (String, String))
    requires WellFormedField(f)
    ensures NoBreak(FieldLine(f))
  {
    NoBreakConcat(f.0, [':']);
    NoBreakConcat([' '], f.1);
    NoBreakConcat(f.0 + [':'], [' '] + f.1);
  }

  /** A built header line is stored under its trimmed lower-case name. */
  lemma {:induction false} AddFieldLine(h: Headers, f: (String, String))
    requires WellFormedField(f)
    ensures AddHeader(h, FieldLine(f)) == h[ToLower(Trim(f.0)) := Trim(f.1)]
  {
    var line := FieldLine(f);
    FieldLineColon(f);
    assert line[..|f.0|] == f.0;
    assert line[|f.0| + 1..] == [' '] + f.1;
    TrimLeadingSpace(f.1);
  }

  /** The header loop reads a block of well-formed fields and the empty line
      after it, and stops there. */
  lemma {:induction false} ReadHeaderBlock(fields: seq<(String, String)>, rest: String, h: Headers)
    requires forall i :: 0 <= i < |fields| ==> WellFormedField(fields[i])
    ensures ReadHeaders(HeaderBlock(fields) + CrLf + rest, h) == (Store(h, fields), rest)
    decreases |fields|
  {
    if fields == [] {
      assert HeaderBlock(fields) + CrLf + rest == [] + CrLf + rest;
      ReadLineCrLf([], rest);
    } else {
      var line := FieldLine(fields[0]);
      var after := HeaderBlock(fields[1..]) + CrLf + rest;
      FieldLineNoBreak(fields[0]);
      AddFieldLine(h, fields[0]);
      assert HeaderBlock(fields) + CrLf + rest == line + CrLf + after;
      ReadLineCrLf(line, after);
      ReadHeaderBlock(fields[1..], rest, AddHeader(h, line));
    }
  }

  lemma {:induction false} ContentTypeField()
    ensures WellFormedField((ContentTypeName, TextPlain))
  {
  }

  lemma {:induction false} ConnectionField()
    ensures WellFormedField((ConnectionName, KeepAlive))
  {
  }

  lemma {:induction false} HostField(host: String)
    requires NoBreak(host)
    ensures WellFormedField((HostName, host))
  {
  }

  /** The Content-Length field of a built message is well formed. */
  lemma {:induction false} LengthField(n: nat)
    ensures WellFormedField((ContentLengthName, NatToString(n)))
  {
    DigitsNoBreak(NatToString(n));
  }

  lemma {:induction false} LengthTrimmed(n: nat)
    ensures Trim(NatToString(n)) == NatToString(n)
  {
    DigitsNoBreak(NatToString(n));
    TrimIdentity(NatToString(n));
  }

  /** The names the builders write, as the parser stores them. */
  lemma {:induction false} ContentTypeKey()
    ensures ToLower(Trim(ContentTypeName)) == "content-type"
  {
    TrimIdentity(ContentTypeName);
  }

  lemma {:induction false} ContentLengthKey()
    ensures ToLower(Trim(ContentLengthName)) == "content-length"
  {
    TrimIdentity(ContentLengthName);
  }

  lemma {:induction false} ConnectionKey()
    ensures ToLower(Trim(ConnectionName)) == "connection"
  {
    TrimIdentity(ConnectionName);
  }

  lemma {:induction false} HostKey()
    ensures ToLower(Trim(HostName)) == "host"
  {
    TrimIdentity(HostName);
  }

  lemma {:induction false} StoreCons(h: Headers, f: (String, String), fs: seq<(String, String)>)
    ensures Store(h, [f] + fs) == Store(h[ToLower(Trim(f.0)) := Trim(f.1)], fs)
  {
    assert ([f] + fs)[1..] == fs;
  }

  lemma {:induction false} StoreResponse(n: nat)
    ensures Store(map[], ResponseFields(n)) ==
      ResponseHeaderMap(n)
  {
    var a, b, c := (ContentTypeName, TextPlain), (ContentLengthName, NatToString(n)), (ConnectionName, KeepAlive);
    assert ResponseFields(n) == [a] + ([b] + ([c] + []));
    ContentTypeKey();
    ContentLengthKey();
    ConnectionKey();
    TrimIdentity(TextPlain);
    LengthTrimmed(n);
    TrimIdentity(KeepAlive);
    StoreCons(map[], a, [b] + ([c] + []));
    StoreCons(map["content-type" := TextPlain], b, [c] + []);
    StoreCons(map["content-type" := TextPlain, "content-length" := NatToString(n)], c, []);
  }

  lemma {:induction false} StorePost(host: String, n: nat)
    ensures Store(map[], PostFields(host, n)) ==
      PostHeaderMap(host, n)
  {
    var a, b, c, d := (HostName, host), (ContentTypeName, TextPlain), (ContentLengthName, NatToString(n)), (ConnectionName, KeepAlive);
    assert PostFields(host, n) == [a] + ([b] + ([c] + ([d] + [])));
    HostKey();
    ContentTypeKey();
    ContentLengthKey();
    ConnectionKey();
    TrimIdentity(TextPlain);
    LengthTrimmed(n);
    TrimIdentity(KeepAlive);
    var h1 := map["host" := Trim(host)];
    var h2 := h1["content-type" := TextPlain];
    var h3 := h2["content-length" := NatToString(n)];
    StoreCons(map[], a, [b] + ([c] + ([d] + [])));
    StoreCons(h1, b, [c] + ([d] + []));
    StoreCons(h2, c, [d] + []);
    StoreCons(h3, d, []);
  }

  lemma {:induction false} StoreGet(host: String)
    ensures Store(map[], GetFields(host)) == GetHeaderMap(host)
  {
    var a, b := (HostName, host), (ConnectionName, KeepAlive);
    assert GetFields(host) == [a] + ([b] + []);
    HostKey();
    ConnectionKey();
    TrimIdentity(KeepAlive);
    StoreCons(map[], a, [b] + []);
    StoreCons(map["host" := Trim(host)], b, []);
  }

  /** The headers the parser stores for a built response. */
  lemma {:induction false} ResponseHeaders(n: nat, rest: String)
    ensures ReadHeaders(HeaderBlock(ResponseFields(n)) + CrLf + rest, map[]) ==
      (ResponseHeaderMap(n), rest)
  {
    var fs := ResponseFields(n);
    forall i | 0 <= i < |fs|
      ensures WellFormedField(fs[i])
    {
      ContentTypeField();
      LengthField(n);
      ConnectionField();
    }
    ReadHeaderBlock(fs, rest, map[]);
    StoreResponse(n);
  }

  /** The headers the parser stores for a built POST request. */
  lemma {:induction false} PostHeaders(host: String, n: nat, rest: String)
    requires NoBreak(host)
    ensures ReadHeaders(HeaderBlock(PostFields(host, n)) + CrLf + rest, map[]) ==
      (PostHeaderMap(host, n), rest)
  {
    var fs := PostFields(host, n);
    forall i | 0 <= i < |fs|
      ensures WellFormedField(fs[i])
    {
      HostField(host);
      ContentTypeField();
      LengthField(n);
      ConnectionField();
    }
    ReadHeaderBlock(fs, rest, map[]);
    StorePost(host, n);
  }

  /** The headers the parser stores for a built GET request. */
  lemma {:induction false} GetHeaders(host: String, rest: String)
    requires NoBreak(host)
    ensures ReadHeaders(HeaderBlock(GetFields(host)) + CrLf + rest, map[]) ==
      (GetHeaderMap(host), rest)
  {
    var fs := GetFields(host);
    forall i | 0 <= i < |fs|
      ensures WellFormedField(fs[i])
    {
      HostField(host);
      ConnectionField();
    }
    ReadHeaderBlock(fs, rest, map[]);
    StoreGet(host);
  }

  /** Cutting at a separator that `a` lacks, with a limit above one. */
  lemma {:induction false} SplitLimitCons(a: String, b: String, d: char, limit: nat)
    requires limit >= 2 && d !in a
    ensures SplitLimit(a + [d] + b, d, limit) == [a] + SplitLimit(b, d, limit - 1)
  {
    var s := a + [d] + b;
    IndexOfAppend(a, [d] + b, d);
    assert s == a + ([d] + b);
    assert s[..|a|] == a;
    assert s[|a| + 1..] == b;
  }

  lemma {:induction false} CodeHasNoSpace(code: int)
    ensures ' ' !in IntToString(code) && NoBreak(IntToString(code))
  {
    var c := IntToString(code);
    if code < 0 {
      DigitsNoBreak(NatToString(-code));
      assert c == "-" + NatToString(-code);
      NoBreakConcat("-", NatToString(-code));
    } else {
      DigitsNoBreak(NatToString(code));
    }
  }

  /** A status line the builder wrote splits into version, code and reason. */
  lemma {:induction false} StatusLineParts(code: int, reason: String)
    ensures SplitLimit(StatusLine(code, reason), ' ', 3) == [Version, IntToString(code), reason]
  {
    var c := IntToString(code);
    CodeHasNoSpace(code);
    assert ' ' !in Version;
    SplitLimitCons(Version, c + [' '] + reason, ' ', 3);
    SplitLimitCons(c, reason, ' ', 2);
  }

  lemma {:induction false} StatusLineNoBreak(code: int, reason: String)
    requires NoBreak(reason)
    ensures NoBreak(StatusLine(code, reason))
  {
    CodeHasNoSpace(code);
    assert NoBreak(Version + [' ']);
    NoBreakConcat(IntToString(code), [' ']);
    NoBreakConcat(IntToString(code) + [' '], reason);
    NoBreakConcat(Version + [' '], IntToString(code) + [' '] + reason);
  }

  /** A request line the builder wrote splits into method, path and version. */
  lemma {:induction false} RequestLineParts(verb: String, path: String)
    requires ' ' !in verb && ' ' !in path
    ensures Split(RequestLine(verb, path), ' ') == [verb, path, Version]
  {
    assert ' ' !in Version && Version != [];
    SplitThree(verb, path, Version, ' ');
  }

  lemma {:induction false} RequestLineNoBreak(verb: String, path: String)
    requires NoBreak(verb) && NoBreak(path)
    ensures NoBreak(RequestLine(verb, path))
  {
    assert NoBreak([' '] + Version);
    NoBreakConcat(path, [' '] + Version);
    NoBreakConcat(verb, [' ']);
    assert path + [' '] + Version == path + ([' '] + Version);
    NoBreakConcat(verb + [' '], path + [' '] + Version);
  }

  /** The methods the builders write are already upper case. */
  lemma {:induction false} UpperVerb(verb: String)
    requires verb == "GET" || verb == "POST"
    ensures ToUpper(verb) == verb
  {
  }

  /** A built message followed by more input, regrouped after its first line. */
  lemma {:induction false} MessageShape(line: String, block: String, body: String, more: String)
    ensures line + CrLf + block + CrLf + body + more == line + CrLf + (block + CrLf + (body + more))
  {
  }

  /** `parsearPeticion` in three steps: request line, header block, body. */
  lemma {:induction false} ParseRequestSteps(s: String, line: String, rest: String, h: Headers, rest2: String, body: String, rest3: String)
    requires ReadLine(s) == Some((line, rest)) && line != [] && |Split(line, ' ')| >= 2
    requires ReadHeaders(rest, map[]) == (h, rest2)
    requires ReadBody(h, rest2) == Done(body, rest3)
    ensures ParseRequest(s) == Done(Request(ToUpper(Split(line, ' ')[0]), Split(line, ' ')[1], h, body), rest3)
  {
  }

  /** `parsearRespuesta` in three steps: status line, header block, body. */
  lemma {:induction false} ParseResponseSteps(s: String, line: String, rest: String, code: int, h: Headers, rest2: String, body: String, rest3: String)
    requires ReadLine(s) == Some((line, rest)) && line != []
    requires |SplitLimit(line, ' ', 3)| >= 2 && ParseInt(SplitLimit(line, ' ', 3)[1]) == Some(code)
    requires ReadHeaders(rest, map[]) == (h, rest2)
    requires ReadBody(h, rest2) == Done(body, rest3)
    ensures var parts := SplitLimit(line, ' ', 3);
      ParseResponse(s) == Done(Response(code, if |parts| > 2 then parts[2] else [], body), rest3)
  {
  }

  /** The length a built message declares reads back as that number. */
  lemma {:induction false} DeclaredLength(n: nat)
    requires n <= MaxInt
    ensures ParseInt(Trim(NatToString(n))) == Some(n)
  {
    LengthTrimmed(n);
    DigitsOfNat(n);
  }

  /** With a declared length of `n`, the body is the next `n` characters,
      or all that is left. */
  lemma {:induction false} ReadDeclared(h: Headers, n: nat, x: String)
    requires "content-length" in h && h["content-length"] == NatToString(n) && n <= MaxInt
    ensures ReadBody(h, x) == Done(x[..Min(n, |x|)], x[Min(n, |x|)..])
  {
    DeclaredLength(n);
  }

  /** Reading back a built response: the code and reason come back, and
      the decoder takes as many characters as the body has UTF-8 bytes,
      from the body and whatever follows it. */
  lemma {:induction false} ResponseFraming(code: int, reason: String, body: String, more: String)
    requires MinInt <= code <= MaxInt
    requires NoBreak(reason)
    requires Utf8Length(body) <= MaxInt
    ensures var x := body + more;
      var k := Min(Utf8Length(body), |x|);
      ParseResponse(BuildResponse(code, reason, body) + more) ==
        Done(Response(code, reason, x[..k]), x[k..])
  {
    var n := Utf8Length(body);
    var status := StatusLine(code, reason);
    StatusLineNoBreak(code, reason);
    var x := body + more;
    var block := HeaderBlock(ResponseFields(n));
    MessageShape(status, block, body, more);
    ReadLineCrLf(status, block + CrLf + x);
    StatusLineParts(code, reason);
    IntRoundTrip(code);
    var h := ResponseHeaderMap(n);
    ResponseHeaders(n, x);
    ReadDeclared(h, n, x);
    var k := Min(n, |x|);
    ParseResponseSteps(status + CrLf + (block + CrLf + x), status, block + CrLf + x, code, h, x, x[..k], x[k..]);
  }

  /** Round trip: a response whose body is as many characters as UTF-8
      bytes (for instance ASCII) parses back to its code, reason and body,
      and the input after it is left unread. */
  lemma {:induction false} ResponseRoundTrip(code: int, reason: String, body: String, more: String)
    requires MinInt <= code <= MaxInt
    requires NoBreak(reason)
    requires Utf8Length(body) == |body| <= MaxInt
    ensures ParseResponse(BuildResponse(code, reason, body) + more) ==
      Done(Response(code, reason, body), more)
  {
    ResponseFraming(code, reason, body, more);
    assert (body + more)[..|body|] == body;
    assert (body + more)[|body|..] == more;
  }

  /** The byte/character mismatch: "ñ" is two UTF-8 bytes, so the decoder
      reads two characters and takes one that belongs to the next message. */
  lemma {:induction false} MultibyteBodyOverreads()
    ensures ParseResponse(BuildOk("ñ") + "X") == Done(Response(200, "OK", "ñX"), "")
  {
    var body, more := "ñ", "X";
    assert Utf8Length(body) == 2 by { assert body[1..] == []; }
    assert NoBreak("OK");
    ResponseFraming(200, "OK", body, more);
    var x := body + more;
    assert |x| == 2 && x[..2] == x == "ñX" && x[2..] == [];
  }

  /** Reading back a built POST request: method, path and header fields
      come back, and the decoder takes as many characters as the body has
      UTF-8 bytes, from the body and whatever follows it. */
  lemma {:induction false} PostFraming(path: String, host: String, body: String, more: String)
    requires ' ' !in path && NoBreak(path) && NoBreak(host)
    requires Utf8Length(body) <= MaxInt
    ensures var x := body + more;
      var k := Min(Utf8Length(body), |x|);
      ParseRequest(PostMessage(path, host, body) + more) ==
        Done(Request("POST", path, PostHeaderMap(host, Utf8Length(body)), x[..k]), x[k..])
  {
    var n := Utf8Length(body);
    var x := body + more;
    var after := HeaderBlock(PostFields(host, n)) + CrLf + x;
    PostFirstLine(path, host, body, more);
    RequestLineParts("POST", path);
    UpperVerb("POST");
    PostHeaders(host, n, x);
    ReadDeclared(PostHeaderMap(host, n), n, x);
    var k := Min(n, |x|);
    ParseRequestSteps(PostMessage(path, host, body) + more, RequestLine("POST", path), after,
                      PostHeaderMap(host, n), x, x[..k], x[k..]);
  }

  lemma {:induction false} PostFirstLine(path: String, host: String, body: String, more: String)
    requires NoBreak(path)
    ensures ReadLine(PostMessage(path, host, body) + more) ==
      Some((RequestLine("POST", path), HeaderBlock(PostFields(host, Utf8Length(body))) + CrLf + (body + more)))
  {
    var line := RequestLine("POST", path);
    var block := HeaderBlock(PostFields(host, Utf8Length(body)));
    RequestLineNoBreak("POST", path);
    MessageShape(line, block, body, more);
    ReadLineCrLf(line, block + CrLf + (body + more));
  }

  /** Round trip: a POST with a body of as many characters as UTF-8 bytes
      parses back to method POST, its path and its body, and the input
      after it is left unread. */
  lemma {:induction false} PostRoundTrip(path: String, host: String, body: String, more: String)
    requires ' ' !in path && NoBreak(path) && NoBreak(host)
    requires Utf8Length(body) == |body| <= MaxInt
    ensures var r := ParseRequest(PostMessage(path, host, body) + more);
      r.Done? && r.value.verb == "POST" && r.value.path == path && r.value.body == body && r.rest == more
  {
    PostFraming(path, host, body, more);
    assert (body + more)[..|body|] == body;
    assert (body + more)[|body|..] == more;
  }

  /** Reading back a built GET request: no Content-Length, so no body. */
  lemma {:induction false} GetRoundTrip(path: String, host: String, more: String)
    requires ' ' !in path && NoBreak(path) && NoBreak(host)
    ensures ParseRequest(GetMessage(path, host) + more) ==
      Done(Request("GET", path, GetHeaderMap(host), []), more)
  {
    var line := RequestLine("GET", path);
    RequestLineNoBreak("GET", path);
    var block := HeaderBlock(GetFields(host));
    assert GetMessage(path, host) + more == line + CrLf + (block + CrLf + more);
    ReadLineCrLf(line, block + CrLf + more);
    RequestLineParts("GET", path);
    UpperVerb("GET");
    var h := GetHeaderMap(host);
    GetHeaders(host, more);
    ParseRequestSteps(line + CrLf + (block + CrLf + more), line, block + CrLf + more, h, more, [], more);
  }

  /** `getHeader` ignores the case of the name it is asked for. */
  lemma {:induction false} GetHeaderIgnoresCase(req: Request, a: String, b: String)
    requires ToLower(a) == ToLower(b)
    ensures GetHeader(req, a) == GetHeader(req, b)
  {
  }
}
