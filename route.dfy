/**
 * The server route `POST /api/download` (src/app/api/download/route.ts): a
 * proxy that fetches a remote file on the browser's behalf. The handler is a
 * fail-fast chain of checks on the requested URL, then a mapping from what
 * the upstream server did to the response sent back.
 *
 * It is modelled as one pure function from three inputs to a `Handled`
 * record: the request body, the URL parser (`new URL`, abstract here) and the
 * outcome of the outbound fetch (abstract too). The record says which
 * request, if any, was sent upstream, and which response came back.
 */
module DownloadRoute {
  import opened Wrappers
  import opened JsText

  // ---------------------------------------------------------------------------
  // Inputs
  // ---------------------------------------------------------------------------

  /** The `url` property of the JSON request body. */
  datatype UrlField =
    | Missing              // `undefined` or `null`
    | NotAString(falsy: bool)  // a number, boolean, object or array; `falsy` for 0, NaN and false
    | Text(s: string)

  /**
   * The request body. `Unreadable` covers a body that is not JSON, and a body
   * that is JSON `null`, whose destructuring throws a `TypeError`.
   */
  datatype RequestBody = Unreadable | Json(url: UrlField)

  /** The two components of a parsed URL that the route looks at. */
  datatype ParsedUrl = ParsedUrl(protocol: string, hostname: string)

  /** Something thrown inside the handler: whether it is an `Error` object, and its `name`. */
  datatype Thrown = Thrown(isError: bool, name: string)

  /** Reading the upstream body with `arrayBuffer()`. */
  datatype BodyRead = Bytes(data: seq<bv8>) | ReadThrew(error: Thrown)

  /**
   * What the outbound `fetch` did. The headers are the values `headers.get`
   * returns: `None` is `null`, an absent header.
   */
  datatype Upstream =
    | Responded(status: nat, statusText: string, contentType: Option<string>,
                contentLength: Option<string>, body: BodyRead)
    | FetchThrew(error: Thrown)

  // ---------------------------------------------------------------------------
  // Outputs
  // ---------------------------------------------------------------------------

  /** The request the route sends upstream. */
  datatype FetchRequest = FetchRequest(url: string, userAgent: string, timeoutMs: nat)

  /** A response: a JSON body `{ error }`, or the downloaded bytes as an attachment. */
  datatype Response =
    | JsonError(status: nat, error: string)
    | Attachment(status: nat, headers: seq<(string, string)>, data: seq<bv8>)

  /** The route's observable behaviour on one request. */
  datatype Handled = Handled(fetched: Option<FetchRequest>, response: Response)

  const UserAgent: string := "UniversalAudioEditor/1.0"
  const TimeoutMs: nat := 30000
  /** 500 MiB. */
  const MaxBytes: nat := 500 * 1024 * 1024
  const DefaultContentType: string := "application/octet-stream"

  const UrlRequired: string := "A valid URL is required"
  const InvalidUrl: string := "Invalid URL format"
  const UnsupportedScheme: string := "Only HTTP and HTTPS URLs are supported"
  const InternalAddress: string := "Internal addresses are not allowed"
  const TooLarge: string := "File is too large (max 500MB)"
  const TimedOut: string := "Request timed out. The server took too long to respond."
  const DownloadFailed: string := "Failed to download the file. Please check the URL and try again."

  // ---------------------------------------------------------------------------
  // Predicates the handler tests
  // ---------------------------------------------------------------------------

  /** `!url || typeof url !== "string"` fails: the url is a non-empty string. */
  predicate UrlGiven(field: UrlField) {
    field.Text? && field.s != []
  }

  predicate SchemeSupported(protocol: string) {
    protocol == "http:" || protocol == "https:"
  }

  /** The hostname blocklist, as written: four exact names and three prefixes. */
  predicate IsInternalHost(hostname: string) {
    hostname == "localhost" ||
    hostname == "127.0.0.1" ||
    StartsWith(hostname, "192.168.") ||
    StartsWith(hostname, "10.") ||
    StartsWith(hostname, "172.") ||
    hostname == "0.0.0.0" ||
    hostname == "[::1]"
  }

  /** `response.ok`: a status in the range 200 to 299. */
  predicate IsOk(status: nat) {
    200 <= status <= 299
  }

  /**
   * Whether a response carrying a JSON body may have this status. The Fetch
   * Standard's `Response` constructor throws a `RangeError` outside 200..599
   * and a `TypeError` for the null-body statuses; of those, only 304 is not ok.
   */
  predicate CanCarryJson(status: nat) {
    200 <= status <= 599 && status != 204 && status != 205 && status != 304
  }

  /** `err instanceof Error && err.name === "TimeoutError"`. */
  predicate IsTimeout(e: Thrown) {
    e.isError && e.name == "TimeoutError"
  }

  /** `contentLength && parseInt(contentLength) > 500 * 1024 * 1024`; NaN compares false. */
  predicate DeclaredTooLarge(contentLength: Option<string>) {
    contentLength.Some? && contentLength.value != [] &&
    var n := ParseInt(contentLength.value);
    n.Some? && n.value > MaxBytes
  }

  // ---------------------------------------------------------------------------
  // The handler
  // ---------------------------------------------------------------------------

  /** The `catch` block: 504 for a timeout, 500 for anything else. */
  function Caught(e: Thrown): (r: Response)
    ensures r.JsonError?
    ensures r.status == 504 <==> IsTimeout(e)
    ensures r.status == 504 || r.status == 500
  {
    if IsTimeout(e) then JsonError(504, TimedOut) else JsonError(500, DownloadFailed)
  }

  /** `NextResponse.json({ error }, { status })`, which throws (and so is caught) on a status it cannot carry. */
  function JsonResponse(status: nat, error: string): Response {
    if CanCarryJson(status) then JsonError(status, error) else Caught(Thrown(true, "TypeError"))
  }

  /** The headers of a successful download. */
  function SuccessHeaders(contentType: Option<string>, contentLength: Option<string>): seq<(string, string)> {
    var ct := if contentType.Some? && contentType.value != [] then contentType.value else DefaultContentType;
    [("Content-Type", ct)] +
    (if contentLength.Some? && contentLength.value != [] then [("Content-Length", contentLength.value)] else []) +
    [("Content-Disposition", "attachment")]
  }

  /** Lines 56-83, and the `catch` for what they throw: the response to an upstream outcome. */
  function Relay(upstream: Upstream): Response {
    match upstream
    case FetchThrew(e) => Caught(e)
    case Responded(status, statusText, contentType, contentLength, body) =>
      if !IsOk(status) then
        JsonResponse(status, "Failed to fetch: " + NatToString(status) + " " + statusText)
      else if DeclaredTooLarge(contentLength) then
        JsonError(413, TooLarge)
      else
        match body
        case ReadThrew(e) => Caught(e)
        case Bytes(data) => Attachment(200, SuccessHeaders(contentType, contentLength), data)
  }

  /**
   * `POST(request)`: the checks in order, each returning 400 on failure, then
   * one fetch of the url with the fixed user agent and timeout, relayed.
   */
  function Handle(body: RequestBody, parse: string -> Option<ParsedUrl>, upstream: Upstream): Handled {
    match body
    case Unreadable => Handled(None, Caught(Thrown(true, "SyntaxError")))
    case Json(field) =>
      if !UrlGiven(field) then Handled(None, JsonError(400, UrlRequired))
      else
        var url := field.s;
        var parsed := parse(url);
        if parsed.None? then Handled(None, JsonError(400, InvalidUrl))
        else if !SchemeSupported(parsed.value.protocol) then Handled(None, JsonError(400, UnsupportedScheme))
        else if IsInternalHost(parsed.value.hostname) then Handled(None, JsonError(400, InternalAddress))
        else Handled(Some(FetchRequest(url, UserAgent, TimeoutMs)), Relay(upstream))
  }

  /** Every JSON answer carries an error text; none of them is empty. */
  lemma ErrorsNotEmpty(body: RequestBody, parse: string -> Option<ParsedUrl>, upstream: Upstream)
    ensures var r := Handle(body, parse, upstream).response;
      r.JsonError? ==> r.error != []
  {
  }

  // ---------------------------------------------------------------------------
  // Fail-fast: an independent statement of the check order
  // ---------------------------------------------------------------------------

  datatype Check = UrlPresent | UrlParses | SchemeAllowed | HostAllowed

  /** The checks, in the order the handler makes them. */
  const Checks: seq<Check> := [UrlPresent, UrlParses, SchemeAllowed, HostAllowed]

  /** Whether `c` holds of the url field on its own. */
  predicate Passes(c: Check, field: UrlField, parse: string -> Option<ParsedUrl>) {
    match c
    case UrlPresent => UrlGiven(field)
    case UrlParses => field.Text? && parse(field.s).Some?
    case SchemeAllowed => field.Text? && parse(field.s).Some? && SchemeSupported(parse(field.s).value.protocol)
    case HostAllowed => field.Text? && parse(field.s).Some? && !IsInternalHost(parse(field.s).value.hostname)
  }

  /** The error message a failing check produces. */
  function Message(c: Check): string {
    match c
    case UrlPresent => UrlRequired
    case UrlParses => InvalidUrl
    case SchemeAllowed => UnsupportedScheme
    case HostAllowed => InternalAddress
  }

  /** The first of `checks` that fails: a failing check at some position, with every check before it passing. */
  function FirstFailing(checks: seq<Check>, field: UrlField, parse: string -> Option<ParsedUrl>): (r: Option<Check>)
    ensures r.Some? ==> r.value in checks && !Passes(r.value, field, parse)
    ensures r.Some? ==> (exists k :: 0 <= k < |checks| && checks[k] == r.value &&
                                (forall j :: 0 <= j < k ==> Passes(checks[j], field, parse)))
    ensures r.None? <==> forall c :: c in checks ==> Passes(c, field, parse)
  {
    if checks == [] then None
    else if !Passes(checks[0], field, parse) then
      Some(checks[0])
    else
      var r := FirstFailing(checks[1..], field, parse);
      assert forall c :: c in checks ==> c == checks[0] || c in checks[1..];
      assert r.Some? ==> (exists k :: 0 <= k < |checks| && checks[k] == r.value &&
                                (forall j :: 0 <= j < k ==> Passes(checks[j], field, parse))) by {
        if r.Some? {
          var k :| 0 <= k < |checks[1..]| && checks[1..][k] == r.value &&
            forall j :: 0 <= j < k ==> Passes(checks[1..][j], field, parse);
          assert checks[k + 1] == r.value;
          assert forall j :: 0 <= j < k + 1 ==> Passes(checks[j], field, parse) by {
            forall j | 0 <= j < k + 1
              ensures Passes(checks[j], field, parse)
            {
              if j > 0 {
                assert checks[j] == checks[1..][j - 1];
              }
            }
          }
        }
      }
      r
  }

  /**
   * The response to a readable body is decided by the first failing check,
   * which answers 400 with its own message, and nothing is fetched; when
   * every check passes, exactly one fetch of the url goes out.
   */
  lemma FailFast(field: UrlField, parse: string -> Option<ParsedUrl>, upstream: Upstream)
    ensures var h := Handle(Json(field), parse, upstream);
      match FirstFailing(Checks, field, parse)
      case Some(c) => h == Handled(None, JsonError(400, Message(c)))
      case None => h.fetched == Some(FetchRequest(field.s, UserAgent, TimeoutMs)) && h.response == Relay(upstream)
  {
    var c1, c2, c3 := Checks[1..], Checks[2..], Checks[3..];
    assert c1 == [UrlParses, SchemeAllowed, HostAllowed];
    assert c2 == [SchemeAllowed, HostAllowed] == c1[1..];
    assert c3 == [HostAllowed] == c2[1..];
    assert c3[1..] == [];
    if UrlGiven(field) {
      assert FirstFailing(Checks, field, parse) == FirstFailing(c1, field, parse);
      if parse(field.s).Some? {
        assert FirstFailing(c1, field, parse) == FirstFailing(c2, field, parse);
        if SchemeSupported(parse(field.s).value.protocol) {
          assert FirstFailing(c2, field, parse) == FirstFailing(c3, field, parse);
        }
      }
    }
  }

  /** A body that cannot be read answers 500 and fetches nothing. */
  lemma UnreadableBody(parse: string -> Option<ParsedUrl>, upstream: Upstream)
    ensures Handle(Unreadable, parse, upstream) == Handled(None, JsonError(500, DownloadFailed))
  {
  }

  /** No fetch happens unless every check passes, and the upstream outcome matters only then. */
  lemma FetchOnlyWhenValid(body: RequestBody, parse: string -> Option<ParsedUrl>, upstream: Upstream, other: Upstream)
    ensures var h := Handle(body, parse, upstream);
      h.fetched.Some? <==> body.Json? && forall c :: c in Checks ==> Passes(c, body.url, parse)
    ensures Handle(body, parse, upstream).fetched.None? ==> Handle(body, parse, upstream) == Handle(body, parse, other)
  {
    if body.Json? {
      FailFast(body.url, parse, upstream);
      FailFast(body.url, parse, other);
    }
  }

  /** A missing, empty or non-string url answers 400, whatever the parser and the upstream server would do. */
  lemma UrlRequiredFirst(field: UrlField, parse: string -> Option<ParsedUrl>, upstream: Upstream)
    requires field.Missing? || field.NotAString? || field == Text([])
    ensures Handle(Json(field), parse, upstream) == Handled(None, JsonError(400, UrlRequired))
  {
  }

  // ---------------------------------------------------------------------------
  // The hostname blocklist
  // ---------------------------------------------------------------------------

  const BlockedNames: set<string> := {"localhost", "127.0.0.1", "0.0.0.0", "[::1]"}
  const BlockedPrefixes: seq<string> := ["192.168.", "10.", "172."]

  /** The blocklist as data: a hostname is internal exactly when it is a listed name or starts with a listed prefix. */
  lemma BlocklistExactly(hostname: string)
    ensures IsInternalHost(hostname) <==>
      hostname in BlockedNames || exists i :: 0 <= i < |BlockedPrefixes| && StartsWith(hostname, BlockedPrefixes[i])
  {
    if StartsWith(hostname, "192.168.") {
      assert StartsWith(hostname, BlockedPrefixes[0]);
    }
    if StartsWith(hostname, "10.") {
      assert StartsWith(hostname, BlockedPrefixes[1]);
    }
    if StartsWith(hostname, "172.") {
      assert StartsWith(hostname, BlockedPrefixes[2]);
    }
  }

  /** The hostname of an IPv4 address in dotted-decimal form. */
  function DottedQuad(a: nat, b: nat, c: nat, d: nat): string {
    NatToString(a) + "." + (NatToString(b) + "." + (NatToString(c) + "." + NatToString(d)))
  }

  /** The private ranges of section 3 of RFC 1918: 10/8, 172.16/12 and 192.168/16. */
  predicate IsRfc1918(a: nat, b: nat) {
    a == 10 || (a == 172 && 16 <= b <= 31) || (a == 192 && b == 168)
  }

  /**
   * Which IPv4 hostnames the blocklist stops: every address whose first octet
   * is 10 or 172, every 192.168 address, and two single addresses.
   */
  lemma QuadBlockedExactly(a: nat, b: nat, c: nat, d: nat)
    ensures IsInternalHost(DottedQuad(a, b, c, d)) <==>
      a == 10 || a == 172 || (a == 192 && b == 168) ||
      (a, b, c, d) == (127, 0, 0, 1) || (a, b, c, d) == (0, 0, 0, 0)
  {
    QuadPrefixes(a, b, c, d);
    QuadNames(a, b, c, d);
  }

  /** The three prefixes of the blocklist, on a dotted quad. */
  lemma QuadPrefixes(a: nat, b: nat, c: nat, d: nat)
    ensures StartsWith(DottedQuad(a, b, c, d), "10.") <==> a == 10
    ensures StartsWith(DottedQuad(a, b, c, d), "172.") <==> a == 172
    ensures StartsWith(DottedQuad(a, b, c, d), "192.168.") <==> a == 192 && b == 168
  {
    QuadOctetPrefix(a, b, c, d, 10);
    QuadOctetPrefix(a, b, c, d, 172);
    QuadTwoOctetPrefix(a, b, c, d, 192, 168);
    assert "10." == NatToString(10) + "." by { NatToString2(10); }
    assert "172." == NatToString(172) + "." by { NatToString3(172); }
    assert "192.168." == NatToString(192) + "." + (NatToString(168) + ".") by {
      NatToString3(192);
      NatToString3(168);
    }
  }

  lemma QuadOctetPrefix(a: nat, b: nat, c: nat, d: nat, n: nat)
    ensures StartsWith(DottedQuad(a, b, c, d), NatToString(n) + ".") <==> a == n
  {
    OctetPrefix(a, NatToString(b) + "." + (NatToString(c) + "." + NatToString(d)), n);
  }


  lemma QuadTwoOctetPrefix(a: nat, b: nat, c: nat, d: nat, n: nat, m: nat)
    ensures StartsWith(DottedQuad(a, b, c, d), NatToString(n) + "." + (NatToString(m) + ".")) <==> a == n && b == m
  {
    TwoOctetPrefix(DottedQuad(a, b, c, d), a, b, NatToString(c) + "." + NatToString(d), n, m);
  }



  /** The four exact names of the blocklist, on a dotted quad. */
  lemma QuadNames(a: nat, b: nat, c: nat, d: nat)
    ensures DottedQuad(a, b, c, d) == "127.0.0.1" <==> (a, b, c, d) == (127, 0, 0, 1)
    ensures DottedQuad(a, b, c, d) == "0.0.0.0" <==> (a, b, c, d) == (0, 0, 0, 0)
    ensures DottedQuad(a, b, c, d) != "localhost" && DottedQuad(a, b, c, d) != "[::1]"
  {
    assert "127.0.0.1" == DottedQuad(127, 0, 0, 1) by {
      NatToString3(127);
      NatToString1(0);
      NatToString1(1);
    }
    assert "0.0.0.0" == DottedQuad(0, 0, 0, 0) by { NatToString1(0); }
    QuadInjective(a, b, c, d, 127, 0, 0, 1);
    QuadInjective(a, b, c, d, 0, 0, 0, 0);
    assert IsDigit(DottedQuad(a, b, c, d)[0]);
  }

  /** Every address in the private ranges of RFC 1918 is blocked. */
  lemma PrivateRangesBlocked(a: nat, b: nat, c: nat, d: nat)
    requires IsRfc1918(a, b)
    ensures IsInternalHost(DottedQuad(a, b, c, d))
  {
    QuadBlockedExactly(a, b, c, d);
  }

  /** The `172.` prefix over-blocks: 172.200.1.1 is public, yet rejected. */
  lemma PublicAddressBlocked()
    ensures !IsRfc1918(172, 200) && IsInternalHost(DottedQuad(172, 200, 1, 1))
  {
    QuadBlockedExactly(172, 200, 1, 1);
  }

  /** Of the loopback range 127/8 only 127.0.0.1 is blocked: 127.0.0.2 goes through. */
  lemma LoopbackOnlyOneAddress()
    ensures !IsInternalHost(DottedQuad(127, 0, 0, 2))
  {
    QuadBlockedExactly(127, 0, 0, 2);
  }

  /** A decimal number followed by a dot starts with another such number and dot only if the numbers are equal. */
  lemma OctetPrefix(a: nat, rest: string, n: nat)
    ensures StartsWith(NatToString(a) + "." + rest, NatToString(n) + ".") <==> a == n
  {
    var sa, sn := NatToString(a), NatToString(n);
    var s := sa + "." + rest;
    if StartsWith(s, sn + ".") {
      var k := if |sa| < |sn| then |sa| else |sn|;
      assert s[k] == (sn + ".")[k];
      assert sa == s[..|sn|] == sn;
    }
  }

  /** The same for two numbers and two dots. */
  lemma TwoOctetPrefix(s: string, a: nat, b: nat, rest: string, n: nat, m: nat)
    requires s == NatToString(a) + "." + (NatToString(b) + "." + rest)
    ensures StartsWith(s, NatToString(n) + "." + (NatToString(m) + ".")) <==> a == n && b == m
  {
    var head, tail := NatToString(a) + ".", NatToString(b) + "." + rest;
    var p, q := NatToString(n) + ".", NatToString(m) + ".";
    OctetPrefix(a, tail, n);
    OctetPrefix(b, rest, m);
    if StartsWith(head + tail, p + q) {
      PrefixOfPrefix(head + tail, p, q);
      StartsWithConcat(head, tail, p, q);
    } else if a == n {
      StartsWithConcat(head, tail, p, q);
    }
  }

  lemma PrefixOfPrefix(s: string, p: string, q: string)
    requires StartsWith(s, p + q)
    ensures StartsWith(s, p)
  {
    assert s[..|p|] == (p + q)[..|p|];
  }

  lemma StartsWithConcat(x: string, y: string, p: string, q: string)
    requires |x| == |p|
    ensures StartsWith(x + y, p + q) <==> x == p && StartsWith(y, q)
  {
    if StartsWith(x + y, p + q) {
      assert x == (x + y)[..|p|] == (p + q)[..|p|] == p;
      assert y[..|q|] == (x + y)[|p|..|p| + |q|] == (p + q)[|p|..] == q;
    }
    if x == p && StartsWith(y, q) {
      assert (x + y)[..|p + q|] == p + y[..|q|];
    }
  }

  /** Dotted quads are equal only when their octets are. */
  lemma QuadInjective(a: nat, b: nat, c: nat, d: nat, a': nat, b': nat, c': nat, d': nat)
    ensures DottedQuad(a, b, c, d) == DottedQuad(a', b', c', d') <==> (a, b, c, d) == (a', b', c', d')
  {
    if DottedQuad(a, b, c, d) == DottedQuad(a', b', c', d') {
      var p := QuadParts(a, b, c, d);
      var q := QuadParts(a', b', c', d');
      assert p == q;
      assert DigitsValue(p[0]) == a && DigitsValue(q[0]) == a';
      assert DigitsValue(p[1]) == b && DigitsValue(q[1]) == b';
      assert DigitsValue(p[2]) == c && DigitsValue(q[2]) == c';
      assert DigitsValue(p[3]) == d && DigitsValue(q[3]) == d';
    }
  }

  /** A dotted quad splits on `.` into the decimal forms of its octets. */
  function QuadParts(a: nat, b: nat, c: nat, d: nat): (parts: seq<string>)
    ensures parts == [NatToString(a), NatToString(b), NatToString(c), NatToString(d)]
  {
    var sa, sb, sc, sd := NatToString(a), NatToString(b), NatToString(c), NatToString(d);
    var s := DottedQuad(a, b, c, d);
    NoDot(sa);
    NoDot(sb);
    NoDot(sc);
    NoDot(sd);
    assert s == sa + ['.'] + (sb + ['.'] + (sc + ['.'] + sd));
    SplitAfter(sa, '.', sb + ['.'] + (sc + ['.'] + sd));
    SplitAfter(sb, '.', sc + ['.'] + sd);
    SplitTwo(sc, '.', sd);
    Split(s, '.')
  }

  lemma NoDot(s: string)
    requires AllDigits(s)
    ensures '.' !in s
  {
  }

  lemma NatToString1(n: nat)
    requires n < 10
    ensures NatToString(n) == [DigitChar(n)]
  {
  }

  lemma NatToString2(n: nat)
    requires 10 <= n < 100
    ensures NatToString(n) == [DigitChar(n / 10), DigitChar(n % 10)]
  {
  }

  lemma NatToString3(n: nat)
    requires 100 <= n < 1000
    ensures NatToString(n) == [DigitChar(n / 100), DigitChar(n / 10 % 10), DigitChar(n % 10)]
  {
    NatToString2(n / 10);
  }

  // ---------------------------------------------------------------------------
  // Relaying the upstream outcome
  // ---------------------------------------------------------------------------

  /** A non-ok upstream status is passed through with its status line in the error. */
  lemma NonOkPassedThrough(status: nat, statusText: string, ct: Option<string>, cl: Option<string>, body: BodyRead)
    requires !IsOk(status) && CanCarryJson(status)
    ensures Relay(Responded(status, statusText, ct, cl, body))
      == JsonError(status, "Failed to fetch: " + NatToString(status) + " " + statusText)
  {
  }

  /** A declared length over 500 MiB answers 413 whatever the body would have been: the body is not read. */
  lemma OversizeRejectedUnread(status: nat, statusText: string, ct: Option<string>, cl: string, body: BodyRead)
    requires IsOk(status)
    requires ParseInt(cl).Some? && ParseInt(cl).value > MaxBytes
    ensures Relay(Responded(status, statusText, ct, Some(cl), body)) == JsonError(413, TooLarge)
  {
  }

  /**
   * An absent or empty Content-Length is never the reason for a rejection. (A
   * 413 can still come back: as the upstream server's own status, passed through.)
   */
  lemma AbsentLengthNeverRejected(status: nat, statusText: string, ct: Option<string>, cl: Option<string>, body: BodyRead)
    requires cl.None? || cl == Some([])
    ensures Relay(Responded(status, statusText, ct, cl, body)) != JsonError(413, TooLarge)
  {
    var passed := "Failed to fetch: " + NatToString(status) + " " + statusText;
    assert passed[1] == 'a' != TooLarge[1];
  }

  /**
   * An ok upstream within the size limit whose body reads completely gives
   * 200 with the bytes and exactly these headers: the upstream Content-Type
   * or the default, the upstream Content-Length only when one was sent, and
   * Content-Disposition `attachment`.
   */
  lemma SuccessResponse(status: nat, statusText: string, ct: Option<string>, cl: Option<string>, data: seq<bv8>)
    requires IsOk(status) && !DeclaredTooLarge(cl)
    ensures var r := Relay(Responded(status, statusText, ct, cl, Bytes(data)));
      && r.Attachment? && r.status == 200 && r.data == data
      && r.headers[0] == ("Content-Type", if ct.Some? && ct.value != [] then ct.value else DefaultContentType)
      && r.headers[|r.headers| - 1] == ("Content-Disposition", "attachment")
      && (|r.headers| == 3 <==> cl.Some? && cl.value != [])
      && (|r.headers| == 3 ==> r.headers[1] == ("Content-Length", cl.value))
  {
  }

  /** Every response is an attachment with status 200 or an `{ error }` body with a status from a fixed set. */
  lemma ResponseShapes(body: RequestBody, parse: string -> Option<ParsedUrl>, upstream: Upstream)
    ensures var r := Handle(body, parse, upstream).response;
      (r.Attachment? ==> r.status == 200) &&
      (r.JsonError? ==> r.status in {400, 413, 500, 504} || (CanCarryJson(r.status) && !IsOk(r.status)))
  {
  }

  /** A thrown timeout answers 504 and any other throw 500, whether it came from the fetch or the body read. */
  lemma ErrorsMapped(e: Thrown, status: nat, statusText: string, ct: Option<string>, cl: Option<string>)
    ensures Relay(FetchThrew(e)) == (if IsTimeout(e) then JsonError(504, TimedOut) else JsonError(500, DownloadFailed))
    ensures IsOk(status) && !DeclaredTooLarge(cl) ==>
      Relay(Responded(status, statusText, ct, cl, ReadThrew(e))) == Relay(FetchThrew(e))
  {
  }
}
