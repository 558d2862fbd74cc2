/**
 Printing and reading back: what the control server writes the control client reads, and
 the other way round (crates/mct-daemon/src/control.rs and
 crates/mct-daemon/src/control_transport/client.rs).
 */
module HttpExchange {
  import opened Wrappers
  import opened Text
  import opened HttpText
  import opened HttpFraming

  const CONTENT_TYPE: bytes := Encode("content-type")
  const CONNECTION: bytes := Encode("connection")
  const CLOSE: bytes := Encode("close")

  /** `name: value` */
  function Field(name: bytes, value: bytes): bytes { name + [COLON] + ([SPACE] + value) }

  predicate Token(name: bytes) {
    name != [] && forall k :: 0 <= k < |name| ==> IsAlphanumeric(name[k]) || name[k] == 45
  }

  /** No control byte other than a tab. */
  predicate Printable(value: bytes) { forall k :: 0 <= k < |value| ==> !IsControl(value[k]) || value[k] == TAB }

  lemma FieldParts(name: bytes, value: bytes)
    requires Token(name) && Printable(value)
    ensures var line := Field(name, value);
            FieldSyntax(line) && FieldName(line) == name && RawValue(line) == [SPACE] + value
  {
    var line := Field(name, value);
    assert forall k :: 0 <= k < |name| ==> line[k] == name[k];
    assert line[|name|] == COLON;
    assert IndexOf(line, COLON) == |name|;
    assert line[..|name|] == name && line[|name| + 1..] == [SPACE] + value;
  }

  lemma SpecialLengths()
    ensures |TRANSFER_ENCODING| == 17 && |CONTENT_LENGTH| == 14 && |AUTHORIZATION| == 13
  {
  }

  lemma OrdinaryField(name: bytes, value: bytes)
    requires Token(name) && Printable(value) && |name| !in {13, 14, 17}
    ensures Ordinary(Field(name, value))
  {
    SpecialLengths();
    FieldParts(name, value);
  }

  lemma LengthField(name: bytes, n: nat)
    requires Token(name) && Lower(name) == CONTENT_LENGTH
    ensures DeclaresLength(Field(name, Digits(n)), n) && Utf8(Field(name, Digits(n)))
  {
    DigitsPrintable(n);
    DigitsRoundTrip(n);
    TrimSpacedDigits(Digits(n));
    FieldParts(name, Digits(n));
    FieldUtf8(name, Digits(n));
  }

  lemma DigitsPrintable(n: nat)
    ensures Printable(Digits(n)) && NoControls(Digits(n)) && IsWord(Digits(n)) && Utf8(Digits(n))
  {
    Utf8Ascii(Digits(n));
  }

  lemma FieldUtf8(name: bytes, value: bytes)
    requires Token(name) && Utf8(value)
    ensures Utf8(Field(name, value))
  {
    Utf8Ascii(name + [COLON]);
    Utf8Ascii([SPACE]);
    Utf8Concat([SPACE], value);
    Utf8Concat(name + [COLON], [SPACE] + value);
  }

  lemma AsciiFieldUtf8(name: bytes, value: bytes)
    requires Token(name) && AsciiBytes(value)
    ensures Utf8(Field(name, value))
  {
    Utf8Ascii(value);
    FieldUtf8(name, value);
  }

  // ---- responses -----------------------------------------------------------

  datatype Response = Response(status: nat, contentType: bytes, body: bytes)

  function Reason(status: nat): string {
    match status
    case 200 => "OK"
    case 201 => "Created"
    case 400 => "Bad Request"
    case 401 => "Unauthorized"
    case 403 => "Forbidden"
    case 404 => "Not Found"
    case 405 => "Method Not Allowed"
    case 413 => "Payload Too Large"
    case 503 => "Service Unavailable"
    case _ => "OK"
  }

  predicate PlainChar(c: char) { ' ' <= c <= 'z' }

  predicate PlainReason(s: string) { forall k :: 0 <= k < |s| ==> PlainChar(s[k]) }

  lemma LongReasons()
    ensures PlainReason("Method Not Allowed") && PlainReason("Payload Too Large") && PlainReason("Service Unavailable")
  {
  }

  lemma ShortReasons()
    ensures PlainReason("OK") && PlainReason("Created") && PlainReason("Bad Request") && PlainReason("Unauthorized")
    ensures PlainReason("Forbidden") && PlainReason("Not Found")
  {
  }

  lemma ReasonPlain(status: nat)
    ensures PlainReason(Reason(status)) && Ascii(Reason(status))
  {
    LongReasons();
    ShortReasons();
    assert PlainReason(Reason(status));
  }

  function ReasonBytes(status: nat): bytes {
    ReasonPlain(status);
    Encode(Reason(status))
  }

  function StatusLine(status: nat): bytes { HTTP11 + [SPACE] + (Digits(status) + [SPACE] + ReasonBytes(status)) }

  /** The response as the printer concatenates it. */
  function ResponseBytes(r: Response): bytes {
    ResponseHead(r) + r.body
  }

  function ResponseHead(r: Response): bytes {
    StatusLine(r.status) + CRLF
    + (Field(CONTENT_TYPE, r.contentType) + CRLF
       + (Field(CONTENT_LENGTH, Digits(|r.body|)) + CRLF
          + (Field(CONNECTION, CLOSE) + END)))
  }

  function ResponseLines(r: Response): seq<bytes> {
    [StatusLine(r.status), Field(CONTENT_TYPE, r.contentType), Field(CONTENT_LENGTH, Digits(|r.body|)), Field(CONNECTION, CLOSE)]
  }

  lemma FourRendered(lines: seq<bytes>)
    requires |lines| == 4
    ensures Rendered(lines) == lines[0] + CRLF + (lines[1] + CRLF + (lines[2] + CRLF + (lines[3] + END)))
  {
    var three, two, one := lines[1..], lines[2..], lines[3..];
    assert three[1..] == two && two[1..] == one;
    assert Rendered(one) == lines[3] + END;
    assert Rendered(two) == lines[2] + CRLF + Rendered(one);
    assert Rendered(three) == lines[1] + CRLF + Rendered(two);
  }

  lemma ResponseIsRendered(r: Response)
    ensures ResponseHead(r) == Rendered(ResponseLines(r))
  {
    FourRendered(ResponseLines(r));
  }

  /** What the printer needs of a content type: a Rust string without control bytes. */
  predicate GoodType(contentType: bytes) { Utf8(contentType) && Printable(contentType) }

  lemma TypeToken()
    ensures Token(CONTENT_TYPE) && |CONTENT_TYPE| == 12
  {
  }

  lemma LengthToken()
    ensures Token(CONTENT_LENGTH) && Lower(CONTENT_LENGTH) == CONTENT_LENGTH
  {
  }

  lemma CloseField()
    ensures Token(CONNECTION) && |CONNECTION| == 10 && Printable(CLOSE) && Utf8(CLOSE)
  {
    Utf8Ascii(CLOSE);
  }

  lemma Http11Word()
    ensures NoControls(HTTP11) && IsWord(HTTP11) && AsciiBytes(HTTP11)
  {
  }

  lemma ReasonBytesPlain(status: nat)
    ensures forall k :: 0 <= k < |ReasonBytes(status)| ==> 32 <= ReasonBytes(status)[k] < 127
  {
    ReasonPlain(status);
  }

  lemma StatusLinePlain(status: nat)
    ensures NoControls(StatusLine(status)) && Utf8(StatusLine(status))
    ensures Words(StatusLine(status)) == [HTTP11] + ([Digits(status)] + Words(ReasonBytes(status)))
  {
    DigitsPrintable(status);
    ReasonBytesPlain(status);
    Http11Word();
    StatusLineOf(HTTP11, Digits(status), ReasonBytes(status));
  }

  predicate AsciiBytes(b: bytes) { forall k :: 0 <= k < |b| ==> b[k] < 0x80 }

  lemma NoControlsConcat(a: bytes, b: bytes)
    requires NoControls(a) && NoControls(b)
    ensures NoControls(a + [SPACE] + b)
  {
  }

  lemma StatusLineOf(version: bytes, digits: bytes, reason: bytes)
    requires IsWord(version) && IsWord(digits) && NoControls(digits) && Utf8(digits) && NoControls(version)
    requires AsciiBytes(version) && forall k :: 0 <= k < |reason| ==> 32 <= reason[k] < 127
    ensures var line := version + [SPACE] + (digits + [SPACE] + reason);
            NoControls(line) && Utf8(line) && Words(line) == [version] + ([digits] + Words(reason))
  {
    NoControlsConcat(digits, reason);
    NoControlsConcat(version, digits + [SPACE] + reason);
    WordsCons(version, digits + [SPACE] + reason);
    WordsCons(digits, reason);
    Utf8Ascii(reason);
    Utf8Ascii(version);
    SpacedUtf8(digits, reason);
    SpacedUtf8(version, digits + [SPACE] + reason);
  }

  lemma SpacedUtf8(a: bytes, b: bytes)
    requires Utf8(a) && Utf8(b)
    ensures Utf8(a + [SPACE] + b)
  {
    Utf8Ascii([SPACE]);
    Utf8Concat(a, [SPACE]);
    Utf8Concat(a + [SPACE], b);
  }

  /** Four lines, of which the one at `at` declares the length. */
  lemma FourWellMade(a: bytes, b: bytes, c: bytes, d: bytes, at: nat, n: nat)
    requires NoControls(a) && (at == 2 || at == 3)
    requires Ordinary(b) && (at == 2 ==> DeclaresLength(c, n) && Ordinary(d))
    requires at == 3 ==> Ordinary(c) && DeclaresLength(d, n)
    requires Utf8(a) && Utf8(b) && Utf8(c) && Utf8(d)
    ensures WellMadeHead([a, b, c, d], at, n) && forall k :: 0 <= k < 4 ==> Utf8([a, b, c, d][k])
  {
  }

  lemma ResponseWellMade(r: Response)
    requires GoodType(r.contentType)
    ensures WellMadeHead(ResponseLines(r), 2, |r.body|)
    ensures forall k :: 0 <= k < 4 ==> Utf8(ResponseLines(r)[k])
  {
    TypeToken();
    LengthToken();
    CloseField();
    StatusLinePlain(r.status);
    OrdinaryField(CONTENT_TYPE, r.contentType);
    FieldUtf8(CONTENT_TYPE, r.contentType);
    LengthField(CONTENT_LENGTH, |r.body|);
    OrdinaryField(CONNECTION, CLOSE);
    FieldUtf8(CONNECTION, CLOSE);
    FourWellMade(StatusLine(r.status), Field(CONTENT_TYPE, r.contentType), Field(CONTENT_LENGTH, Digits(|r.body|)),
                 Field(CONNECTION, CLOSE), 2, |r.body|);
  }

  /** For every body, blank lines included, reading the printed response back gives its head
      and then exactly its body, whatever follows it on the stream. */
  lemma ResponseRoundTrip(r: Response, rest: bytes)
    requires GoodType(r.contentType) && |r.body| <= USIZE_MAX && |ResponseHead(r)| <= HEADER_CAP
    ensures ReadHead(ResponseBytes(r) + rest, HEADER_CAP) == Ok(ResponseHead(r))
    ensures HeaderFields(ResponseHead(r)) == Ok(Head(StatusLine(r.status), Fields(Some(|r.body|), None)))
    ensures (ResponseBytes(r) + rest)[|ResponseHead(r)|..][..|r.body|] == r.body
  {
    ResponseIsRendered(r);
    ResponseWellMade(r);
    WellMadeAccepted(ResponseLines(r), 2, |r.body|, r.body + rest);
    assert ResponseBytes(r) + rest == ResponseHead(r) + (r.body + rest);
  }

  // ---- the client ----------------------------------------------------------

  /** How the control client reads a response; None stands for any refusal. */
  function ClientRead(stream: bytes): Option<(nat, bytes)> {
    match ReadHead(stream, HEADER_CAP)
    case Err(_) => None
    case Ok(head) =>
      match HeaderFields(head)
      case Err(_) => None
      case Ok(h) =>
        var parts := Words(h.first);
        if |parts| < 2 || !(parts[0] == HTTP11 || parts[0] == HTTP10) || |parts[1]| != 3 || !AllDigits(parts[1]) then None
        else
          var status := Number(parts[1]);
          if !(100 <= status < 600) || h.fields.length.None? || h.fields.length.value > RESPONSE_CAP then None
          else if |stream| < |head| + h.fields.length.value then None
          else Some((status, stream[|head|..][..h.fields.length.value]))
  }

  lemma ThreeDigits(status: nat)
    ensures |Digits(status)| == 3 <==> 100 <= status < 1000
  {
    assert |Digits(status)| == |Decimal(status)|;
    if status >= 10 {
      var tens := status / 10;
      assert |Decimal(status)| == |Decimal(tens)| + 1;
      if tens >= 10 {
        var hundreds := tens / 10;
        assert |Decimal(tens)| == |Decimal(hundreds)| + 1;
        assert hundreds >= 10 ==> |Decimal(hundreds)| == |Decimal(hundreds / 10)| + 1;
      }
    }
  }

  lemma OverlongResponse(r: Response)
    requires GoodType(r.contentType) && |ResponseHead(r)| > HEADER_CAP
    ensures ReadHead(ResponseBytes(r), HEADER_CAP) == Err(ExceedsCap)
  {
    ResponseIsRendered(r);
    ResponseWellMade(r);
    WellMadeClean(ResponseLines(r), 2, |r.body|);
    forall n | 0 <= n <= HEADER_CAP ensures !EndsWith(ResponseBytes(r)[..n], END) {
      NoEarlierEnd(ResponseLines(r), n);
      assert ResponseBytes(r)[..n] == ResponseHead(r)[..n];
    }
    ReadHeadIff(ResponseBytes(r), HEADER_CAP, []);
  }

  /** The client gets back the status and the body exactly when the head fits the header
      cap, the body the response cap, and the status is a three-digit one below 600. */
  lemma ClientReadsResponse(r: Response)
    requires GoodType(r.contentType) && |r.body| <= USIZE_MAX
    ensures ClientRead(ResponseBytes(r)) == Some((r.status, r.body)) <==>
              |ResponseHead(r)| <= HEADER_CAP && |r.body| <= RESPONSE_CAP && 100 <= r.status < 600
    ensures ClientRead(ResponseBytes(r)).Some? ==> ClientRead(ResponseBytes(r)) == Some((r.status, r.body))
  {
    if |ResponseHead(r)| <= HEADER_CAP {
      assert ResponseBytes(r) + [] == ResponseBytes(r);
      ResponseRoundTrip(r, []);
      StatusLinePlain(r.status);
      var parts := Words(StatusLine(r.status));
      assert parts[0] == HTTP11 && parts[1] == Digits(r.status);
      ThreeDigits(r.status);
      DigitsRoundTrip(r.status);
    } else {
      OverlongResponse(r);
    }
  }

  // ---- requests ------------------------------------------------------------

  const HOST_FIELD: bytes := Encode("Host")
  const LOCAL: bytes := Encode("local")
  const TYPE_FIELD: bytes := Encode("Content-Type")
  const JSON_TYPE: bytes := Encode("application/json")
  const LENGTH_FIELD: bytes := Encode("Content-Length")

  function RequestLine(method_: bytes, path: bytes): bytes { method_ + [SPACE] + (path + [SPACE] + HTTP11) }

  function RequestLines(method_: bytes, path: bytes, length: nat): seq<bytes> {
    [RequestLine(method_, path), Field(HOST_FIELD, LOCAL), Field(TYPE_FIELD, JSON_TYPE), Field(LENGTH_FIELD, Digits(length))]
  }

  /** The head the control client writes. */
  function RequestBytes(method_: bytes, path: bytes, length: nat): bytes {
    Rendered(RequestLines(method_, path, length))
  }

  predicate GoodMethod(m: bytes) { m != [] && forall k :: 0 <= k < |m| ==> IsUpper(m[k]) }

  predicate GoodPath(p: bytes) { Utf8(p) && p != [] && p[0] == 47 && NoControls(p) && IsWord(p) }

  lemma HostField()
    ensures Token(HOST_FIELD) && |HOST_FIELD| == 4 && Printable(LOCAL) && Utf8(LOCAL)
  {
    Utf8Ascii(LOCAL);
  }

  lemma TypeFieldToken()
    ensures Token(TYPE_FIELD) && |TYPE_FIELD| == 12
  {
  }

  lemma JsonPrintable()
    ensures Printable(JSON_TYPE)
  {
  }

  lemma JsonAscii()
    ensures AsciiBytes(JSON_TYPE)
  {
  }

  lemma RequestLengthToken()
    ensures Token(LENGTH_FIELD) && Lower(LENGTH_FIELD) == CONTENT_LENGTH
  {
  }

  lemma RequestLineOf(method_: bytes, path: bytes, version: bytes)
    requires GoodMethod(method_) && GoodPath(path) && NoControls(version) && IsWord(version) && AsciiBytes(version)
    ensures var line := method_ + [SPACE] + (path + [SPACE] + version);
            NoControls(line) && Utf8(line) && Words(line) == [method_, path, version]
  {
    assert IsWord(method_);
    NoControlsConcat(path, version);
    NoControlsConcat(method_, path + [SPACE] + version);
    Utf8Ascii(method_);
    Utf8Ascii(version);
    SpacedUtf8(path, version);
    SpacedUtf8(method_, path + [SPACE] + version);
    WordsCons(method_, path + [SPACE] + version);
    WordsCons(path, version);
    WordsLast(version);
  }

  lemma RequestWellMade(method_: bytes, path: bytes, length: nat)
    requires GoodMethod(method_) && GoodPath(path)
    ensures WellMadeHead(RequestLines(method_, path, length), 3, length)
    ensures forall k :: 0 <= k < 4 ==> Utf8(RequestLines(method_, path, length)[k])
  {
    HostField();
    TypeFieldToken();
    JsonPrintable();
    JsonAscii();
    RequestLengthToken();
    Http11Word();
    RequestLineOf(method_, path, HTTP11);
    OrdinaryField(HOST_FIELD, LOCAL);
    FieldUtf8(HOST_FIELD, LOCAL);
    OrdinaryField(TYPE_FIELD, JSON_TYPE);
    AsciiFieldUtf8(TYPE_FIELD, JSON_TYPE);
    LengthField(LENGTH_FIELD, length);
    FourWellMade(RequestLine(method_, path), Field(HOST_FIELD, LOCAL), Field(TYPE_FIELD, JSON_TYPE),
                 Field(LENGTH_FIELD, Digits(length)), 3, length);
  }

  /** The server reads the client's head off the stream and parses what the client meant. */
  lemma RequestRoundTrip(method_: bytes, path: bytes, body: bytes)
    requires GoodMethod(method_) && GoodPath(path) && |body| <= USIZE_MAX
    requires |RequestBytes(method_, path, |body|)| <= HEADER_CAP
    ensures var head := RequestBytes(method_, path, |body|);
            && ReadHead(head + body, HEADER_CAP) == Ok(head)
            && ParseRequestHead(head) == Some(RequestHead(method_, path, None, |body|))
  {
    RequestWellMade(method_, path, |body|);
    WellMadeAccepted(RequestLines(method_, path, |body|), 3, |body|, body);
    RequestLineReads(RequestBytes(method_, path, |body|), method_, path, |body|);
  }

  lemma RequestLineReads(head: bytes, method_: bytes, path: bytes, length: nat)
    requires GoodMethod(method_) && GoodPath(path)
    requires HeaderFields(head) == Ok(Head(RequestLine(method_, path), Fields(Some(length), None)))
    ensures ParseRequestHead(head) == Some(RequestHead(method_, path, None, length))
  {
    Http11Word();
    RequestLineOf(method_, path, HTTP11);
  }

  // ---- the owner socket's router -------------------------------------------

  datatype Route = CallPreflight | OwnerMutation | ReadOnly

  const GET: bytes := Encode("GET")
  const POST: bytes := Encode("POST")
  const CALLS: bytes := Encode("/calls")

  function RouteOf(r: RequestHead, mutations: bool): Route {
    if r.method_ == POST && r.path == CALLS then CallPreflight
    else if r.method_ == POST && mutations then OwnerMutation
    else ReadOnly
  }

  function ParseUdsHead(b: bytes, mutations: bool): Option<(RequestHead, Route)> {
    if |b| > HEADER_CAP || !EndsWith(b, END) then None
    else
      match ParseRequestHead(b)
      case None => None
      case Some(r) =>
        var route := RouteOf(r, mutations);
        if route == ReadOnly && ((r.method_ == GET && r.contentLength != 0) || r.contentLength > BODY_CAP) then None
        else Some((r, route))
  }

  /** A request the client writes is routed, with its body announced, exactly unless it is a
      read that carries a body. */
  lemma ClientRequestIsRouted(method_: bytes, path: bytes, body: bytes, mutations: bool)
    requires GoodMethod(method_) && GoodPath(path) && |body| <= USIZE_MAX
    requires |RequestBytes(method_, path, |body|)| <= HEADER_CAP
    ensures var r := RequestHead(method_, path, None, |body|);
            ParseUdsHead(RequestBytes(method_, path, |body|), mutations) ==
              (if method_ == POST && path == CALLS then Some((r, CallPreflight))
               else if method_ == POST && mutations then Some((r, OwnerMutation))
               else if |body| <= BODY_CAP && (method_ == GET ==> body == []) then Some((r, ReadOnly))
               else None)
  {
    RequestRoundTrip(method_, path, body);
  }
}
