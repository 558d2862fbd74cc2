/**
 The control plane's HTTP framing: the bounded head reader, the strict header parser and
 the request-line parser of crates/mct-daemon/src/control_transport.rs, and the response
 printer and router of crates/mct-daemon/src/control.rs. It accepts a subset of RFC 9112.

 Streams are byte sequences; a stream that ends is one whose bytes run out.
 */
module HttpFraming {
  import opened Wrappers
  import opened HttpText

  const HEADER_CAP: nat := 4096
  const BODY_CAP: nat := 1024 * 1024
  const RESPONSE_CAP: nat := 4 * 1024 * 1024
  const USIZE_MAX: nat := 0xFFFF_FFFF_FFFF_FFFF

  // ---- reading a head ------------------------------------------------------

  datatype ReadError = ExceedsCap | Incomplete

  /** Byte-by-byte reading, from `n` bytes already read. */
  function ReadFrom(input: bytes, n: nat, cap: nat): Result<bytes, ReadError>
    requires n <= |input| && n <= cap
    decreases |input| - n
  {
    if EndsWith(input[..n], END) then Ok(input[..n])
    else if n == cap then Err(ExceedsCap)
    else if n == |input| then Err(Incomplete)
    else ReadFrom(input, n + 1, cap)
  }

  function ReadHead(input: bytes, cap: nat): Result<bytes, ReadError> { ReadFrom(input, 0, cap) }

  /** `b` is the shortest prefix of the input that ends with an empty line. */
  predicate FirstHead(input: bytes, b: bytes) {
    && |b| <= |input| && b == input[..|b|]
    && EndsWith(b, END)
    && forall n :: 0 <= n < |b| ==> !EndsWith(input[..n], END)
  }

  lemma {:induction false} ReadFromIs(input: bytes, n: nat, cap: nat, b: bytes)
    requires n <= |input| && n <= cap
    requires forall m :: 0 <= m < n ==> !EndsWith(input[..m], END)
    ensures ReadFrom(input, n, cap) == Ok(b) <==> FirstHead(input, b) && |b| <= cap
    ensures ReadFrom(input, n, cap) == Err(ExceedsCap) <==>
              cap <= |input| && forall m :: 0 <= m <= cap ==> !EndsWith(input[..m], END)
    decreases |input| - n
  {
    if EndsWith(input[..n], END) {
    } else if n == cap {
      assert FirstHead(input, b) ==> |b| > n;
    } else if n == |input| {
      assert FirstHead(input, b) ==> |b| > n;
    } else {
      ReadFromIs(input, n + 1, cap, b);
    }
  }

  /** The reader returns the first head of the stream exactly when it fits the cap. */
  lemma ReadHeadIff(input: bytes, cap: nat, b: bytes)
    ensures ReadHead(input, cap) == Ok(b) <==> FirstHead(input, b) && |b| <= cap
    ensures ReadHead(input, cap) == Err(ExceedsCap) <==>
              cap <= |input| && forall m :: 0 <= m <= cap ==> !EndsWith(input[..m], END)
  {
    ReadFromIs(input, 0, cap, b);
  }

  /** The loop of `read_headers` and `read_http_headers_bounded`. */
  method ReadHeaders(input: bytes, cap: nat) returns (r: Result<bytes, ReadError>)
    ensures r == ReadHead(input, cap)
  {
    var head: bytes, position := [], 0;
    while !EndsWith(head, END)
      invariant position <= |input| && position <= cap && head == input[..position]
      invariant ReadFrom(input, position, cap) == ReadHead(input, cap)
      decreases |input| - position
    {
      if |head| == cap {
        return Err(ExceedsCap);
      }
      if position == |input| {
        return Err(Incomplete);
      }
      head := head + [input[position]];
      position := position + 1;
    }
    r := Ok(head);
  }

  // ---- header fields -------------------------------------------------------

  datatype HeaderError =
    | BadEnvelope | NotUtf8 | BadStartLine | MalformedField | InvalidField
    | TransferEncoding | AmbiguousLength | LengthOverflow | DuplicateAuthorization

  const TRANSFER_ENCODING: bytes := Encode("transfer-encoding")
  const CONTENT_LENGTH: bytes := Encode("content-length")
  const AUTHORIZATION: bytes := Encode("authorization")

  datatype Fields = Fields(length: Option<nat>, authorization: Option<bytes>)

  predicate NamesField(line: bytes, name: bytes) { Lower(FieldName(line)) == name }

  function FieldName(line: bytes): bytes { line[..IndexOf(line, COLON)] }

  /** The text after the first colon. */
  function RawValue(line: bytes): bytes {
    var n := IndexOf(line, COLON);
    if n == |line| then [] else line[n + 1..]
  }

  function FieldValue(line: bytes): bytes { Trim(RawValue(line)) }

  /** A field line: a token, a colon, and a value without control bytes other than tab. */
  predicate FieldSyntax(line: bytes) {
    && IndexOf(line, COLON) < |line|
    && FieldName(line) != []
    && (forall k :: 0 <= k < |FieldName(line)| ==> IsAlphanumeric(FieldName(line)[k]) || FieldName(line)[k] == 45)
    && (forall k :: 0 <= k < |RawValue(line)| ==> !IsControl(RawValue(line)[k]) || RawValue(line)[k] == TAB)
  }

  /** What one more line does to the fields read so far. */
  function ReadField(acc: Fields, line: bytes): Result<Fields, HeaderError> {
    if IndexOf(line, COLON) == |line| then Err(MalformedField)
    else if !FieldSyntax(line) then Err(InvalidField)
    else if NamesField(line, TRANSFER_ENCODING) then Err(TransferEncoding)
    else if NamesField(line, CONTENT_LENGTH) then
      var value := FieldValue(line);
      if acc.length.Some? || value == [] || !AllDigits(value) then Err(AmbiguousLength)
      else if Number(value) > USIZE_MAX then Err(LengthOverflow)
      else Ok(acc.(length := Some(Number(value))))
    else if NamesField(line, AUTHORIZATION) then
      if acc.authorization.Some? then Err(DuplicateAuthorization)
      else Ok(acc.(authorization := Some(FieldValue(line))))
    else Ok(acc)
  }

  function ReadFields(lines: seq<bytes>): Result<Fields, HeaderError> {
    if lines == [] then Ok(Fields(None, None))
    else
      match ReadFields(lines[..|lines| - 1])
      case Err(e) => Err(e)
      case Ok(acc) => ReadField(acc, lines[|lines| - 1])
  }

  datatype Head = Head(first: bytes, fields: Fields)

  predicate NoControls(b: bytes) { forall k :: 0 <= k < |b| ==> !IsControl(b[k]) }

  function HeadLines(b: bytes): (lines: seq<bytes>)
    requires |b| >= 4
    ensures lines != []
  {
    SplitLines(b[..|b| - 4])
  }

  function HeaderFields(b: bytes): Result<Head, HeaderError> {
    if |b| > HEADER_CAP || !EndsWith(b, END) then Err(BadEnvelope)
    else if !Utf8(b) then Err(NotUtf8)
    else
      var lines := HeadLines(b);
      if !NoControls(lines[0]) then Err(BadStartLine)
      else
        match ReadFields(lines[1..])
        case Err(e) => Err(e)
        case Ok(fields) => Ok(Head(lines[0], fields))
  }

  /** The loop of `header_fields`. */
  method ParseHeaderFields(b: bytes) returns (r: Result<Head, HeaderError>)
    ensures r == HeaderFields(b)
  {
    if |b| > HEADER_CAP || !EndsWith(b, END) {
      return Err(BadEnvelope);
    }
    if !Utf8(b) {
      return Err(NotUtf8);
    }
    var lines := HeadLines(b);
    var first, rest := lines[0], lines[1..];
    if !NoControls(first) {
      return Err(BadStartLine);
    }
    var length: Option<nat>, authorization: Option<bytes> := None, None;
    var i := 0;
    while i < |rest|
      invariant 0 <= i <= |rest|
      invariant ReadFields(rest[..i]) == Ok(Fields(length, authorization))
    {
      var line := rest[i];
      assert rest[..i + 1] == rest[..i] + [line];
      FieldsStep(rest[..i], line);
      var step := ReadField(Fields(length, authorization), line);
      if step.Err? {
        FieldsStop(rest, i + 1);
        return Err(step.error);
      }
      FieldUpdates(Fields(length, authorization), line);
      if NamesField(line, CONTENT_LENGTH) {
        length := Some(Number(FieldValue(line)));
      }
      if NamesField(line, AUTHORIZATION) {
        authorization := Some(FieldValue(line));
      }
      i := i + 1;
    }
    assert rest[..i] == rest;
    r := Ok(Head(first, Fields(length, authorization)));
  }

  /** What an accepted line changes. */
  lemma FieldUpdates(acc: Fields, line: bytes)
    requires ReadField(acc, line).Ok?
    ensures NamesField(line, CONTENT_LENGTH) ==> AllDigits(FieldValue(line))
    ensures ReadField(acc, line).value == Fields(
              if NamesField(line, CONTENT_LENGTH) then Some(Number(FieldValue(line))) else acc.length,
              if NamesField(line, AUTHORIZATION) then Some(FieldValue(line)) else acc.authorization)
  {
    NamesDiffer();
  }

  lemma FieldsStep(lines: seq<bytes>, line: bytes)
    ensures ReadFields(lines + [line]) ==
            (if ReadFields(lines).Err? then Err(ReadFields(lines).error) else ReadField(ReadFields(lines).value, line))
  {
    assert (lines + [line])[..|lines|] == lines;
  }

  lemma {:induction false} FieldsStop(lines: seq<bytes>, n: nat)
    requires n <= |lines| && ReadFields(lines[..n]).Err?
    ensures ReadFields(lines) == ReadFields(lines[..n])
    decreases |lines|
  {
    if n < |lines| {
      var init := lines[..|lines| - 1];
      assert init[..n] == lines[..n];
      FieldsStop(init, n);
    } else {
      assert lines[..n] == lines;
    }
  }

  /** What the accepted field lines say, without reading them in order. */
  predicate FieldsMean(lines: seq<bytes>, f: Fields) {
    Plain(lines) && LengthMeans(lines, f.length) && AuthorizationMeans(lines, f.authorization)
  }

  /** Every line is a field and none is a transfer encoding. */
  predicate Plain(lines: seq<bytes>) {
    forall k :: 0 <= k < |lines| ==> FieldSyntax(lines[k]) && !NamesField(lines[k], TRANSFER_ENCODING)
  }

  predicate AtMostOne(lines: seq<bytes>, name: bytes) {
    forall i, j :: 0 <= i < j < |lines| && NamesField(lines[i], name) ==> !NamesField(lines[j], name)
  }

  predicate NoneNamed(lines: seq<bytes>, name: bytes) {
    forall k :: 0 <= k < |lines| ==> !NamesField(lines[k], name)
  }

  /** At most one content length; the length is its exact decimal value, or absent with it. */
  predicate LengthMeans(lines: seq<bytes>, length: Option<nat>) {
    && AtMostOne(lines, CONTENT_LENGTH)
    && (length.None? <==> NoneNamed(lines, CONTENT_LENGTH))
    && (forall k :: 0 <= k < |lines| && NamesField(lines[k], CONTENT_LENGTH) ==> LengthLine(lines[k], length))
  }

  predicate LengthLine(line: bytes, length: Option<nat>) {
    var value := FieldValue(line);
    value != [] && AllDigits(value) && Number(value) <= USIZE_MAX && length == Some(Number(value))
  }

  predicate AuthorizationMeans(lines: seq<bytes>, authorization: Option<bytes>) {
    && AtMostOne(lines, AUTHORIZATION)
    && (authorization.None? <==> NoneNamed(lines, AUTHORIZATION))
    && (forall k :: 0 <= k < |lines| && NamesField(lines[k], AUTHORIZATION) ==>
          authorization == Some(FieldValue(lines[k])))
  }

  lemma NamesDiffer()
    ensures CONTENT_LENGTH != AUTHORIZATION && CONTENT_LENGTH != TRANSFER_ENCODING && AUTHORIZATION != TRANSFER_ENCODING
  {
    assert CONTENT_LENGTH[0] != AUTHORIZATION[0];
    assert CONTENT_LENGTH[0] != TRANSFER_ENCODING[0];
    assert AUTHORIZATION[0] != TRANSFER_ENCODING[0];
  }

  lemma NamedAppend(init: seq<bytes>, line: bytes, name: bytes)
    ensures AtMostOne(init + [line], name) <==>
              AtMostOne(init, name) && (NamesField(line, name) ==> NoneNamed(init, name))
    ensures NoneNamed(init + [line], name) <==> NoneNamed(init, name) && !NamesField(line, name)
  {
    var lines := init + [line];
    assert lines[|init|] == line;
    assert forall k :: 0 <= k < |init| ==> lines[k] == init[k];
  }

  lemma LengthAppend(init: seq<bytes>, line: bytes, length: Option<nat>)
    ensures LengthMeans(init + [line], length) <==>
              (if NamesField(line, CONTENT_LENGTH) then NoneNamed(init, CONTENT_LENGTH) && LengthLine(line, length)
               else LengthMeans(init, length))
  {
    NamedAppend(init, line, CONTENT_LENGTH);
    var lines := init + [line];
    assert lines[|init|] == line;
    assert forall k :: 0 <= k < |init| ==> lines[k] == init[k];
  }

  lemma AuthorizationAppend(init: seq<bytes>, line: bytes, authorization: Option<bytes>)
    ensures AuthorizationMeans(init + [line], authorization) <==>
              (if NamesField(line, AUTHORIZATION)
               then NoneNamed(init, AUTHORIZATION) && authorization == Some(FieldValue(line))
               else AuthorizationMeans(init, authorization))
  {
    NamedAppend(init, line, AUTHORIZATION);
    var lines := init + [line];
    assert lines[|init|] == line;
    assert forall k :: 0 <= k < |init| ==> lines[k] == init[k];
  }

  lemma PlainAppend(init: seq<bytes>, line: bytes)
    ensures Plain(init + [line]) <==> Plain(init) && FieldSyntax(line) && !NamesField(line, TRANSFER_ENCODING)
  {
    var lines := init + [line];
    assert lines[|init|] == line;
    assert forall k :: 0 <= k < |init| ==> lines[k] == init[k];
  }

  lemma LengthOfNone(lines: seq<bytes>)
    ensures LengthMeans(lines, None) <==> NoneNamed(lines, CONTENT_LENGTH)
    ensures AuthorizationMeans(lines, None) <==> NoneNamed(lines, AUTHORIZATION)
  {
  }

  lemma MeanStep(init: seq<bytes>, acc: Fields, line: bytes, f: Fields)
    requires FieldsMean(init, acc)
    ensures ReadField(acc, line) == Ok(f) ==> FieldsMean(init + [line], f)
    ensures FieldsMean(init + [line], f)
            && (!NamesField(line, CONTENT_LENGTH) ==> acc.length == f.length)
            && (!NamesField(line, AUTHORIZATION) ==> acc.authorization == f.authorization)
            ==> ReadField(acc, line) == Ok(f)
  {
    NamesDiffer();
    PlainAppend(init, line);
    LengthAppend(init, line, f.length);
    AuthorizationAppend(init, line, f.authorization);
  }

  /** The fields are accepted exactly when every line is a field, none is a transfer
      encoding, and at most one is a content length or an authorization; the length is then
      the exact decimal value of that line. */
  lemma {:induction false} ReadFieldsIff(lines: seq<bytes>, f: Fields)
    ensures ReadFields(lines) == Ok(f) <==> FieldsMean(lines, f)
    decreases |lines|
  {
    if lines != [] {
      var init, line := lines[..|lines| - 1], lines[|lines| - 1];
      assert lines == init + [line];
      if FieldsMean(lines, f) {
        var acc := Fields(if NamesField(line, CONTENT_LENGTH) then None else f.length,
                          if NamesField(line, AUTHORIZATION) then None else f.authorization);
        PlainAppend(init, line);
        LengthAppend(init, line, f.length);
        AuthorizationAppend(init, line, f.authorization);
        LengthOfNone(init);
        ReadFieldsIff(init, acc);
        MeanStep(init, acc, line, f);
      }
      if ReadFields(lines) == Ok(f) {
        ReadFieldsIff(init, ReadFields(init).value);
        MeanStep(init, ReadFields(init).value, line, f);
      }
    }
  }

  // ---- reader and parser agree ---------------------------------------------

  lemma FieldLineClean(line: bytes)
    requires FieldSyntax(line)
    ensures Clean(line) && line != []
  {
    var n := IndexOf(line, COLON);
    forall k | 0 <= k < |line| ensures line[k] != CR && line[k] != LF {
      if k < n {
        assert line[k] == FieldName(line)[k];
      } else if k > n {
        assert line[k] == RawValue(line)[k - n - 1];
      }
    }
  }

  lemma AcceptedLines(b: bytes)
    requires HeaderFields(b).Ok?
    ensures |b| >= 4 && b == Rendered(HeadLines(b)) && AllClean(HeadLines(b))
    ensures forall k :: 1 <= k < |HeadLines(b)| ==> HeadLines(b)[k] != []
  {
    var lines := HeadLines(b);
    WholeHead(b);
    ReadFieldsIff(lines[1..], HeaderFields(b).value.fields);
    FieldLinesClean(lines);
  }

  lemma WholeHead(b: bytes)
    requires EndsWith(b, END)
    ensures |b| >= 4 && b == Rendered(HeadLines(b))
  {
    SplitRenders(b[..|b| - 4]);
    assert b == b[..|b| - 4] + END;
  }

  lemma FieldLinesClean(lines: seq<bytes>)
    requires lines != [] && NoControls(lines[0]) && Plain(lines[1..])
    ensures AllClean(lines) && forall k :: 1 <= k < |lines| ==> lines[k] != []
  {
    forall k | 0 <= k < |lines| ensures Clean(lines[k]) && (k >= 1 ==> lines[k] != []) {
      if k >= 1 {
        assert lines[k] == lines[1..][k - 1];
        FieldLineClean(lines[k]);
      }
    }
  }

  /** If the parser accepts `b`, then CR and LF occur in it only as line-ending pairs, and
      reading `b` followed by anything gives back exactly `b`. */
  lemma ReaderAndParserAgree(b: bytes, rest: bytes)
    requires HeaderFields(b).Ok?
    ensures Paired(b)
    ensures ReadHead(b + rest, HEADER_CAP) == Ok(b)
  {
    AcceptedLines(b);
    var lines := HeadLines(b);
    RenderedPaired(lines);
    forall n | 0 <= n < |b| ensures !EndsWith((b + rest)[..n], END) {
      NoEarlierEnd(lines, n);
      assert (b + rest)[..n] == b[..n];
    }
    assert (b + rest)[..|b|] == b;
    ReadHeadIff(b + rest, HEADER_CAP, b);
  }

  /** An accepted head has no transfer encoding and at most one content length, which is
      read as its exact decimal value. */
  lemma AcceptedHeadMeans(b: bytes, h: Head)
    ensures HeaderFields(b) == Ok(h) <==>
              && |b| <= HEADER_CAP && EndsWith(b, END) && Utf8(b)
              && h.first == HeadLines(b)[0] && NoControls(h.first)
              && FieldsMean(HeadLines(b)[1..], h.fields)
  {
    if |b| <= HEADER_CAP && EndsWith(b, END) {
      ReadFieldsIff(HeadLines(b)[1..], h.fields);
    }
  }

  // ---- heads that declare a length -----------------------------------------

  /** A field the parser reads and ignores. */
  predicate Ordinary(line: bytes) {
    && FieldSyntax(line)
    && !NamesField(line, TRANSFER_ENCODING) && !NamesField(line, CONTENT_LENGTH) && !NamesField(line, AUTHORIZATION)
  }

  predicate DeclaresLength(line: bytes, n: nat) {
    && FieldSyntax(line) && NamesField(line, CONTENT_LENGTH)
    && FieldValue(line) != [] && AllDigits(FieldValue(line)) && Number(FieldValue(line)) == n
  }

  /** A start line, then fields of which just one declares a length. */
  predicate WellMadeHead(lines: seq<bytes>, at: nat, n: nat) {
    && 1 <= at < |lines|
    && NoControls(lines[0])
    && DeclaresLength(lines[at], n)
    && (forall k :: 1 <= k < |lines| && k != at ==> Ordinary(lines[k]))
  }

  lemma WellMadeClean(lines: seq<bytes>, at: nat, n: nat)
    requires WellMadeHead(lines, at, n)
    ensures AllClean(lines) && forall k :: 1 <= k < |lines| ==> lines[k] != []
  {
    forall k | 0 <= k < |lines| ensures Clean(lines[k]) && (k >= 1 ==> lines[k] != []) {
      if k >= 1 { FieldLineClean(lines[k]); }
    }
  }

  lemma SingleLength(lines: seq<bytes>, at: nat, n: nat)
    requires at < |lines| && DeclaresLength(lines[at], n) && n <= USIZE_MAX
    requires forall k :: 0 <= k < |lines| && k != at ==> !NamesField(lines[k], CONTENT_LENGTH)
    ensures LengthMeans(lines, Some(n))
  {
    assert NamesField(lines[at], CONTENT_LENGTH);
    assert LengthLine(lines[at], Some(n));
  }

  lemma WellMadeFields(lines: seq<bytes>, at: nat, n: nat)
    requires WellMadeHead(lines, at, n) && n <= USIZE_MAX
    ensures ReadFields(lines[1..]) == Ok(Fields(Some(n), None))
  {
    NamesDiffer();
    var rest := lines[1..];
    assert rest[at - 1] == lines[at];
    forall k | 0 <= k < |rest|
      ensures FieldSyntax(rest[k]) && !NamesField(rest[k], TRANSFER_ENCODING) && !NamesField(rest[k], AUTHORIZATION)
      ensures k != at - 1 ==> !NamesField(rest[k], CONTENT_LENGTH)
    {
      assert rest[k] == lines[k + 1];
    }
    SingleLength(rest, at - 1, n);
    LengthOfNone(rest);
    ReadFieldsIff(rest, Fields(Some(n), None));
  }

  /** Such a head, rendered, is accepted with that length and found again on the stream. */
  lemma WellMadeAccepted(lines: seq<bytes>, at: nat, n: nat, rest: bytes)
    requires WellMadeHead(lines, at, n) && n <= USIZE_MAX
    requires (forall k :: 0 <= k < |lines| ==> Utf8(lines[k])) && |Rendered(lines)| <= HEADER_CAP
    ensures HeaderFields(Rendered(lines)) == Ok(Head(lines[0], Fields(Some(n), None)))
    ensures ReadHead(Rendered(lines) + rest, HEADER_CAP) == Ok(Rendered(lines))
  {
    WellMadeParses(lines, at, n);
    ReaderAndParserAgree(Rendered(lines), rest);
  }

  lemma WellMadeParses(lines: seq<bytes>, at: nat, n: nat)
    requires WellMadeHead(lines, at, n) && n <= USIZE_MAX
    requires (forall k :: 0 <= k < |lines| ==> Utf8(lines[k])) && |Rendered(lines)| <= HEADER_CAP
    ensures HeaderFields(Rendered(lines)) == Ok(Head(lines[0], Fields(Some(n), None)))
  {
    WellMadeFields(lines, at, n);
    WellMadeLines(lines, at, n);
    Utf8Rendered(lines);
  }

  lemma WellMadeLines(lines: seq<bytes>, at: nat, n: nat)
    requires WellMadeHead(lines, at, n)
    ensures HeadLines(Rendered(lines)) == lines
  {
    WellMadeClean(lines, at, n);
    RenderSplits(lines);
  }

  lemma {:induction false} Utf8Rendered(lines: seq<bytes>)
    requires lines != [] && forall k :: 0 <= k < |lines| ==> Utf8(lines[k])
    ensures Utf8(Rendered(lines))
    decreases |lines|
  {
    Utf8Ascii(END);
    Utf8Ascii(CRLF);
    if |lines| == 1 {
      Utf8Concat(lines[0], END);
    } else {
      Utf8Rendered(lines[1..]);
      Utf8Concat(lines[0], CRLF);
      Utf8Concat(lines[0] + CRLF, Rendered(lines[1..]));
    }
  }

  // ---- request line --------------------------------------------------------

  const HTTP10: bytes := Encode("HTTP/1.0")
  const HTTP11: bytes := Encode("HTTP/1.1")

  datatype RequestHead = RequestHead(method_: bytes, path: bytes, authorization: Option<bytes>, contentLength: nat)

  predicate GoodRequestLine(parts: seq<bytes>) {
    && |parts| == 3
    && (parts[2] == HTTP10 || parts[2] == HTTP11)
    && parts[1] != [] && parts[1][0] == 47
    && (forall k :: 0 <= k < |parts[0]| ==> IsUpper(parts[0][k]))
  }

  /** None stands for any refusal. */
  function ParseRequestHead(b: bytes): Option<RequestHead> {
    match HeaderFields(b)
    case Err(_) => None
    case Ok(h) =>
      var parts := Words(h.first);
      if !GoodRequestLine(parts) then None
      else Some(RequestHead(parts[0], parts[1], h.fields.authorization,
                            if h.fields.length.Some? then h.fields.length.value else 0))
  }

  lemma RequestHeadAgrees(b: bytes, rest: bytes)
    requires ParseRequestHead(b).Some?
    ensures Paired(b) && ReadHead(b + rest, HEADER_CAP) == Ok(b)
    ensures var lines, r := HeadLines(b)[1..], ParseRequestHead(b).value;
            && Plain(lines)
            && (LengthMeans(lines, Some(r.contentLength)) || (NoneNamed(lines, CONTENT_LENGTH) && r.contentLength == 0))
            && AuthorizationMeans(lines, r.authorization)
  {
    ReaderAndParserAgree(b, rest);
    ReadFieldsIff(HeadLines(b)[1..], HeaderFields(b).value.fields);
  }
}
