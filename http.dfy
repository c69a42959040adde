/**
 * The hand-rolled HTTP/1.1 layer of src/http.c: the request reader
 * (`http_read_request`) and the response writer (`send_common` and its
 * wrappers).
 *
 * The connection is modelled by what crosses it. What the peer sends is a
 * sequence of chunks, each the data one `recv` could return; an empty chunk
 * or the end of the sequence is a `recv` that returned 0 or less. What the
 * server sends accumulates in a `Socket`.
 */
module Http {
  import opened Wrappers
  import opened CString
  import opened Numeric

  /** `recv(fd, buf, sizeof(buf) - 1, 0)` on the 8192-octet stack buffer. */
  const RecvCap := 8191
  /** `%7s` into `char method[8]`. */
  const MethodWidth := 7
  /** `%1023s` into `char path[1024]`. */
  const PathWidth := 1023
  /** `char content_type[128]`. */
  const ContentTypeCap := 127
  /** `char tmp[32]`, the copy of a Content-Length value given to `strtoul`. */
  const LengthTextCap := 31
  /** `char cookie[2048]`. */
  const CookieCap := 2047

  const Crlf := "\r\n"
  const HeaderTerminator := "\r\n\r\n"

  /** The `http_request` struct: two request-line tokens, three header values, the body. */
  datatype Request = Request(
    verb: string,  // the `method` member of the C struct
    path: string,
    contentType: string,
    cookie: string,
    contentLength: nat,
    body: Option<string>)

  /** The struct after `memset(req, 0, sizeof *req)`. */
  const EmptyRequest := Request("", "", "", "", 0, None)

  // ---------------------------------------------------------------------
  // Status lines

  /** The reason phrase `status_line` pairs with each code it knows (section 15 of RFC 9110). */
  function ReasonPhrase(code: int): Option<string> {
    match code
    case 200 => Some("OK")
    case 201 => Some("Created")
    case 204 => Some("No Content")
    case 400 => Some("Bad Request")
    case 401 => Some("Unauthorized")
    case 403 => Some("Forbidden")
    case 404 => Some("Not Found")
    case 405 => Some("Method Not Allowed")
    case 409 => Some("Conflict")
    case 500 => Some("Internal Server Error")
    case _ => None
  }

  /** The code a status line is written for: the code itself when it is known, otherwise 200. */
  function StatusCode(code: int): (c: int)
    ensures ReasonPhrase(c).Some? && 100 <= c <= 999
    ensures ReasonPhrase(code).Some? ==> c == code
    ensures ReasonPhrase(code).None? ==> c == 200
  {
    if ReasonPhrase(code).Some? then code else 200
  }

  /**
   * `status_line`: the version, the code, its reason phrase and CRLF; a code
   * the switch does not list is answered with the line for 200.
   */
  function StatusLine(code: int): string {
    var c := StatusCode(code);
    "HTTP/1.1 " + Decimal(c) + " " + ReasonPhrase(c).value + "\r\n"
  }

  /**
   * A client reading the status code back (the digits after `HTTP/1.1 `)
   * gets the code the response was sent with, or 200 for an unknown one.
   */
  lemma StatusCodeReadBack(code: int)
    ensures HasPrefix(StatusLine(code), "HTTP/1.1 ")
    ensures Strtoul(StatusLine(code)[9..]) == StatusCode(code)
  {
    var c := StatusCode(code);
    var tail := " " + ReasonPhrase(c).value + "\r\n";
    assert StatusLine(code) == "HTTP/1.1 " + Decimal(c) + tail;
    NumberAfterPrefix("HTTP/1.1 ", c, tail);
  }

  /** A number placed after a prefix and before a blank reads back from the end of the prefix. */
  lemma NumberAfterPrefix(p: string, n: nat, tail: string)
    requires n <= ULongMax
    requires tail != [] && tail[0] == ' '
    ensures HasPrefix(p + Decimal(n) + tail, p)
    ensures Strtoul((p + Decimal(n) + tail)[|p|..]) == n
  {
    assert (p + Decimal(n) + tail)[|p|..] == [] + Decimal(n) + tail;
    assert !IsDigit(tail[0]);
    StrtoulOfDecimal([], n, tail);
  }

  // ---------------------------------------------------------------------
  // Bounded search

  /**
   * `strnstr_local(haystack, needle, len)`: the first offset `i` with
   * `i + |needle| <= len` at which `needle` occurs; an empty needle is found
   * at offset 0.
   */
  method StrnStr(haystack: string, needle: string, len: nat) returns (r: Option<nat>)
    requires len <= |haystack|
    ensures r == Find(haystack[..len], needle)
    ensures r.Some? ==> r.value + |needle| <= len && haystack[r.value..r.value + |needle|] == needle
  {
    ghost var h := haystack[..len];
    var nlen := |needle|;
    if nlen == 0 {
      return Some(0);
    }
    var i := 0;
    while i + nlen <= len
      invariant i <= len
      invariant FindFrom(h, needle, i) == Find(h, needle)
      decreases len - i
    {
      if haystack[i..i + nlen] == needle {
        assert h[i..i + nlen] == haystack[i..i + nlen];
        return Some(i);
      }
      assert h[i..i + nlen] == haystack[i..i + nlen];
      i := i + 1;
    }
    return None;
  }

  // ---------------------------------------------------------------------
  // Receiving

  /** Everything the peer delivers before a `recv` returns 0 or less: the chunks up to the first empty one. */
  function Available(stream: seq<string>): string {
    if stream == [] || stream[0] == [] then [] else stream[0] + Available(stream[1..])
  }

  /**
   * One `recv(fd, dst, max, 0)`: at most `max` octets of the next chunk; the
   * rest of that chunk stays in the stream. An empty result stands for a
   * return value of 0 or less.
   */
  function Recv(stream: seq<string>, max: nat): (r: (string, seq<string>))
    requires max > 0
    ensures |r.0| <= max
    ensures Available(stream) == r.0 + Available(r.1)
    ensures r.0 == [] <==> Available(stream) == []
  {
    if stream == [] || stream[0] == [] then ([], stream)
    else if |stream[0]| <= max then (stream[0], stream[1..])
    else
      var rest := [stream[0][max..]] + stream[1..];
      assert rest[1..] == stream[1..];
      assert stream[0] == stream[0][..max] + stream[0][max..];
      (stream[0][..max], rest)
  }

  // ---------------------------------------------------------------------
  // Request line

  predicate NoSpace(s: string) {
    forall i :: 0 <= i < |s| ==> !IsSpace(s[i])
  }

  lemma NoSpaceCons(c: char, s: string)
    requires !IsSpace(c) && NoSpace(s)
    ensures NoSpace([c] + s)
  {
    forall i | 0 < i < |[c] + s| ensures !IsSpace(([c] + s)[i]) {
      assert ([c] + s)[i] == s[i - 1];
    }
  }

  /** A `%Ns` conversion after its blanks are skipped: up to `width` non-blank characters. */
  function TakeToken(s: string, width: nat): (r: (string, string))
    ensures r.0 + r.1 == s && |r.0| <= width && NoSpace(r.0)
    ensures |r.0| < width && r.1 != [] ==> IsSpace(r.1[0])
  {
    if width == 0 || s == [] || IsSpace(s[0]) then ([], s)
    else
      var t := TakeToken(s[1..], width - 1);
      assert [s[0]] + t.0 + t.1 == s;
      NoSpaceCons(s[0], t.0);
      ([s[0]] + t.0, t.1)
  }

  /**
   * `sscanf(buf, "%7s %1023s", method, path) == 2` on the C string in the
   * buffer: blanks, at most 7 non-blanks, blanks, at most 1023 non-blanks.
   * A method longer than 7 characters spills into the path.
   */
  function RequestLine(s: string): (r: Option<(string, string)>)
    ensures r.Some? ==> 1 <= |r.value.0| <= MethodWidth && NoSpace(r.value.0)
    ensures r.Some? ==> 1 <= |r.value.1| <= PathWidth && NoSpace(r.value.1)
  {
    var first := TakeToken(SkipSpace(s), MethodWidth);
    var second := TakeToken(SkipSpace(first.1), PathWidth);
    if first.0 == [] || second.0 == [] then None else Some((first.0, second.0))
  }

  /**
   * A run of non-blanks that ends at a blank (or the end), or that fills the
   * width, is taken whole.
   */
  lemma {:induction false} TakeTokenWhole(tok: string, rest: string, width: nat)
    requires |tok| <= width && NoSpace(tok)
    requires |tok| == width || rest == [] || IsSpace(rest[0])
    ensures TakeToken(tok + rest, width) == (tok, rest)
  {
    if tok != [] {
      var s := tok + rest;
      assert s[0] == tok[0] && !IsSpace(s[0]);
      assert s[1..] == tok[1..] + rest;
      TakeTokenWhole(tok[1..], rest, width - 1);
      assert [tok[0]] + tok[1..] == tok;
    } else {
      assert tok + rest == rest;
    }
  }

  /** A request line written as `<method> <path>` is read back as exactly that method and path. */
  lemma RequestLineOf(m: string, p: string, rest: string)
    requires 1 <= |m| <= MethodWidth && NoSpace(m)
    requires 1 <= |p| <= PathWidth && NoSpace(p)
    requires rest == [] || IsSpace(rest[0])
    ensures RequestLine(m + " " + p + rest) == Some((m, p))
  {
    var tail := " " + p + rest;
    var s := m + tail;
    assert m + " " + p + rest == s;
    assert SkipSpace(s) == s by {
      SkipSpacePrefix([], s);
      assert [] + s == s;
    }
    TakeTokenWhole(m, tail, MethodWidth);
    assert SkipSpace(tail) == p + rest by {
      assert tail == " " + (p + rest);
      SkipSpacePrefix(" ", p + rest);
    }
    TakeTokenWhole(p, rest, PathWidth);
  }

  /** A method token longer than 7 characters is cut, and its remainder is read as the path. */
  lemma LongMethodSpillsIntoPath(m: string, rest: string)
    requires MethodWidth < |m| <= MethodWidth + PathWidth && NoSpace(m)
    requires rest == [] || IsSpace(rest[0])
    ensures RequestLine(m + rest) == Some((m[..MethodWidth], m[MethodWidth..]))
  {
    var s := m + rest;
    var spill := m[MethodWidth..] + rest;
    assert SkipSpace(s) == s by {
      SkipSpacePrefix([], s);
      assert [] + s == s;
    }
    assert s == m[..MethodWidth] + spill;
    TakeTokenWhole(m[..MethodWidth], spill, MethodWidth);
    assert SkipSpace(spill) == spill by {
      SkipSpacePrefix([], spill);
      assert [] + spill == spill;
    }
    TakeTokenWhole(m[MethodWidth..], rest, PathWidth);
  }

  // ---------------------------------------------------------------------
  // Header lines

  /**
   * The lines the header scan visits in a header block: each piece that a
   * CRLF ends. A final piece with no CRLF after it is not visited; as the
   * block stops where the blank line starts, that is the last header line.
   */
  function Lines(s: string): seq<string>
    decreases |s|
  {
    match Find(s, Crlf)
    case None => []
    case Some(j) => [s[..j]] + Lines(s[j + 2..])
  }

  /**
   * Scanning from offset `p` of a block whose next CRLF is `j` octets on:
   * the line before it, then the lines after it.
   */
  lemma ScanAdvance(block: string, p: nat, j: nat, h: Headers, h': Headers)
    requires p <= |block| && Find(block[p..], Crlf) == Some(j)
    requires p + j + 2 <= |block| && h' == ScanLine(h, block[p..p + j])
    ensures ScanLines(h, Lines(block[p..])) == ScanLines(h', Lines(block[p + j + 2..]))
  {
    assert block[p..][..j] == block[p..p + j];
    assert block[p..][j + 2..] == block[p + j + 2..];
    var later := Lines(block[p + j + 2..]);
    assert Lines(block[p..]) == [block[p..p + j]] + later;
    assert ([block[p..p + j]] + later)[1..] == later;
  }

  /** Past the last CRLF of a block there are no more lines. */
  lemma LinesEnd(block: string, p: nat)
    requires p <= |block| && (p == |block| || Find(block[p..], Crlf) == None)
    ensures Lines(block[p..]) == []
  {
  }

  /** The three headers the reader keeps. */
  datatype Field = ContentType | ContentLength | Cookie

  function FieldName(f: Field): string {
    match f
    case ContentType => "Content-Type:"
    case ContentLength => "Content-Length:"
    case Cookie => "Cookie:"
  }

  /** The field name in lower case: what `strncasecmp` compares a line with, letter by letter. */
  function FieldKey(f: Field): string {
    match f
    case ContentType => "content-type:"
    case ContentLength => "content-length:"
    case Cookie => "cookie:"
  }

  /** The shortest line the reader compares with the field name. */
  function MinLineLength(f: Field): nat {
    match f
    case ContentType => 14
    case ContentLength => 16
    case Cookie => 7
  }

  /** How much of the value is kept. */
  function ValueCap(f: Field): nat {
    match f
    case ContentType => ContentTypeCap
    case ContentLength => LengthTextCap
    case Cookie => CookieCap
  }

  /** The line is one for `f`: long enough, and starting with its name in any letter case. */
  predicate IsFieldLine(line: string, f: Field) {
    |line| >= MinLineLength(f) && |FieldName(f)| <= |line| && Lower(line[..|FieldName(f)|]) == FieldKey(f)
  }

  /** `IsFieldLine` is the length test followed by `strncasecmp(line, name, strlen(name)) == 0`. */
  lemma IsFieldLineIgnoresCase(line: string, f: Field)
    ensures IsFieldLine(line, f) <==> |line| >= MinLineLength(f) && HasPrefixIgnoreCase(line, FieldName(f))
  {
    FieldKeyIsLower(f);
  }

  lemma FieldKeyIsLower(f: Field)
    ensures Lower(FieldName(f)) == FieldKey(f)
  {
    LowerPointwise(FieldName(f), FieldKey(f));
  }

  /** The text after the name (its leading blank kept), cut at a NUL and at the field's capacity. */
  function RawValue(line: string, f: Field): string
    requires IsFieldLine(line, f)
  {
    Truncate(CStr(line[|FieldName(f)|..]), ValueCap(f))
  }

  /** The header values the scan has collected. */
  datatype Headers = Headers(contentType: string, contentLength: nat, cookie: string)

  const NoHeaders := Headers("", 0, "")

  /** One line of the scan: each field it names overwrites what an earlier line stored. */
  function ScanLine(h: Headers, line: string): Headers {
    var h1 := if IsFieldLine(line, ContentType) then h.(contentType := RawValue(line, ContentType)) else h;
    var h2 := if IsFieldLine(line, ContentLength) then h1.(contentLength := Strtoul(RawValue(line, ContentLength))) else h1;
    if IsFieldLine(line, Cookie) then h2.(cookie := RawValue(line, Cookie)) else h2
  }

  /** The scan of several lines, first to last. */
  function ScanLines(h: Headers, lines: seq<string>): Headers
    decreases |lines|
  {
    if lines == [] then h else ScanLines(ScanLine(h, lines[0]), lines[1..])
  }

  /** The header values of a header block (the octets before the blank line). */
  function ScanHeaders(block: string): Headers {
    ScanLines(NoHeaders, Lines(block))
  }

  /** The value a field holds, whatever its type. */
  datatype FieldValue = Text(text: string) | Number(number: nat)

  function Get(h: Headers, f: Field): FieldValue {
    match f
    case ContentType => Text(h.contentType)
    case ContentLength => Number(h.contentLength)
    case Cookie => Text(h.cookie)
  }

  /** What a line for `f` stores: the value text, or for Content-Length what `strtoul` makes of it. */
  function LineValue(line: string, f: Field): FieldValue
    requires IsFieldLine(line, f)
  {
    if f == ContentLength then Number(Strtoul(RawValue(line, f))) else Text(RawValue(line, f))
  }

  /** No line is one for two different fields. */
  lemma FieldsExclusive(line: string, f: Field, g: Field)
    requires IsFieldLine(line, f) && g != f
    ensures !IsFieldLine(line, g)
  {
    var k := if {f, g} == {ContentType, ContentLength} then 8 else 2;
    LowerAt(line[..|FieldName(f)|], k);
    if |FieldName(g)| <= |line| {
      LowerAt(line[..|FieldName(g)|], k);
    }
  }

  /** A line changes the field it names and no other. */
  lemma ScanLineField(h: Headers, line: string, f: Field)
    ensures Get(ScanLine(h, line), f) == if IsFieldLine(line, f) then LineValue(line, f) else Get(h, f)
  {
    forall g | IsFieldLine(line, g) && g != f ensures !IsFieldLine(line, f) {
      FieldsExclusive(line, g, f);
    }
  }

  /** When a field is named by several lines, the last of them decides its value. */
  lemma {:induction false} LastOccurrenceWins(h: Headers, lines: seq<string>, f: Field, i: nat)
    requires i < |lines| && IsFieldLine(lines[i], f)
    requires forall j :: i < j < |lines| ==> !IsFieldLine(lines[j], f)
    ensures Get(ScanLines(h, lines), f) == LineValue(lines[i], f)
    decreases |lines|
  {
    var next := ScanLine(h, lines[0]);
    ScanLineField(h, lines[0], f);
    var later := lines[1..];
    if i == 0 {
      assert forall j :: 0 <= j < |later| ==> !IsFieldLine(later[j], f) by {
        forall j | 0 <= j < |later| ensures !IsFieldLine(later[j], f) {
          assert later[j] == lines[j + 1];
        }
      }
      AbsentFieldKeepsDefault(next, later, f);
    } else {
      assert forall j :: i - 1 < j < |later| ==> !IsFieldLine(later[j], f) by {
        forall j | i - 1 < j < |later| ensures !IsFieldLine(later[j], f) {
          assert later[j] == lines[j + 1];
        }
      }
      LastOccurrenceWins(next, later, f, i - 1);
    }
  }

  /** A field no line names keeps its default: empty text, or a Content-Length of 0. */
  lemma {:induction false} AbsentFieldKeepsDefault(h: Headers, lines: seq<string>, f: Field)
    requires forall j :: 0 <= j < |lines| ==> !IsFieldLine(lines[j], f)
    ensures Get(ScanLines(h, lines), f) == Get(h, f)
    decreases |lines|
  {
    if lines != [] {
      ScanLineField(h, lines[0], f);
      var later := lines[1..];
      assert forall j :: 0 <= j < |later| ==> !IsFieldLine(later[j], f) by {
        forall j | 0 <= j < |later| ensures !IsFieldLine(later[j], f) {
          assert later[j] == lines[j + 1];
        }
      }
      AbsentFieldKeepsDefault(ScanLine(h, lines[0]), later, f);
    }
  }

  /** Text with no carriage return holds no CRLF. */
  lemma NoCrNoCrlf(s: string)
    requires '\r' !in s
    ensures Find(s, Crlf) == None
  {
    forall k: nat | k + 2 <= |s| ensures !OccursAt(s, Crlf, k) {
      assert s[k..k + 2][0] == s[k];
      assert s[k] != '\r';
    }
  }

  /** A match found in `x` is still the first one once more text follows `x`. */
  lemma FindExtends(x: string, y: string, needle: string)
    requires Find(x, needle).Some?
    ensures Find(x + y, needle) == Find(x, needle)
  {
    var i := Find(x, needle).value;
    FindFirst(x, needle);
    FindFirst(x + y, needle);
    assert (x + y)[i..i + |needle|] == x[i..i + |needle|];
    assert OccursAt(x + y, needle, i);
    forall k: nat | k < i ensures !OccursAt(x + y, needle, k) {
      assert (x + y)[k..k + |needle|] == x[k..k + |needle|];
      assert !OccursAt(x, needle, k);
    }
    assert FindFrom(x + y, needle, 0).Some?;
  }

  /**
   * Text after the last CRLF of a header block is never a line: if the
   * block is `pre + last`, with `pre` empty or ending in CRLF and `last`
   * free of CRLF, then the scan sees the lines of `pre` only.
   */
  lemma {:induction false} UnterminatedLastLineIgnored(pre: string, last: string)
    requires pre == [] || (|pre| >= 2 && pre[|pre| - 2..] == Crlf)
    requires Find(last, Crlf) == None
    ensures Lines(pre + last) == Lines(pre)
    decreases |pre|
  {
    if pre == [] {
      assert pre + last == last;
    } else {
      assert OccursAt(pre, Crlf, |pre| - 2);
      FindFirst(pre, Crlf);
      var j := Find(pre, Crlf).value;
      FindExtends(pre, last, Crlf);
      assert (pre + last)[j + 2..] == pre[j + 2..] + last;
      var tail := pre[j + 2..];
      assert pre[j + 1] == '\n' by { assert pre[j..j + 2] == Crlf; }
      assert j + 1 != |pre| - 2 by { assert pre[|pre| - 2] == '\r'; }
      if tail != [] {
        assert tail[|tail| - 2..] == pre[|pre| - 2..];
      }
      assert (pre + last)[..j] == pre[..j];
      assert Lines(pre + last) == [pre[..j]] + Lines(tail + last);
      assert Lines(pre) == [pre[..j]] + Lines(tail);
      UnterminatedLastLineIgnored(tail, last);
    }
  }

  /**
   * The header line just before the blank line is not scanned: in a block
   * whose last line names Content-Length, and whose other lines do not,
   * the content length stays 0.
   */
  lemma FinalContentLengthIgnored(pre: string, value: string)
    requires pre == [] || (|pre| >= 2 && pre[|pre| - 2..] == Crlf)
    requires forall j :: 0 <= j < |Lines(pre)| ==> !IsFieldLine(Lines(pre)[j], ContentLength)
    requires '\r' !in value
    ensures ScanHeaders(pre + "Content-Length:" + value).contentLength == 0
  {
    var name := "Content-Length:";
    var last := name + value;
    assert pre + name + value == pre + last;
    assert '\r' !in name;
    NoCrNoCrlf(last);
    UnterminatedLastLineIgnored(pre, last);
    AbsentFieldKeepsDefault(NoHeaders, Lines(pre), ContentLength);
  }

  // ---------------------------------------------------------------------
  // The request reader

  /** Why `http_read_request` returned -1. */
  datatype ReadError = ConnectionClosed | MalformedRequestLine | HeadersTooLarge | LengthOverflow | OutOfMemory

  /**
   * The size `malloc(req->content_length + 1)` is asked for: the sum is a
   * `size_t`, so a Content-Length of 2^64-1 wraps to a request for 0 octets.
   */
  function AllocSize(contentLength: nat): (r: nat)
    requires contentLength <= ULongMax
    ensures r == 0 <==> contentLength == ULongMax
    ensures contentLength < ULongMax ==> r == contentLength + 1
  {
    (contentLength + 1) % (ULongMax + 1)
  }

  datatype ReadResult = Read(request: Request) | Failed(error: ReadError)

  /**
   * What `http_read_request` produces from the chunks the peer sends, given
   * whether `malloc` succeeds. The first `recv` must hold the request line
   * and the whole header block; the body is the first Content-Length octets
   * of what follows the blank line in it and in every later `recv`. A
   * Content-Length whose block size would wrap is refused before anything
   * is allocated.
   */
  function ParseRequest(input: seq<string>, allocOk: bool): ReadResult {
    var (buf, rest) := Recv(input, RecvCap);
    if buf == [] then Failed(ConnectionClosed)
    else match RequestLine(CStr(buf))
      case None => Failed(MalformedRequestLine)
      case Some(line) =>
        match Find(buf, HeaderTerminator)
        case None => Failed(HeadersTooLarge)
        case Some(headerEnd) =>
          var h := ScanHeaders(buf[..headerEnd]);
          var received := buf[headerEnd + 4..] + Available(rest);
          if h.contentLength == 0 then
            Read(Request(line.0, line.1, h.contentType, h.cookie, 0, None))
          else if h.contentLength >= ULongMax then Failed(LengthOverflow)
          else if !allocOk then Failed(OutOfMemory)
          else if |received| < h.contentLength then Failed(ConnectionClosed)
          else Read(Request(line.0, line.1, h.contentType, h.cookie, h.contentLength,
                            Some(received[..h.contentLength])))
  }

  /**
   * One pass of the header loop of `http_read_request`: the three
   * case-insensitive prefix tests, each overwriting its field on a match.
   */
  method ScanHeaderLine(h0: Headers, line: string) returns (h: Headers)
    ensures h == ScanLine(h0, line)
  {
    var lineLen := |line|;
    h := h0;
    if IsFieldLine(line, ContentType) {
      h := h.(contentType := RawValue(line, ContentType));
    }
    if IsFieldLine(line, ContentLength) {
      var tmp := RawValue(line, ContentLength);
      h := h.(contentLength := Strtoul(tmp));
    }
    if IsFieldLine(line, Cookie) {
      h := h.(cookie := RawValue(line, Cookie));
    }
  }

  /**
   * The header scan of `http_read_request` over `buf[..headerEnd]`: each
   * line whose CRLF lies before the blank line is compared with the three
   * names, and a match overwrites the value stored so far.
   */
  method ScanHeaderBlock(buf: string, headerEnd: nat) returns (h: Headers)
    requires headerEnd <= |buf|
    ensures h == ScanHeaders(buf[..headerEnd])
  {
    ghost var block := buf[..headerEnd];
    h := NoHeaders;
    var p := 0;
    assert block[0..] == block;
    while p < headerEnd
      invariant p <= headerEnd
      invariant ScanLines(h, Lines(block[p..])) == ScanHeaders(block)
      decreases headerEnd - p
    {
      var found;
      found, p, h := ScanNextLine(buf, headerEnd, p, h);
      if !found {
        break;
      }
    }
    LinesEnd(block, p);
  }

  /**
   * One round of the header loop: find the CRLF that ends the line at `p`
   * within the first `headerEnd` octets, scan that line, and step past the
   * CRLF; `found` is false when no CRLF is left.
   */
  method ScanNextLine(buf: string, headerEnd: nat, p: nat, h: Headers) returns (found: bool, next: nat, h': Headers)
    requires p <= headerEnd <= |buf|
    ensures found ==> p < next <= headerEnd
    ensures found ==> ScanLines(h, Lines(buf[..headerEnd][p..])) == ScanLines(h', Lines(buf[..headerEnd][next..]))
    ensures !found ==> next == p && h' == h && Lines(buf[..headerEnd][p..]) == []
  {
    ghost var block := buf[..headerEnd];
    var lineEnd := StrnStr(buf[p..], Crlf, headerEnd - p);
    assert buf[p..][..headerEnd - p] == block[p..];
    if lineEnd.None? {
      LinesEnd(block, p);
      return false, p, h;
    }
    var lineLen := lineEnd.value;
    var line := buf[p..p + lineLen];
    assert block[p..p + lineLen] == line;
    h' := ScanHeaderLine(h, line);
    ScanAdvance(block, p, lineLen, h, h');
    found, next := true, p + lineLen + 2;
    assert ScanLines(h, Lines(block[p..])) == ScanLines(h', Lines(block[next..]));
  }

  /**
   * The body part of `http_read_request`: `received` octets of what
   * followed the blank line are already in the buffer; the rest of the
   * Content-Length octets come from further `recv`s. Fails when the block
   * for the body and its NUL would not fit a `size_t`, when `malloc` fails
   * or when the peer stops short.
   */
  method ReadBody(head: string, rest: seq<string>, contentLength: nat, allocOk: bool)
    returns (ok: bool, body: Option<string>)
    ensures ok <==> contentLength == 0 || (contentLength < ULongMax && allocOk && contentLength <= |head + Available(rest)|)
    ensures ok ==> body == if contentLength == 0 then None else Some((head + Available(rest))[..contentLength])
  {
    if contentLength >= ULongMax {
      return false, None;
    }
    var have := |head|;
    if have < contentLength {
      var remaining: nat := contentLength - have;
      if !allocOk {
        return false, None;
      }
      var buffer := head;
      var off := have;
      var stream := rest;
      while remaining > 0
        invariant off + remaining == contentLength && |buffer| == off
        invariant head + Available(rest) == buffer + Available(stream)
        decreases remaining
      {
        var next := Recv(stream, remaining);
        if next.0 == [] {
          return false, None;
        }
        buffer := buffer + next.0;
        off := off + |next.0|;
        remaining := remaining - |next.0|;
        stream := next.1;
      }
      assert (buffer + Available(stream))[..contentLength] == buffer;
      return true, Some(buffer);
    } else if contentLength > 0 {
      if !allocOk {
        return false, None;
      }
      assert (head + Available(rest))[..contentLength] == head[..contentLength];
      return true, Some(head[..contentLength]);
    } else {
      return true, None;
    }
  }

  /**
   * `http_read_request`: one `recv` for the head, the request line, the
   * search for the blank line, the header scan, then the body. Returns 0
   * with the request, or -1.
   */
  method ReadRequest(input: seq<string>, allocOk: bool) returns (rc: int, req: Request)
    ensures rc == 0 || rc == -1
    ensures rc == 0 <==> ParseRequest(input, allocOk).Read?
    ensures rc == 0 ==> req == ParseRequest(input, allocOk).request
  {
    req := EmptyRequest;
    var first := Recv(input, RecvCap);
    var buf := first.0;
    var n := |buf|;
    if n == 0 {
      return -1, req;
    }

    var line := RequestLine(CStr(buf));
    if line.None? {
      return -1, req;
    }
    req := req.(verb := line.value.0, path := line.value.1);

    var headerEnd := StrnStr(buf, HeaderTerminator, n);
    assert buf[..n] == buf;
    if headerEnd.None? {
      return -1, req;
    }
    var he := headerEnd.value;
    var headerLen := he + 4;

    var h := ScanHeaderBlock(buf, he);
    req := req.(contentType := h.contentType, contentLength := h.contentLength, cookie := h.cookie);

    var ok, body := ReadBody(buf[headerLen..], first.1, h.contentLength, allocOk);
    if !ok {
      return -1, req;
    }
    req := req.(body := body);
    rc := 0;
  }

  /** `http_free_request`: the body is released and every field is zeroed. */
  function FreeRequest(req: Request): (r: Request)
    ensures r.body == None && r.contentLength == 0
    ensures r.verb == r.path == r.contentType == r.cookie == ""
  {
    EmptyRequest
  }

  /**
   * Framing (section 6.3 of RFC 9112): on success the body is absent exactly
   * when Content-Length is 0, and otherwise it is exactly Content-Length
   * octets: the start of what followed the blank line, across every later
   * receive, with any surplus dropped.
   */
  lemma BodyFraming(input: seq<string>, allocOk: bool)
    requires ParseRequest(input, allocOk).Read?
    ensures var req := ParseRequest(input, allocOk).request;
      var (buf, rest) := Recv(input, RecvCap);
      var headerEnd := Find(buf, HeaderTerminator).value;
      && (req.body.None? <==> req.contentLength == 0)
      && (req.body.Some? ==>
            |req.body.value| == req.contentLength
            && req.body.value == (buf[headerEnd + 4..] + Available(rest))[..req.contentLength])
  {
  }

  /**
   * The reader as written takes `Content-Length: -1` for 2^64-1, since
   * `strtoul` negates modulo 2^64, and then asks `malloc` for 0 octets to
   * hold that many octets and a NUL.
   */
  lemma MinusOneLengthWraps(ws: string)
    requires forall i :: 0 <= i < |ws| ==> ws[i] == ' '
    requires |ws| <= 29
    ensures var line := FieldName(ContentLength) + ws + "-1";
      && IsFieldLine(line, ContentLength)
      && ScanLine(NoHeaders, line).contentLength == ULongMax
      && AllocSize(ScanLine(NoHeaders, line).contentLength) == 0
  {
    var v := ws + "-1";
    var line := FieldName(ContentLength) + v;
    assert FieldName(ContentLength) + ws + "-1" == line;
    assert '\0' !in v by {
      assert forall i :: 0 <= i < |v| ==> v[i] == (if i < |ws| then ws[i] else "-1"[i - |ws|]);
    }
    FieldLineOf(ContentLength, v);
    FieldsExclusive(line, ContentLength, ContentType);
    FieldsExclusive(line, ContentLength, Cookie);
    assert Strtoul(v) == ULongMax by {
      StrtoulMinusOne(ws);
    }
  }

  /**
   * The reader refuses a request whose header block sets a Content-Length
   * of 2^64-1, whether or not `malloc` would succeed and whatever follows.
   */
  lemma LengthOverflowRefused(input: seq<string>, allocOk: bool)
    requires var buf := Recv(input, RecvCap).0;
      && buf != [] && RequestLine(CStr(buf)).Some? && Find(buf, HeaderTerminator).Some?
      && ScanHeaders(buf[..Find(buf, HeaderTerminator).value]).contentLength == ULongMax
    ensures ParseRequest(input, allocOk) == Failed(LengthOverflow)
  {
  }

  /** A field's name followed by a short NUL-free value is a line for that field, and the value is what it stores. */
  lemma FieldLineOf(f: Field, v: string)
    requires '\0' !in v && |v| <= ValueCap(f) && |FieldName(f) + v| >= MinLineLength(f)
    ensures IsFieldLine(FieldName(f) + v, f) && RawValue(FieldName(f) + v, f) == v
  {
    var line := FieldName(f) + v;
    assert line[..|FieldName(f)|] == FieldName(f);
    FieldKeyIsLower(f);
    assert line[|FieldName(f)|..] == v;
    CStrNoNul(v);
  }

  /**
   * A request read successfully has a body block that holds the body and
   * its NUL: the size passed to `malloc` never wraps.
   */
  lemma BodyFitsAllocation(input: seq<string>, allocOk: bool)
    requires ParseRequest(input, allocOk).Read?
    ensures var req := ParseRequest(input, allocOk).request;
      && req.contentLength < ULongMax
      && (req.body.Some? ==> |req.body.value| + 1 == AllocSize(req.contentLength))
  {
    BodyFraming(input, allocOk);
  }

  /**
   * The reader fails when the first receive gets nothing, when the request
   * line lacks its two tokens, or when the first receive holds no blank
   * line; past the headers, a failed `malloc` for a body and a body the
   * peer stops sending short are failures too.
   */
  lemma ReadFailures(input: seq<string>, allocOk: bool)
    ensures Available(input) == [] ==> ParseRequest(input, allocOk) == Failed(ConnectionClosed)
    ensures var buf := Recv(input, RecvCap).0;
      buf != [] && RequestLine(CStr(buf)).None? ==> ParseRequest(input, allocOk) == Failed(MalformedRequestLine)
    ensures var buf := Recv(input, RecvCap).0;
      (buf != [] && RequestLine(CStr(buf)).Some? && Find(buf, HeaderTerminator).None?)
        ==> ParseRequest(input, allocOk) == Failed(HeadersTooLarge)
    ensures var (buf, rest) := Recv(input, RecvCap);
      var end := Find(buf, HeaderTerminator);
      (buf != [] && RequestLine(CStr(buf)).Some? && end.Some?
       && 0 < ScanHeaders(buf[..end.value]).contentLength < ULongMax)
        ==> (!allocOk ==> ParseRequest(input, allocOk) == Failed(OutOfMemory))
            && (allocOk && |buf[end.value + 4..] + Available(rest)| < ScanHeaders(buf[..end.value]).contentLength
                ==> ParseRequest(input, allocOk) == Failed(ConnectionClosed))
  {
  }

  /**
   * Only the split of the first receive matters: two peers whose first
   * receive is the same and who then deliver the same octets, however
   * chunked, produce the same request.
   */
  lemma SplitIndependence(a: seq<string>, b: seq<string>, allocOk: bool)
    requires Recv(a, RecvCap).0 == Recv(b, RecvCap).0
    requires Available(a) == Available(b)
    ensures ParseRequest(a, allocOk) == ParseRequest(b, allocOk)
  {
    var (buf, restA) := Recv(a, RecvCap);
    var restB := Recv(b, RecvCap).1;
    assert Available(restA) == Available(a)[|buf|..];
    assert Available(restB) == Available(b)[|buf|..];
  }

  // ---------------------------------------------------------------------
  // The response writer

  /** The client side of one connection: every octet sent on it so far. */
  class Socket {
    var out: string

    constructor ()
      ensures out == []
    {
      out := [];
    }

    /** One `send` call, assumed to send everything it is given. */
    method Send(data: string)
      modifies this
      ensures out == old(out) + data
    {
      out := out + data;
    }
  }

  const JsonContentType := "application/json; charset=utf-8"
  const MethodNotAllowedBody := "{\"error\":\"method_not_allowed\"}\n"
  const NotFoundBody := "{\"error\":\"not_found\"}\n"

  /** The header block `send_common` formats into its 256-octet buffer. */
  function ResponseHead(code: int, contentType: string, length: nat): string {
    StatusLine(code) + "Content-Type: " + contentType + "\r\n" + "Connection: close\r\n"
      + "Content-Length: " + Decimal(length) + "\r\n\r\n"
  }

  /** Every octet of one response: the header block, then the body as a C string. */
  function Response(code: int, contentType: string, body: string): string {
    ResponseHead(code, CStr(contentType), |CStr(body)|) + CStr(body)
  }

  function JsonResponse(code: int, json: string): string {
    Response(code, JsonContentType, json)
  }

  /** `send_common`: the header block, then the body unless it is empty. */
  method SendCommon(sock: Socket, code: int, contentType: string, body: string)
    modifies sock
    ensures sock.out == old(sock.out) + Response(code, contentType, body)
  {
    var b := CStr(body);
    var head := ResponseHead(code, CStr(contentType), |b|);
    assert Response(code, contentType, body) == head + b;
    sock.Send(head);
    if |b| > 0 {
      sock.Send(b);
    } else {
      assert head + b == head;
    }
  }

  /** `http_send_json`. */
  method SendJson(sock: Socket, code: int, json: string)
    modifies sock
    ensures sock.out == old(sock.out) + JsonResponse(code, json)
  {
    SendCommon(sock, code, JsonContentType, json);
  }

  /**
   * What a handler sends: a header line written on its own first (a
   * `Set-Cookie` line, or nothing), then one JSON response.
   */
  datatype Reply = Reply(preamble: string, code: int, json: string)

  /** A reply that is a JSON response alone. */
  function JsonReply(code: int, json: string): Reply {
    Reply("", code, json)
  }

  /** Every octet a reply puts on the connection. */
  function Output(r: Reply): string {
    r.preamble + JsonResponse(r.code, r.json)
  }

  const MethodNotAllowed := JsonReply(405, MethodNotAllowedBody)

  /** A handler's sends: the preamble line by itself when there is one, then `http_send_json`. */
  method SendReply(sock: Socket, r: Reply)
    modifies sock
    ensures sock.out == old(sock.out) + Output(r)
  {
    if r.preamble != [] {
      sock.Send(r.preamble);
    } else {
      assert sock.out == old(sock.out) + r.preamble;
    }
    SendJson(sock, r.code, r.json);
    Concat3(old(sock.out), r.preamble, JsonResponse(r.code, r.json));
  }

  lemma Concat3(a: string, b: string, c: string)
    ensures a + b + c == a + (b + c)
  {
  }

  /** `http_send_405`. */
  method Send405(sock: Socket)
    modifies sock
    ensures sock.out == old(sock.out) + JsonResponse(405, MethodNotAllowedBody)
  {
    SendJson(sock, 405, MethodNotAllowedBody);
  }

  /** `http_send_404`. */
  method Send404(sock: Socket)
    modifies sock
    ensures sock.out == old(sock.out) + JsonResponse(404, NotFoundBody)
  {
    SendJson(sock, 404, NotFoundBody);
  }
}
