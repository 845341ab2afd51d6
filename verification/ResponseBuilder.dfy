/** What the proxy answers: the head of an image, a description of the page as JSON, or an error. */
module ResponseBuilder {
  import opened Bytes
  import opened HttpTypes
  import opened HttpStep
  import opened HttpValues
  import opened HttpHeaders
  import opened HttpHead
  import opened HttpMessage
  import opened HttpFraming
  import opened HttpResponse
  import opened HttpCollect
  import opened HttpLocation
  import opened ChunkWriter
  import opened ImageResponse

  // ---------- numbers ----------

  /** A number in decimal. */
  function Digits(n: nat): string {
    if n < 10 then [(n + '0' as int) as char] else Digits(n / 10) + [(n % 10 + '0' as int) as char]
  }

  function Signed(n: int): string { if n < 0 then "-" + Digits(-n) else Digits(n) }

  function Ten(k: nat): nat { if k == 0 then 1 else 10 * Ten(k - 1) }

  lemma {:induction false} DigitsShort(n: nat, k: nat)
    requires n < Ten(k) && k > 0
    ensures 1 <= |Digits(n)| <= k
    decreases n
  {
    if n >= 10 { DigitsShort(n / 10, k - 1); }
  }

  /** A printed number reads back as itself. */
  lemma {:induction false} DecimalDigits(n: nat)
    ensures Digits(n) != "" && AllDigits(Digits(n)) && Decimal(Digits(n)) == n
    decreases n
  {
    var c := (n % 10 + '0' as int) as char;
    assert IsNum(c) && DigitVal(c) == n % 10;
    if n < 10 {
      DecimalSnoc("", c);
      assert "" + [c] == [c] == Digits(n);
    } else {
      DecimalDigits(n / 10);
      DecimalSnoc(Digits(n / 10), c);
    }
  }

  // ---------- the text ----------

  /** The size and the pixel format of a page, as the document library gives them; `format` is the place of
      the format among those that have a name. */
  datatype PageInfo = PageInfo(width: nat, height: nat, format: nat)

  function FormatName(format: nat): (s: string)
    ensures |s| <= 7
  {
    if format == 1 then "gray8" else if format == 2 then "rgb24" else if format == 3 then "bgr24"
    else if format == 4 then "rgba32" else if format == 5 then "argb32" else if format == 6 then "abgr32"
    else if format == 7 then "bgra32" else "invalid"
  }

  const JSON_SIZE: nat := 0x100

  /** The description of a page, as far as its buffer holds it. */
  function JsonText(info: PageInfo): (s: string)
    ensures |s| < JSON_SIZE
  {
    Clip("{'width' : '" + Digits(info.width) + "', 'height' : '" + Digits(info.height) + "', 'pf' : '"
         + FormatName(info.format) + "'}", JSON_SIZE)
  }

  function Message(code: int): (s: string)
    ensures |s| <= 15
  {
    if code == 200 then "OK"
    else if code == 302 then "Found"
    else if code == 400 then "Invalid request"
    else if code == 404 then "Not Found"
    else if code == 500 then "Server error"
    else "Not Implemented"
  }

  function StatusText(code: int): string { "HTTP/1.1 " + Signed(code) + " " + Message(code) + "\r\n" }

  const CLOSE := HeaderText("Connection", "close")
  const JPEG := HeaderText("Content-Type", "image/jpeg")
  const CHUNKED := HeaderText("Transfer-Encoding", "chunked")
  const JSON := HeaderText("Content-Type", "application/json")

  function LengthText(n: nat): string { HeaderText("Content-Length", Digits(n)) }

  function AnswerHeaders(code: int, json: bool, info: PageInfo): string {
    if code != 200 then ""
    else if json then CLOSE + JSON + LengthText(|JsonText(info)|)
    else CLOSE + JPEG + CHUNKED
  }

  function AnswerHead(code: int, json: bool, info: PageInfo): string {
    StatusText(code) + AnswerHeaders(code, json, info) + "\r\n"
  }

  function AnswerBody(code: int, json: bool, info: PageInfo): string {
    if code == 200 && json then JsonText(info) else ""
  }

  /** What a buffer of `size` holds of the answer: the head in front of a zero, the body up to the end. */
  function Answer(code: int, json: bool, info: PageInfo, size: nat): (s: string)
    requires size > 0
    ensures |s| <= size
  {
    var head, body := Clip(AnswerHead(code, json, info), size), AnswerBody(code, json, info);
    if |body| <= size - |head| then head + body else head + body[..size - |head|]
  }

  /** In the connection's buffer that is all of it. */
  lemma AnswerFits(code: int, json: bool, info: PageInfo)
    requires -0x8000_0000 <= code < 0x8000_0000
    ensures Answer(code, json, info, BUFFER_SIZE) == AnswerHead(code, json, info) + AnswerBody(code, json, info)
  {
    hide Digits, JsonText;
    assert Ten(10) == 10 * Ten(9) && Ten(9) == 1000000000 by { TenNine(); }
    DigitsShort(if code < 0 then -code else code, 10);
    assert Ten(3) == 1000;
    DigitsShort(|JsonText(info)|, 3);
    HeaderLengths(|JsonText(info)|);
    assert |AnswerHead(code, json, info)| <= 300;
  }

  lemma TenNine()
    ensures Ten(9) == 1000000000
  {
    assert Ten(3) == 1000;
    assert Ten(6) == 10 * Ten(5) && Ten(5) == 10 * Ten(4) && Ten(4) == 10 * Ten(3);
    assert Ten(9) == 10 * Ten(8) && Ten(8) == 10 * Ten(7) && Ten(7) == 10 * Ten(6);
  }

  lemma HeaderLengths(n: nat)
    ensures |CLOSE| == 19 && |JPEG| == 26 && |CHUNKED| == 28 && |JSON| == 32 && |LengthText(n)| == 18 + |Digits(n)|
  {
    hide Digits;
  }

  // ---------- the buffer ----------

  method BuildHead(buf: array<char>, code: int, json: bool, info: PageInfo) returns (n: nat)
    requires buf.Length > 0
    modifies buf
    ensures n < buf.Length && buf[..n] == Clip(AnswerHead(code, json, info), buf.Length)
  {
    hide Clip, HeaderText, StatusText, JsonText, Digits;
    ClipNothing(buf.Length);
    ghost var t := StatusText(code);
    assert buf[..0] == "" && "" + t == t;
    n := Advance(buf, 0, StatusText(code), "");
    if code == 200 {
      n := WriteHeader(buf, n, "Connection", "close", t);
      if json {
        n := WriteHeader(buf, n, "Content-Type", "application/json", t + CLOSE);
        n := WriteHeader(buf, n, "Content-Length", Digits(|JsonText(info)|), t + CLOSE + JSON);
        n := Advance(buf, n, "\r\n", t + CLOSE + JSON + LengthText(|JsonText(info)|));
        Five(t, CLOSE, JSON, LengthText(|JsonText(info)|), "\r\n");
      } else {
        n := WriteHeader(buf, n, "Content-Type", "image/jpeg", t + CLOSE);
        n := WriteHeader(buf, n, "Transfer-Encoding", "chunked", t + CLOSE + JPEG);
        n := Advance(buf, n, "\r\n", t + CLOSE + JPEG + CHUNKED);
        Five(t, CLOSE, JPEG, CHUNKED, "\r\n");
      }
    } else {
      n := Advance(buf, n, "\r\n", t);
      assert t + "" == t;
    }
  }

  lemma Five(a: string, b: string, c: string, d: string, e: string)
    ensures a + (b + c + d) + e == a + b + c + d + e
  {
  }

  /** The answer to a code, in the connection's buffer. */
  method BuildResponse(buf: array<char>, code: int, json: bool, info: PageInfo) returns (n: nat)
    requires buf.Length > 0
    modifies buf
    ensures n <= buf.Length && buf[..n] == Answer(code, json, info, buf.Length)
  {
    hide Clip, AnswerHead, JsonText;
    n := BuildHead(buf, code, json, info);
    if code == 200 && json {
      var body := JsonText(info);
      var k := if |body| < buf.Length - n then |body| else buf.Length - n;
      ghost var head := buf[..n];
      forall i | 0 <= i < k { buf[n + i] := body[i]; }
      assert buf[..n + k] == head + body[..k];
      n := n + k;
    }
  }

  // ---------- what a client reads ----------

  /** The head of an image is the one the client's parser was shown to read. */
  lemma ImageHeadIsBuilt(info: PageInfo)
    ensures AnswerHead(200, false, info) == HeadText(IMAGE_HEAD) && AnswerBody(200, false, info) == ""
  {
    hide HeaderText, HeadersText;
    DigitsOf200();
    ImageHeadersText();
    assert StatusText(200) == FirstLine(IMAGE_HEAD);
  }

  lemma DigitsOf200()
    ensures Digits(200) == "200"
  {
    assert Digits(2) == "2";
    assert Digits(20) == Digits(2) + "0";
    assert Digits(200) == Digits(20) + "0";
  }

  lemma ImageHeadersText()
    ensures HeadersText(IMAGE_HEADERS) == CLOSE + JPEG + CHUNKED
  {
    hide HeaderText, HeadersText, EntryText, EntryOk, EntryRead;
    var hs := IMAGE_HEADERS;
    ThreeHeaders(hs);
    WrittenEntry("Connection", "close");
    WrittenEntry("Content-Type", "image/jpeg");
    WrittenEntry("Transfer-Encoding", "chunked");
  }

  /** What WriteHeader writes is a header as the parser reads it. */
  lemma WrittenEntry(name: string, value: string)
    ensures EntryText(Entry(name, " ", value, "\r\n")) == HeaderText(name, value)
  {
    var e := Entry(name, " ", value, "\r\n");
    NoFolds(e);
    assert name + ":" + " " + value + "\r\n" == name + ": " + value + "\r\n";
  }

  function JsonHeaders(info: PageInfo): seq<Entry> {
    [Entry("Connection", " ", "close", "\r\n"), Entry("Content-Type", " ", "application/json", "\r\n"),
     Entry("Content-Length", " ", Digits(|JsonText(info)|), "\r\n")]
  }

  function JsonHead(info: PageInfo): Head { Head("1", "1", "200", " OK", "\r\n", JsonHeaders(info), "\r\n") }

  lemma JsonHeadIsBuilt(info: PageInfo)
    ensures AnswerHead(200, true, info) == HeadText(JsonHead(info))
  {
    hide HeaderText, HeadersText, JsonText, Digits;
    DigitsOf200();
    JsonHeadersText(info);
    assert StatusText(200) == FirstLine(JsonHead(info));
  }

  lemma JsonHeadersText(info: PageInfo)
    ensures HeadersText(JsonHeaders(info)) == CLOSE + JSON + LengthText(|JsonText(info)|)
  {
    hide JsonText, Digits, HeaderText, HeadersText, EntryText, EntryOk, EntryRead;
    var hs := JsonHeaders(info);
    ThreeHeaders(hs);
    WrittenEntry("Connection", "close");
    WrittenEntry("Content-Type", "application/json");
    WrittenEntry("Content-Length", Digits(|JsonText(info)|));
  }

  lemma ThreeHeaders(hs: seq<Entry>)
    requires |hs| == 3
    ensures HeadersText(hs) == EntryText(hs[0]) + EntryText(hs[1]) + EntryText(hs[2])
    ensures EntriesOk(hs) ==>
            forall p: Parser :: HeadersSeen(p, hs) == EntryRead(EntryRead(EntryRead(p, hs[0]), hs[1]), hs[2])
  {
    hide EntryText, EntryOk, EntryRead;
    var two, one := hs[1..], hs[1..][1..];
    assert two[0] == hs[1] && one[0] == hs[2] && one[1..] == [];
    assert HeadersText(one) == EntryText(hs[2]) + HeadersText([]);
    assert HeadersText(two) == EntryText(hs[1]) + HeadersText(one);
    if EntriesOk(hs) {
      forall p: Parser ensures HeadersSeen(p, hs) == EntryRead(EntryRead(EntryRead(p, hs[0]), hs[1]), hs[2]) {
        var p1 := EntryRead(p, hs[0]);
        var p2 := EntryRead(p1, hs[1]);
        assert HeadersSeen(p2, one) == HeadersSeen(EntryRead(p2, hs[2]), []);
        assert HeadersSeen(p1, two) == HeadersSeen(p2, one);
      }
    }
  }

  lemma JsonTypeEntry(info: PageInfo)
    ensures EntryOk(JsonHeaders(info)[1]) && !NamesLength("Content-Type")
    ensures !NamesConnection("Content-Type") && !NamesEncoding("Content-Type") && !NamesUpgrade("Content-Type")
  {
    hide Digits, JsonText;
    LowerDiffers("Content-Type", "connection", 0);
    LowerDiffers("Content-Type", "proxy-connection", 0);
    LowerDiffers("Content-Type", "content-length", 0);
    LowerDiffers("Content-Type", "transfer-encoding", 0);
    LowerDiffers("Content-Type", "upgrade", 0);
  }

  lemma LengthEntry(blanks: string, n: nat, end: string)
    requires AllBlank(blanks) && IsBreak(end) && n < ULLONG_MAX
    ensures var e := Entry("Content-Length", blanks, Digits(n), end);
            EntryOk(e) && GivesLength(e) && NamesLength("Content-Length") && Spaced(Digits(n)) == n
  {
    hide Digits, Decimal, Spaced;
    DecimalDigits(n);
    SpacedIsDecimal(Digits(n));
    LowerWord("Content-Length", "content-length");
  }

  /** The JSON answer is well-formed and announces the length of its body. */
  lemma JsonHeadSeen(info: PageInfo)
    ensures HeadOk(JsonHead(info)) && !Seen(JsonHead(info)).flags.upgrade
    ensures FramingOf(Seen(JsonHead(info))) == ByLength(|JsonText(info)|)
  {
    hide NamesConnection, NamesLength, NamesEncoding, NamesUpgrade, IsWord, LowerAll, EntryText, HttpHead.Header,
      StatusLine, EntryOk, HeadersText, Digits, JsonText, Spaced, AllBlank, IsBreak;
    var h, hs := JsonHead(info), JsonHeaders(info);
    assert AllBlank(" ") && IsBreak("\r\n") by { JsonBlanks(); }
    ConnectionEntry();
    JsonTypeEntry(info);
    LengthEntry(" ", |JsonText(info)|, "\r\n");
    ThreeHeaders(hs);
    ImageLine();
    JsonLengths(info);
    assert hs[0] == IMAGE_HEADERS[0];
    assert EntriesOk(hs);
    NoFolds(hs[2]);
    assert hs[1].name == "Content-Type" && !GivesLength(hs[1]);
  }

  lemma JsonBlanks()
    ensures AllBlank(" ") && IsBreak("\r\n")
  {
  }

  lemma JsonLengths(info: PageInfo)
    ensures |FirstLine(JsonHead(info))| == 17 && |HeadersText(JsonHeaders(info))| <= 100
  {
    hide JsonText, Digits, HeadersText;
    JsonHeadersText(info);
    HeaderLengths(|JsonText(info)|);
    assert Ten(3) == 1000;
    DigitsShort(|JsonText(info)|, 3);
  }

  /** However the JSON answer is cut on its way, the client's parser reports the description of the page, once. */
  lemma JsonAnswerRead(info: PageInfo, pieces: seq<string>)
    requires Flatten(pieces) == Answer(200, true, info, BUFFER_SIZE)
    ensures var d := FeedAll(START, pieces);
            d.p.errno.Ok? && !d.left && d.t == Push(BodyCalls(JsonHead(info), JsonText(info)), MessageComplete)
  {
    hide Seen, HeadOk, HeadText, FeedAll, Push, FramingOf, AnswerHead, JsonText, JsonHead, HeadCalls;
    AnswerFits(200, true, info);
    JsonHeadIsBuilt(info);
    JsonHeadSeen(info);
    ResponseReported(JsonHead(info), Sized(JsonText(info)), pieces);
  }
}
