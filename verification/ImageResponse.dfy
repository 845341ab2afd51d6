/** The proxy's answer with an image, as its client's parser sees it. */
module ImageResponse {
  import opened Bytes
  import opened HttpTypes
  import opened HttpSwitch
  import opened HttpStep
  import opened HttpRun
  import opened HttpHeaders
  import opened HttpValues
  import opened HttpHead
  import opened HttpMessage
  import opened HttpChunked
  import opened HttpFraming
  import opened HttpResponse
  import opened ChunkWriter

  const IMAGE_HEADERS := [
    Entry("Connection", " ", "close", "\r\n"),
    Entry("Content-Type", " ", "image/jpeg", "\r\n"),
    Entry("Transfer-Encoding", " ", "chunked", "\r\n")]

  /** The head that BuildResponse writes for code 200 and an image. */
  const IMAGE_HEAD := Head("1", "1", "200", " OK", "\r\n", IMAGE_HEADERS, "\r\n")

  lemma LowerWord(s: string, w: string)
    requires |s| == |w| && forall i :: 0 <= i < |s| ==> Lower(s[i]) == w[i]
    ensures LowerAll(s) == w
  {}

  lemma LowerDiffers(s: string, w: string, i: nat)
    requires |s| != |w| || (i < |s| && Lower(s[i]) != w[i])
    ensures LowerAll(s) != w
  {}

  lemma ConnectionEntry()
    ensures EntryOk(IMAGE_HEADERS[0])
    ensures NamesConnection("Connection") && !NamesLength("Connection") && !NamesEncoding("Connection")
            && !NamesUpgrade("Connection")
    ensures IsWord(LowerAll("close"), "close") && !IsWord(LowerAll("close"), "keep-alive")
  {
    LowerWord("Connection", "connection");
    LowerWord("close", "close");
    assert !IsWord("close", "keep-alive");
  }

  lemma TypeEntry()
    ensures EntryOk(IMAGE_HEADERS[1])
    ensures !NamesConnection("Content-Type") && !NamesLength("Content-Type") && !NamesEncoding("Content-Type")
            && !NamesUpgrade("Content-Type")
  {
    LowerDiffers("Content-Type", "connection", 0);
    LowerDiffers("Content-Type", "proxy-connection", 0);
    LowerDiffers("Content-Type", "content-length", 0);
    LowerDiffers("Content-Type", "transfer-encoding", 0);
    LowerDiffers("Content-Type", "upgrade", 0);
  }

  lemma EncodingNames()
    ensures !NamesConnection("Transfer-Encoding") && !NamesLength("Transfer-Encoding")
            && NamesEncoding("Transfer-Encoding") && !NamesUpgrade("Transfer-Encoding")
  {
    LowerWord("Transfer-Encoding", "transfer-encoding");
    var word := "transfer-encoding";
    assert |word| == 17 && word != "proxy-connection";
  }

  lemma EncodingEntry()
    ensures EntryOk(IMAGE_HEADERS[2])
    ensures !NamesConnection("Transfer-Encoding") && !NamesLength("Transfer-Encoding")
            && NamesEncoding("Transfer-Encoding") && !NamesUpgrade("Transfer-Encoding")
    ensures IsWord(LowerAll("chunked"), "chunked")
  {
    hide IsLength, Spaced, LowerAll, NamesConnection, NamesLength, NamesEncoding, NamesUpgrade;
    EncodingNames();
    LowerWord("chunked", "chunked");
  }

  lemma HeadLengths()
    ensures |HeadersText(IMAGE_HEADERS)| <= 100
  {
    var hs := IMAGE_HEADERS;
    assert hs[1..] == [hs[1], hs[2]] && hs[1..][1..] == [hs[2]] && [hs[2]][1..] == [];
    assert HeadersText(hs) == EntryText(hs[0]) + (EntryText(hs[1]) + (EntryText(hs[2]) + ""));
    assert |EntryText(hs[0])| == 19 && |EntryText(hs[1])| == 26 && |EntryText(hs[2])| == 28;
  }

  lemma ImageLine()
    ensures IsNumber("1") && IsNumber("200") && IsReason(" OK") && IsBreak(CRLF)
    ensures |FirstLine(IMAGE_HEAD)| == 17 && Decimal("1") == 1
  {
    DecimalSnoc("", '1');
    assert "" + ['1'] == "1";
    assert AllDigits("200");
    assert Decimal("200") <= 999 by { DecimalOf200(); }
  }

  lemma DecimalOf200()
    ensures Decimal("200") == 200
  {
    assert "200"[..2] == "20" && "20"[..1] == "2" && "2"[..0] == "";
    assert Decimal("2") == 2;
    assert Decimal("20") == 20;
  }

  /** The proxy's image head is well-formed and says: chunked, close. */
  lemma ImageHeadSeen()
    ensures HeadOk(IMAGE_HEAD)
    ensures Seen(IMAGE_HEAD).flags == NO_FLAGS.(chunked := true, close := true)
    ensures FramingOf(Seen(IMAGE_HEAD)) == Chunks
    ensures Seen(IMAGE_HEAD).httpMajor == 1 && Seen(IMAGE_HEAD).httpMinor == 1
  {
    hide NamesConnection, NamesLength, NamesEncoding, NamesUpgrade, IsWord, LowerAll, EntryText, Header, StatusLine,
      EntryOk, HeadersText;
    var hs := IMAGE_HEADERS;
    ConnectionEntry();
    TypeEntry();
    EncodingEntry();
    HeadLengths();
    ImageLine();
    var p := LineSeen(IMAGE_HEAD);
    assert hs[1..] == [hs[1], hs[2]] && hs[1..][1..] == [hs[2]] && [hs[2]][1..] == [];
    assert EntriesOk(hs);
    assert HeadersSeen(p, hs) == EntryRead(EntryRead(EntryRead(p, hs[0]), hs[1]), hs[2]);
  }

  /** The calls of the head, written out. */
  lemma ImageHeadCalls()
    ensures HeadCalls(IMAGE_HEAD) == [MessageBegin, StatusComplete,
                                      Data(Field, "Connection"), Data(Value, "close"),
                                      Data(Field, "Content-Type"), Data(Value, "image/jpeg"),
                                      Data(Field, "Transfer-Encoding"), Data(Value, "chunked"),
                                      HeadersComplete(200)]
  {
    hide Push, HeaderCalls, Entry.Whole;
    var hs := IMAGE_HEADERS;
    var t := [MessageBegin, StatusComplete];
    BeginCalls();
    NoFolds(hs[0]);
    NoFolds(hs[1]);
    NoFolds(hs[2]);
    var t1 := HeaderCall(t, hs);
    var t2 := HeaderCall(t1, hs[1..]);
    var t3 := HeaderCall(t2, hs[2..]);
    assert hs[1..][1..] == hs[2..] && hs[2..][1..] == [];
    NoHeaderCall(t3);
    PushApart(t3, HeadersComplete(200));
    DecimalOf200();
    assert AllDigits("200");
  }

  lemma BeginCalls()
    ensures StatusCalls([], CRLF) == [MessageBegin, StatusComplete]
  {
  }

  lemma PushApart(t: seq<Event>, e: Event)
    requires e.Data? ==> !EndsWith(t, e.part)
    ensures Push(t, e) == t + [e]
  {
  }

  lemma NoHeaderCall(t: seq<Event>)
    ensures HeaderCalls(t, []) == t
  {
  }

  lemma HeaderCall(t: seq<Event>, hs: seq<Entry>) returns (t1: seq<Event>)
    requires hs != [] && !EndsWith(t, Field)
    ensures t1 == t + [Data(Field, hs[0].name), Data(Value, hs[0].Whole())] && !EndsWith(t1, Field)
    ensures HeaderCalls(t, hs) == HeaderCalls(t1, hs[1..])
  {
    hide Push;
    PushApart(t, Data(Field, hs[0].name));
    PushApart(t + [Data(Field, hs[0].name)], Data(Value, hs[0].Whole()));
    t1 := t + [Data(Field, hs[0].name)] + [Data(Value, hs[0].Whole())];
  }

  /** From the first byte of the head to the zero chunk, cut in any way: the client's parser reports
      the head, exactly the image, and the end of the message; then the connection is dead, as
      "Connection: close" demands, and nothing sent after it is ever reported. */
  lemma ImageResponseRead(image: string, pieces: seq<string>, more: string)
    requires Flatten(pieces) == HeadText(IMAGE_HEAD) + Frames(image)
    ensures var d := FeedAll(START, pieces);
            && d.p.errno.Ok? && !d.left && d.p.state.Dead?
            && d.t == Push(BodyCalls(IMAGE_HEAD, image), MessageComplete)
            && Feed(d, more).t == d.t
  {
    hide Step, Push, Seen, HeadCalls, NewMessage, HeadText, HeadOk, ChunksOk, LastOk, LastText, Frames, LastSeen, Feed,
      FeedAll;
    ImageHeadSeen();
    FramesAreChunks(image);
    ZeroFrame();
    ResponseReported(IMAGE_HEAD, Chunked(ImageChunks(image), ZERO_CHUNK), pieces);
    assert HeaderCalls(BodyCalls(IMAGE_HEAD, image), []) == BodyCalls(IMAGE_HEAD, image);
    CloseIsDead(Seen(IMAGE_HEAD));
    DeadIsSilent(FeedAll(START, pieces), more);
  }

  lemma CloseIsDead(p: Parser)
    requires p.flags.close && p.httpMajor > 0 && p.httpMinor > 0
    ensures NewMessage(LastSeen(p, [])) == Dead
  {
    hide NeedsEof;
  }
}
