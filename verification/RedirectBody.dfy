/** A run in which what is cached for a path is not the body of the response that was accepted: a redirect with a
    body of its own leaves it in the stream that the next response is collected into. */
module RedirectBody {
  import opened Bytes
  import opened HttpTypes
  import opened HttpSwitch
  import opened HttpStep
  import opened HttpHeaders
  import opened HttpValues
  import opened HttpHead
  import opened HttpMessage
  import opened HttpFraming
  import opened HttpResponse
  import HttpRequest
  import opened HttpUrl
  import opened HttpUrlPrint
  import opened HttpLocation
  import opened HttpCollect
  import opened MemoryStream
  import opened ImageResponse
  import opened ResponseBuilder
  import opened Connection

  const INFO := PageInfo(1, 1, 0)
  const PATH: string := "/ab"
  const ASKED := HttpRequest.Message(HttpRequest.Line("GET", GET, "/ab", "1", "1", "\r\n"), [], "\r\n", Sized(""))
  const HOST := Server("", false, "h", "")
  const MOVED: string := Before("http", HOST) + Suffix(REQUEST_PREFIX + "/ab", "", "")
  const REDIRECT := Head("1", "1", "302", " Found", "\r\n", [Entry("Location", " ", MOVED, "\r\n")], "\r\n")
  const IMAGE := Head("1", "1", "200", " OK", "\r\n", [Entry("Content-Length", " ", "1", "\r\n")], "\r\n")

  // ---------- the three messages ----------

  lemma UrlAsked()
    ensures HttpRequest.IsUrl(PATH)
  {
    assert IsUrlChar('a') && IsUrlChar('b');
    assert StateAfter(ReqSpacesBeforeUrl, PATH, 0) == ReqSpacesBeforeUrl;
    assert StateAfter(ReqSpacesBeforeUrl, PATH, 1) == ReqPath;
    assert StateAfter(ReqSpacesBeforeUrl, PATH, 2) == ReqPath;
    assert StateAfter(ReqSpacesBeforeUrl, PATH, 3) == ReqPath;
  }

  lemma LineAsked()
    ensures HttpRequest.LineOk(ASKED.line) && IsBreak(ASKED.blank)
  {
    hide HttpRequest.IsUrl, IsNumber;
    UrlAsked();
    ImageLine();
    assert MethodString(GET) == "GET";
  }

  lemma AskedOk()
    ensures HttpRequest.MessageOk(ASKED) && HttpRequest.HeadLength(ASKED) <= MAX_HEADER_SIZE
  {
    hide HttpRequest.LineOk, IsBreak;
    LineAsked();
  }

  lemma MovedOk()
    ensures MOVED == "http://h/webhdfs/v1/ab"
  {
    assert Authority(HOST) == "h";
    assert Before("http", HOST) == "http://h";
    assert Suffix(REQUEST_PREFIX + "/ab", "", "") == "/webhdfs/v1/ab";
  }

  lemma MovedParts()
    ensures SchemaOk("http") && ServerOk(HOST) && SuffixOk(HttpTypes.ReqServer, REQUEST_PREFIX + "/ab", "", "")
  {
  }

  lemma MovedValue()
    ensures IsValue(MOVED) && |MOVED| == 22
  {
    MovedOk();
    hide Before, Suffix;
  }

  lemma LocationTokens()
    ensures AllTokens("Location") && AllBlank(" ") && IsBreak("\r\n")
  {
  }

  lemma LocationEntry()
    ensures EntryOk(REDIRECT.headers[0]) && !NamesLength("Location")
    ensures !NamesConnection("Location") && !NamesEncoding("Location") && !NamesUpgrade("Location")
  {
    hide Before, Suffix, Authority, IsValue, LowerAll;
    MovedValue();
    LocationTokens();
    LowerDiffers("Location", "connection", 0);
    LowerDiffers("Location", "proxy-connection", 0);
    LowerDiffers("Location", "content-length", 0);
    LowerDiffers("Location", "transfer-encoding", 0);
    LowerDiffers("Location", "upgrade", 0);
  }

  lemma Codes()
    ensures IsNumber("302") && IsNumber("200") && IsNumber("1") && Decimal("302") == 302 && Decimal("200") == 200
  {
    ImageLine();
    DecimalOf200();
    assert "302"[..2] == "30" && "30"[..1] == "3" && "3"[..0] == "";
    assert Decimal("3") == 3;
    assert Decimal("30") == 30;
  }

  lemma OneHeader(e: Entry)
    ensures HeadersText([e]) == EntryText(e)
    ensures EntryOk(e) ==> EntriesOk([e]) && forall p: Parser :: HeadersSeen(p, [e]) == EntryRead(p, e)
  {
    hide EntryText, EntryOk, EntryRead;
    assert [e][1..] == [] && EntryText(e) + "" == EntryText(e);
    if EntryOk(e) {
      forall p: Parser ensures HeadersSeen(p, [e]) == EntryRead(p, e) {
        assert HeadersSeen(p, [e]) == HeadersSeen(EntryRead(p, e), []);
      }
    }
  }

  lemma RedirectSeen()
    ensures HeadOk(REDIRECT) && !Seen(REDIRECT).flags.upgrade && FramingOf(Seen(REDIRECT)).ToEof?
            && CodeOf(REDIRECT) == 302
  {
    hide EntryOk, EntryText, NamesConnection, NamesLength, NamesEncoding, NamesUpgrade, IsWord, LowerAll, Decimal,
      Spaced, Before, Suffix, HeadersText, StatusLine;
    Codes();
    LocationEntry();
    OneHeader(REDIRECT.headers[0]);
    RedirectLengths();
    assert IsReason(" Found") && IsBreak("\r\n");
    assert REDIRECT.headers == [REDIRECT.headers[0]];
  }

  lemma RedirectLengths()
    ensures |FirstLine(REDIRECT)| == 20 && |EntryText(REDIRECT.headers[0])| <= 100
  {
    MovedOk();
    hide Before, Suffix;
  }

  lemma ImageSeen()
    ensures HeadOk(IMAGE) && !Seen(IMAGE).flags.upgrade && FramingOf(Seen(IMAGE)) == ByLength(1) && CodeOf(IMAGE) == 200
  {
    hide EntryOk, EntryText, NamesLength, IsWord, LowerAll, Decimal, Spaced, HeadersText, StatusLine, AllBlank;
    Codes();
    assert Digits(1) == "1";
    assert AllBlank(" ") && IsBreak("\r\n") by { JsonBlanks(); }
    LengthEntry(" ", 1, "\r\n");
    OneHeader(IMAGE.headers[0]);
    ImageLengths();
    assert IsReason(" OK");
    assert IMAGE.headers == [IMAGE.headers[0]];
  }

  lemma ImageLengths()
    ensures |FirstLine(IMAGE)| == 17 && |EntryText(IMAGE.headers[0])| <= 100
  {
  }

  // ---------- what is read of them ----------

  const FIRST: string := HeadText(REDIRECT) + "X"
  const SECOND: string := HeadText(IMAGE) + "Y"

  lemma OnePiece(data: string)
    ensures Flatten([data]) == data && FeedAll(START, [data]) == Feed(START, data)
    ensures FedAll(START, [data]) == Feed(START, data).(left := false)
  {
    hide Feed;
    assert [data][1..] == [] && data + [] == data;
  }

  lemma Read(cfg: Config, base: Collected, data: string)
    requires Sound(base) && !Stopped(cfg) && !Stopped(Feed(cfg, data))
    ensures Parse(cfg, base, data) == Parsed(true, Feed(cfg, data), Apply(base, Feed(cfg, data).t))
  {
    hide Feed, Apply, Sound;
    ConsumedExactly(cfg, data);
  }

  /** The redirect: its Location, and its body in the stream. */
  lemma FirstRead()
    ensures Sound(Fresh(EMPTY)) && FedAll(START, [FIRST]).t == BodyCalls(REDIRECT, "X")
    ensures var r := Parse(START, Fresh(EMPTY), FIRST);
            && r.valid && r.cfg == FedAll(START, [FIRST])
            && r.got.headersComplete && r.got.statusCode == 302 && r.got.content == Flat("X", 1, true)
            && GetHeader(r.got, "Location") == Found(MOVED)
  {
    hide Feed, FeedAll, HeadText, Seen, HeadOk, HeadCalls, FramingOf, Push, Sound, Find, Before, Suffix, Parse, Apply;
    RedirectSeen();
    OnePiece(FIRST);
    EofResponse(REDIRECT, "X", [FIRST]);
    HeadersCollected(EMPTY, REDIRECT, "Location");
    Read(START, Fresh(EMPTY), FIRST);
    ApplyPush(Fresh(EMPTY), HeadCalls(REDIRECT), Data(Body, "X"));
    BodyAside(Apply(Fresh(EMPTY), HeadCalls(REDIRECT)), "X", "Location");
    LocationFound();
  }

  lemma LocationFound()
    ensures FirstMatch(REDIRECT.headers, "Location", 0) == Found(MOVED)
  {
    MovedOk();
    hide Before, Suffix, LowerAll;
  }

  /** A body goes to the stream and nowhere else. */
  lemma BodyAside(c: Collected, s: string, name: string)
    requires Sound(c)
    ensures Sound(Called(c, Data(Body, s)))
    ensures Called(c, Data(Body, s)) == c.(content := c.content.Write(s).0)
    ensures GetHeader(Called(c, Data(Body, s)), name) == GetHeader(c, name)
  {
    hide Find;
  }

  /** The image: complete, but its body does not get into a stream that holds something already. */
  lemma SecondRead()
    ensures Sound(Fresh(Flat("X", 0, true))) && BodyText(FedAll(START, [SECOND]).t) == "Y"
    ensures var r := Parse(START, Fresh(Flat("X", 0, true)), SECOND);
            && r.valid && r.cfg == FedAll(START, [SECOND])
            && r.got.headersComplete && r.got.messageComplete && r.got.statusCode == 200 && r.got.content.bytes == "X"
  {
    hide Feed, FeedAll, FedAll, HeadText, Seen, HeadOk, HeadCalls, FramingOf, Push, Sound, Find, Parse, Apply,
      NewMessage, BodyText;
    var base := Fresh(Flat("X", 0, true));
    ImageSeen();
    OnePiece(SECOND);
    ResponseReported(IMAGE, Sized("Y"), [SECOND]);
    BodyIsKept(IMAGE, Sized("Y"), [SECOND]);
    HeadersCollected(base.content, IMAGE, "Location");
    Read(START, base, SECOND);
    var c := Apply(base, HeadCalls(IMAGE));
    ApplyPush(base, HeadCalls(IMAGE), Data(Body, "Y"));
    BodyAside(c, "Y", "Location");
    ApplyPush(base, BodyCalls(IMAGE, "Y"), MessageComplete);
    assert HeaderCalls(BodyCalls(IMAGE, "Y"), []) == BodyCalls(IMAGE, "Y");
  }

  const REQUEST: string := HttpRequest.MessageText(ASKED)

  lemma PathAsked()
    ensures RequestPath(PATH) == PATH
  {
    assert IsUrlChar('a') && IsUrlChar('b') && PathOk(PATH) && SuffixOk(ReqSpacesBeforeUrl, PATH, "", "");
    OriginFormRead(PATH, "", "");
    assert Suffix(PATH, "", "") == PATH;
    assert PATH[0..3] == PATH;
  }

  /** The request: a GET for the path. */
  lemma RequestIsRead()
    ensures Sound(Fresh(EMPTY))
    ensures var r := Parse(UNREAD, Fresh(EMPTY), REQUEST);
            && r.valid && r.cfg.p.verb.GET? && r.got.headersComplete && r.got.url == PATH && r.got.content == EMPTY
  {
    hide Feed, HttpRequest.MessageOk, HttpRequest.MessageText, HttpRequest.HeadLength, Parse, Apply, NewMessage,
      HttpRequest.Seen, ContentSeen, Push, HeaderCalls, Sound, HttpRequest.MessageCalls;
    AskedOk();
    HttpRequest.MessageReported(UNREAD, ASKED);
    BeginHeld(EMPTY, [], CRLF);
    Read(UNREAD, Fresh(EMPTY), REQUEST);
    RequestCalls();
    var c := Fresh(EMPTY);
    var t := [MessageBegin, Data(Url, PATH), HeadersComplete(0)];
    ApplyPush(c, t, MessageComplete);
    ApplyPush(c, [MessageBegin, Data(Url, PATH)], HeadersComplete(0));
    ApplyPush(c, [MessageBegin], Data(Url, PATH));
    ApplyOne(c, MessageBegin);
    PushApart([MessageBegin], Data(Url, PATH));
    PushApart([MessageBegin, Data(Url, PATH)], HeadersComplete(0));
    assert [MessageBegin] + [Data(Url, PATH)] == [MessageBegin, Data(Url, PATH)];
    assert [MessageBegin, Data(Url, PATH)] + [HeadersComplete(0)] == t;
    assert "" + PATH == PATH;
  }

  lemma RequestCalls()
    ensures HttpRequest.MessageCalls([], ASKED)
            == Push([MessageBegin, Data(Url, PATH), HeadersComplete(0)], MessageComplete)
  {
    hide Push;
    NoHeaderCall([MessageBegin, Data(Url, PATH)]);
    NoHeaderCall([MessageBegin, Data(Url, PATH), HeadersComplete(0)]);
    PushApart([], MessageBegin);
    PushApart([MessageBegin], Data(Url, PATH));
    PushApart([MessageBegin, Data(Url, PATH)], HeadersComplete(0));
    assert [] + [MessageBegin] == [MessageBegin]
           && [MessageBegin] + [Data(Url, PATH)] == [MessageBegin, Data(Url, PATH)];
    assert [MessageBegin, Data(Url, PATH)] + [HeadersComplete(0)]
           == [MessageBegin, Data(Url, PATH), HeadersComplete(0)];
  }

  // ---------- the run ----------

  const FETCH := [Resolved(true, 1), Connected(true, 0), RequestWritten(true)]

  const ACTS := [RequestRead(NoError, REQUEST, false, NoDoc)] + FETCH + [ResponseRead(NoError, FIRST, NoDoc)] + FETCH
                + [ResponseRead(NoError, SECOND, Page(true, INFO))]

  lemma {:induction false} RunConcat(c: Conn, a: seq<Action>, b: seq<Action>)
    requires Inv(c)
    ensures Run(c, a + b) == Run(Run(c, a), b)
    decreases |a|
  {
    hide Inv, Act;
    if a == [] {
      assert a + b == b;
    } else {
      assert (a + b)[1..] == a[1..] + b;
      ActKeeps(c, a[0]);
      RunConcat(Act(c, a[0]), a[1..], b);
    }
  }

  lemma RunOne(c: Conn, a: Action)
    requires Inv(c)
    ensures Inv(Act(c, a)) && Run(c, [a]) == Act(c, a)
  {
    hide Inv, Act;
    ActKeeps(c, a);
    assert [a][1..] == [];
  }

  lemma Switched(c: Conn, k: Cont, next: Cont)
    requires c.pending == multiset{k}
    ensures Connection.Start(Finish(c, k), next) == c.(pending := multiset{next})
  {
    assert multiset{k} - multiset{k} == multiset{};
  }

  /** Resolving, connecting and asking all go well. */
  lemma FetchRun(c: Conn)
    requires Inv(c) && c.pending == multiset{Resolve}
    ensures Run(c, FETCH) == c.(pending := multiset{ReadResponse}, cfg := START, base := Fresh(c.got.content),
                                got := Fresh(c.got.content), received := [])
  {
    hide Inv, Run, Connection.Start, Finish, HandleRequest, HandleResponse, HandleWritten, SendResponse, Fresh, Sound;
    InvSound(c);
    RunOne(c, Resolved(true, 1));
    Switched(c, Resolve, Connect(0));
    var c1 := Act(c, Resolved(true, 1));
    InvSound(c1);
    RunOne(c1, Connected(true, 0));
    Switched(c1, Connect(0), WriteRequest);
    var c2 := Act(c1, Connected(true, 0));
    InvSound(c2);
    RunOne(c2, RequestWritten(true));
    Written(c2);
    RunConcat(c, [Resolved(true, 1)], [Connected(true, 0)]);
    RunConcat(c, [Resolved(true, 1)] + [Connected(true, 0)], [RequestWritten(true)]);
    assert [Resolved(true, 1)] + [Connected(true, 0)] + [RequestWritten(true)] == FETCH;
  }

  lemma Written(c: Conn)
    requires c.pending == multiset{WriteRequest}
    ensures Connection.Start(Finish(c, WriteRequest).(cfg := START, base := Fresh(c.got.content),
                                                      got := Fresh(c.got.content), received := []),
                             ReadResponse)
         == c.(pending := multiset{ReadResponse}, cfg := START, base := Fresh(c.got.content),
            got := Fresh(c.got.content), received := [])
  {
    hide Fresh;
    assert multiset{WriteRequest} - multiset{WriteRequest} == multiset{};
  }

  /** What matters of the connection while it fetches. */
  predicate Fetching(c: Conn, bytes: string, fetched: seq<seq<string>>) {
    && c.image.Image? && c.image.stream.bytes == bytes && c.image.stream.pos == 0 && c.image.stream.good
       && c.got.content == c.image.stream
    && c.imagePath == PATH && !c.json && c.fetched == fetched && c.puts == [] && c.requested == PATH
  }

  lemma Begun(peer: Peer)
    requires Inv(Started(peer, map[]))
    ensures var c := Act(Started(peer, map[]), RequestRead(NoError, REQUEST, false, NoDoc));
            Inv(c) && c.pending == multiset{Resolve} && Fetching(c, "", [])
  {
    hide Inv, HttpRequest.MessageText, Parse, RequestPath, Apply, Sound, HandleResponse, HandleWritten, SendResponse,
      SendPage, Fresh;
    var c := Started(peer, map[]);
    var a := RequestRead(NoError, REQUEST, false, NoDoc);
    InvSound(c);
    ActKeeps(c, a);
    RequestIsRead();
    PathAsked();
    NotFavicon();
    assert multiset{ReadRequest} - multiset{ReadRequest} == multiset{};
  }

  lemma NotFavicon()
    ensures LowerAll(PATH) != FAVICON
  {
    LowerDiffers(PATH, FAVICON, 0);
  }

  lemma Redirects302(peer: Peer)
    ensures Connection.Located(MOVED, peer) == (true, Peer("h", "80", PATH))
  {
    hide ParseSpec, Before, Suffix, SuffixOk;
    MovedParts();
    RedirectIsFollowed("http", HOST, PATH, "", "");
  }

  /** The redirect is followed, with its body in the stream. */
  lemma Moved(c: Conn)
    requires Inv(c) && c.pending == multiset{ReadResponse} && c.cfg == START && c.received == []
    requires c.image == Image(EMPTY) && Fetching(c.(got := Fresh(EMPTY)), "", []) && c.base == c.got == Fresh(EMPTY)
    ensures var d := Act(c, ResponseRead(NoError, FIRST, NoDoc));
            Inv(d) && d.pending == multiset{Resolve} && Fetching(d, "X", [[FIRST]])
  {
    hide Inv, Parse, FedAll, HeadText, Apply, Sound, HandleRequest, HandleWritten, SendResponse, SendPage, Fresh,
      GetHeader, Connection.Located, Before, Suffix;
    var a := ResponseRead(NoError, FIRST, NoDoc);
    InvSound(c);
    ActKeeps(c, a);
    FirstRead();
    Redirects302(c.peer);
    NotFavicon();
    assert multiset{ReadResponse} - multiset{ReadResponse} == multiset{};
    assert [] + [FIRST] == [FIRST] && [] + [[FIRST]] == [[FIRST]];
  }

  /** The image is complete and cached, and what is cached is the body of the redirect. */
  lemma Cached200(c: Conn)
    requires Inv(c) && c.pending == multiset{ReadResponse} && c.cfg == START && c.received == []
    requires Fetching(c.(got := Fresh(Flat("X", 0, true))), "X", [[FIRST]])
             && c.base == c.got == Fresh(Flat("X", 0, true))
    ensures Act(c, ResponseRead(NoError, SECOND, Page(true, INFO))).puts
         == [Put(PATH, "X", false, [[FIRST]], [SECOND], 200, true)]
  {
    hide Inv, Parse, FedAll, HeadText, Apply, Sound, HandleRequest, HandleWritten, SendResponse, SendRequest, Fresh,
      GetHeader, Connection.Located, Before, Suffix;
    InvSound(c);
    SecondRead();
    assert [] + [SECOND] == [SECOND];
  }

  /** A GET that is redirected by a response with the body "X" and then answered with the body "Y": "X" is what
      goes into the cache, as the image for the path. */
  lemma RedirectBodyIsCached(peer: Peer)
    ensures Inv(Started(peer, map[]))
    ensures Run(Started(peer, map[]), ACTS).puts == [Put(PATH, "X", false, [[FIRST]], [SECOND], 200, true)]
    ensures BodyText(FedAll(START, [SECOND]).t) == "Y"
  {
    hide Inv, Act, Run, Started, Fresh, BodyText, HeadText, FedAll, HttpRequest.MessageText;
    StartedOk(peer, map[]);
    SecondRead();
    var c0 := Started(peer, map[]);
    var a, b, d := RequestRead(NoError, REQUEST, false, NoDoc), ResponseRead(NoError, FIRST, NoDoc),
                   ResponseRead(NoError, SECOND, Page(true, INFO));
    Begun(peer);
    RunOne(c0, a);
    var c1 := Act(c0, a);
    FetchRun(c1);
    FetchedFresh(c1, "", []);
    var c2 := Run(c1, FETCH);
    Moved(c2);
    RunOne(c2, b);
    var c3 := Act(c2, b);
    FetchRun(c3);
    FetchedFresh(c3, "X", [[FIRST]]);
    var c4 := Run(c3, FETCH);
    Cached200(c4);
    RunOne(c4, d);
    RunConcat(c0, [a], FETCH);
    RunConcat(c0, [a] + FETCH, [b]);
    RunConcat(c0, [a] + FETCH + [b], FETCH);
    RunConcat(c0, [a] + FETCH + [b] + FETCH, [d]);
  }

  lemma FetchedFresh(c: Conn, bytes: string, fetched: seq<seq<string>>)
    requires Fetching(c, bytes, fetched)
    ensures c.got.content == Flat(bytes, 0, true) && Fresh(c.got.content).content == c.got.content
    ensures bytes == "" ==> c.image == Image(EMPTY)
  {
  }
}
