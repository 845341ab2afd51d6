/** Whole requests, alone and pipelined, under every fragmentation. */
module HttpRequest {
  import opened HttpTypes
  import opened HttpSwitch
  import opened HttpStep
  import opened HttpExecute
  import opened HttpHeaders
  import opened HttpValues
  import opened HttpHead
  import opened HttpMessage
  import opened HttpMethods
  import opened HttpUrl
  import opened HttpUrlAgree
  import opened HttpChunked
  import opened HttpFraming

  // ---------- the request line ----------

  /** Where a url may end: a host has begun. */
  predicate UrlMayEnd(s: State) {
    IsUrlState(s) && !s.ReqSchema? && !s.ReqSchemaSlash? && !s.ReqSchemaSlashSlash? && !s.ReqServerStart?
  }

  /** A url without blanks that the parser gets through to a place where it may end. */
  predicate IsUrl(url: string) { url != "" && NoBlanks(url) && UrlMayEnd(StateAfter(ReqSpacesBeforeUrl, url, |url|)) }

  datatype Line = Line(word: string, verb: Method, url: string, major: string, minor: string, end: string)

  /** A word that is taken for a method other than CONNECT, a url, and a version of at least 1. */
  predicate LineOk(l: Line) {
    && IsWordOf(l.word) && Fits(l.word, l.verb) && !l.verb.CONNECT? && IsUrl(l.url)
    && IsNumber(l.major) && l.major[0] != '0' && IsNumber(l.minor) && IsBreak(l.end)
  }

  function LineText(l: Line): string {
    l.word + " " + l.url + " H" + Version(l.major, l.minor) + l.end
  }

  /** The struct after a request line. */
  function LineSeen(p: Parser, l: Line): Parser
    requires LineOk(l)
  {
    Cleared(p).(nread := p.nread + |LineText(l)|, index := |l.word| + 1, verb := l.verb, state := HeaderFieldStart,
                httpMajor := Decimal(l.major), httpMinor := Decimal(l.minor))
  }

  lemma UrlEnds(c: Config)
    requires !c.left && Room(c.p, 1) && UrlMayEnd(c.p.state)
    ensures After(c, ' ') == c.(p := c.p.(nread := c.p.nread + 1, state := ReqHttpStart))
  {
    hide UrlChar, Dispatch, Switch;
    var p := Counted(c.p);
    UrlEndArm(p);
    DispatchOnce(p, ' ');
    AbsorbNothing(c.t);
  }

  lemma UrlEndArm(p: Parser)
    requires UrlMayEnd(p.state)
    ensures Switch(p, ' ') == Arm(p.(state := ReqHttpStart), Flushed(Url), Break)
  {
    hide UrlChar;
  }

  /** A url and the beginning of the version behind it. */
  lemma UrlRead(c: Config, url: string)
    requires !c.left && Room(c.p, |url| + 2) && c.p.state.ReqSpacesBeforeUrl? && !c.p.verb.CONNECT? && IsUrl(url)
    ensures Feed(c, url + " H")
         == Config(c.p.(nread := c.p.nread + |url| + 2, state := ReqHttpH), Push(c.t, Data(Url, url)), false)
  {
    hide Step, UrlChar, Push, StateAfter, Feed;
    UrlAgrees(c, url);
    var d := Feed(c, url);
    UrlEnds(d);
    LineMoves(After(d, ' '), 'H');
    FeedTwo(d, ' ', 'H');
    FeedConcat(c, url, " H");
  }

  /** A request line: the url is handed over as it stands, the method and the version are kept. */
  lemma RequestLineRead(c: Config, l: Line)
    requires !c.left && Room(c.p, |LineText(l)|) && c.p.state.StartReq? && LineOk(l)
    ensures Feed(c, LineText(l)) == Config(LineSeen(c.p, l), Push(Push(c.t, MessageBegin), Data(Url, l.url)), false)
  {
    hide Feed, Push, IsUrl, IsNumber, Version, IsBreak, Fits, IsWordOf, Cleared, Decimal;
    LineParts(l);
    ClearedKeeps(c.p);
    MethodRead(c, l.word, l.verb);
    var c1 := Feed(c, l.word + " ");
    UrlRead(c1, l.url);
    var c2 := Feed(c1, l.url + " H");
    VersionRead(c2, l.major, l.minor);
    LineBreak(Feed(c2, Version(l.major, l.minor)), l.end);
    FeedFour4(c, l.word + " ", l.url + " H", Version(l.major, l.minor), l.end);
  }

  lemma LineParts(l: Line)
    ensures LineText(l) == (l.word + " ") + (l.url + " H") + Version(l.major, l.minor) + l.end
    ensures |Version(l.major, l.minor)| == 5 + |l.major| + |l.minor|
  {
  }

  // ---------- a request ----------

  datatype Message = Message(line: Line, headers: seq<Entry>, blank: string, content: Content)

  /** What the request line and the headers have told the parser. */
  function Seen(m: Message): Parser
    requires LineOk(m.line) && EntriesOk(m.headers)
  {
    HeadersSeen(LineSeen(Init(Request), m.line), m.headers)
  }

  function HeadLength(m: Message): nat { |LineText(m.line)| + |HeadersText(m.headers)| + |m.blank| }

  /** A request whose headers announce its content and ask for no other protocol. */
  predicate MessageOk(m: Message) {
    && LineOk(m.line) && EntriesOk(m.headers) && IsBreak(m.blank)
    && !Seen(m).flags.upgrade && Announced(Seen(m), m.content)
  }

  function MessageText(m: Message): string {
    LineText(m.line) + (HeadersText(m.headers) + m.blank + ContentText(m.content))
  }

  /** The calls for one request after the calls `t`. */
  function MessageCalls(t: seq<Event>, m: Message): seq<Event> {
    ContentCalls(Push(HeaderCalls(Push(Push(t, MessageBegin), Data(Url, m.line.url)), m.headers), HeadersComplete(0)),
      m.content)
  }

  /** A parser of requests between two of them. */
  predicate Waiting(p: Parser) {
    p.errno.Ok? && p.kind.Request? && p.state.StartReq? && p.statusCode == 0 && !p.upgrade
  }

  /** What a request line leaves does not depend on the requests before it. */
  lemma SeenAfresh(p: Parser, m: Message)
    requires Waiting(p) && LineOk(m.line) && EntriesOk(m.headers)
    ensures SameButMatcher(HeadersSeen(LineSeen(p, m.line), m.headers), Seen(m))
    ensures Plain(Seen(m)) <==> !Seen(m).flags.upgrade
  {
    hide LineText, HeadersSeen, Decimal, EntryOk, IsUrl, Version, IsWordOf, Fits;
    SeenSame(LineSeen(p, m.line), LineSeen(Init(Request), m.line), m.headers);
    SeenKeeps(LineSeen(Init(Request), m.line), m.headers);
  }

  /** One request, from any parser that waits for one. */
  lemma MessageReported(c: Config, m: Message)
    requires !c.left && Waiting(c.p) && MessageOk(m) && c.p.nread + HeadLength(m) <= MAX_HEADER_SIZE
    ensures var d := Feed(c, MessageText(m));
            && d.t == MessageCalls(c.t, m) && d.p.errno.Ok? && !d.left
            && d.p.state == NewMessage(ContentSeen(Seen(m), m.content)) && d.p.nread == LeftCounted(m.content)
            && d.p.kind.Request? && d.p.statusCode == 0 && !d.p.upgrade && d.p.verb == m.line.verb
  {
    hide Feed, Push, LineOk, HeadersSeen, EntryOk, NewMessage, HeadersText, IsBreak, LastOk, ChunksOk, FramingOf,
      ContentText, ContentCalls, LastText, LineText, LineSeen;
    var q := LineSeen(c.p, m.line);
    RequestLineRead(c, m.line);
    LineKept(c.p, m.line);
    SeenAfresh(c.p, m);
    AnnouncedSame(HeadersSeen(q, m.headers), Seen(m), m.content);
    MessageRead(Feed(c, LineText(m.line)), m.headers, m.blank, m.content);
    FeedConcat(c, LineText(m.line), HeadersText(m.headers) + m.blank + ContentText(m.content));
  }

  lemma LineKept(p: Parser, l: Line)
    requires LineOk(l)
    ensures var q := LineSeen(p, l);
            && q.errno == p.errno && q.state.HeaderFieldStart? && q.nread == p.nread + |LineText(l)|
            && q.kind == p.kind && q.statusCode == p.statusCode && q.verb == l.verb
  { hide LineText, Decimal, IsUrl, Version, IsWordOf, Fits; }

  lemma AnnouncedSame(p: Parser, q: Parser, k: Content)
    requires SameButMatcher(p, q) && Announced(q, k)
    ensures Announced(p, k) && Plain(p) == Plain(q) && NewMessage(ContentSeen(p, k)) == NewMessage(ContentSeen(q, k))
  {
    hide NewMessage, HeadersSeen, LastOk, ChunksOk;
    NewMessageSame(p, q);
    if k.Chunked? { LastSame(p, q, k.last); }
  }

  // ---------- pipelined requests ----------

  /** Requests on one connection, of which each but the last lets it go on; `n` header bytes are counted already. */
  predicate PipelineOk(ms: seq<Message>, n: nat)
    decreases |ms|
  {
    ms == [] ||
    (&& MessageOk(ms[0]) && n + HeadLength(ms[0]) <= MAX_HEADER_SIZE
     && (|ms| > 1 ==> NewMessage(ContentSeen(Seen(ms[0]), ms[0].content)).StartReq?)
     && PipelineOk(ms[1..], LeftCounted(ms[0].content)))
  }

  function PipelineText(ms: seq<Message>): string {
    if ms == [] then "" else MessageText(ms[0]) + PipelineText(ms[1..])
  }

  function PipelineCalls(t: seq<Event>, ms: seq<Message>): seq<Event>
    decreases |ms|
  {
    if ms == [] then t else PipelineCalls(MessageCalls(t, ms[0]), ms[1..])
  }

  lemma {:induction false} PipelineRead(c: Config, ms: seq<Message>)
    requires !c.left && Waiting(c.p) && PipelineOk(ms, c.p.nread)
    ensures var d := Feed(c, PipelineText(ms));
            d.t == PipelineCalls(c.t, ms) && d.p.errno.Ok? && !d.left
    decreases |ms|
  {
    hide Feed, MessageOk, MessageText, MessageCalls, NewMessage, ContentSeen;
    if ms == [] {
      FedNothing(c);
    } else {
      MessageReported(c, ms[0]);
      var d := Feed(c, MessageText(ms[0]));
      FeedConcat(c, MessageText(ms[0]), PipelineText(ms[1..]));
      if |ms| == 1 { FedNothing(d); assert ms[1..] == []; } else { PipelineRead(d, ms[1..]); }
    }
  }

  /** Any number of requests, cut in any way: each is reported with its url, its headers, exactly its own body
      and its trailer, and completed once, in order. */
  lemma RequestsReported(ms: seq<Message>, pieces: seq<string>)
    requires PipelineOk(ms, 0) && Flatten(pieces) == PipelineText(ms)
    ensures var d := FeedAll(Config(Init(Request), [], false), pieces);
            d.t == PipelineCalls([], ms) && d.p.errno.Ok? && !d.left
  {
    hide Feed, FeedAll, PipelineOk, PipelineText, PipelineCalls;
    FeedAllFlatten(Config(Init(Request), [], false), pieces);
    PipelineRead(Config(Init(Request), [], false), ms);
  }
}
