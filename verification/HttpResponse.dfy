/** Whole responses under every fragmentation: what is reported of a response is a function of its
    status line, its headers and its body, and not of where the input was cut. */
module HttpResponse {
  import opened HttpTypes
  import opened HttpSwitch
  import opened HttpStep
  import opened HttpExecute
  import opened HttpValues
  import opened HttpHead
  import opened HttpMessage
  import opened HttpChunked
  import opened HttpFraming

  datatype Head = Head(major: string, minor: string, code: string, reason: string, end: string,
                       headers: seq<Entry>, blank: string)

  predicate HeadOk(h: Head) {
    && IsNumber(h.major) && IsNumber(h.minor) && IsNumber(h.code) && IsReason(h.reason) && IsBreak(h.end)
    && EntriesOk(h.headers) && IsBreak(h.blank) && |HeadText(h)| <= MAX_HEADER_SIZE
  }

  function FirstLine(h: Head): string { StatusLine(h.major, h.minor, h.code, h.reason, h.end) }

  function HeadText(h: Head): string { FirstLine(h) + (HeadersText(h.headers) + h.blank) }

  function LineSeen(h: Head): Parser
    requires HeadOk(h)
  {
    StatusRead(Init(Response), h.major, h.minor, h.code, |FirstLine(h)|)
  }

  /** What the headers have told the parser at the blank line. */
  function Seen(h: Head): Parser
    requires HeadOk(h)
  {
    HeadersSeen(LineSeen(h), h.headers)
  }

  function CodeOf(h: Head): nat { if AllDigits(h.code) then Decimal(h.code) else 0 }

  /** The calls up to and including headers_complete. */
  function HeadCalls(h: Head): seq<Event> {
    Push(HeaderCalls(StatusCalls([], h.end), h.headers), HeadersComplete(CodeOf(h)))
  }

  const START := Config(Init(Response), [], false)

  lemma HeadRead(h: Head)
    requires HeadOk(h) && !Seen(h).flags.upgrade
    ensures var q := Seen(h);
            var d := Feed(START, HeadText(h));
            && d.t == Absorb(HeadCalls(h), FramedCalls(q)) && !d.left
            && d.p.state == Framed(q) && d.p.nread == 0
            && SameButMatcher(q, d.p) && d.p.errno.Ok?
  {
    hide Feed, Push, Absorb, Decimal, HeadersSeen, EntryOk, NewMessage, Framed, FramedCalls, StatusLine, HeadersText,
      IsBreak, IsNumber, IsReason, StatusCalls;
    StatusLineRead(START, h.major, h.minor, h.code, h.reason, h.end);
    LineIsPlain(h);
    SeenKeeps(LineSeen(h), h.headers);
    SeenAside(LineSeen(h), h.headers);
    HeadRest(Feed(START, FirstLine(h)), h.headers, h.blank);
    FeedConcat(START, FirstLine(h), HeadersText(h.headers) + h.blank);
  }

  lemma LineIsPlain(h: Head)
    requires HeadOk(h)
    ensures var p := LineSeen(h);
            p.flags == NO_FLAGS && !p.upgrade && p.errno.Ok? && p.verb == DELETE && p.nread == |FirstLine(h)|
            && p.state.HeaderFieldStart? && p.statusCode == CodeOf(h)
    ensures |HeadText(h)| == |FirstLine(h)| + |HeadersText(h.headers)| + |h.blank|
  { hide Decimal, StatusLine, EntryOk, HeadersText; }

  /** The calls of a whole response with a body. */
  function BodyCalls(h: Head, body: string): seq<Event> {
    if body == "" then HeadCalls(h) else Push(HeadCalls(h), Data(Body, body))
  }

  /** A response whose body has a length or comes in chunks: however it is cut, exactly its body is handed
      over, in order and nothing else, then the trailer, and then the message is completed, once. */
  lemma ResponseReported(h: Head, k: Content, pieces: seq<string>)
    requires HeadOk(h) && !Seen(h).flags.upgrade && Announced(Seen(h), k)
    requires Flatten(pieces) == HeadText(h) + ContentText(k)
    ensures var d := FeedAll(START, pieces);
            && d.p.errno.Ok? && !d.left && d.p.state == NewMessage(ContentSeen(Seen(h), k))
            && d.t == ContentCalls(HeadCalls(h), k)
  {
    hide Feed, FeedAll, Push, Absorb, HeadersSeen, EntryOk, NewMessage, Framed, FramedCalls, HeadText, IsBreak,
      IsNumber, IsReason, LastOk, ChunksOk, FramingOf, ContentText, ContentCalls, LastText, HeadCalls;
    FeedAllFlatten(START, pieces);
    FeedConcat(START, HeadText(h), ContentText(k));
    HeadRead(h);
    var d := Feed(START, HeadText(h));
    SeenKeeps(LineSeen(h), h.headers);
    ContentRead(d.(t := HeadCalls(h)), Seen(h), k);
  }

  /** A response without a length: everything that follows is body, and only the end of the
      connection can complete the message. */
  lemma EofResponse(h: Head, body: string, pieces: seq<string>)
    requires HeadOk(h) && !Seen(h).flags.upgrade && FramingOf(Seen(h)).ToEof?
    requires Flatten(pieces) == HeadText(h) + body
    ensures var d := FeedAll(START, pieces);
            d.p.errno.Ok? && !d.left && d.p.state.BodyIdentityEof? && d.t == BodyCalls(h, body)
  {
    hide Feed, FeedAll, Push, Seen, HeadCalls, NewMessage, HeadText, HeadOk;
    FeedAllFlatten(START, pieces);
    FeedConcat(START, HeadText(h), body);
    HeadRead(h);
    AbsorbNothing(HeadCalls(h));
    var d := Feed(START, HeadText(h));
    if body == "" { FedNothing(d); } else { BodyRun(d, body); }
  }
}
