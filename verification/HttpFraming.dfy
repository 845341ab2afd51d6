/** What follows the first line of a message, request or response: headers, the blank line and the
    content they announce (sections 4.2 to 4.4 of RFC 2616). */
module HttpFraming {
  import opened HttpTypes
  import opened HttpSwitch
  import opened HttpStep
  import opened HttpExecute
  import opened HttpHeaders
  import opened HttpValues
  import opened HttpHead
  import opened HttpMessage
  import opened HttpChunked

  /** What stands behind the blank line of a message that ends by itself. */
  datatype Content = Sized(body: string) | Chunked(chunks: seq<Chunk>, last: Last)

  /** The content is what the head announced. */
  predicate Announced(q: Parser, k: Content) {
    match k
    case Sized(body) => FramingOf(q) == ByLength(|body|) || (FramingOf(q).Empty? && body == "")
    case Chunked(ks, last) => FramingOf(q).Chunks? && ChunksOk(ks) && LastOk(last)
  }

  function ContentText(k: Content): string {
    match k
    case Sized(body) => body
    case Chunked(ks, last) => ChunksText(ks) + LastText(last)
  }

  function ContentBody(k: Content): string {
    match k case Sized(body) => body case Chunked(ks, last) => ChunksData(ks)
  }

  function TrailerOf(k: Content): seq<Entry> {
    match k case Sized(body) => [] case Chunked(ks, last) => last.trailer
  }

  /** The calls for a content: its body if it has one, its trailer, and once that it is complete. */
  function ContentCalls(t: seq<Event>, k: Content): seq<Event> {
    Push(HeaderCalls(if ContentBody(k) == "" then t else Push(t, Data(Body, ContentBody(k))), TrailerOf(k)),
      MessageComplete)
  }

  /** All that the headers and the trailer have told the parser. */
  function ContentSeen(q: Parser, k: Content): Parser
    requires Announced(q, k)
  {
    match k case Sized(body) => q case Chunked(ks, last) => LastSeen(q, last.trailer)
  }

  /** The header bytes counted against the next message. */
  function LeftCounted(k: Content): nat {
    match k case Sized(body) => 0 case Chunked(ks, last) => |HeadersText(last.trailer)| + |last.blank|
  }

  /** A list of headers and the blank line, from the start of any line. */
  lemma HeadRest(c: Config, hs: seq<Entry>, blank: string)
    requires !c.left && LineStart(c.p.state) && Room(c.p, |HeadersText(hs)| + |blank|)
    requires EntriesOk(hs) && IsBreak(blank) && Plain(HeadersSeen(c.p, hs))
    ensures var q := HeadersSeen(c.p, hs);
            var d := Feed(c, HeadersText(hs) + blank);
            && d.t == Absorb(Push(HeaderCalls(c.t, hs), HeadersComplete(c.p.statusCode)), FramedCalls(q)) && !d.left
            && d.p.state == Framed(q) && d.p.nread == 0 && d.p.errno.Ok?
            && SameButMatcher(q.(upgrade := false), d.p)
  {
    hide Feed, Push, Absorb, HeadersSeen, EntryOk, NewMessage, Framed, FramedCalls, HeadersText, IsBreak;
    HeadersRead(c, hs);
    SeenKeeps(c.p, hs);
    SeenAside(c.p, hs);
    var d := Feed(c, HeadersText(hs));
    HeadEnds(d, blank);
    FramedSame(d.p.(nread := 0, upgrade := false), HeadersSeen(c.p, hs));
    FeedConcat(c, HeadersText(hs), blank);
  }

  /** Content of a known size. */
  lemma SizedRead(c: Config, q: Parser, k: Content)
    requires !c.left && c.p.errno.Ok? && k.Sized? && Announced(q, k)
    requires c.p.state == Framed(q) && c.p.nread == 0 && SameButMatcher(q, c.p)
    ensures var t := c.t;
            var d := Feed(c.(t := Absorb(t, FramedCalls(q))), k.body);
            && d.t == ContentCalls(t, k) && d.p.errno.Ok? && !d.left
            && d.p.state == NewMessage(q) && d.p.nread == 0
            && SameVerdict(q, d.p.(contentLength := q.contentLength)) && d.p.upgrade == c.p.upgrade
               && d.p.verb == q.verb
  {
    hide Push, NewMessage, Feed, Absorb;
    var c' := c.(t := Absorb(c.t, FramedCalls(q)));
    if k.body == "" {
      Absorb1(c.t, MessageComplete);
      FedNothing(c');
    } else {
      AbsorbNothing(c.t);
      BodyRunToEnd(c', k.body);
      NewMessageAside(q, c.p);
    }
  }

  lemma FedNothing(c: Config)
    ensures Feed(c, "") == c
  {
  }

  /** What becomes of the connection does not depend on how much of a body is left. */
  lemma NewMessageAside(p: Parser, q: Parser)
    requires SameVerdict(p, q) && p.contentLength != ULLONG_MAX
    ensures NewMessage(q.(contentLength := 0, state := MessageDone)) == NewMessage(p)
  {
  }

  /** Content as announced, right behind the head. */
  lemma ContentRead(c: Config, q: Parser, k: Content)
    requires !c.left && c.p.errno.Ok? && Announced(q, k) && !q.flags.trailing
    requires c.p.state == Framed(q) && c.p.nread == 0 && SameButMatcher(q, c.p)
    ensures var d := Feed(c.(t := Absorb(c.t, FramedCalls(q))), ContentText(k));
            && d.t == ContentCalls(c.t, k) && d.p.errno.Ok? && !d.left
            && d.p.state == NewMessage(ContentSeen(q, k)) && d.p.nread == LeftCounted(k)
            && d.p.kind == q.kind && d.p.statusCode == q.statusCode && d.p.upgrade == q.upgrade && d.p.verb == q.verb
  {
    hide Push, NewMessage, Feed, Absorb, ChunksOk, LastOk, HeadersSeen, LastText, ChunksText;
    if k.Sized? {
      SizedRead(c, q, k);
    } else {
      AbsorbNothing(c.t);
      ChunkedBodyRead(c, k.chunks, k.last);
      LastSame(q, c.p, k.last);
      LastEntries(k.last);
      SeenAside(q.(contentLength := 0, flags := q.flags.(trailing := true)), k.last.trailer);
      NoData(k.chunks);
    }
  }

  lemma LastEntries(l: Last)
    requires LastOk(l)
    ensures EntriesOk(l.trailer)
  {
  }

  /** A list of good chunks carries data exactly if it is not empty. */
  lemma NoData(ks: seq<Chunk>)
    requires ChunksOk(ks)
    ensures ks == [] <==> ChunksData(ks) == ""
  {
  }

  /** Headers touch neither of these. */
  lemma {:induction false} SeenAside(p: Parser, hs: seq<Entry>)
    requires EntriesOk(hs)
    ensures var q := HeadersSeen(p, hs);
            && q.kind == p.kind && q.statusCode == p.statusCode && q.upgrade == p.upgrade && q.nread == p.nread
            && q.verb == p.verb
    decreases |hs|
  {
    hide Spaced, LineFlags, EntryOk;
    if hs != [] { SeenAside(EntryRead(p, hs[0]), hs[1..]); }
  }

  lemma LastSame(p: Parser, q: Parser, l: Last)
    requires SameButMatcher(p, q) && LastOk(l)
    ensures NewMessage(LastSeen(p, l.trailer)) == NewMessage(LastSeen(q, l.trailer))
    ensures SameButMatcher(LastSeen(p, l.trailer), LastSeen(q, l.trailer))
  {
    hide HeadersSeen, NewMessage, EntryOk, HexValue, AllHex;
    var p0 := p.(contentLength := 0, flags := p.flags.(trailing := true));
    var q0 := q.(contentLength := 0, flags := q.flags.(trailing := true));
    SeenSame(p0, q0, l.trailer);
    NewMessageSame(LastSeen(p, l.trailer), LastSeen(q, l.trailer));
  }

  /** The rest of a message, request or response, behind its first line: the headers as they stand, one
      headers_complete, the announced body and nothing else, the trailer, and one message_complete. */
  lemma MessageRead(c: Config, hs: seq<Entry>, blank: string, k: Content)
    requires !c.left && LineStart(c.p.state) && Room(c.p, |HeadersText(hs)| + |blank|)
    requires EntriesOk(hs) && IsBreak(blank) && Plain(HeadersSeen(c.p, hs)) && Announced(HeadersSeen(c.p, hs), k)
    ensures var q := HeadersSeen(c.p, hs);
            var d := Feed(c, HeadersText(hs) + blank + ContentText(k));
            && d.t == ContentCalls(Push(HeaderCalls(c.t, hs), HeadersComplete(c.p.statusCode)), k)
            && d.p.errno.Ok? && !d.left
            && d.p.state == NewMessage(ContentSeen(q, k)) && d.p.nread == LeftCounted(k)
            && d.p.kind == c.p.kind && d.p.statusCode == c.p.statusCode && !d.p.upgrade && d.p.verb == c.p.verb
  {
    hide Feed, Push, Absorb, HeadersSeen, EntryOk, NewMessage, Framed, FramedCalls, HeadersText, IsBreak, LastOk,
      ChunksOk, FramingOf, ContentText, ContentCalls, LastText;
    HeadRest(c, hs, blank);
    SeenAside(c.p, hs);
    var q := HeadersSeen(c.p, hs);
    var d := Feed(c, HeadersText(hs) + blank);
    var calls := Push(HeaderCalls(c.t, hs), HeadersComplete(c.p.statusCode));
    UpgradeAside(q, k);
    ContentRead(d.(t := calls), q.(upgrade := false), k);
    FeedConcat(c, HeadersText(hs) + blank, ContentText(k));
  }

  lemma UpgradeAside(q: Parser, k: Content)
    requires Announced(q, k)
    ensures var p := q.(upgrade := false);
            && Announced(p, k) && Framed(p) == Framed(q) && FramedCalls(p) == FramedCalls(q)
            && NewMessage(ContentSeen(p, k)) == NewMessage(ContentSeen(q, k))
  {
    hide NewMessage, HeadersSeen, LastOk, ChunksOk;
    var p := q.(upgrade := false);
    FramedSame(p, q);
    NewMessageSame(p, q);
    if k.Chunked? { LastUpgrade(q, k.last); }
  }

  lemma LastUpgrade(q: Parser, l: Last)
    requires LastOk(l)
    ensures NewMessage(LastSeen(q.(upgrade := false), l.trailer)) == NewMessage(LastSeen(q, l.trailer))
  {
    hide HeadersSeen, NewMessage, EntryOk, HexValue, AllHex;
    var p0 := q.(contentLength := 0, flags := q.flags.(trailing := true));
    SeenWithout(p0, l.trailer);
    NewMessageSame(LastSeen(q.(upgrade := false), l.trailer), LastSeen(q, l.trailer));
  }

  lemma {:induction false} SeenWithout(p: Parser, hs: seq<Entry>)
    requires EntriesOk(hs)
    ensures HeadersSeen(p.(upgrade := false), hs) == HeadersSeen(p, hs).(upgrade := false)
    decreases |hs|
  {
    hide Spaced, LineFlags, EntryOk;
    if hs != [] { SeenWithout(EntryRead(p, hs[0]), hs[1..]); }
  }
}
