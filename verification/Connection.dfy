/** One connection of the proxy as a state machine over completed operations: what it has started, what it has
    written to its client, and what it puts into the image cache. The network, the resolver, the document
    library and the other connections are whatever the actions say. */
module Connection {
  import opened Bytes
  import opened HttpTypes
  import opened HttpStep
  import opened HttpSwitch
  import opened HttpMessage
  import opened HttpChunked
  import opened HttpFraming
  import opened HttpResponse
  import opened HttpCollect
  import opened HttpUrl
  import opened HttpLocation
  import opened MemoryStorage
  import opened MemoryStream
  import opened ChunkWriter
  import opened ImageResponse
  import opened ResponseBuilder

  // ---------- the state ----------

  /** An operation that has been started and whose handler has not run yet. */
  datatype Cont = ReadRequest | Resolve | Connect(more: nat) | WriteRequest | ReadResponse | PoolTask | WriteResponse

  datatype Wrote = HeadOf(code: int, json: bool) | ChunkOf(data: string)

  datatype OptImage = NoImage | Image(stream: Flat)

  /** What is made of the bytes of an image: no document, a document without a page, or a page whose
      rendering the pool accepts or refuses. */
  datatype Page = NoDoc | NoPage | Page(queued: bool, info: PageInfo)

  datatype Ec = NoError | Eof | Failed

  /** A cache entry written by this connection: what had been found there, or what was fetched, with the
      pieces in which the responses were read, those of the redirects and those of the last, and the last one's
      status code and completeness. */
  datatype Put = Put(
    key: string, bytes: string, hit: bool, redirects: seq<seq<string>>, received: seq<string>, code: int,
    complete: bool)

  /** `cfg` is the parser with the calls it made since it was last reset, `base` what the collector was then and
      `got` what it is now; `info` describes the page for a JSON answer; `requested`, `fetched`, `received`,
      `rendered` and `puts` are history. */
  datatype Conn = Conn(
    pending: multiset<Cont>, out: seq<Wrote>, image: OptImage, peer: Peer, imagePath: string, status: int, json: bool,
    info: PageInfo, cfg: Config, base: Collected, got: Collected, cache: map<string, string>,
    requested: string, fetched: seq<seq<string>>, received: seq<string>, rendered: string, puts: seq<Put>)

  const EMPTY := Flat("", 0, true)
  const UNREAD := Config(Init(Request), [], false)

  function Started(peer: Peer, cache: map<string, string>): Conn {
    Conn(multiset{ReadRequest}, [], NoImage, peer, "", -1, false, PageInfo(0, 0, 0), UNREAD, Fresh(EMPTY),
         Fresh(EMPTY), cache, "", [], [], "", [])
  }

  datatype Action =
    | RequestRead(ec: Ec, data: string, json: bool, page: Page)
    | Resolved(ok: bool, endpoints: nat)
    | Connected(ok: bool, more: nat)
    | RequestWritten(ok: bool)
    | ResponseRead(ec: Ec, data: string, page: Page)
    | Rendered(code: int, bytes: string)
    | Dropped
    | ResponseWritten(ok: bool)
    | OtherPut(key: string, bytes: string)

  function Start(c: Conn, k: Cont): Conn { c.(pending := c.pending + multiset{k}) }

  function Finish(c: Conn, k: Cont): Conn { c.(pending := c.pending - multiset{k}) }

  // ---------- answering the client ----------

  function Rewound(f: Flat): Flat { f.(pos := 0) }

  /** Writes a response head; an image that is missing or empty becomes an error. */
  function SendResponse(c: Conn, code: int): Conn {
    var image := if code == 200 && !c.json then
                   if c.image.NoImage? then NoImage else Image(Rewound(c.image.stream))
                 else NoImage;
    var status := if code == 200 && !c.json && (c.image.NoImage? || c.image.stream.bytes == "") then 500 else code;
    Start(c.(image := image, status := status, out := c.out + [HeadOf(status, c.json)]), WriteResponse)
  }

  /** The cache entry for an image. */
  function Cached(c: Conn, hit: bool): Conn
    requires c.image.Image?
  {
    var bytes := c.image.stream.bytes;
    c.(cache := c.cache[c.imagePath := bytes],
       puts := c.puts + [Put(c.imagePath, bytes, hit, c.fetched, c.received, c.got.statusCode, c.got.messageComplete)])
  }

  /** The image is complete: it is cached and rendered, or described. */
  function SendPage(c: Conn, page: Page, hit: bool): Conn
    requires c.image.Image?
  {
    match page
    case NoDoc => SendResponse(c.(image := Image(Rewound(c.image.stream))), 500)
    case NoPage => c.(image := Image(Rewound(c.image.stream)))
    case Page(queued, info) =>
      var d := Cached(c, hit);
      if d.json then SendResponse(d.(image := NoImage, info := info), 200)
      else if queued then Start(d.(image := Image(EMPTY)), PoolTask)
      else SendResponse(d.(image := Image(EMPTY)), 500)
  }

  const FAVICON: string := "/favicon.ico"

  /** Looks the path up in the cache, unless a fetch is under way already, or goes to fetch it. */
  function SendRequest(c: Conn, page: Page): Conn {
    if LowerAll(c.peer.path) == FAVICON then SendResponse(c, 404)
    else if c.image.NoImage? then
      var d := c.(imagePath := c.peer.path);
      if c.peer.path in c.cache
      then SendPage(d.(image := Image(Flat(c.cache[c.peer.path], 0, true))), page, true)
      else Fetch(d.(image := Image(EMPTY)))
    else Fetch(c.(image := Image(Rewound(c.image.stream))))
  }

  function Fetch(c: Conn): Conn
    requires c.image.Image?
  {
    Start(c.(got := c.got.(content := c.image.stream)), Resolve)
  }

  // ---------- the parser ----------

  datatype Parsed = Parsed(valid: bool, cfg: Config, got: Collected)

  /** HttpParser::Parse, if there is anything to parse. What was collected is what all the calls since the last
      reset make of the collector; of invalid input nothing is kept, for nothing will be asked of it. */
  function Parse(cfg: Config, base: Collected, data: string): (r: Parsed)
    requires Sound(base)
    ensures Sound(r.got)
  {
    var d := Feed(cfg, data).(left := false);
    if Consumed(cfg, data) == |data| then Parsed(true, d, Apply(base, d.t)) else Parsed(false, UNREAD, Fresh(EMPTY))
  }

  /** The concatenation of the body fragments among the calls. */
  function BodyText(t: seq<Event>): string {
    if t == [] then ""
    else BodyText(t[..|t| - 1]) + (var e := t[|t| - 1]; if e.Data? && e.part.Body? then e.text else "")
  }

  /** The calls made for a response that is read in these pieces; an upgrade does not stop the reading. */
  function FedAll(c: Config, pieces: seq<string>): Config
    decreases |pieces|
  {
    if pieces == [] then c else FedAll(Feed(c, pieces[0]).(left := false), pieces[1..])
  }

  function Bodies(responses: seq<seq<string>>): (texts: seq<string>)
    ensures |texts| == |responses|
  {
    seq(|responses|, i requires 0 <= i < |responses| => BodyText(FedAll(START, responses[i]).t))
  }

  // ---------- the handlers ----------

  /** The path that is asked for; a schema without a host is treated as no path. */
  ghost function RequestPath(url: string): string {
    var r := ParseSpec(url, false);
    if r.Result? && Path in r.fields && HttpUrl.End(r.fields[Path]) <= |url| then Slice(url, r.fields[Path]) else ""
  }

  ghost function HandleRequest(c: Conn, ec: Ec, data: string, json: bool, page: Page): Conn
    requires Sound(c.base)
  {
    if ec.Failed? then c
    else
      var r := Parse(c.cfg, c.base, data);
      RequestParsed(c.(cfg := r.cfg, got := r.got), r.valid, ec, json, page)
  }

  ghost function RequestParsed(c: Conn, valid: bool, ec: Ec, json: bool, page: Page): Conn {
    if !valid || (ec.Eof? && !c.got.headersComplete) then SendResponse(c, 400)
    else if !c.got.headersComplete then Start(c, ReadRequest)
    else
      var path := RequestPath(c.got.url);
      var d := c.(json := json);
      if !d.cfg.p.verb.GET? || |path| < 2 then SendResponse(d, 400)
      else SendRequest(d.(peer := d.peer.(path := path), requested := path), page)
  }

  predicate Redirects(code: int) { code == 301 || code == 302 || code == 303 || code == 307 }

  /** What SetLocation makes of a Location header; a schema without a host is treated as no host. */
  ghost function Located(uri: string, was: Peer): (bool, Peer) {
    var r := ParseSpec(uri, false);
    if !r.Result? || Host !in r.fields || HttpUrl.End(r.fields[Host]) > |uri| then (false, was)
    else
      var u := r.fields;
      var port := if Port in u && HttpUrl.End(u[Port]) <= |uri| then Slice(uri, u[Port]) else "80";
      if Path in u && HttpUrl.End(u[Path]) <= |uri| then
        (true, Peer(Slice(uri, u[Host]), port, Unprefixed(Slice(uri, u[Path]))))
      else (false, Peer(Slice(uri, u[Host]), port, was.path))
  }

  ghost function HandleResponse(c: Conn, ec: Ec, data: string, page: Page): Conn
    requires Sound(c.base)
  {
    if ec.Failed? then c
    else
      var r := Parse(c.cfg, c.base, data);
      var d := c.(cfg := r.cfg, got := r.got, received := c.received + [data]);
      if r.valid then ResponseParsed(d.(image := Image(r.got.content)), ec, page) else SendResponse(d, 500)
  }

  ghost function ResponseParsed(c: Conn, ec: Ec, page: Page): Conn
    requires Sound(c.got) && c.image.Image?
  {
    if !c.got.headersComplete then if ec.Eof? then SendResponse(c, 500) else Start(c, ReadResponse)
    else if Redirects(c.got.statusCode) then Redirected(c, page)
    else if c.got.statusCode != 200 then SendResponse(c, c.got.statusCode)
    else if c.got.messageComplete then SendPage(c, page, false)
    else if ec.Eof? then SendResponse(c, 500)
    else Start(c, ReadResponse)
  }

  ghost function Redirected(c: Conn, page: Page): Conn
    requires Sound(c.got)
  {
    match GetHeader(c.got, "Location")
    case Missing => SendResponse(c, 500)
    case Found(uri) =>
      var (ok, peer) := Located(uri, c.peer);
      var d := c.(peer := peer);
      if !ok then SendResponse(d, 500) else SendRequest(d.(fetched := d.fetched + [d.received]), page)
  }

  /** A chunk of the image, or the empty one that ends it; nothing behind any other response. */
  function HandleWritten(c: Conn, ok: bool): Conn
    requires c.image.Image? ==> c.image.stream.Ok()
  {
    if !ok || c.status != 200 || c.image.NoImage? then c
    else
      var (stream, data) := c.image.stream.Read(MAX_CHUNK_SIZE);
      Start(c.(image := if data == "" then NoImage else Image(stream), out := c.out + [ChunkOf(data)]), WriteResponse)
  }

  /** One action; one that was not started does nothing. */
  ghost function Act(c: Conn, a: Action): Conn
    requires Inv(c)
  {
    InvSound(c);
    match a
    case RequestRead(ec, data, json, page) =>
      if ReadRequest in c.pending then HandleRequest(Finish(c, ReadRequest), ec, data, json, page) else c
    case Resolved(ok, endpoints) =>
      if Resolve !in c.pending then c
      else if ok && endpoints > 0 then Start(Finish(c, Resolve), Connect(endpoints - 1)) else Finish(c, Resolve)
    case Connected(ok, more) =>
      if Connect(more) !in c.pending then c
      else if ok then Start(Finish(c, Connect(more)), WriteRequest)
      else if more > 0 then Start(Finish(c, Connect(more)), Connect(more - 1))
      else Finish(c, Connect(more))
    case RequestWritten(ok) =>
      if WriteRequest !in c.pending then c
      else if ok then Start(Finish(c, WriteRequest).(cfg := START, base := Fresh(c.got.content),
        got := Fresh(c.got.content), received := []), ReadResponse)
      else Finish(c, WriteRequest)
    case ResponseRead(ec, data, page) =>
      if ReadResponse in c.pending then HandleResponse(Finish(c, ReadResponse), ec, data, page) else c
    case Rendered(code, bytes) =>
      if PoolTask in c.pending && (code == 200 || code == 500)
      then SendResponse(Finish(c, PoolTask).(image := Image(Flat(bytes, |bytes|, true)), rendered := bytes), code)
      else c
    case Dropped => if PoolTask in c.pending then Finish(c, PoolTask) else c
    case ResponseWritten(ok) =>
      if WriteResponse in c.pending then HandleWritten(Finish(c, WriteResponse), ok) else c
    case OtherPut(key, bytes) => c.(cache := c.cache[key := bytes])
  }

  // ---------- what every step keeps ----------

  /** The frames on the wire behind the head. */
  function Wire(out: seq<Wrote>): string {
    if out == [] then ""
    else Wire(out[..|out| - 1]) + (var w := out[|out| - 1]; if w.ChunkOf? then Frame(w.data) else "")
  }

  /** The bytes of one write to the client. */
  function WireText(w: Wrote, info: PageInfo): string {
    match w
    case HeadOf(code, json) => Answer(code, json, info, BUFFER_SIZE)
    case ChunkOf(data) => Frame(data)
  }

  /** All that the client is sent. */
  function Sent(out: seq<Wrote>, info: PageInfo): string {
    if out == [] then "" else Sent(out[..|out| - 1], info) + WireText(out[|out| - 1], info)
  }

  /** The first text that is not empty, if there is one. */
  function FirstText(texts: seq<string>): string {
    if texts == [] then "" else if texts[0] != "" then texts[0] else FirstText(texts[1..])
  }

  /** One head at most, at the beginning; chunks only behind the head of an image; the empty chunk only last. */
  predicate Protocol(out: seq<Wrote>) {
    && (out != [] ==> out[0].HeadOf?)
    && (|out| > 1 ==> out[0] == HeadOf(200, false))
    && (forall i :: 0 < i < |out| ==> out[i].ChunkOf?)
    && (forall i :: 0 < i < |out| - 1 ==> out[i].data != "")
  }

  predicate Finished(out: seq<Wrote>) { |out| > 1 && out[|out| - 1] == ChunkOf("") }

  predicate Streaming(c: Conn) { c.status == 200 && !c.json && c.image.Image? }

  ghost predicate OutOk(c: Conn) {
    && Protocol(c.out)
    && (c.out == [] ==> WriteResponse !in c.pending)
    && (c.out != [] ==>
          && (forall k :: k in c.pending ==> k == WriteResponse)
          && c.out[0] == HeadOf(c.status, c.json)
          && (|c.out| == 1 && c.status == 200 && !c.json ==> c.image.Image?)
          && (c.json ==> c.image.NoImage? || c.status != 200)
          && (Streaming(c) ==>
                && !Finished(c.out) && c.image.stream.bytes == c.rendered != "" && c.image.stream.Ok()
                && (|c.rendered| < TWO_TO_32 ==>
                   Wire(c.out) + Frames(c.rendered[c.image.stream.pos..]) == Frames(c.rendered)))
          && (|c.out| > 1 && c.image.NoImage? ==>
             Finished(c.out) && (|c.rendered| < TWO_TO_32 ==> Wire(c.out) == Frames(c.rendered))))
  }

  /** What the stream holds, if it began with `first` and the calls `t` were made since. */
  predicate Holding(f: Flat, first: string, t: seq<Event>) {
    if first == "" then f.bytes == BodyText(t) && f.pos == |f.bytes| else f.bytes == first && f.pos == 0
  }

  predicate Fetches(k: Cont) { k.Resolve? || k.Connect? || k.WriteRequest? }

  ghost predicate FetchOk(c: Conn) {
    && (ReadRequest in c.pending ==>
          && c.image.NoImage? && c.puts == [] && c.fetched == [] && c.out == []
          && Sound(c.base) && c.got == Apply(c.base, c.cfg.t))
    && (forall k :: k in c.pending && Fetches(k) ==>
          && c.image.Image? && c.got.content == c.image.stream == Rewound(c.image.stream)
          && c.image.stream.bytes == FirstText(Bodies(c.fetched)) && c.out == [])
    && (ReadResponse in c.pending ==>
          && c.image.Image? && Holding(c.base.content, FirstText(Bodies(c.fetched)), [])
          && Sound(c.base) && c.got == Apply(c.base, c.cfg.t)
          && c.cfg == FedAll(START, c.received) && c.out == [])
    && (PoolTask in c.pending ==> c.image.Image? && c.out == [] && !c.json)
  }

  /** An entry under the requested path; if it was fetched, from a complete response with code 200. */
  predicate PutOk(put: Put, requested: string) {
    put.key == requested
    && (put.hit || (put.code == 200 && put.complete && put.bytes == FirstText(Bodies(put.redirects + [put.received]))))
  }

  /** What holds whether or not something is pending. */
  ghost predicate Base(c: Conn) {
    && Sound(c.base) && Sound(c.got) && (c.image.Image? ==> c.image.stream.Ok())
    && (c.image.Image? ==> c.imagePath == c.requested)
    && (forall i :: 0 <= i < |c.puts| ==> PutOk(c.puts[i], c.requested))
  }

  ghost predicate Inv(c: Conn) { |c.pending| <= 1 && Base(c) && OutOk(c) && FetchOk(c) }

  /** Between two operations: a handler runs. */
  ghost predicate Running(c: Conn) { Base(c) && c.pending == multiset{} && c.out == [] }

  lemma Only(c: Conn, k: Cont)
    requires |c.pending| <= 1 && k in c.pending
    ensures c.pending == multiset{k} && Finish(c, k).pending == multiset{}
  {
    var rest := c.pending - multiset{k};
    assert c.pending == rest + multiset{k};
    assert |rest| == 0;
  }

  lemma SendResponseKeeps(c: Conn, code: int)
    requires Running(c) && (code == 200 && !c.json && c.image.Image? ==> c.image.stream.bytes == c.rendered)
    ensures Inv(SendResponse(c, code))
  {
    hide Frames, FirstText, Sound, Wire, Bodies, FedAll, Holding;
    var d := SendResponse(c, code);
    assert d.out == [HeadOf(d.status, d.json)] && Protocol(d.out);
    WireHead(d.out);
    if Streaming(d) { FromStart(d.rendered); }
  }

  lemma FromStart(s: string)
    ensures "" + Frames(s[0..]) == Frames(s)
  {
    hide Frames;
    assert s[0..] == s;
  }

  lemma WireHead(out: seq<Wrote>)
    requires |out| == 1 && out[0].HeadOf?
    ensures Wire(out) == ""
  {
  }

  lemma SendPageKeeps(c: Conn, page: Page, hit: bool)
    requires Running(c) && c.image.Image?
             && (hit || c.image.stream.bytes == FirstText(Bodies(c.fetched + [c.received])))
    requires hit || (c.got.statusCode == 200 && c.got.messageComplete)
    ensures Inv(SendPage(c, page, hit))
  {
    hide Base, SendResponse, FirstText, Bodies, PutOk, Cached;
    match page
    case NoDoc => RewoundKeeps(c); SendResponseKeeps(c.(image := Image(Rewound(c.image.stream))), 500);
    case NoPage => RewoundKeeps(c);
    case Page(queued, info) =>
      CachedKeeps(c, hit);
      var d := Cached(c, hit);
      if d.json { InfoAside(d.(image := NoImage), info); SendResponseKeeps(d.(image := NoImage, info := info), 200); }
      else if queued { QueuedKeeps(d); }
      else { SendResponseKeeps(d.(image := Image(EMPTY)), 500); }
  }

  lemma InfoAside(c: Conn, info: PageInfo)
    requires Running(c)
    ensures Running(c.(info := info))
  {
    hide FirstText, Bodies, PutOk, Sound;
  }

  lemma RewoundKeeps(c: Conn)
    requires Running(c) && c.image.Image?
    ensures var d := c.(image := Image(Rewound(c.image.stream))); Running(d) && Inv(d)
  {
    hide FirstText, Bodies, PutOk, Sound;
  }

  lemma CachedKeeps(c: Conn, hit: bool)
    requires Running(c) && c.image.Image?
             && (hit || c.image.stream.bytes == FirstText(Bodies(c.fetched + [c.received])))
    requires hit || (c.got.statusCode == 200 && c.got.messageComplete)
    ensures var d := Cached(c, hit);
            && Running(d) && d.json == c.json && Running(d.(image := NoImage)) && Running(d.(image := Image(EMPTY)))
  {
    hide FirstText, Bodies, Sound;
  }

  lemma QueuedKeeps(c: Conn)
    requires Running(c.(image := Image(EMPTY))) && !c.json
    ensures Inv(Start(c.(image := Image(EMPTY)), PoolTask))
  {
    hide FirstText, Bodies, PutOk, Sound;
  }

  lemma FetchKeeps(c: Conn)
    requires Running(c) && c.image.Image? && c.image.stream.pos == 0
             && c.image.stream.bytes == FirstText(Bodies(c.fetched))
    ensures Inv(Fetch(c))
  {
    hide FirstText;
  }

  lemma SendRequestKeeps(c: Conn, page: Page)
    requires Running(c)
    requires if c.image.Image? then c.image.stream.bytes == FirstText(Bodies(c.fetched))
             else c.fetched == [] && c.peer.path == c.requested
    ensures Inv(SendRequest(c, page))
  {
    hide SendResponse, SendPage, Fetch, Sound, LowerAll;
    if LowerAll(c.peer.path) == FAVICON {
      SendResponseKeeps(c, 404);
    } else if c.image.NoImage? {
      var d := c.(imagePath := c.peer.path);
      if c.peer.path in c.cache {
        SendPageKeeps(d.(image := Image(Flat(c.cache[c.peer.path], 0, true))), page, true);
      } else {
        FetchKeeps(d.(image := Image(EMPTY)));
      }
    } else {
      FetchKeeps(c.(image := Image(Rewound(c.image.stream))));
    }
  }

  // ---------- what the parser hands over ----------

  function BodyOf(e: Event): string { if e.Data? && e.part.Body? then e.text else "" }

  lemma {:induction false} BodyConcat(a: seq<Event>, b: seq<Event>)
    ensures BodyText(a + b) == BodyText(a) + BodyText(b)
    decreases |b|
  {
    hide BodyText, BodyOf;
    if b == [] {
      assert a + b == a;
      BodyNothing(a);
    } else {
      var front, e := b[..|b| - 1], b[|b| - 1];
      assert b == front + [e] && a + b == (a + front) + [e];
      BodyConcat(a, front);
      BodySnoc(front, e);
      BodySnoc(a + front, e);
      assert BodyText(a) + BodyText(front) + BodyOf(e) == BodyText(a) + (BodyText(front) + BodyOf(e));
    }
  }

  lemma BodyNothing(a: seq<Event>)
    ensures BodyText(a) + BodyText([]) == BodyText(a)
  {
  }

  lemma BodySnoc(t: seq<Event>, e: Event)
    ensures BodyText(t + [e]) == BodyText(t) + BodyOf(e)
  {
    assert (t + [e])[..|t|] == t;
  }

  lemma BodyOne(e: Event)
    ensures BodyText([e]) == BodyOf(e)
  {
    assert [e][..0] == [];
  }

  lemma BodyPush(t: seq<Event>, e: Event)
    ensures BodyText(Push(t, e)) == BodyText(t) + BodyOf(e)
  {
    hide BodyText;
    if e.Data? && EndsWith(t, e.part) {
      var front, last := t[..|t| - 1], t[|t| - 1];
      var long := Data(e.part, last.text + e.text);
      assert t == front + [last];
      BodyConcat(front, [last]);
      BodyConcat(front, [long]);
      BodyOne(last);
      BodyOne(long);
    } else {
      BodyConcat(t, [e]);
      BodyOne(e);
    }
  }

  lemma {:induction false} BodyAbsorb(t: seq<Event>, es: seq<Event>)
    ensures BodyText(Absorb(t, es)) == BodyText(t) + BodyText(es)
    decreases |es|
  {
    hide Push, BodyText;
    if es == [] {
      NoBody();
    } else {
      BodyPush(t, es[0]);
      BodyAbsorb(Push(t, es[0]), es[1..]);
      BodyConcat([es[0]], es[1..]);
      BodyOne(es[0]);
      assert [es[0]] + es[1..] == es;
    }
  }

  lemma NoBody()
    ensures BodyText([]) == ""
  {
  }

  lemma CalledContent(g: Collected, e: Event)
    requires Sound(g)
    ensures var f := Called(g, e).content;
            if g.content.pos == |g.content.bytes| then f.bytes == g.content.bytes + BodyOf(e) && f.pos == |f.bytes|
            else f.bytes == g.content.bytes && f.pos == g.content.pos
  {
    hide Clip;
  }

  /** While a response is read the stream holds its body so far, or what a redirect has left there. */
  lemma {:induction false} CollectedHolds(g: Collected, first: string, t: seq<Event>, es: seq<Event>)
    requires Sound(g) && Holding(g.content, first, t)
    ensures Holding(Apply(g, es).content, first, t + es)
    decreases |es|
  {
    hide Called, Sound, BodyText;
    if es == [] {
      assert t + es == t;
    } else {
      CalledSound(g, es[0]);
      CalledContent(g, es[0]);
      BodyConcat(t, [es[0]]);
      BodyOne(es[0]);
      assert t + [es[0]] + es[1..] == t + es;
      CollectedHolds(Called(g, es[0]), first, t + [es[0]], es[1..]);
    }
  }

  lemma {:induction false} FirstMore(texts: seq<string>, x: string)
    ensures FirstText(texts + [x]) == if FirstText(texts) == "" then x else FirstText(texts)
    decreases |texts|
  {
    if texts == [] {
      assert texts + [x] == [x];
    } else {
      assert (texts + [x])[1..] == texts[1..] + [x];
      FirstMore(texts[1..], x);
    }
  }

  lemma HeldText(f: Flat, first: string, t: seq<Event>)
    requires Holding(f, first, t)
    ensures f.bytes == (if first == "" then BodyText(t) else first) && f.Ok()
  {
  }

  lemma {:induction false} FedMore(c: Config, pieces: seq<string>, x: string)
    ensures FedAll(c, pieces + [x]) == Feed(FedAll(c, pieces), x).(left := false)
    decreases |pieces|
  {
    hide Feed;
    if pieces == [] {
      assert [] + [x] == [x] && [x][1..] == [];
    } else {
      assert (pieces + [x])[1..] == pieces[1..] + [x];
      FedMore(Feed(c, pieces[0]).(left := false), pieces[1..], x);
    }
  }

  lemma BodiesMore(responses: seq<seq<string>>, x: seq<string>)
    ensures Bodies(responses + [x]) == Bodies(responses) + [BodyText(FedAll(START, x).t)]
  {
    hide BodyText, FedAll;
  }

  // ---------- the handlers keep it ----------

  lemma RedirectedKeeps(c: Conn, page: Page)
    requires Running(c) && c.image.Image? && c.image.stream.bytes == FirstText(Bodies(c.fetched + [c.received]))
    ensures Inv(Redirected(c, page))
  {
    hide SendResponse, SendRequest, Sound, FirstText, BodyText, GetHeader, Located, Bodies, FedAll;
    match GetHeader(c.got, "Location")
    case Missing => SendResponseKeeps(c, 500);
    case Found(uri) =>
      var (ok, peer) := Located(uri, c.peer);
      var d := c.(peer := peer);
      if ok { SendRequestKeeps(d.(fetched := d.fetched + [d.received]), page); } else { SendResponseKeeps(d, 500); }
  }

  lemma HandleResponseKeeps(c: Conn, ec: Ec, data: string, page: Page)
    requires Running(c) && c.image.Image? && Holding(c.base.content, FirstText(Bodies(c.fetched)), [])
    requires c.cfg == FedAll(START, c.received)
    ensures Inv(HandleResponse(c, ec, data, page))
  {
    hide SendResponse, SendPage, Redirected, Sound, FirstText, BodyText, Parse, Holding, Bodies, FedAll;
    if !ec.Failed? {
      var r := Parse(c.cfg, c.base, data);
      var e := c.(cfg := r.cfg, got := r.got, received := c.received + [data]);
      var d := e.(image := Image(r.got.content));
      ParsedHolds(c, data);
      assert Running(d);
      if !r.valid { SendResponseKeeps(e, 500); }
      else if !r.got.headersComplete { if ec.Eof? { SendResponseKeeps(d, 500); } }
      else if Redirects(r.got.statusCode) { RedirectedKeeps(d, page); }
      else if r.got.statusCode != 200 { SendResponseKeeps(d, r.got.statusCode); }
      else if r.got.messageComplete { SendPageKeeps(d, page, false); }
      else if ec.Eof? { SendResponseKeeps(d, 500); }
    }
  }

  /** What is known when more of a response has been parsed. */
  lemma ParsedHolds(c: Conn, data: string)
    requires Sound(c.base) && Holding(c.base.content, FirstText(Bodies(c.fetched)), [])
             && c.cfg == FedAll(START, c.received)
    ensures var r, received := Parse(c.cfg, c.base, data), c.received + [data];
            && r.got.content.Ok()
            && (r.valid ==> r.cfg == FedAll(START, received) && r.got == Apply(c.base, r.cfg.t)
                            && r.got.content.bytes == FirstText(Bodies(c.fetched + [received])))
  {
    hide Sound, FirstText, BodyText, Feed, Consumed, Holding, Bodies, FedAll;
    var r, received := Parse(c.cfg, c.base, data), c.received + [data];
    if r.valid {
      CollectedHolds(c.base, FirstText(Bodies(c.fetched)), [], r.cfg.t);
      assert [] + r.cfg.t == r.cfg.t;
      HeldText(r.got.content, FirstText(Bodies(c.fetched)), r.cfg.t);
      FedMore(START, c.received, data);
      BodiesMore(c.fetched, received);
      FirstMore(Bodies(c.fetched), BodyText(r.cfg.t));
    }
  }

  lemma HandleRequestKeeps(c: Conn, ec: Ec, data: string, json: bool, page: Page)
    requires Running(c) && c.image.NoImage? && c.puts == [] && c.fetched == []
    ensures Inv(HandleRequest(c, ec, data, json, page))
  {
    hide SendResponse, SendRequest, Sound, FirstText, Feed, Consumed, RequestPath;
    if !ec.Failed? {
      var r := Parse(c.cfg, c.base, data);
      var d := c.(cfg := r.cfg, got := r.got);
      if !r.valid || (ec.Eof? && !r.got.headersComplete) { SendResponseKeeps(d, 400); }
      else if r.got.headersComplete {
        var path := RequestPath(r.got.url);
        var e := d.(json := json);
        if !r.cfg.p.verb.GET? || |path| < 2 { SendResponseKeeps(e, 400); }
        else { SendRequestKeeps(e.(peer := e.peer.(path := path), requested := path), page); }
      }
    }
  }

  lemma WireMore(out: seq<Wrote>, data: string)
    ensures Wire(out + [ChunkOf(data)]) == Wire(out) + Frame(data)
  {
    assert (out + [ChunkOf(data)])[..|out|] == out;
  }

  lemma ProtocolMore(out: seq<Wrote>, data: string)
    requires Protocol(out) && out != [] && !Finished(out) && out[0] == HeadOf(200, false)
    ensures Protocol(out + [ChunkOf(data)]) && (Finished(out + [ChunkOf(data)]) <==> data == "")
  {
  }

  /** The next chunk. */
  lemma ChunkKeeps(c: Conn)
    requires Base(c) && c.pending == multiset{} && OutOk(c) && c.out != [] && Streaming(c)
    ensures Inv(HandleWritten(c, true))
  {
    hide Frames, Frame, FirstText, Sound, Wire, Protocol, Finished;
    var f := c.image.stream;
    var (stream, data) := f.Read(MAX_CHUNK_SIZE);
    WireMore(c.out, data);
    ProtocolMore(c.out, data);
    if |f.bytes| < TWO_TO_32 {
      RoomFits(|f.bytes| - f.pos);
      FrameNext(f.bytes, f.pos, Wire(c.out));
    }
  }

  // ---------- every run ----------

  lemma ConnectKeeps(c: Conn, k: Cont, next: Cont)
    requires Inv(c) && k in c.pending && Fetches(k) && (next.Connect? || next.WriteRequest?)
    ensures Inv(Start(Finish(c, k), next))
  {
    hide FirstText, Frames, Wire, Sound, Protocol, Finished, FedAll, Holding;
    Only(c, k);
  }

  lemma FinishKeeps(c: Conn, k: Cont)
    requires Inv(c) && k in c.pending
    ensures Inv(Finish(c, k))
  {
    hide FirstText, Frames, Wire, Sound, Protocol, Finished, FedAll, Holding;
    Only(c, k);
  }

  lemma ResetKeeps(c: Conn)
    requires Inv(c) && WriteRequest in c.pending
    ensures Inv(Start(Finish(c, WriteRequest).(cfg := START, base := Fresh(c.got.content), got := Fresh(c.got.content),
            received := []), ReadResponse))
  {
    hide FirstText, Frames, Wire, Bodies;
    Only(c, WriteRequest);
    NoBody();
  }

  /** One completed operation, whatever came of it. */
  lemma ActKeeps(c: Conn, a: Action)
    requires Inv(c)
    ensures Inv(Act(c, a))
  {
    hide Inv, Act;
    if a.RequestRead? || a.ResponseRead? { ReadingKeeps(c, a); }
    else if a.Resolved? || a.Connected? || a.RequestWritten? { FetchingKeeps(c, a); }
    else { AnsweringKeeps(c, a); }
  }

  lemma ReadingKeeps(c: Conn, a: Action)
    requires Inv(c) && (a.RequestRead? || a.ResponseRead?)
    ensures Inv(Act(c, a))
  {
    InvSound(c);
    hide Inv, Start, Finish, SendResponse, HandleRequest, HandleResponse, HandleWritten, Sound;
    if a.RequestRead? {
      if ReadRequest in c.pending { RequestReadKeeps(c, a.ec, a.data, a.json, a.page); }
    } else {
      if ReadResponse in c.pending { ResponseReadKeeps(c, a.ec, a.data, a.page); }
    }
  }

  lemma FetchingKeeps(c: Conn, a: Action)
    requires Inv(c) && (a.Resolved? || a.Connected? || a.RequestWritten?)
    ensures Inv(Act(c, a))
  {
    InvSound(c);
    hide Inv, Start, Finish, SendResponse, HandleRequest, HandleResponse, HandleWritten, Sound, Fresh;
    if a.Resolved? {
      if Resolve in c.pending {
        if a.ok && a.endpoints > 0 { ConnectKeeps(c, Resolve, Connect(a.endpoints - 1)); }
        else { FinishKeeps(c, Resolve); }
      }
    } else if a.Connected? {
      var k := Connect(a.more);
      if k in c.pending {
        if a.ok { ConnectKeeps(c, k, WriteRequest); }
        else if a.more > 0 { ConnectKeeps(c, k, Connect(a.more - 1)); }
        else { FinishKeeps(c, k); }
      }
    } else {
      if WriteRequest in c.pending { if a.ok { ResetKeeps(c); } else { FinishKeeps(c, WriteRequest); } }
    }
  }

  lemma AnsweringKeeps(c: Conn, a: Action)
    requires Inv(c) && (a.Rendered? || a.Dropped? || a.ResponseWritten? || a.OtherPut?)
    ensures Inv(Act(c, a))
  {
    InvSound(c);
    hide Inv, Start, Finish, SendResponse, HandleRequest, HandleResponse, HandleWritten, Sound, Fresh;
    if a.Rendered? {
      if PoolTask in c.pending && (a.code == 200 || a.code == 500) { RenderedKeeps(c, a.code, a.bytes); }
    } else if a.Dropped? {
      if PoolTask in c.pending { FinishKeeps(c, PoolTask); }
    } else if a.ResponseWritten? {
      if WriteResponse in c.pending { WrittenKeeps(c, a.ok); }
    } else {
      OtherPutKeeps(c, c.cache[a.key := a.bytes]);
    }
  }

  lemma InvSound(c: Conn)
    requires Inv(c)
    ensures Sound(c.base) && Sound(c.got) && (c.image.Image? ==> c.image.stream.Ok())
  {
    hide OutOk, FetchOk, Sound;
  }

  lemma RequestReadKeeps(c: Conn, ec: Ec, data: string, json: bool, page: Page)
    requires Inv(c) && ReadRequest in c.pending
    ensures Sound(c.base) && Inv(HandleRequest(Finish(c, ReadRequest), ec, data, json, page))
  {
    hide HandleRequest, FirstText, Frames, Wire, Protocol, Finished, Sound, BodyText, Holding;
    Only(c, ReadRequest);
    HandleRequestKeeps(Finish(c, ReadRequest), ec, data, json, page);
  }

  lemma ResponseReadKeeps(c: Conn, ec: Ec, data: string, page: Page)
    requires Inv(c) && ReadResponse in c.pending
    ensures Sound(c.base) && Inv(HandleResponse(Finish(c, ReadResponse), ec, data, page))
  {
    hide HandleResponse, FirstText, Frames, Wire, Protocol, Finished, Sound, BodyText, Holding;
    Only(c, ReadResponse);
    HandleResponseKeeps(Finish(c, ReadResponse), ec, data, page);
  }

  lemma OtherPutKeeps(c: Conn, cache: map<string, string>)
    requires Inv(c)
    ensures Inv(c.(cache := cache))
  {
    hide FirstText, Frames, Wire, Protocol, Finished, Sound;
  }

  lemma RenderedKeeps(c: Conn, code: int, bytes: string)
    requires Inv(c) && PoolTask in c.pending
    ensures Inv(SendResponse(Finish(c, PoolTask).(image := Image(Flat(bytes, |bytes|, true)), rendered := bytes), code))
  {
    hide SendResponse, FirstText, Frames, Wire, Protocol, Finished, Sound;
    Only(c, PoolTask);
    SendResponseKeeps(Finish(c, PoolTask).(image := Image(Flat(bytes, |bytes|, true)), rendered := bytes), code);
  }

  lemma WrittenKeeps(c: Conn, ok: bool)
    requires Inv(c) && WriteResponse in c.pending
    ensures Inv(HandleWritten(Finish(c, WriteResponse), ok))
  {
    hide FirstText, Frames, Wire, Protocol, Finished, Sound;
    Only(c, WriteResponse);
    var d := Finish(c, WriteResponse);
    if ok && d.status == 200 && d.image.Image? { ChunkKeeps(d); }
  }

  ghost function Run(c: Conn, acts: seq<Action>): (d: Conn)
    requires Inv(c)
    ensures Inv(d)
    decreases |acts|
  {
    if acts == [] then c
    else
      ActKeeps(c, acts[0]);
      Run(Act(c, acts[0]), acts[1..])
  }

  lemma StartedOk(peer: Peer, cache: map<string, string>)
    ensures Inv(Started(peer, cache))
  {
  }

  // ---------- no answer breaks off by itself ----------

  /** Nothing pending behind the head of an image means that the empty chunk was written. */
  predicate Unstuck(c: Conn) {
    c.out != [] && c.out[0] == HeadOf(200, false) && c.pending == multiset{} ==> Finished(c.out)
  }

  lemma WrittenUnstuck(c: Conn)
    requires Inv(c) && WriteResponse in c.pending
    ensures Unstuck(HandleWritten(Finish(c, WriteResponse), true))
  {
    hide Frames, Wire, FirstText, Sound, Protocol, Bodies, FedAll, FetchOk;
    var d := Finish(c, WriteResponse);
    var e := HandleWritten(d, true);
    if d.status == 200 && d.image.Image? { assert WriteResponse in e.pending; }
  }

  /** Nothing has been written while something other than a write is pending. */
  lemma NothingOut(c: Conn, k: Cont)
    requires Inv(c) && k in c.pending && k != WriteResponse
    ensures c.out == []
  {
    hide Base, FetchOk, Protocol, Streaming;
  }

  lemma PageUnstuck(c: Conn, page: Page, hit: bool)
    requires c.out == [] && c.image.Image?
    ensures Unstuck(SendPage(c, page, hit))
  {
    hide Start, SendResponse, Unstuck;
    StartsPending();
    StartsNothing();
    match page
    case NoDoc => AnsweredUnstuck(c.(image := Image(Rewound(c.image.stream))), 500);
    case NoPage => Silent(SendPage(c, page, hit));
    case Page(queued, info) =>
      var d := Cached(c, hit);
      if d.json { AnsweredUnstuck(d.(image := NoImage, info := info), 200); }
      else if queued { Silent(SendPage(c, page, hit)); }
      else { AnsweredUnstuck(d.(image := Image(EMPTY)), 500); }
  }

  lemma Silent(c: Conn)
    requires c.out == []
    ensures Unstuck(c)
  {
  }

  lemma AskUnstuck(c: Conn, page: Page)
    requires c.out == []
    ensures Unstuck(SendRequest(c, page))
  {
    hide Start, SendResponse, SendPage, Unstuck, LowerAll;
    StartsNothing();
    if LowerAll(c.peer.path) == FAVICON {
      AnsweredUnstuck(c, 404);
    } else if c.image.NoImage? && c.peer.path in c.cache {
      PageUnstuck(c.(imagePath := c.peer.path, image := Image(Flat(c.cache[c.peer.path], 0, true))), page, true);
    } else {
      Silent(SendRequest(c, page));
    }
  }

  lemma RequestUnstuck(c: Conn, valid: bool, ec: Ec, json: bool, page: Page)
    requires c.out == []
    ensures Unstuck(RequestParsed(c, valid, ec, json, page))
  {
    hide Start, SendResponse, SendRequest, Unstuck, RequestPath;
    StartsNothing();
    if !valid || (ec.Eof? && !c.got.headersComplete) {
      AnsweredUnstuck(c, 400);
    } else if !c.got.headersComplete {
      Silent(RequestParsed(c, valid, ec, json, page));
    } else {
      var path := RequestPath(c.got.url);
      AnsweredUnstuck(c.(json := json), 400);
      AskUnstuck(c.(json := json, peer := c.peer.(path := path), requested := path), page);
    }
  }

  lemma ResponseUnstuck(c: Conn, ec: Ec, page: Page)
    requires c.out == [] && Sound(c.got) && c.image.Image?
    ensures Unstuck(ResponseParsed(c, ec, page))
  {
    hide Start, SendResponse, SendRequest, SendPage, Unstuck, Redirected, Redirects, Sound;
    StartsNothing();
    AnsweredUnstuck(c, 500);
    AnsweredUnstuck(c, c.got.statusCode);
    PageUnstuck(c, page, false);
    RedirectUnstuck(c, page);
    Silent(Start(c, ReadResponse));
  }

  lemma RedirectUnstuck(c: Conn, page: Page)
    requires c.out == [] && Sound(c.got)
    ensures Unstuck(Redirected(c, page))
  {
    hide SendResponse, SendRequest, Unstuck, GetHeader, Located, Sound;
    match GetHeader(c.got, "Location")
    case Missing => AnsweredUnstuck(c, 500);
    case Found(uri) =>
      var (ok, peer) := Located(uri, c.peer);
      AnsweredUnstuck(c.(peer := peer), 500);
      AskUnstuck(c.(peer := peer, fetched := c.fetched + [c.received]), page);
  }

  lemma ReadUnstuck(c: Conn, a: Action)
    requires Inv(c) && (a.RequestRead? || a.ResponseRead?) && Unstuck(c)
    ensures Unstuck(Act(c, a))
  {
    hide Inv, Parse, Sound, Unstuck, RequestParsed, ResponseParsed, SendResponse;
    InvSound(c);
    if a.RequestRead? && ReadRequest in c.pending {
      NothingOut(c, ReadRequest);
      var d := Finish(c, ReadRequest);
      var r := Parse(d.cfg, d.base, a.data);
      Silent(d);
      RequestUnstuck(d.(cfg := r.cfg, got := r.got), r.valid, a.ec, a.json, a.page);
    } else if a.ResponseRead? && ReadResponse in c.pending {
      NothingOut(c, ReadResponse);
      var d := Finish(c, ReadResponse);
      var r := Parse(d.cfg, d.base, a.data);
      Silent(d);
      var e := d.(cfg := r.cfg, got := r.got, received := d.received + [a.data]);
      AnsweredUnstuck(e, 500);
      ResponseUnstuck(e.(image := Image(r.got.content)), a.ec, a.page);
    }
  }

  lemma StartsPending()
    ensures forall c: Conn, k: Cont :: Start(c, k).pending != multiset{}
  {
    forall c: Conn, k: Cont ensures Start(c, k).pending != multiset{} { assert k in Start(c, k).pending; }
  }

  lemma ActUnstuck(c: Conn, a: Action)
    requires Inv(c) && Unstuck(c) && a != ResponseWritten(false)
    ensures Unstuck(Act(c, a))
  {
    hide Inv, HandleRequest, HandleResponse, HandleWritten, Start, SendResponse, Finished, Sound;
    InvSound(c);
    match a
    case RequestRead(ec, data, json, page) => ReadUnstuck(c, a);
    case ResponseRead(ec, data, page) => ReadUnstuck(c, a);
    case Resolved(ok, endpoints) => if Resolve in c.pending { NothingOut(c, Resolve); StartsNothing(); }
    case Connected(ok, more) => if Connect(more) in c.pending { NothingOut(c, Connect(more)); StartsNothing(); }
    case RequestWritten(ok) => if WriteRequest in c.pending { NothingOut(c, WriteRequest); StartsNothing(); }
    case Dropped => if PoolTask in c.pending { NothingOut(c, PoolTask); }
    case Rendered(code, bytes) =>
      AnsweredUnstuck(Finish(c, PoolTask).(image := Image(Flat(bytes, |bytes|, true)), rendered := bytes), code);
    case ResponseWritten(ok) => if WriteResponse in c.pending { WrittenUnstuck(c); }
    case OtherPut(key, bytes) =>
  }

  lemma StartsNothing()
    ensures forall c: Conn, k: Cont :: Start(c, k).out == c.out
  {
  }

  lemma AnsweredUnstuck(c: Conn, code: int)
    ensures Unstuck(SendResponse(c, code))
  {
    hide Finished;
    assert WriteResponse in SendResponse(c, code).pending;
  }

  lemma {:induction false} RunUnstuck(c: Conn, acts: seq<Action>)
    requires Inv(c) && Unstuck(c) && ResponseWritten(false) !in acts
    ensures Unstuck(Run(c, acts))
    decreases |acts|
  {
    hide Inv, Act, Unstuck;
    if acts != [] {
      ActKeeps(c, acts[0]);
      ActUnstuck(c, acts[0]);
      RunUnstuck(Act(c, acts[0]), acts[1..]);
    }
  }

  /** In every run: at most one operation is under way; the client gets at most one head, chunks only behind
      that of an image, and nothing behind the empty chunk; and then it has got exactly the rendered image.
      Unless a write failed, an image whose head was written is never left without its empty chunk. */
  lemma RunsFollowProtocol(peer: Peer, cache: map<string, string>, acts: seq<Action>)
    ensures Inv(Started(peer, cache))
    ensures var d := Run(Started(peer, cache), acts);
            && |d.pending| <= 1 && Protocol(d.out)
            && (Finished(d.out) && |d.rendered| < TWO_TO_32 ==> Wire(d.out) == Frames(d.rendered))
            && (ResponseWritten(false) !in acts && d.out != [] && d.out[0] == HeadOf(200, false)
                && d.pending == multiset{}
                ==> Finished(d.out))
  {
    hide Run, FirstText, Frames, Wire, Sound;
    StartedOk(peer, cache);
    if ResponseWritten(false) !in acts {
      StartedUnstuck(peer, cache);
      RunUnstuck(Started(peer, cache), acts);
    }
    hide Started;
    assert Inv(Run(Started(peer, cache), acts));
  }

  lemma StartedUnstuck(peer: Peer, cache: map<string, string>)
    ensures Unstuck(Started(peer, cache))
  {
    hide Finished;
  }

  /** In every run: whatever redirects were followed, what is cached is cached under the path of the request.
      It is the body of the last response, unless a redirect has delivered body bytes: then it is the first
      body that was not empty. */
  lemma RunsCacheTheBody(peer: Peer, cache: map<string, string>, acts: seq<Action>, i: nat)
    ensures Inv(Started(peer, cache))
    ensures var d := Run(Started(peer, cache), acts);
            i < |d.puts| ==>
              var put := d.puts[i];
              var silent := forall j :: 0 <= j < |put.redirects| ==> Bodies(put.redirects)[j] == "";
              && put.key == d.requested
              && (!put.hit ==> put.code == 200 && put.complete)
              && (!put.hit ==> put.bytes == if silent then BodyText(FedAll(START, put.received).t)
                 else FirstText(Bodies(put.redirects)))
              && (!put.hit && !silent ==> put.bytes != "")
  {
    hide Run, Started, FirstText, Frames, Wire, Bodies;
    StartedOk(peer, cache);
    var d := Run(Started(peer, cache), acts);
    if i < |d.puts| {
      BodiesMore(d.puts[i].redirects, d.puts[i].received);
      FirstMore(Bodies(d.puts[i].redirects), BodyText(FedAll(START, d.puts[i].received).t));
      FirstIsEmpty(Bodies(d.puts[i].redirects));
    }
  }

  lemma {:induction false} FirstIsEmpty(texts: seq<string>)
    ensures FirstText(texts) == "" <==> forall j :: 0 <= j < |texts| ==> texts[j] == ""
    decreases |texts|
  {
    if texts != [] {
      FirstIsEmpty(texts[1..]);
      assert forall j :: 1 <= j < |texts| ==> texts[j] == texts[1..][j - 1];
    }
  }

  lemma {:induction false} SentImage(out: seq<Wrote>, info: PageInfo)
    requires out != [] && out[0] == HeadOf(200, false) && forall i :: 0 < i < |out| ==> out[i].ChunkOf?
    ensures Sent(out, info) == HeadText(IMAGE_HEAD) + Wire(out)
    decreases |out|
  {
    hide Frame, HeadText, Answer;
    var front, last := out[..|out| - 1], out[|out| - 1];
    if |out| == 1 {
      AnswerFits(200, false, info);
      ImageHeadIsBuilt(info);
      WireHead(out);
      assert front == [];
      assert HeadText(IMAGE_HEAD) + "" == HeadText(IMAGE_HEAD);
    } else {
      SentImage(front, info);
      assert HeadText(IMAGE_HEAD) + Wire(front) + Frame(last.data)
             == HeadText(IMAGE_HEAD) + (Wire(front) + Frame(last.data));
    }
  }

  /** What the client's parser makes of all it is sent, in whatever pieces it arrives: the image, once. */
  lemma ClientReadsImage(peer: Peer, cache: map<string, string>, acts: seq<Action>, pieces: seq<string>, more: string)
    requires Inv(Started(peer, cache))
    requires var d := Run(Started(peer, cache), acts);
             Finished(d.out) && |d.rendered| < TWO_TO_32 && Flatten(pieces) == Sent(d.out, d.info)
    ensures var d := Run(Started(peer, cache), acts);
            var seen := FeedAll(START, pieces);
            && seen.p.errno.Ok? && seen.p.state.Dead?
            && seen.t == Push(BodyCalls(IMAGE_HEAD, d.rendered), MessageComplete)
            && Feed(seen, more).t == seen.t
  {
    hide Run, Started, Frames, Wire, HeadText, Feed, FeedAll, Push, BodyCalls, Sent, FirstText;
    RunsFollowProtocol(peer, cache, acts);
    var d := Run(Started(peer, cache), acts);
    SentImage(d.out, d.info);
    ImageResponseRead(d.rendered, pieces, more);
  }

  /** And if it asked for the description of the page, that. */
  lemma ClientReadsDescription(peer: Peer, cache: map<string, string>, acts: seq<Action>, pieces: seq<string>)
    requires Inv(Started(peer, cache))
    requires var d := Run(Started(peer, cache), acts);
             d.out != [] && d.out[0] == HeadOf(200, true) && Flatten(pieces) == Sent(d.out, d.info)
    ensures var d := Run(Started(peer, cache), acts);
            var seen := FeedAll(START, pieces);
            seen.p.errno.Ok? && seen.t == Push(BodyCalls(JsonHead(d.info), JsonText(d.info)), MessageComplete)
  {
    hide Run, Started, Frames, Wire, Feed, FeedAll, Push, BodyCalls, JsonText, JsonHead, Answer, FirstText;
    RunsFollowProtocol(peer, cache, acts);
    var d := Run(Started(peer, cache), acts);
    assert d.out[..0] == [];
    assert "" + WireText(d.out[0], d.info) == WireText(d.out[0], d.info);
    JsonAnswerRead(d.info, pieces);
  }

  // ---------- the body of a response ----------

  lemma {:induction false} HeadersHaveNoBody(t: seq<Event>, hs: seq<Entry>)
    ensures BodyText(HeaderCalls(t, hs)) == BodyText(t)
    decreases |hs|
  {
    hide Push, BodyText;
    if hs != [] {
      var f, v := Data(Field, hs[0].name), Data(Value, hs[0].Whole());
      BodyPush(t, f);
      BodyPush(Push(t, f), v);
      HeadersHaveNoBody(Push(Push(t, f), v), hs[1..]);
    }
  }

  lemma BodyOfCalls(h: Head, body: string, trailer: seq<Entry>)
    ensures BodyText(Push(HeaderCalls(BodyCalls(h, body), trailer), MessageComplete)) == body
    ensures BodyText(Push(BodyCalls(h, body), MessageComplete)) == body
  {
    hide Push, BodyText, HeaderCalls;
    var t0 := StatusCalls([], h.end);
    NoBody();
    BodyPush([], MessageBegin);
    BodyPush(Push([], MessageBegin), StatusComplete);
    HeadersHaveNoBody(t0, h.headers);
    BodyPush(HeaderCalls(t0, h.headers), HeadersComplete(CodeOf(h)));
    if body != "" { BodyPush(HeadCalls(h), Data(Body, body)); }
    var t := BodyCalls(h, body);
    HeadersHaveNoBody(t, trailer);
    BodyPush(t, MessageComplete);
    BodyPush(HeaderCalls(t, trailer), MessageComplete);
  }

  lemma {:induction false} StoppedStays(c: Config, pieces: seq<string>)
    requires Stopped(c)
    ensures FeedAll(c, pieces) == c
    decreases |pieces|
  {
    if pieces != [] { StoppedStays(c, pieces[1..]); }
  }

  lemma {:induction false} FedIsFeed(c: Config, pieces: seq<string>)
    requires !c.left && !FeedAll(c, pieces).left
    ensures FedAll(c, pieces) == FeedAll(c, pieces)
    decreases |pieces|
  {
    hide Feed;
    if pieces != [] {
      var d := Feed(c, pieces[0]);
      if d.left { StoppedStays(d, pieces[1..]); }
      FedIsFeed(d, pieces[1..]);
    }
  }

  /** A response with a length or in chunks, with any trailer, in whatever pieces it was read: what is kept of
      it is its body. */
  lemma BodyIsKept(h: Head, k: Content, pieces: seq<string>)
    requires HeadOk(h) && !Seen(h).flags.upgrade && Announced(Seen(h), k)
    requires Flatten(pieces) == HeadText(h) + ContentText(k)
    ensures BodyText(FedAll(START, pieces).t) == ContentBody(k)
  {
    hide Seen, HeadOk, HeadText, FeedAll, FedAll, Push, BodyText, FramingOf, LastOk, LastText, ChunksText, NewMessage,
      LastSeen, ContentText, Announced;
    ResponseReported(h, k, pieces);
    FedIsFeed(START, pieces);
    BodyOfCalls(h, ContentBody(k), TrailerOf(k));
  }
}
