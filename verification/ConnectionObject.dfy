/** The connection as an object, with its parser, its collector and its buffer: the handlers, against the state
    machine. */
module ConnectionObject {
  import opened Bytes
  import opened HttpTypes
  import opened HttpStep
  import opened HttpRun
  import opened HttpParserObject
  import opened HttpResponse
  import opened HttpCollect
  import opened HttpCollectorObject
  import opened HttpUrl
  import opened HttpLocation
  import opened MemoryStream
  import opened MemoryStorage
  import opened ChunkWriter
  import opened ResponseBuilder
  import opened Connection

  // ---------- what the parser tells the collector ----------

  /** All that is consumed without an error has been told to the collector, in whatever fragments the parser
      chose: what is collected is what the merged calls make of it. */
  lemma ToldAll(base: Collected, cfg: Config, before: seq<Event>, log: seq<Event>, data: string)
    requires Sound(base) && before <= log && Merged(before) == cfg.t
    requires Merged(log) == Feed(cfg, data).t
    ensures Apply(Apply(base, cfg.t), log[|before|..]) == Apply(base, Feed(cfg, data).t)
  {
    hide Feed, Apply, Absorb, Sound;
    var more := log[|before|..];
    assert log == before + more;
    AbsorbConcat([], before, more);
    FragmentsDoNotMatter(base, cfg.t, more);
  }

  /** If all is consumed there was no error. */
  lemma AllConsumed(c: Config, data: string)
    requires data != "" && Consumed(c, data) == |data|
    ensures !Stopped(c) && Feed(c, data).p.errno.Ok?
  {
    hide Feed, Step;
    if Stopped(c) {
      StoppedFeeds(c, data);
    } else {
      ConsumedExactly(c, data);
    }
  }

  lemma NothingParsed(cfg: Config, base: Collected, got: Collected)
    requires Sound(base) && got == Apply(base, cfg.t) && !cfg.left
    ensures Parse(cfg, base, "") == Parsed(true, cfg, got)
  {
    hide Apply, Sound;
  }

  // ---------- the handlers ----------

  /** Where the cursor stands makes no difference to what is made of a page. */
  lemma PageOfRewound(c: Conn, page: Page, hit: bool)
    requires c.image.Image?
    ensures var d := c.(image := Image(Rewound(c.image.stream)));
            var e := Cached(d, hit);
            && e.pending == c.pending && e.json == c.json
            && SendPage(c, page, hit)
               == match page
                  case NoDoc => SendResponse(d, 500)
                  case NoPage => d
                  case Page(queued, info) =>
                    if c.json then SendResponse(e.(image := NoImage, info := info), 200)
                    else if queued then Connection.Start(e.(image := Image(EMPTY)), PoolTask)
                    else SendResponse(e.(image := Image(EMPTY)), 500)
  {
    hide SendResponse, Connection.Start;
  }

  /** What an action does when its operation was started, and that the invariant survives it. */
  lemma RequestReadAct(c: Conn, ec: Ec, data: string, json: bool, page: Page)
    requires Inv(c) && ReadRequest in c.pending
    ensures Sound(c.base) && c.got == Apply(c.base, c.cfg.t) && c.out == []
            && Finish(c, ReadRequest).pending == multiset{}
    ensures var d := Act(c, RequestRead(ec, data, json, page));
            Inv(d) && d == HandleRequest(Finish(c, ReadRequest), ec, data, json, page)
  {
    hide Inv, HandleRequest, HandleResponse, HandleWritten, SendResponse, Connection.Start, Fresh, Apply, Sound, Finish;
    ReadingIsPrimed(c, ReadRequest);
    InvSound(c);
    ActKeeps(c, RequestRead(ec, data, json, page));
  }

  lemma ReadingIsPrimed(c: Conn, k: Cont)
    requires Inv(c) && k in c.pending && (k.ReadRequest? || k.ReadResponse?)
    ensures Sound(c.base) && c.got == Apply(c.base, c.cfg.t) && c.out == [] && Finish(c, k).pending == multiset{}
  {
    hide Holding, FirstText, Bodies, FedAll, Protocol, Frames, Wire;
    Connection.Only(c, k);
  }

  lemma ResponseReadAct(c: Conn, ec: Ec, data: string, page: Page)
    requires Inv(c) && ReadResponse in c.pending
    ensures Sound(c.base) && c.got == Apply(c.base, c.cfg.t) && c.out == []
            && Finish(c, ReadResponse).pending == multiset{}
    ensures var d := Act(c, ResponseRead(ec, data, page));
            Inv(d) && d == HandleResponse(Finish(c, ReadResponse), ec, data, page)
  {
    hide Inv, HandleRequest, HandleResponse, HandleWritten, SendResponse, Connection.Start, Fresh, Apply, Sound, Finish;
    ReadingIsPrimed(c, ReadResponse);
    InvSound(c);
    ActKeeps(c, ResponseRead(ec, data, page));
  }

  lemma WrittenAct(c: Conn, ok: bool)
    requires Inv(c) && WriteResponse in c.pending
    ensures (c.image.Image? ==> c.image.stream.Ok()) && c.out != [] && Finish(c, WriteResponse).pending == multiset{}
    ensures var d := Act(c, ResponseWritten(ok)); Inv(d) && d == HandleWritten(Finish(c, WriteResponse), ok)
  {
    hide Inv, HandleRequest, HandleResponse, HandleWritten, SendResponse, Connection.Start, Fresh, Sound, Finish;
    InvSound(c);
    ActKeeps(c, ResponseWritten(ok));
    OutWritten(c);
  }

  lemma OutWritten(c: Conn)
    requires Inv(c) && WriteResponse in c.pending
    ensures c.out != [] && Finish(c, WriteResponse).pending == multiset{}
  {
    hide Base, FetchOk, Protocol, Frames, Wire;
    Connection.Only(c, WriteResponse);
  }

  lemma RenderedAct(c: Conn, code: int, bytes: string)
    requires Inv(c) && PoolTask in c.pending && (code == 200 || code == 500)
    ensures c.out == [] && Finish(c, PoolTask).pending == multiset{}
    ensures var d := Act(c, Rendered(code, bytes));
            && Inv(d)
            && d == SendResponse(Finish(c, PoolTask).(image := Image(Flat(bytes, |bytes|, true)), rendered := bytes),
               code)
  {
    hide Inv, HandleRequest, HandleResponse, HandleWritten, SendResponse, Connection.Start, Fresh, Sound, Finish;
    NothingOut(c, PoolTask);
    AloneOf(c, PoolTask);
    ActKeeps(c, Rendered(code, bytes));
    InvSound(c);
  }

  /** While a fetch is under way nothing has been written. */
  lemma FetchingAct(c: Conn, k: Cont, a: Action)
    requires Inv(c) && k in c.pending && Fetches(k)
    ensures c.out == [] && Finish(c, k).pending == multiset{} && Inv(Act(c, a))
  {
    hide Inv, Act;
    NothingOut(c, k);
    AloneOf(c, k);
    ActKeeps(c, a);
  }

  lemma AloneOf(c: Conn, k: Cont)
    requires Inv(c) && k in c.pending
    ensures Finish(c, k).pending == multiset{} && c.pending == multiset{k}
  {
    hide Base, OutOk, FetchOk;
    Connection.Only(c, k);
  }

  lemma NoWrite(m: multiset<Cont>, k: Cont)
    requires m == multiset{} && !k.WriteResponse? && !k.WriteRequest?
    ensures WriteResponse !in m + multiset{k} && WriteRequest !in m + multiset{k}
  {
  }

  /** http_parser_execute with the collector's callbacks. They have no say in how the parser goes on, so they are
      made here one after the other when it returns. */
  method Drive(parser: HttpParser, collector: HttpCollector, data: string) returns (n: nat)
    requires parser.Valid() && collector.Valid() && data != ""
    modifies parser, collector, collector.slots, collector.Fields(), collector.Values()
    ensures parser.Valid() && collector.Valid() && old(parser.log) <= parser.log
    ensures n == Consumed(old(parser.Cfg()), data)
    ensures var d := Feed(old(parser.Cfg()), data);
            d.p.errno.Ok? ==> parser.Cfg() == d.(left := false)
    ensures collector.State() == Apply(old(collector.State()), parser.log[|old(parser.log)|..])
  {
    hide Apply, Feed, Consumed, Sound, ConfigOk;
    var told := |parser.log|;
    ghost var lost;
    n, lost := parser.Execute(data);
    label executed:
    assert collector.State() == old(collector.State());
    collector.OnAll(parser.log[told..]);
  }

  /** HttpParser::Reset for a response. */
  method Restart(parser: HttpParser, collector: HttpCollector)
    requires collector.Valid()
    modifies parser, collector, collector.slots
    ensures parser.Valid() && parser.Cfg() == START
    ensures collector.Valid() && collector.State() == Fresh(old(collector.content))
  {
    hide Fresh, ConfigOk, Merged;
    parser.Reset(Response);
    collector.Reset();
  }

  class ProxyConnection {
    const buffer: array<char>
    const parser: HttpParser
    const collector: HttpCollector
    var peer: Peer
    var image: OptImage
    var imagePath: string
    var status: int
    var json: bool
    var info: PageInfo
    var cache: map<string, string>
    /** The part of the buffer that the pending write was given. */
    var from: nat
    var len: nat
    /** Whether all input so far was valid: if not, nothing is asked of the parser any more. */
    ghost var intact: bool
    ghost var cfg: Config
    ghost var base: Collected
    ghost var got: Collected
    ghost var pending: multiset<Cont>
    ghost var out: seq<Wrote>
    ghost var requested: string
    ghost var fetched: seq<seq<string>>
    ghost var received: seq<string>
    ghost var rendered: string
    ghost var puts: seq<Put>

    ghost function State(): Conn
      reads this
    {
      Conn(pending, out, image, peer, imagePath, status, json, info, cfg, base, got, cache,
           requested, fetched, received, rendered, puts)
    }

    /** The buffer is the connection's own. */
    ghost predicate Separate() {
      buffer.Length == BUFFER_SIZE && buffer !in collector.Fields() && buffer !in collector.Values()
    }

    /** The parser and the collector are in the state the machine says. */
    ghost predicate Linked()
      reads this`cfg, this`got, parser, collector, collector.slots, collector.Fields(), collector.Values()
    {
      parser.Valid() && collector.Valid() && parser.Cfg() == cfg && collector.State() == got
    }

    /** What the pending write was given. */
    ghost predicate Holds(text: string)
      reads this`from, this`len, buffer
    {
      from + len <= buffer.Length && buffer[from..from + len] == text
    }

    /** The pending write was given, in the buffer, what the machine says is written. */
    ghost predicate Loaded()
      reads this, buffer
    {
      && (WriteResponse in pending ==> out != [] && Holds(WireText(out[|out| - 1], info)))
      && (WriteRequest in pending ==> Holds(Clip(RequestText(peer.path, peer.host), BUFFER_SIZE)))
    }

    ghost predicate Valid()
      reads this, buffer, parser, collector, collector.slots, collector.Fields(), collector.Values()
    {
      Inv(State()) && Separate() && Loaded() && (intact ==> Linked()) && (out == [] ==> intact)
    }

    constructor (peer: Peer, cache: map<string, string>)
      ensures Valid() && State() == Started(peer, cache)
      ensures fresh(buffer) && fresh(parser) && fresh(collector)
    {
      hide Inv, Sound, Loaded, Linked, HttpParser.Valid;
      var buf := new char[BUFFER_SIZE];
      var p := new HttpParser(Request);
      var g := new HttpCollector(EMPTY);
      buffer, parser, collector := buf, p, g;
      this.peer, this.cache := peer, cache;
      image, imagePath, status, json, info := NoImage, "", -1, false, PageInfo(0, 0, 0);
      from, len, intact := 0, 0, true;
      cfg, base, got := UNREAD, Fresh(EMPTY), Fresh(EMPTY);
      pending, out, requested, fetched, received, rendered, puts := multiset{ReadRequest}, [], "", [], [], "", [];
      new;
      StartedOk(peer, cache);
      NothingLoaded();
      LinkedAgain();
    }

    /** The image is rewound, or given up; one that is missing or empty is an error. */
    method Settle(code: int)
      modifies this`status, this`image
      ensures var c := old(State());
              var d := SendResponse(c, code);
              State() == c.(status := d.status, image := d.image)
    {
      status := code;
      if code == 200 && !json {
        if image.NoImage? {
          status := 500;
        } else {
          image := Image(Rewound(image.stream));
          if image.stream.bytes == "" { status := 500; }
        }
      } else {
        image := NoImage;
      }
    }

    method LoadAnswer()
      requires buffer.Length == BUFFER_SIZE
      modifies this`from, this`len, buffer
      ensures Holds(Answer(status, json, info, BUFFER_SIZE))
    {
      hide Answer;
      from := 0;
      len := BuildResponse(buffer, status, json, info);
    }

    /** Writes a response head, as it stands in the buffer. */
    method Respond(code: int)
      requires Separate() && pending == multiset{}
      modifies this`status, this`image, this`out, this`pending, this`from, this`len, buffer
      ensures State() == SendResponse(old(State()), code) && Loaded() && out != []
    {
      hide Answer, Holds;
      Settle(code);
      LoadAnswer();
      out := out + [HeadOf(status, json)];
      pending := pending + multiset{WriteResponse};
    }

    /** Puts the image into the cache under its path. */
    method Remember(ghost hit: bool)
      requires image.Image?
      modifies this`cache, this`puts
      ensures State() == Cached(old(State()), hit)
    {
      cache := cache[imagePath := image.stream.bytes];
      puts := puts + [Put(imagePath, image.stream.bytes, hit, fetched, received, got.statusCode, got.messageComplete)];
    }

    /** The page is described as JSON. */
    method Describe(described: PageInfo)
      requires Separate() && pending == multiset{}
      modifies this`status, this`image, this`info, this`out, this`pending, this`from, this`len, buffer
      ensures State() == SendResponse(old(State()).(image := NoImage, info := described), 200) && Loaded()
    {
      hide SendResponse, Loaded;
      info := described;
      image := NoImage;
      Respond(200);
    }

    /** Starts an operation that is no write of this connection. */
    method Begin(k: Cont)
      requires pending == multiset{} && !k.WriteResponse? && !k.WriteRequest?
      modifies this`pending, this`from, this`len
      ensures State() == Connection.Start(old(State()), k) && Loaded()
    {
      hide Loaded;
      from, len := 0, 0;
      NoWrite(pending, k);
      pending := pending + multiset{k};
      NothingLoaded();
    }

    /** The page is to be rendered into a new stream, if the pool accepts it. */
    method Enqueue(queued: bool)
      requires Separate() && pending == multiset{}
      modifies this`status, this`image, this`out, this`pending, this`from, this`len, buffer
      ensures var d := old(State()).(image := Image(EMPTY));
              State() == if queued then Connection.Start(d, PoolTask) else SendResponse(d, 500)
      ensures Loaded()
    {
      hide SendResponse, Loaded, Connection.Start;
      image := Image(EMPTY);
      if queued { Begin(PoolTask); } else { Respond(500); }
    }

    method PageReady(page: Page, ghost hit: bool)
      requires Separate() && image.Image? && pending == multiset{}
      modifies this`status, this`image, this`info, this`cache, this`puts, this`out, this`pending, this`from, this`len,
        buffer
      ensures State() == SendPage(old(State()), page, hit) && Loaded()
    {
      hide SendResponse, SendPage, Cached, Loaded, Rewound, Connection.Start;
      PageOfRewound(State(), page, hit);
      image := Image(Rewound(image.stream));
      from, len := 0, 0;
      match page
      case NoDoc => Respond(500);
      case NoPage => NothingLoaded();
      case Page(queued, described) =>
        Remember(hit);
        if json { Describe(described); } else { Enqueue(queued); }
    }

    /** No write is pending. */
    lemma NothingLoaded()
      requires WriteResponse !in pending && WriteRequest !in pending && from == len == 0
      ensures Loaded()
    {
    }

    /** The operation is over, and its handler runs. */
    method Complete(k: Cont)
      requires Finish(State(), k).pending == multiset{}
      modifies this`pending, this`from, this`len
      ensures State() == Finish(old(State()), k) && Loaded()
    {
      hide Loaded;
      from, len := 0, 0;
      pending := pending - multiset{k};
      NothingLoaded();
    }

    /** What the parser hands over goes to the image from now on. */
    method FromPeer(stream: Flat)
      requires Linked() && pending == multiset{}
      modifies this`image, this`got, this`pending, this`from, this`len, collector`content
      ensures State() == Fetch(old(State()).(image := Image(stream))) && Loaded() && Linked()
    {
      hide Loaded, Connection.Start, HttpParser.Valid;
      collector.WriteTo(stream);
      image, got := Image(stream), got.(content := stream);
      Begin(Resolve);
    }

    method RespondLinked(code: int)
      requires Separate() && Linked() && pending == multiset{}
      modifies this`status, this`image, this`out, this`pending, this`from, this`len, buffer
      ensures State() == SendResponse(old(State()), code) && Loaded() && Linked()
    {
      hide SendResponse, Loaded;
      Respond(code);
    }

    method FromCache(page: Page)
      requires Separate() && Linked() && pending == multiset{} && imagePath in cache
      modifies this`status, this`image, this`info, this`cache, this`puts, this`out, this`pending, this`from, this`len,
        buffer
      ensures State() == SendPage(old(State()).(image := Image(Flat(old(cache[imagePath]), 0, true))), page, true)
      ensures Loaded() && Linked()
    {
      hide SendPage, Loaded, Linked;
      image := Image(Flat(cache[imagePath], 0, true));
      PageReady(page, true);
    }

    method Ask(page: Page)
      requires Separate() && Linked() && pending == multiset{}
      modifies this`status, this`image, this`imagePath, this`info, this`cache, this`puts, this`out, this`pending,
        this`from, this`len, this`got, buffer, collector`content
      ensures State() == SendRequest(old(State()), page) && Loaded() && Linked()
    {
      hide SendResponse, SendPage, Fetch, LowerAll, Loaded, Rewound, Linked;
      if LowerAll(peer.path) == FAVICON {
        RespondLinked(404);
      } else if image.NoImage? {
        imagePath := peer.path;
        if imagePath in cache { FromCache(page); } else { FromPeer(EMPTY); }
      } else {
        FromPeer(Rewound(image.stream));
      }
    }

    /** HttpParser::Parse: the parser runs over the data, and its callbacks fill the collector. Nothing is said of
        the collector after invalid data. */
    method ParseMore(data: string) returns (valid: bool)
      requires Separate() && Linked() && Sound(base) && got == Apply(base, cfg.t)
      modifies this`cfg, this`got, this`intact, parser, collector, collector.slots, collector.Fields(),
        collector.Values()
      ensures Parsed(valid, cfg, got) == Parse(old(cfg), base, data)
      ensures intact == valid && (intact ==> Linked())
    {
      hide Apply, Sound, Feed, Consumed;
      valid, intact := true, true;
      if data == "" {
        NothingParsed(cfg, base, got);
        return;
      }
      ghost var before := parser.log;
      var n := Drive(parser, collector, data);
      valid := n == |data|;
      if valid {
        AllConsumed(cfg, data);
        ToldAll(base, cfg, before, parser.log, data);
        cfg := Feed(cfg, data).(left := false);
        got := Apply(base, cfg.t);
      } else {
        cfg, got, intact := UNREAD, Fresh(EMPTY), false;
      }
    }

    /** The path field of the request's url, if there is one. */
    method PathOf(url: string) returns (path: string)
      ensures path == RequestPath(url)
    {
      hide ParseSpec;
      var r := ParseUrl(url, false);
      path := "";
      if r.Result? && Path in r.fields {
        FieldsAreExact(url, false, Path);
        path := Slice(url, r.fields[Path]);
      }
    }

    /** The peer is asked for: the request is built in the buffer and its writing is started. */
    method BeginAsking()
      requires Separate() && pending == multiset{}
      modifies this`pending, this`from, this`len, buffer
      ensures State() == Connection.Start(old(State()), WriteRequest) && Loaded()
    {
      hide Clip, RequestText, WireText;
      from := 0;
      len := BuildRequest(buffer, peer.path, peer.host);
      pending := pending + multiset{WriteRequest};
    }

    /** What the handlers read of the parser and the collector. */
    lemma LinkedReads()
      requires Linked()
      ensures Sound(got) && parser.p == cfg.p && collector.Valid() && collector.State() == got
      ensures collector.headersComplete == got.headersComplete && collector.messageComplete == got.messageComplete
      ensures collector.statusCode == got.statusCode && collector.url == got.url && collector.content == got.content
    {
    }

    method BeginLinked(k: Cont)
      requires Linked() && pending == multiset{} && !k.WriteResponse? && !k.WriteRequest?
      modifies this`pending, this`from, this`len
      ensures State() == Connection.Start(old(State()), k) && Loaded() && Linked()
    {
      hide Loaded, Connection.Start;
      Begin(k);
    }

    /** What is asked for. */
    method Look() returns (path: string, isGet: bool)
      requires Linked()
      ensures path == RequestPath(got.url) && isGet == cfg.p.verb.GET?
    {
      hide RequestPath, Linked;
      LinkedReads();
      path := PathOf(collector.url);
      isGet := parser.p.verb.GET?;
    }

    method SetPath(path: string)
      requires Linked()
      modifies this`peer, this`requested
      ensures State() == old(State()).(peer := old(peer).(path := path), requested := path) && Linked()
    {
      peer, requested := peer.(path := path), path;
    }

    method SetJson(wantsJson: bool)
      requires Linked()
      modifies this`json
      ensures State() == old(State()).(json := wantsJson) && Linked()
    {
      json := wantsJson;
    }

    /** A request whose headers are complete. */
    method AnswerRequest(wantsJson: bool, page: Page)
      requires Separate() && Linked() && pending == multiset{} && got.headersComplete
      modifies this`status, this`image, this`imagePath, this`info, this`cache, this`puts, this`out, this`pending,
        this`from, this`len, this`got, this`peer, this`requested, this`json, buffer, collector`content
      ensures State() == RequestParsed(old(State()), true, NoError, wantsJson, page) && Loaded() && Linked()
    {
      hide SendResponse, SendRequest, RequestPath, Loaded, Linked;
      var path, isGet := Look();
      SetJson(wantsJson);
      if !isGet || |path| < 2 {
        RespondLinked(400);
      } else {
        SetPath(path);
        Ask(page);
      }
    }

    method TakeRequest(valid: bool, ec: Ec, wantsJson: bool, page: Page)
      requires Separate() && (valid ==> Linked()) && pending == multiset{}
      modifies this`status, this`image, this`imagePath, this`info, this`cache, this`puts, this`out, this`pending,
        this`from, this`len, this`got, this`peer, this`requested, this`json, buffer, collector`content
      ensures State() == RequestParsed(old(State()), valid, ec, wantsJson, page) && Loaded()
      ensures if valid then Linked() else out != []
    {
      hide SendRequest, RequestPath, Loaded, Linked, Connection.Start;
      if !valid {
        Respond(400);
        return;
      }
      LinkedReads();
      if !collector.headersComplete {
        if ec.Eof? { RespondLinked(400); } else { BeginLinked(ReadRequest); }
      } else {
        AnswerRequest(wantsJson, page);
      }
    }

    /** The input is parsed and the request answered if it is complete. */
    method ReadOn(ec: Ec, data: string, wantsJson: bool, page: Page)
      requires Separate() && Linked() && pending == multiset{} && !ec.Failed?
      requires Sound(base) && got == Apply(base, cfg.t) && out == []
      modifies this, buffer, parser, collector, collector.slots, collector.Fields(), collector.Values()
      ensures State() == HandleRequest(old(State()), ec, data, wantsJson, page)
      ensures Loaded() && (intact ==> Linked()) && (out == [] ==> intact)
    {
      hide RequestParsed, Parse, Sound, Loaded, Linked, Apply;
      var valid := ParseMore(data);
      TakeRequest(valid, ec, wantsJson, page);
    }

    method HandleReadRequest(ec: Ec, data: string, wantsJson: bool, page: Page)
      requires Valid() && ReadRequest in pending
      modifies this, buffer, parser, collector, collector.slots, collector.Fields(), collector.Values()
      ensures Valid() && State() == Act(old(State()), RequestRead(ec, data, wantsJson, page))
    {
      hide RequestParsed, Parse, Inv, Sound, Act, Loaded, Linked, Apply;
      RequestReadAct(State(), ec, data, wantsJson, page);
      Complete(ReadRequest);
      if !ec.Failed? {
        ReadOn(ec, data, wantsJson, page);
      }
    }

    method HandleResolve(ok: bool, endpoints: nat)
      requires Valid() && Resolve in pending
      modifies this`pending, this`from, this`len
      ensures Valid() && State() == Act(old(State()), Resolved(ok, endpoints))
    {
      hide Inv, Sound, Loaded, Linked, HandleRequest, HandleResponse, HandleWritten, SendResponse, Connection.Start,
        Finish;
      InvSound(State());
      FetchingAct(State(), Resolve, Resolved(ok, endpoints));
      Complete(Resolve);
      if ok && endpoints > 0 { Begin(Connect(endpoints - 1)); }
    }

    /** On success the request is built in the buffer and its writing is started, else the next endpoint is tried. */
    method HandleConnect(ok: bool, more: nat)
      requires Valid() && Connect(more) in pending
      modifies this`pending, this`from, this`len, buffer
      ensures Valid() && State() == Act(old(State()), Connected(ok, more))
    {
      hide Inv, Sound, Loaded, Linked, HandleRequest, HandleResponse, HandleWritten, SendResponse, Connection.Start,
        Finish;
      InvSound(State());
      FetchingAct(State(), Connect(more), Connected(ok, more));
      Complete(Connect(more));
      if ok { BeginAsking(); } else if more > 0 { Begin(Connect(more - 1)); }
    }

    /** The parser starts anew, for a response; the stream that its bodies go to stays. */
    method Renew()
      requires Linked()
      modifies this`cfg, this`base, this`got, this`received, parser, collector, collector.slots
      ensures var c := old(State());
              State() == c.(cfg := START, base := Fresh(c.got.content), got := Fresh(c.got.content), received := [])
      ensures Linked()
    {
      hide Fresh, ConfigOk, Merged, Sound, Linked;
      LinkedReads();
      Restart(parser, collector);
      Tell(START, Fresh(got.content));
      LinkedAgain();
    }

    lemma LinkedAgain()
      requires parser.Valid() && collector.Valid() && parser.Cfg() == cfg && collector.State() == got
      ensures Linked()
    {
      hide HttpParser.Valid, HttpCollector.Valid, HttpParser.Cfg, HttpCollector.State;
    }

    /** The machine is told the state of a parser and a collector that have just been started. */
    ghost method Tell(c: Config, g: Collected)
      modifies this`cfg, this`base, this`got, this`received
      ensures State() == old(State()).(cfg := c, base := g, got := g, received := []) && cfg == c && got == g
    {
      cfg, base, got, received := c, g, g, [];
    }

    method HandleWriteRequest(ok: bool)
      requires Valid() && WriteRequest in pending
      modifies this`pending, this`from, this`len, this`cfg, this`base, this`got, this`received, parser, collector,
        collector.slots
      ensures Valid() && State() == Act(old(State()), RequestWritten(ok))
    {
      hide Inv, Sound, Loaded, Linked, HandleRequest, HandleResponse, HandleWritten, SendResponse, Connection.Start,
        Fresh;
      InvSound(State());
      FetchingAct(State(), WriteRequest, RequestWritten(ok));
      Complete(WriteRequest);
      if ok {
        Renew();
        Begin(ReadResponse);
      }
    }

    /** The next peer, if the Location header has what it takes. */
    method Locate(uri: string) returns (ok: bool)
      modifies this`peer
      ensures (ok, peer) == Connection.Located(uri, old(peer))
    {
      hide ParseSpec, Unprefixed, Slice;
      var r := ParseUrl(uri, false);
      if !r.Result? || Host !in r.fields {
        return false;
      }
      FieldsAreExact(uri, false, Host);
      FieldsAreExact(uri, false, Port);
      FieldsAreExact(uri, false, Path);
      var done, now := SetLocation(uri, peer);
      peer := now;
      return done;
    }

    /** The redirect is followed, or it cannot be. */
    method Redirect(page: Page)
      requires Separate() && Linked() && pending == multiset{}
      modifies this`status, this`image, this`imagePath, this`info, this`cache, this`puts, this`out, this`pending,
        this`from, this`len, this`got, this`peer, this`fetched, buffer, collector`content
      ensures Sound(old(got)) && State() == Redirected(old(State()), page) && Loaded() && Linked()
    {
      hide SendResponse, SendRequest, GetHeader, Connection.Located, Sound, Loaded, Linked;
      LinkedReads();
      var found, uri := collector.Lookup("Location");
      if !found {
        RespondLinked(500);
      } else {
        var ok := Move(uri);
        if ok { Ask(page); } else { RespondLinked(500); }
      }
    }

    /** Sets the next peer, and if it can be asked, what was received belongs to a redirect. */
    method Move(uri: string) returns (ok: bool)
      requires Linked()
      modifies this`peer, this`fetched
      ensures var (okay, next) := Connection.Located(uri, old(peer));
              && ok == okay
              && State() == old(State()).(peer := next, fetched := if ok then old(fetched) + [received]
                 else old(fetched))
      ensures Linked()
    {
      hide Connection.Located;
      ok := Locate(uri);
      if ok { fetched := fetched + [received]; }
    }

    /** The stream that the parser wrote to is the image. */
    method Keep()
      requires Linked()
      modifies this`image
      ensures State() == old(State()).(image := Image(got.content)) && Linked()
    {
      image := Image(collector.content);
    }

    /** A response whose headers are complete. */
    method UseResponse(ec: Ec, page: Page)
      requires Separate() && Linked() && pending == multiset{} && image.Image? && got.headersComplete && !ec.Failed?
      modifies this`status, this`image, this`imagePath, this`info, this`cache, this`puts, this`out, this`pending,
        this`from, this`len, this`got, this`peer, this`fetched, buffer, collector`content
      ensures Sound(old(got)) && State() == ResponseParsed(old(State()), ec, page) && Loaded() && Linked()
    {
      hide SendResponse, SendPage, Redirected, Sound, Loaded, Linked, Connection.Start;
      LinkedReads();
      if Redirects(collector.statusCode) {
        Redirect(page);
      } else if collector.statusCode != 200 {
        RespondLinked(collector.statusCode);
      } else if collector.messageComplete {
        PageLinked(page);
      } else if ec.Eof? {
        RespondLinked(500);
      } else {
        BeginLinked(ReadResponse);
      }
    }

    method PageLinked(page: Page)
      requires Separate() && Linked() && image.Image? && pending == multiset{}
      modifies this`status, this`image, this`info, this`cache, this`puts, this`out, this`pending, this`from, this`len,
        buffer
      ensures State() == SendPage(old(State()), page, false) && Loaded() && Linked()
    {
      hide SendPage, Loaded;
      PageReady(page, false);
    }

    method TakeResponse(ec: Ec, page: Page)
      requires Separate() && Linked() && pending == multiset{} && image.Image? && !ec.Failed?
      modifies this`status, this`image, this`imagePath, this`info, this`cache, this`puts, this`out, this`pending,
        this`from, this`len, this`got, this`peer, this`fetched, buffer, collector`content
      ensures Sound(old(got)) && State() == ResponseParsed(old(State()), ec, page) && Loaded() && Linked()
    {
      hide SendResponse, SendPage, Redirected, Sound, Loaded, Linked, Connection.Start;
      LinkedReads();
      if collector.headersComplete {
        UseResponse(ec, page);
      } else if ec.Eof? {
        RespondLinked(500);
      } else {
        BeginLinked(ReadResponse);
      }
    }

    ghost method Note(data: string)
      requires Linked()
      modifies this`received
      ensures State() == old(State()).(received := old(received) + [data]) && Linked()
    {
      received := received + [data];
    }

    /** More of a response is parsed. */
    method Receive(data: string) returns (valid: bool)
      requires Separate() && Linked() && Sound(base) && got == Apply(base, cfg.t)
      modifies this`received, this`image, this`cfg, this`got, this`intact, parser, collector, collector.slots,
        collector.Fields(), collector.Values()
      ensures var c := old(State());
              var r := Parse(c.cfg, c.base, data);
              var d := c.(cfg := r.cfg, got := r.got, received := c.received + [data]);
              valid == r.valid && State() == if valid then d.(image := Image(r.got.content)) else d
      ensures intact == valid && (intact ==> Linked())
    {
      hide Parse, Sound, Linked, Apply;
      Note(data);
      valid := ParseMore(data);
      if valid { Keep(); }
    }

    /** And what is known of it is acted on. */
    method ReceiveOn(ec: Ec, data: string, page: Page)
      requires Separate() && Linked() && pending == multiset{} && !ec.Failed?
      requires Sound(base) && got == Apply(base, cfg.t) && out == []
      modifies this, buffer, parser, collector, collector.slots, collector.Fields(), collector.Values()
      ensures State() == HandleResponse(old(State()), ec, data, page)
      ensures Loaded() && (intact ==> Linked()) && (out == [] ==> intact)
    {
      hide ResponseParsed, SendResponse, Parse, Sound, Loaded, Linked, Apply;
      var valid := Receive(data);
      if valid { TakeResponse(ec, page); } else { Respond(500); }
    }

    method HandleReadResponse(ec: Ec, data: string, page: Page)
      requires Valid() && ReadResponse in pending
      modifies this, buffer, parser, collector, collector.slots, collector.Fields(), collector.Values()
      ensures Valid() && State() == Act(old(State()), ResponseRead(ec, data, page))
    {
      hide ResponseParsed, Parse, Inv, Sound, Act, Loaded, Linked, Apply;
      ResponseReadAct(State(), ec, data, page);
      Complete(ReadResponse);
      if !ec.Failed? {
        ReceiveOn(ec, data, page);
      }
    }

    /** Called by the pool when the page has been rendered into the stream. */
    method HandleRendered(code: int, bytes: string)
      requires Valid() && PoolTask in pending && (code == 200 || code == 500)
      modifies this`status, this`image, this`rendered, this`out, this`pending, this`from, this`len, buffer
      ensures Valid() && State() == Act(old(State()), Rendered(code, bytes))
    {
      hide SendResponse, Inv, Sound, Act, Loaded, Linked;
      hide HttpParser.Valid, HttpCollector.Valid, HttpCollector.State, HttpParser.Cfg;
      RenderedAct(State(), code, bytes);
      Complete(PoolTask);
      Show(bytes);
      RespondLinked(code);
    }

    /** The rendered page is the image. */
    method Show(bytes: string)
      requires Linked()
      modifies this`image, this`rendered
      ensures State() == old(State()).(image := Image(Flat(bytes, |bytes|, true)), rendered := bytes) && Linked()
    {
      image, rendered := Image(Flat(bytes, |bytes|, true)), bytes;
    }

    method FrameData(data: string)
      requires buffer.Length == BUFFER_SIZE && |data| <= MAX_CHUNK_SIZE
      modifies this`from, this`len, buffer
      ensures Holds(Frame(data))
    {
      hide Frame;
      Memcpy(buffer, CHUNK_OFFSET, data);
      assert buffer[CHUNK_OFFSET..CHUNK_OFFSET + |data|] == data;
      from, len := BuildChunk(buffer, |data|);
    }

    /** Starts to write a chunk, as it stands in the buffer. */
    method Emit(data: string)
      requires Separate() && pending == multiset{} && |data| <= MAX_CHUNK_SIZE
      modifies this`out, this`pending, this`from, this`len, buffer
      ensures State() == Connection.Start(old(State()).(out := old(out) + [ChunkOf(data)]), WriteResponse)
      ensures Loaded() && out != []
    {
      hide Frame, Holds;
      FrameData(data);
      out := out + [ChunkOf(data)];
      pending := pending + multiset{WriteResponse};
    }

    /** The next chunk is framed in the buffer and its writing is started. */
    method WriteChunk()
      requires Separate() && pending == multiset{} && status == 200 && image.Image? && image.stream.Ok()
      modifies this`image, this`out, this`pending, this`from, this`len, buffer
      ensures State() == HandleWritten(old(State()), true) && Loaded() && out != []
    {
      hide Loaded, Connection.Start;
      var (stream, data) := image.stream.Read(MAX_CHUNK_SIZE);
      image := if data == "" then NoImage else Image(stream);
      Emit(data);
    }

    method HandleWriteResponse(ok: bool)
      requires Valid() && WriteResponse in pending
      modifies this`image, this`out, this`pending, this`from, this`len, buffer
      ensures Valid() && State() == Act(old(State()), ResponseWritten(ok))
    {
      hide Inv, Sound, Act, Loaded, Linked;
      WrittenAct(State(), ok);
      Complete(WriteResponse);
      if ok && status == 200 && image.Image? { WriteChunk(); }
    }
  }
}
