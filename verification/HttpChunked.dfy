/** Chunked bodies (section 3.6.1 of RFC 2616). */
module HttpChunked {
  import opened Bytes
  import opened HttpTypes
  import opened HttpSwitch
  import opened HttpStep
  import opened HttpExecute
  import opened HttpHeaders
  import opened HttpValues
  import opened HttpHead
  import opened HttpMessage

  // ---------- the size ----------

  predicate AllHex(s: string) { forall i :: 0 <= i < |s| ==> IsHex(s[i]) }

  /** The number a string of hexadecimal digits, in either case, denotes. */
  function HexValue(s: string): nat
    requires AllHex(s)
    decreases |s|
  {
    if s == "" then 0 else HexValue(s[..|s| - 1]) * 16 + Unhex(s[|s| - 1])
  }

  lemma HexSnoc(s: string, c: char)
    requires AllHex(s) && IsHex(c)
    ensures AllHex(s + [c]) && HexValue(s + [c]) == HexValue(s) * 16 + Unhex(c)
  {
    assert (s + [c])[..|s|] == s;
  }

  lemma {:induction false} HexGrows(s: string, more: string)
    requires AllHex(s) && AllHex(more)
    ensures AllHex(s + more) && HexValue(s) <= HexValue(s + more)
    decreases |more|
  {
    if more == "" {
      assert s + more == s;
    } else {
      HexSnoc(s, more[0]);
      HexGrows(s + [more[0]], more[1..]);
      assert s + [more[0]] + more[1..] == s + more;
    }
  }

  // ---------- one character ----------

  lemma ChunkStep(p: Parser, c: char)
    requires IsChunkState(p.state) && !TakesBody(p.state) && (ParsingHeader(p.state) ==> Room(p, 1))
    requires SwitchChunk(Counted(p), c).next.Break?
    ensures Step(p, c) == Outcome(SwitchChunk(Counted(p), c).p, [], false)
  {
    hide SwitchChunk;
    assert Switch(Counted(p), c) == SwitchChunk(Counted(p), c);
    ChunkArm(Counted(p), c);
  }

  lemma ChunkArm(p: Parser, c: char)
    requires IsChunkState(p.state) && !TakesBody(p.state)
    ensures Live(SwitchChunk(p, c).p.state).NoPart? && ActEvents(SwitchChunk(p, c).acts) == []
  {}

  lemma ChunkAfter(c: Config, ch: char)
    requires !Stopped(c) && IsChunkState(c.p.state) && !TakesBody(c.p.state)
             && (ParsingHeader(c.p.state) ==> Room(c.p, 1))
    requires SwitchChunk(Counted(c.p), ch).next.Break?
    ensures After(c, ch) == c.(p := SwitchChunk(Counted(c.p), ch).p)
  {
    hide Step, SwitchChunk;
    ChunkStep(c.p, ch);
    AbsorbNothing(c.t);
  }

  // ---------- the size line ----------

  predicate IsExtension(s: string) {
    (s != "" ==> s[0] == ';' || s[0] == ' ') && forall i :: 0 <= i < |s| ==> s[i] != CR
  }

  /** More of a size: as with Content-Length, the parser holds the number modulo 2^64. */
  lemma {:induction false} SizeRun(c: Config, read: string, size: string)
    requires !c.left && Room(c.p, |size|) && c.p.state.ChunkSize?
    requires AllHex(read) && AllHex(size) && c.p.contentLength == Mod64(HexValue(read))
    requires HexValue(read) != ULLONG_MAX
    ensures AllHex(read + size)
    ensures var d := Feed(c, size);
            && (HexValue(read + size) < ULLONG_MAX ==> d.p.errno.Ok?)
            && (d.p.errno.Ok? ==>
                  && d == c.(p := c.p.(nread := c.p.nread + |size|, contentLength := Mod64(HexValue(read + size))))
                  && HexValue(read + size) != ULLONG_MAX)
    decreases |size|
  {
    hide Step, Mod64, HexValue, AllHex;
    if size == "" {
      assert read + size == read;
    } else {
      var ch := size[0];
      HexSplit(size);
      HexSnoc(read, ch);
      HexGrows(read + [ch], size[1..]);
      assert read + [ch] + size[1..] == read + size;
      SizeOne(c, read, ch);
      var d := After(c, ch);
      if d.p.errno.Ok? { SizeRun(d, read + [ch], size[1..]); } else { assert Feed(d, size[1..]) == d; }
    }
  }

  lemma HexSplit(size: string)
    requires AllHex(size) && size != ""
    ensures IsHex(size[0]) && AllHex(size[1..])
  {
  }

  lemma SizeOne(c: Config, read: string, ch: char)
    requires !c.left && Room(c.p, 1) && c.p.state.ChunkSize? && IsHex(ch)
    requires AllHex(read) && c.p.contentLength == Mod64(HexValue(read)) && HexValue(read) != ULLONG_MAX
    requires AllHex(read + [ch]) && HexValue(read + [ch]) == HexValue(read) * 16 + Unhex(ch)
    ensures var d := After(c, ch);
            && (HexValue(read + [ch]) < ULLONG_MAX ==> d.p.errno.Ok?)
            && (d.p.errno.Ok? ==>
                  && d == c.(p := c.p.(nread := c.p.nread + 1, contentLength := Mod64(HexValue(read + [ch]))))
                  && HexValue(read + [ch]) != ULLONG_MAX)
  {
    hide Step, Mod64, HexValue, AllHex, Wrapped;
    HexDigit(ch);
    var digit: nat := Unhex(ch);
    WrappedIsModular(HexValue(read), 16, digit);
    WrappedIsModular(HexValue(read + [ch]), 16, 0);
    SizeSeen(HexValue(read), digit, HexValue(read + [ch]));
    SizeStep(c.p, ch);
    AbsorbNothing(c.t);
  }

  lemma HexDigit(ch: char)
    requires IsHex(ch)
    ensures 0 <= Unhex(ch) < 16
  {
  }

  lemma SizeSeen(n: nat, digit: nat, next: nat)
    requires digit < 16 && next == n * 16 + digit
    ensures next < ULLONG_MAX ==> Mod64(n) == n && Mod64(next) == next && next >= n
    ensures Mod64(next) != ULLONG_MAX ==> next != ULLONG_MAX
  {
  }

  lemma SizeStep(p: Parser, c: char)
    requires Room(p, 1) && p.state.ChunkSize? && IsHex(c) && Unhex(c) >= 0
    ensures var t := Wrapped(p.contentLength, 16, Unhex(c));
            var o := Step(p, c);
            if t < p.contentLength || t == ULLONG_MAX then !o.p.errno.Ok?
            else o == Outcome(p.(nread := p.nread + 1, contentLength := t), [], false)
  {
    hide Wrapped;
    assert Switch(Counted(p), c) == SwitchChunk(Counted(p), c);
  }

  lemma SizeFirst(c: Config, ch: char)
    requires !c.left && Room(c.p, 1) && c.p.state.ChunkSizeStart? && IsHex(ch)
    ensures After(c, ch) == c.(p := c.p.(nread := c.p.nread + 1, contentLength := Unhex(ch), state := ChunkSize))
  {
    hide Step;
    ChunkAfter(c, ch);
  }

  lemma {:induction false} ExtensionRun(c: Config, ext: string)
    requires !c.left && Room(c.p, |ext|) && c.p.state.ChunkParameters?
    requires forall i :: 0 <= i < |ext| ==> ext[i] != CR
    ensures Feed(c, ext) == c.(p := c.p.(nread := c.p.nread + |ext|))
    decreases |ext|
  {
    hide Step;
    if ext != "" {
      ChunkAfter(c, ext[0]);
      ExtensionRun(After(c, ext[0]), ext[1..]);
    }
  }

  function SizeLine(size: string, ext: string): string { size + ext + CRLF }

  /** The line of a chunk up to its line feed. */
  lemma SizeToCr(c: Config, size: string, ext: string)
    requires !c.left && Room(c.p, |size| + |ext| + 1) && c.p.state.ChunkSizeStart?
    requires size != "" && AllHex(size) && HexValue(size) < ULLONG_MAX && IsExtension(ext)
    ensures Feed(c, size + ext + [CR])
         == c.(p := c.p.(nread := c.p.nread + |size| + |ext| + 1, contentLength := HexValue(size),
                         state := ChunkSizeAlmostDone))
  {
    hide Step, HexValue, AllHex;
    var c2 := SizeRead(c, size);
    var c3 := c2;
    if ext != "" {
      ChunkAfter(c2, ext[0]);
      var d := After(c2, ext[0]);
      ExtensionRun(d, ext[1..]);
      c3 := Feed(d, ext[1..]);
      assert Feed(c2, ext) == c3;
    } else {
      assert Feed(c2, ext) == c2;
    }
    ChunkAfter(c3, CR);
    FeedOne(c3, CR);
    FeedConcat(c, size, ext);
    FeedConcat(c, size + ext, [CR]);
  }

  /** The line of a chunk: its size is taken exactly, its extension is ignored. */
  lemma SizeLineRead(c: Config, size: string, ext: string)
    requires !c.left && Room(c.p, |size| + |ext| + 2) && c.p.state.ChunkSizeStart?
    requires size != "" && AllHex(size) && HexValue(size) < ULLONG_MAX && IsExtension(ext)
    ensures var n := HexValue(size);
            var q := c.p.(nread := 0, contentLength := n);
            Feed(c, SizeLine(size, ext))
            == c.(p := if n == 0 then q.(flags := c.p.flags.(trailing := true), state := HeaderFieldStart)
               else q.(state := ChunkData))
  {
    hide Step, HexValue, AllHex, Feed;
    SizeToCr(c, size, ext);
    var d := Feed(c, size + ext + [CR]);
    ChunkAfter(d, LF);
    FeedOne(d, LF);
    FeedConcat(c, size + ext + [CR], [LF]);
    assert SizeLine(size, ext) == size + ext + [CR] + [LF];
  }

  lemma SizeRead(c: Config, size: string) returns (d: Config)
    requires !c.left && Room(c.p, |size|) && c.p.state.ChunkSizeStart?
    requires size != "" && AllHex(size) && HexValue(size) < ULLONG_MAX
    ensures d == Feed(c, size)
            == c.(p := c.p.(nread := c.p.nread + |size|, contentLength := HexValue(size), state := ChunkSize))
  {
    hide Step, HexValue, AllHex, Feed;
    SizeIsExact(c, size);
    d := Feed(c, size);
  }

  /** A chunk size is taken exactly iff it is below 2^64 - 1. */
  lemma SizeIsExact(c: Config, size: string)
    requires !c.left && Room(c.p, |size|) && c.p.state.ChunkSizeStart? && size != "" && AllHex(size)
    ensures var d := Feed(c, size);
            && (d.p.errno.Ok? && d.p.contentLength == HexValue(size) <==> HexValue(size) < ULLONG_MAX)
            && (d.p.errno.Ok? ==>
                  d == c.(p := c.p.(nread := c.p.nread + |size|, state := ChunkSize,
                    contentLength := Mod64(HexValue(size)))))
  {
    hide Step, HexValue, AllHex, Mod64, Feed;
    var ch := size[0];
    HexSplit(size);
    HexDigit(ch);
    SizeFirst(c, ch);
    FirstHex(ch);
    assert [ch] + size[1..] == size;
    FeedRest(c, size);
    SizeRun(After(c, ch), [ch], size[1..]);
    WrappedIsModular(HexValue(size), 16, 0);
    ModOfSmall(HexValue(size));
  }

  lemma FirstHex(ch: char)
    requires IsHex(ch) && Unhex(ch) >= 0
    ensures AllHex([ch]) && HexValue([ch]) == Unhex(ch) == Mod64(HexValue([ch])) && HexValue([ch]) < 16
  {
    HexSnoc("", ch);
    assert "" + [ch] == [ch];
  }

  // ---------- chunks ----------

  datatype Chunk = Chunk(size: string, ext: string, data: string)

  /** A chunk whose size line says how long its data is; the line alone counts against the header limit. */
  predicate ChunkOk(k: Chunk) {
    && k.size != "" && AllHex(k.size) && HexValue(k.size) == |k.data| && 0 < |k.data| < ULLONG_MAX
    && IsExtension(k.ext) && |k.size| + |k.ext| + 2 <= MAX_HEADER_SIZE
  }

  predicate ChunksOk(ks: seq<Chunk>) { forall i :: 0 <= i < |ks| ==> ChunkOk(ks[i]) }

  function ChunkText(k: Chunk): string { SizeLine(k.size, k.ext) + k.data + CRLF }

  function ChunksText(ks: seq<Chunk>): string {
    if ks == [] then "" else ChunkText(ks[0]) + ChunksText(ks[1..])
  }

  function ChunksData(ks: seq<Chunk>): string {
    if ks == [] then "" else ks[0].data + ChunksData(ks[1..])
  }

  predicate AtChunk(p: Parser) { p.errno.Ok? && p.state.ChunkSizeStart? && p.nread == 0 }

  /** One chunk: exactly its data is handed over, and the parser stands before the next size. */
  lemma ChunkRead(c: Config, k: Chunk)
    requires !c.left && AtChunk(c.p) && ChunkOk(k)
    ensures Feed(c, ChunkText(k)) == Config(c.p.(contentLength := 0), Push(c.t, Data(Body, k.data)), false)
  {
    hide Step, Push, HexValue, AllHex, IsExtension;
    SizeLineRead(c, k.size, k.ext);
    var c1 := Feed(c, SizeLine(k.size, k.ext));
    BodyRun(c1, k.data);
    var c2 := Feed(c1, k.data);
    AlmostDone(c2);
    var c3 := After(c2, CR);
    ChunkAfter(c3, LF);
    FeedTwo(c2, CR, LF);
    FeedConcat(c, SizeLine(k.size, k.ext), k.data);
    FeedConcat(c, SizeLine(k.size, k.ext) + k.data, CRLF);
  }

  lemma AlmostDone(c: Config)
    requires !Stopped(c) && c.p.state.ChunkDataAlmostDone?
    ensures After(c, CR) == c.(p := c.p.(state := ChunkDataDone))
  {
    hide Step;
    ChunkAfter(c, CR);
  }

  /** Where the data of a chunk stands, that is what is being marked. */
  lemma ChunkMarked(c: Config, k: Chunk, x: char, i: nat)
    requires !c.left && AtChunk(c.p) && ChunkOk(k)
    requires |SizeLine(k.size, k.ext)| <= i <= |SizeLine(k.size, k.ext)| + |k.data|
    ensures var data, from := SizeLine(k.size, k.ext) + k.data + [x], |SizeLine(k.size, k.ext)|;
            && PartAt(c, data, i) == Of(Body) && PartAt(c, data, from - 1) != Of(Body)
            && (i == from + |k.data| ==> Feed(c, data[..i]).p.state.ChunkDataAlmostDone? && !Stopped(Feed(c, data[..i])))
  {
    hide Step, Push, HexValue, AllHex, IsExtension, Feed;
    var line := SizeLine(k.size, k.ext);
    var data := line + k.data + [x];
    assert data[..|line| - 1] == k.size + k.ext + [CR];
    SizeToCr(c, k.size, k.ext);
    SizeLineRead(c, k.size, k.ext);
    var part := k.data[..i - |line|];
    assert data[..i] == line + part;
    FeedConcat(c, line, part);
    if part == "" { assert Feed(Feed(c, line), part) == Feed(c, line) by { NothingFed(Feed(c, line)); } }
    else { BodyRun(Feed(c, line), part); }
  }

  lemma NothingFed(c: Config)
    ensures Feed(c, "") == c
  {
  }

  lemma {:induction false} ChunkSince(c: Config, k: Chunk, x: char, i: nat)
    requires !c.left && AtChunk(c.p) && ChunkOk(k)
    requires |SizeLine(k.size, k.ext)| <= i <= |SizeLine(k.size, k.ext)| + |k.data|
    ensures Since(c, SizeLine(k.size, k.ext) + k.data + [x], i) == |SizeLine(k.size, k.ext)|
    decreases i
  {
    hide PartAt, ChunkOk, AtChunk;
    var from := |SizeLine(k.size, k.ext)|;
    assert from >= 2;
    ChunkMarked(c, k, x, i);
    if i == from {
      assert PartAt(c, SizeLine(k.size, k.ext) + k.data + [x], i - 1) != Of(Body);
    } else {
      ChunkMarked(c, k, x, i - 1);
      ChunkSince(c, k, x, i - 1);
    }
  }

  /** A chunk that is not followed by a line end, all in one buffer: the error is raised behind its data, and
      the data are what is not handed over. */
  lemma LostChunk(c: Config, k: Chunk, x: char)
    requires !c.left && AtChunk(c.p) && ChunkOk(k) && x != CR
    ensures var data := SizeLine(k.size, k.ext) + k.data + [x];
            var n := |data| - 1;
            && Feed(c, data).p.errno.Strict? && Consumed(c, data) == n
            && Marking(c, data, n) == [Data(Body, k.data)]
  {
    hide Feed, Consumed, Step, HexValue, AllHex, IsExtension, PartAt, Since;
    var line := SizeLine(k.size, k.ext);
    var data, n := line + k.data + [x], |line| + |k.data|;
    ChunkMarked(c, k, x, n);
    ChunkSince(c, k, x, n);
    var d := Feed(c, data[..n]);
    NoLineEnd(d, x);
    assert data == data[..n] + [x];
    FeedConcat(c, data[..n], [x]);
    ConsumedConcat(c, data[..n], [x]);
    ConsumedExactly(c, data[..n]);
    assert data[|line|..n] == k.data;
  }

  lemma NoLineEnd(d: Config, x: char)
    requires !Stopped(d) && d.p.state.ChunkDataAlmostDone? && x != CR
    ensures Feed(d, [x]).p.errno.Strict? && Consumed(d, [x]) == 0
  {
    assert Switch(d.p, x) == SwitchChunk(d.p, x);
    FeedOne(d, x);
  }

  lemma {:induction false} ChunksRead(c: Config, ks: seq<Chunk>)
    requires !c.left && AtChunk(c.p) && ChunksOk(ks)
    ensures Feed(c, ChunksText(ks))
         == if ks == [] then c else Config(c.p.(contentLength := 0), Push(c.t, Data(Body, ChunksData(ks))), false)
    decreases |ks|
  {
    hide Step, Push, ChunkOk, ChunkText;
    if ks != [] {
      ChunkRead(c, ks[0]);
      var d := Feed(c, ChunkText(ks[0]));
      FeedConcat(c, ChunkText(ks[0]), ChunksText(ks[1..]));
      ChunksRead(d, ks[1..]);
      if |ks| > 1 { PushPush(c.t, Body, ks[0].data, ChunksData(ks[1..])); }
      else { assert ks[0].data + "" == ks[0].data; }
    }
  }

  // ---------- the last chunk ----------

  /** The last chunk has size 0; trailer headers and a blank line follow it. */
  datatype Last = Last(size: string, ext: string, trailer: seq<Entry>, blank: string)

  predicate LastOk(l: Last) {
    && l.size != "" && AllHex(l.size) && HexValue(l.size) == 0 && IsExtension(l.ext) && EntriesOk(l.trailer)
       && IsBreak(l.blank)
    && |l.size| + |l.ext| + 2 <= MAX_HEADER_SIZE && |HeadersText(l.trailer)| + |l.blank| <= MAX_HEADER_SIZE
  }

  function LastText(l: Last): string { SizeLine(l.size, l.ext) + HeadersText(l.trailer) + l.blank }

  lemma TrailerDispatch(p: Parser)
    requires p.state.HeadersAlmostDone? && p.flags.trailing
    ensures Dispatch(p, LF) == Outcome(p.(state := NewMessage(p)), [MessageComplete], false)
  {
    hide NewMessage, Dispatch, Switch;
    TrailerArm(p);
    DispatchOnce(p, LF);
    NewMessageQuiet(p);
  }

  lemma TrailerArm(p: Parser)
    requires p.state.HeadersAlmostDone? && p.flags.trailing
    ensures Switch(p, LF) == Complete(p, Break)
  {
    hide NewMessage;
    assert Switch(p, LF) == SwitchHeaderEnd(p, LF);
  }

  /** The blank line after the trailer ends the message. */
  lemma TrailerEnds(c: Config, end: string)
    requires !c.left && Room(c.p, |end|) && LineStart(c.p.state) && c.p.flags.trailing && IsBreak(end)
    ensures Feed(c, end)
         == Config(c.p.(nread := c.p.nread + |end|, state := NewMessage(c.p)), Push(c.t, MessageComplete), false)
  {
    hide Push, NewMessage, Dispatch, Feed, IsBreak;
    BlankLine(c, end);
    var p := c.p.(nread := c.p.nread + |end|, state := HeadersAlmostDone);
    TrailerDispatch(p);
    NewMessageSame(p, c.p);
    Absorb1(c.t, MessageComplete);
  }

  /** The struct after the last chunk: the trailer's flags count, the message is over. */
  function LastSeen(p: Parser, trailer: seq<Entry>): Parser
    requires EntriesOk(trailer)
  {
    HeadersSeen(p.(contentLength := 0, flags := p.flags.(trailing := true)), trailer)
  }

  lemma {:induction false} SeenKeeps(p: Parser, hs: seq<Entry>)
    requires EntriesOk(hs)
    ensures var q := HeadersSeen(p, hs);
            q.flags.trailing == p.flags.trailing && q.errno == p.errno && q.flags.skipBody == p.flags.skipBody
              && q.verb == p.verb
    decreases |hs|
  {
    hide Spaced, IsWord, LowerAll;
    if hs != [] { SeenKeeps(EntryRead(p, hs[0]), hs[1..]); }
  }

  lemma LastRead(c: Config, l: Last)
    requires !c.left && AtChunk(c.p) && LastOk(l)
    ensures var d := Feed(c, LastText(l));
            && d.t == Push(HeaderCalls(c.t, l.trailer), MessageComplete) && !d.left
            && d.p.state == NewMessage(LastSeen(c.p, l.trailer)) && d.p.nread == |HeadersText(l.trailer)| + |l.blank|
            && SameButMatcher(LastSeen(c.p, l.trailer), d.p)
  {
    hide Feed, Push, HexValue, AllHex, IsExtension, NewMessage, EntryOk, HeadersSeen, IsBreak;
    var line := SizeLine(l.size, l.ext);
    SizeLineRead(c, l.size, l.ext);
    var c1 := Feed(c, line);
    HeadersRead(c1, l.trailer);
    var q0 := c.p.(contentLength := 0, flags := c.p.flags.(trailing := true));
    SeenKeeps(q0, l.trailer);
    SeenSame(q0, c1.p, l.trailer);
    var c2 := Feed(c1, HeadersText(l.trailer));
    TrailerEnds(c2, l.blank);
    NewMessageSame(LastSeen(c.p, l.trailer), c2.p);
    FeedConcat(c, line, HeadersText(l.trailer));
    FeedConcat(c, line + HeadersText(l.trailer), l.blank);
  }

  /** A chunked body: any chunks, then the last chunk and the trailer. All of it is consumed, the body
      handed over is the concatenated data, and the message is completed once. */
  lemma ChunkedBodyRead(c: Config, ks: seq<Chunk>, l: Last)
    requires !c.left && AtChunk(c.p) && ChunksOk(ks) && LastOk(l)
    ensures var text := ChunksText(ks) + LastText(l);
            var body := if ks == [] then c.t else Push(c.t, Data(Body, ChunksData(ks)));
            var d := Feed(c, text);
            && d.t == Push(HeaderCalls(body, l.trailer), MessageComplete)
            && d.p.errno.Ok? && !d.left && d.p.nread == |HeadersText(l.trailer)| + |l.blank|
            && d.p.state == NewMessage(LastSeen(c.p, l.trailer)) && SameButMatcher(LastSeen(c.p, l.trailer), d.p)
            && Consumed(c, text) == |text|
  {
    hide Step, Push, LastOk, ChunksOk, NewMessage, HeadersSeen, LastText, LastSeen;
    ChunksRead(c, ks);
    var d := Feed(c, ChunksText(ks));
    var text := ChunksText(ks) + LastText(l);
    FeedConcat(c, ChunksText(ks), LastText(l));
    LastRead(d, l);
    LastLength(c.p, l);
    LastErrno(d.p, l);
    ConsumedExactly(c, text);
  }

  lemma LastLength(p: Parser, l: Last)
    requires LastOk(l)
    ensures LastSeen(p.(contentLength := 0), l.trailer) == LastSeen(p, l.trailer)
  { hide HeadersSeen; }

  lemma LastErrno(p: Parser, l: Last)
    requires LastOk(l)
    ensures LastSeen(p, l.trailer).errno == p.errno
  {
    hide HeadersSeen, HexValue, AllHex, EntryOk;
    SeenKeeps(p.(contentLength := 0, flags := p.flags.(trailing := true)), l.trailer);
  }
}
