/** Whole messages: the status line, a list of headers, the end of the head and the body it frames. */
module HttpMessage {
  import opened Bytes
  import opened HttpTypes
  import opened HttpSwitch
  import opened HttpStep
  import opened HttpInvariant
  import opened HttpExecute
  import opened HttpHeaders
  import opened HttpValues
  import opened HttpHead
  import opened HttpFolded

  // ---------- the first line ----------

  lemma FeedFour(c: Config, w: string, c1: Config, c2: Config, c3: Config, c4: Config)
    requires |w| == 4 && !Stopped(c) && !Stopped(c1) && !Stopped(c2) && !Stopped(c3)
    requires After(c, w[0]) == c1 && After(c1, w[1]) == c2 && After(c2, w[2]) == c3 && After(c3, w[3]) == c4
    ensures Feed(c, w) == c4
  {
    hide Step;
    assert w == [w[0], w[1]] + [w[2], w[3]];
    FeedConcat(c, [w[0], w[1]], [w[2], w[3]]);
    FeedTwo(c, w[0], w[1]);
    FeedTwo(c2, w[2], w[3]);
  }

  function LineArm(p: Parser, c: char): Arm {
    if IsStatusState(p.state) then SwitchStatusLine(p, c) else SwitchVersion(p, c)
  }

  lemma LineStep(p: Parser, c: char)
    requires Room(p, 1) && (IsStatusState(p.state) || IsVersionState(p.state)) && LineArm(Counted(p), c).next.Break?
    ensures var a := LineArm(Counted(p), c); Step(p, c) == Outcome(a.p, ActEvents(a.acts), false)
  {
    hide SwitchStatusLine, SwitchVersion, Dispatch, Switch;
    LineSwitch(Counted(p), c);
    ShapeLines(Counted(p), c);
    DispatchOnce(Counted(p), c);
  }

  lemma LineSwitch(p: Parser, c: char)
    requires IsStatusState(p.state) || IsVersionState(p.state)
    ensures Switch(p, c) == LineArm(p, c)
  {
    hide SwitchStatusLine, SwitchVersion;
  }

  /** Where a character of the fixed part of a status line, or of the version in a request, leads. */
  function LineMove(s: State, c: char): State {
    if s.ResH? && c == 'T' then ResHT
    else if s.ResHT? && c == 'T' then ResHTT
    else if s.ResHTT? && c == 'P' then ResHTTP
    else if s.ResHTTP? && c == '/' then ResFirstMajor
    else if s.ResMajor? && c == '.' then ResFirstMinor
    else if s.ResMinor? && c == ' ' then ResFirstStatusCode
    else if s.ResStatusCode? && c == ' ' then ResStatus
    else if (s.ResStatusCode? || s.ResStatus?) && c == CR then ResLineAlmostDone
    else if (s.ResStatusCode? || s.ResStatus?) && c == LF then HeaderFieldStart
    else if s.ResStatus? then ResStatus
    else if s.ReqHttpStart? && c == 'H' then ReqHttpH
    else if s.ReqHttpH? && c == 'T' then ReqHttpHT
    else if s.ReqHttpHT? && c == 'T' then ReqHttpHTT
    else if s.ReqHttpHTT? && c == 'P' then ReqHttpHTTP
    else if s.ReqHttpHTTP? && c == '/' then ReqFirstMajor
    else if s.ReqMajor? && c == '.' then ReqFirstMinor
    else if s.ReqMinor? && c == CR then ReqLineAlmostDone
    else if (s.ReqMinor? || s.ReqLineAlmostDone?) && c == LF then HeaderFieldStart
    else Dead
  }

  lemma LineMoves(c: Config, ch: char)
    requires !c.left && Room(c.p, 1) && !LineMove(c.p.state, ch).Dead?
    ensures After(c, ch) == c.(p := c.p.(nread := c.p.nread + 1, state := LineMove(c.p.state, ch)))
  {
    hide Step;
    AbsorbNothing(c.t);
    LineStep(c.p, ch);
  }

  // ---------- the numbers in it ----------

  /** What comes behind the first digit of a version number or of the status code. */
  function Counting(s: State): State {
    if s.ResFirstMajor? then ResMajor
    else if s.ResFirstMinor? then ResMinor
    else if s.ResFirstStatusCode? then ResStatusCode
    else if s.ReqFirstMajor? then ReqMajor
    else if s.ReqFirstMinor? then ReqMinor
    else Dead
  }

  predicate Counts(s: State) { s.ResMajor? || s.ResMinor? || s.ResStatusCode? || s.ReqMajor? || s.ReqMinor? }

  function NumberOf(p: Parser): nat {
    if p.state.ResMajor? || p.state.ReqMajor? then p.httpMajor
    else if p.state.ResMinor? || p.state.ReqMinor? then p.httpMinor
    else p.statusCode
  }

  function WithNumber(p: Parser, n: nat): Parser {
    if p.state.ResMajor? || p.state.ReqMajor? then p.(httpMajor := n)
    else if p.state.ResMinor? || p.state.ReqMinor? then p.(httpMinor := n)
    else p.(statusCode := n)
  }

  predicate IsNumber(s: string) { s != "" && AllDigits(s) && Decimal(s) <= 999 }

  lemma NumberFirst(c: Config, ch: char)
    requires !c.left && Room(c.p, 1) && !Counting(c.p.state).Dead? && IsNum(ch)
             && (c.p.state.ReqFirstMajor? ==> ch != '0')
    ensures After(c, ch)
         == c.(p := WithNumber(c.p.(nread := c.p.nread + 1, state := Counting(c.p.state)), DigitVal(ch)))
  {
    hide Step;
    AbsorbNothing(c.t);
    LineStep(c.p, ch);
  }

  lemma NumberNext(c: Config, ch: char)
    requires !c.left && Room(c.p, 1) && Counts(c.p.state) && IsNum(ch) && NumberOf(c.p) * 10 + DigitVal(ch) <= 999
    ensures After(c, ch) == c.(p := WithNumber(c.p.(nread := c.p.nread + 1), NumberOf(c.p) * 10 + DigitVal(ch)))
  {
    hide Step;
    AbsorbNothing(c.t);
    LineStep(c.p, ch);
  }

  lemma {:induction false} NumberRun(c: Config, read: string, digits: string)
    requires !c.left && Room(c.p, |digits|) && Counts(c.p.state)
    requires AllDigits(read) && AllDigits(digits) && AllDigits(read + digits)
    requires NumberOf(c.p) == Decimal(read) && Decimal(read + digits) <= 999
    ensures Feed(c, digits) == c.(p := WithNumber(c.p.(nread := c.p.nread + |digits|), Decimal(read + digits)))
    decreases |digits|
  {
    hide Step, Decimal;
    if digits == "" {
      assert read + digits == read;
    } else {
      var ch := digits[0];
      DecimalSnoc(read, ch);
      DecimalGrows(read + [ch], digits[1..]);
      assert read + [ch] + digits[1..] == read + digits;
      NumberNext(c, ch);
      NumberRun(After(c, ch), read + [ch], digits[1..]);
    }
  }

  /** A number of up to 999, with any number of zeros in front of it but in the major version of a request. */
  lemma NumberRead(c: Config, digits: string)
    requires !c.left && Room(c.p, |digits|) && !Counting(c.p.state).Dead? && IsNumber(digits)
    requires c.p.state.ReqFirstMajor? ==> digits[0] != '0'
    ensures Feed(c, digits)
         == c.(p := WithNumber(c.p.(nread := c.p.nread + |digits|, state := Counting(c.p.state)), Decimal(digits)))
  {
    hide Step, Decimal, Feed;
    var ch := digits[0];
    DecimalSnoc("", ch);
    assert "" + [ch] == [ch] && [ch] + digits[1..] == digits;
    NoDigits();
    NumberFirst(c, ch);
    FeedRest(c, digits);
    NumberRun(After(c, ch), [ch], digits[1..]);
  }

  lemma NoDigits()
    ensures Decimal("") == 0
  {
  }

  // ---------- HTTP/d.d ----------

  function Version(major: string, minor: string): string { "TTP/" + major + "." + minor }

  /** A version behind its H, in a status line or a request. */
  lemma VersionRead(c: Config, major: string, minor: string)
    requires !c.left && Room(c.p, 5 + |major| + |minor|) && (c.p.state.ResH? || c.p.state.ReqHttpH?)
    requires IsNumber(major) && IsNumber(minor) && (c.p.state.ReqHttpH? ==> major[0] != '0')
    ensures Feed(c, Version(major, minor))
         == c.(p := c.p.(nread := c.p.nread + 5 + |major| + |minor|,
                         state := if c.p.state.ResH? then ResMinor else ReqMinor,
                         httpMajor := Decimal(major), httpMinor := Decimal(minor)))
  {
    hide Step, Feed, IsNumber;
    hide Version;
    TtpSlash(c);
    var d := Feed(c, "TTP/");
    MajorRead(d, major);
    MinorRead(Feed(d, major + "."), minor);
    FeedConcat(c, "TTP/", major + ".");
    FeedConcat(c, "TTP/" + (major + "."), minor);
    VersionText(major, minor);
  }

  lemma VersionText(major: string, minor: string)
    ensures Version(major, minor) == "TTP/" + (major + ".") + minor
  {
  }

  lemma MinorRead(c: Config, minor: string)
    requires !c.left && Room(c.p, |minor|) && (c.p.state.ResFirstMinor? || c.p.state.ReqFirstMinor?) && IsNumber(minor)
    ensures Feed(c, minor)
         == c.(p := c.p.(nread := c.p.nread + |minor|, httpMinor := Decimal(minor),
                         state := if c.p.state.ResFirstMinor? then ResMinor else ReqMinor))
  {
    hide Step, Feed, IsNumber;
    NumberRead(c, minor);
  }

  lemma MajorRead(c: Config, major: string)
    requires !c.left && Room(c.p, 1 + |major|) && (c.p.state.ResFirstMajor? || c.p.state.ReqFirstMajor?)
    requires IsNumber(major) && (c.p.state.ReqFirstMajor? ==> major[0] != '0')
    ensures Feed(c, major + ".")
         == c.(p := c.p.(nread := c.p.nread + |major| + 1, httpMajor := Decimal(major),
                         state := if c.p.state.ResFirstMajor? then ResFirstMinor else ReqFirstMinor))
  {
    hide Step, Feed, IsNumber;
    NumberRead(c, major);
    var d := Feed(c, major);
    LineMoves(d, '.');
    FeedOne(d, '.');
    FeedConcat(c, major, ".");
  }

  lemma TtpSlash(c: Config)
    requires !c.left && Room(c.p, 4) && (c.p.state.ResH? || c.p.state.ReqHttpH?)
    ensures Feed(c, "TTP/")
         == c.(p := c.p.(nread := c.p.nread + 4, state := if c.p.state.ResH? then ResFirstMajor else ReqFirstMajor))
  {
    hide Step;
    LineMoves(c, 'T');
    var c1 := After(c, 'T');
    LineMoves(c1, 'T');
    var c2 := After(c1, 'T');
    LineMoves(c2, 'P');
    var c3 := After(c2, 'P');
    LineMoves(c3, '/');
    FeedFour(c, "TTP/", c1, c2, c3, After(c3, '/'));
  }

  lemma FeedFour4(c: Config, w1: string, w2: string, w3: string, w4: string)
    ensures Feed(c, w1 + w2 + w3 + w4) == Feed(Feed(Feed(Feed(c, w1), w2), w3), w4)
  {
    hide Feed;
    FeedConcat(c, w1, w2);
    FeedConcat(c, w1 + w2, w3);
    FeedConcat(c, w1 + w2 + w3, w4);
  }

  // ---------- the status line ----------

  /** What may stand behind the code: nothing, or a blank and any reason. */
  predicate IsReason(s: string) { NoBreaks(s) && (s != "" ==> s[0] == ' ') }

  function StatusLine(major: string, minor: string, code: string, reason: string, end: string): string {
    "H" + Version(major, minor) + " " + code + reason + end
  }

  /** The calls of a status line: one that ends in a bare line feed is not reported as complete. */
  function StatusCalls(t: seq<Event>, end: string): seq<Event> {
    if end == CRLF then Push(Push(t, MessageBegin), StatusComplete) else Push(t, MessageBegin)
  }

  /** The struct after it. */
  function StatusRead(p: Parser, major: string, minor: string, code: string, length: nat): Parser
    requires IsNumber(major) && IsNumber(minor) && IsNumber(code)
  {
    Cleared(p).(nread := p.nread + length, state := HeaderFieldStart, httpMajor := Decimal(major),
                httpMinor := Decimal(minor), statusCode := Decimal(code))
  }

  lemma ResponseBegins(p: Parser)
    requires Room(p, 1) && p.state.StartRes?
    ensures Step(p, 'H') == Outcome(Cleared(Counted(p)).(state := ResH), [MessageBegin], false)
  {
    assert Switch(Counted(p), 'H') == SwitchStart(Counted(p), 'H');
  }

  lemma {:induction false} ReasonRun(c: Config, reason: string)
    requires !c.left && Room(c.p, |reason|) && c.p.state.ResStatus? && NoBreaks(reason)
    ensures Feed(c, reason) == c.(p := c.p.(nread := c.p.nread + |reason|))
    decreases |reason|
  {
    hide Step;
    if reason != "" {
      LineMoves(c, reason[0]);
      ReasonRun(After(c, reason[0]), reason[1..]);
    }
  }

  /** The reason and the end of the line. */
  lemma ReasonRead(c: Config, reason: string, end: string)
    requires !c.left && Room(c.p, |reason| + |end|) && c.p.state.ResStatusCode? && IsReason(reason) && IsBreak(end)
    ensures Feed(c, reason + end)
         == Config(c.p.(nread := c.p.nread + |reason| + |end|, state := HeaderFieldStart),
                   if end == CRLF then Push(c.t, StatusComplete) else c.t, false)
  {
    hide Step, Push;
    var d := c;
    if reason != "" {
      LineMoves(c, ' ');
      ReasonRun(After(c, ' '), reason[1..]);
      d := Feed(c, reason);
    }
    assert d == c.(p := c.p.(nread := c.p.nread + |reason|, state := d.p.state)) && d == Feed(c, reason);
    LineBreak(d, end);
    FeedConcat(c, reason, end);
  }

  lemma LineBreak(c: Config, end: string)
    requires !c.left && Room(c.p, |end|) && IsBreak(end)
    requires c.p.state.ResStatusCode? || c.p.state.ResStatus? || c.p.state.ReqMinor?
    ensures Feed(c, end)
         == Config(c.p.(nread := c.p.nread + |end|, state := HeaderFieldStart),
                   if end == CRLF && !c.p.state.ReqMinor? then Push(c.t, StatusComplete) else c.t, false)
  {
    hide Step, Push;
    if end == CRLF {
      LineMoves(c, CR);
      var d := After(c, CR);
      if c.p.state.ReqMinor? { LineMoves(d, LF); } else { StatusLineEnds(d); }
      FeedTwo(c, CR, LF);
    } else {
      LineMoves(c, LF);
      FeedOne(c, LF);
    }
  }

  lemma StatusLineEnds(c: Config)
    requires !c.left && Room(c.p, 1) && c.p.state.ResLineAlmostDone?
    ensures After(c, LF)
         == Config(c.p.(nread := c.p.nread + 1, state := HeaderFieldStart), Push(c.t, StatusComplete), false)
  {
    hide Step, Push;
    Absorb1(c.t, StatusComplete);
    LineStep(c.p, LF);
  }

  /** A status line: numbers of up to 999, any reason or none. */
  lemma StatusLineRead(c: Config, major: string, minor: string, code: string, reason: string, end: string)
    requires !c.left && c.p.state.StartRes? && Room(c.p, |StatusLine(major, minor, code, reason, end)|)
    requires IsNumber(major) && IsNumber(minor) && IsNumber(code) && IsReason(reason) && IsBreak(end)
    ensures var line := StatusLine(major, minor, code, reason, end);
            Feed(c, line) == Config(StatusRead(c.p, major, minor, code, |line|), StatusCalls(c.t, end), false)
  {
    hide Step, Push, Decimal, Feed, Cleared, IsReason;
    Absorb1(c.t, MessageBegin);
    ResponseBegins(c.p);
    ClearedCounts(c.p);
    FeedOne(c, 'H');
    var c1 := After(c, 'H');
    VersionRead(c1, major, minor);
    var c2 := Feed(c1, Version(major, minor));
    LineMoves(c2, ' ');
    FeedOne(c2, ' ');
    var c3 := After(c2, ' ');
    NumberRead(c3, code);
    var c4 := Feed(c3, code);
    ReasonRead(c4, reason, end);
    FeedFour4(c, "H", Version(major, minor), " ", code);
    FeedConcat(c, "H" + Version(major, minor) + " " + code, reason + end);
    assert StatusLine(major, minor, code, reason, end) == "H" + Version(major, minor) + " " + code + (reason + end);
  }

  lemma ClearedCounts(p: Parser)
    requires ParsingHeader(p.state)
    ensures Cleared(Counted(p)) == Cleared(p).(nread := p.nread + 1) && Cleared(p).errno == p.errno
  {
  }

  // ---------- a list of headers ----------

  /** A header, its value on one line or on several. */
  datatype Entry = Entry(name: string, blanks: string, value: string, end: string, folds: seq<Fold> := []) {
    /** The value as it is handed over. */
    function Whole(): string { value + Joined(folds) }

    /** The line of the value that a length is taken from. */
    function LastLine(): string { if folds == [] then value else folds[|folds| - 1].value }
  }

  /** A header with a colon, a token for a name, and a length that fits if it gives one. */
  predicate EntryOk(e: Entry) {
    && AllTokens(e.name) && e.name != "" && AllBlank(e.blanks) && IsValue(e.value) && IsBreak(e.end)
    && FoldsOk(e.folds) && (e.value == "" && e.folds != [] ==> e.end == CRLF)
    && (GivesLength(e) ==> IsLength(e.value) && Spaced(e.value) < ULLONG_MAX && LengthFolds(e.folds))
  }

  /** An empty Content-Length is no length. */
  predicate GivesLength(e: Entry) { NamesLength(e.name) && e.value != "" }

  predicate EntriesOk(hs: seq<Entry>) { forall i :: 0 <= i < |hs| ==> EntryOk(hs[i]) }

  function EntryText(e: Entry): string { Header(e.name, e.blanks, e.value, e.end) + FoldsText(e.folds) }

  function HeadersText(hs: seq<Entry>): string {
    if hs == [] then "" else EntryText(hs[0]) + HeadersText(hs[1..])
  }

  /** The calls a list of headers makes. */
  function HeaderCalls(t: seq<Event>, hs: seq<Entry>): seq<Event>
    decreases |hs|
  {
    if hs == [] then t else HeaderCalls(Push(Push(t, Data(Field, hs[0].name)), Data(Value, hs[0].Whole())), hs[1..])
  }

  function EntryRead(p: Parser, e: Entry): Parser
    requires EntryOk(e)
  {
    if GivesLength(e) then p.(contentLength := Spaced(e.LastLine()))
    else p.(flags := LineFlags(p.flags, e.name, e.value))
  }

  /** What a list of headers does to the flags and the length. */
  function HeadersSeen(p: Parser, hs: seq<Entry>): Parser
    requires EntriesOk(hs)
    decreases |hs|
  {
    if hs == [] then p else HeadersSeen(EntryRead(p, hs[0]), hs[1..])
  }

  lemma EntryReadOk(c: Config, e: Entry)
    requires !c.left && Room(c.p, |EntryText(e)|) && LineStart(c.p.state) && EntryOk(e)
    ensures var d := Feed(c, EntryText(e));
            && d.t == Push(Push(c.t, Data(Field, e.name)), Data(Value, e.Whole())) && !d.left
            && LineStart(d.p.state) && d.p.nread == c.p.nread + |EntryText(e)|
            && SameButMatcher(EntryRead(c.p, e), d.p)
  {
    hide Feed, Push, LineFlags, Spaced, LowerAll, IsValue, AllBlank, AllTokens, IsLength, FoldsText, Joined, FoldOk;
    var first := Header(e.name, e.blanks, e.value, e.end);
    var d := Feed(c, first);
    FeedConcat(c, first, FoldsText(e.folds));
    PushPush(Push(c.t, Data(Field, e.name)), Value, e.value, Joined(e.folds));
    if GivesLength(e) {
      LengthLine(c, e.name, e.blanks, e.value, e.end);
      var q := LengthFoldsRead(d, e.folds);
    } else {
      HeaderLine(c, e.name, e.blanks, e.value, e.end);
      if e.folds != [] { var q := FoldsRead(d, e.folds); }
    }
    if e.folds == [] { NoFolds(e); }
  }

  lemma NoFolds(e: Entry)
    requires e.folds == []
    ensures EntryText(e) == Header(e.name, e.blanks, e.value, e.end) && e.Whole() == e.value == e.LastLine()
    ensures FoldsText(e.folds) == "" && FoldsOk(e.folds) && LengthFolds(e.folds)
  {
    hide Header;
  }

  const TWO_LINES := Entry("Content-Length", " ", "1", CRLF, [Fold(" ", "2", CRLF)])

  /** A length over two lines: it is handed over as 12 and taken for 2. */
  lemma FoldedLength(c: Config)
    requires !c.left && Room(c.p, 23) && LineStart(c.p.state)
    ensures EntryText(TWO_LINES) == "Content-Length: 1\r\n 2\r\n"
    ensures var d := Feed(c, EntryText(TWO_LINES));
            d.t == Push(Push(c.t, Data(Field, "Content-Length")), Data(Value, "12")) && d.p.contentLength == 2
  {
    hide Feed, Push;
    var e := TWO_LINES;
    LengthName();
    OneDigit("1");
    OneDigit("2");
    OneFold(e.folds);
    assert e.Whole() == "12";
    EntryReadOk(c, e);
  }

  const CLOSED := Entry("Connection", " ", "close", CRLF, [Fold(" ", "d", CRLF)])

  /** A value over two lines that is not the word close and sets its flag. */
  lemma FoldedFlag(c: Config)
    requires !c.left && Room(c.p, 23) && LineStart(c.p.state)
    ensures EntryText(CLOSED) == "Connection: close\r\n d\r\n" && CLOSED.Whole() == "closed"
    ensures var d := Feed(c, EntryText(CLOSED));
            d.t == Push(Push(c.t, Data(Field, "Connection")), Data(Value, "closed")) && d.p.flags.close
  {
    hide Feed, Push;
    var e := CLOSED;
    ConnectionName();
    OneFold(e.folds);
    assert e.Whole() == "closed";
    assert IsWord(LowerAll("close"), "close") by { var w := "close"; assert LowerAll(w) == w; }
    EntryReadOk(c, e);
  }

  lemma ConnectionName()
    ensures NamesConnection("Connection") && !NamesLength("Connection") && AllTokens("Connection")
  {
    var w := "connection";
    assert forall i :: 0 <= i < 10 ==> LowerAll("Connection")[i] == w[i];
    assert LowerAll("Connection") == w;
    assert w != "content-length";
  }

  lemma LengthName()
    ensures NamesLength("Content-Length") && AllTokens("Content-Length")
  {
    var w := "content-length";
    assert forall i :: 0 <= i < 14 ==> LowerAll("Content-Length")[i] == w[i];
  }

  lemma OneDigit(s: string)
    requires |s| == 1 && IsNum(s[0])
    ensures IsLength(s) && Spaced(s) == DigitVal(s[0]) && IsValue(s)
  {
    FirstDigit(s[0]);
    assert s == [s[0]];
  }

  lemma {:induction false} SeenSame(p: Parser, q: Parser, hs: seq<Entry>)
    requires EntriesOk(hs) && SameButMatcher(p, q)
    ensures SameButMatcher(HeadersSeen(p, hs), HeadersSeen(q, hs))
    decreases |hs|
  {
    hide LineFlags, Spaced, EntryOk;
    if hs != [] { SeenSame(EntryRead(p, hs[0]), EntryRead(q, hs[0]), hs[1..]); }
  }

  lemma {:induction false} HeadersRead(c: Config, hs: seq<Entry>)
    requires !c.left && Room(c.p, |HeadersText(hs)|) && LineStart(c.p.state) && EntriesOk(hs)
    ensures var d := Feed(c, HeadersText(hs));
            && d.t == HeaderCalls(c.t, hs) && !d.left
            && LineStart(d.p.state) && d.p.nread == c.p.nread + |HeadersText(hs)|
            && SameButMatcher(HeadersSeen(c.p, hs), d.p)
    decreases |hs|
  {
    hide Step, Push, EntryOk, EntryText, EntryRead;
    if hs == [] {
    } else {
      EntryReadOk(c, hs[0]);
      EntryErrno(c.p, hs[0]);
      var d := Feed(c, EntryText(hs[0]));
      FeedConcat(c, EntryText(hs[0]), HeadersText(hs[1..]));
      HeadersRead(d, hs[1..]);
      SeenSame(EntryRead(c.p, hs[0]), d.p, hs[1..]);
    }
  }

  lemma EntryErrno(p: Parser, e: Entry)
    requires EntryOk(e)
    ensures EntryRead(p, e).errno == p.errno
  {}

  // ---------- the end of the head ----------

  /** Which framing the head has chosen: section 4.4 of RFC 2616, chunks before Content-Length. */
  datatype Framing = Chunks | ByLength(length: nat) | Empty | ToEof

  function FramingOf(p: Parser): Framing {
    if p.flags.chunked then Chunks
    else if p.contentLength != ULLONG_MAX then ByLength(p.contentLength)
    else if NeedsEof(p) then ToEof
    else Empty
  }

  /** No other protocol follows, and no callback has refused the body. */
  predicate Plain(p: Parser) { !p.flags.upgrade && !p.verb.CONNECT? && !p.flags.skipBody && !p.flags.trailing }

  lemma CrAtLineStart(c: Config)
    requires !c.left && Room(c.p, 1) && LineStart(c.p.state)
    ensures After(c, CR) == c.(p := c.p.(nread := c.p.nread + 1, state := HeadersAlmostDone))
  {
    hide Dispatch, Absorb;
    AbsorbNothing(c.t);
    ToLineStart(Counted(c.p), CR);
    FieldDispatch(Counted(c.p).(state := HeaderFieldStart), CR);
    assert Step(c.p, CR).events == [];
  }

  /** The blank line, with or without its carriage return, is dealt with at its line feed. */
  lemma BlankLine(c: Config, end: string)
    requires !c.left && Room(c.p, |end|) && LineStart(c.p.state) && IsBreak(end)
    ensures var o := Dispatch(c.p.(nread := c.p.nread + |end|, state := HeadersAlmostDone), LF);
            Feed(c, end) == Config(o.p, Absorb(c.t, o.events), o.left)
  {
    hide Dispatch, Absorb;
    if end == CRLF {
      CrAtLineStart(c);
      FeedTwo(c, CR, LF);
    } else {
      var p := Counted(c.p);
      ToLineStart(p, LF);
      LfAtLineStart(p.(state := HeaderFieldStart));
      FeedOne(c, LF);
    }
  }

  lemma LfAtLineStart(p: Parser)
    requires p.state.HeaderFieldStart?
    ensures Dispatch(p, LF) == Dispatch(p.(state := HeadersAlmostDone), LF)
  {
    hide Dispatch;
    DispatchOnce(p, LF);
    assert Switch(p, LF) == SwitchField(p, LF);
    var o := Dispatch(p.(state := HeadersAlmostDone), LF);
    assert [] + o.events == o.events;
  }

  lemma HeadersDoneStep(p: Parser, c: char)
    requires p.state.HeadersDone? && c == LF
    ensures var a := SwitchHeaderEnd(p, c);
            Dispatch(p, c) == Outcome(a.p, ActEvents(a.acts) + OwnEvents(Owner(p.state, a), c), a.next.Leave?)
  {
    hide SwitchHeaderEnd;
    assert Switch(p, c) == SwitchHeaderEnd(p, c);
    RankHeader(p, c);
    assert !SwitchHeaderEnd(p, c).next.Reexecute? && !SwitchHeaderEnd(p, c).next.Error? by { DoneArm(p, c); }
  }

  lemma DoneArm(p: Parser, c: char)
    requires p.state.HeadersDone? && c == LF
    ensures var a := SwitchHeaderEnd(p, c); !a.next.Reexecute? && !a.next.Error?
  { hide NewMessage; }

  lemma LfDispatch(p: Parser)
    requires p.state.HeadersAlmostDone? && Plain(p)
    ensures var o := Dispatch(p.(state := HeadersDone, upgrade := false), LF);
            Dispatch(p, LF) == Outcome(o.p, [HeadersComplete(p.statusCode)] + o.events, o.left)
  {
    hide Dispatch, Switch;
    LfArm(p);
    DispatchOnce(p, LF);
  }

  lemma LfArm(p: Parser)
    requires p.state.HeadersAlmostDone? && Plain(p)
    ensures Switch(p, LF)
         == Arm(p.(state := HeadersDone, upgrade := false), Notified(HeadersComplete(p.statusCode)), Reexecute)
  {
    hide NewMessage;
    assert Switch(p, LF) == SwitchHeaderEnd(p, LF);
  }

  /** Where the framing sends the parser, and whether the message is complete at once. */
  function Framed(q: Parser): State {
    match FramingOf(q)
    case Chunks => ChunkSizeStart
    case ByLength(n) => if n == 0 then NewMessage(q) else BodyIdentity
    case Empty => NewMessage(q)
    case ToEof => BodyIdentityEof
  }

  function FramedCalls(q: Parser): seq<Event> {
    match FramingOf(q)
    case ByLength(n) => if n == 0 then [MessageComplete] else []
    case Empty => [MessageComplete]
    case _ => []
  }

  lemma DoneOutcome(p: Parser)
    requires p.state.HeadersDone? && !p.upgrade && !p.flags.skipBody
    ensures var q := p.(nread := 0); Dispatch(p, LF) == Outcome(q.(state := Framed(q)), FramedCalls(q), false)
  {
    hide Dispatch, ShouldKeepAlive;
    HeadersDoneStep(p, LF);
    NewMessageQuiet(p.(nread := 0));
  }

  /** The blank line: the headers are complete, and the framing decides what is read next. */
  lemma HeadEnds(c: Config, end: string)
    requires !c.left && Room(c.p, |end|) && LineStart(c.p.state) && Plain(c.p) && IsBreak(end)
    ensures var q := c.p.(nread := 0, upgrade := false);
            Feed(c, end) == Config(q.(state := Framed(q)),
              Absorb(Push(c.t, HeadersComplete(q.statusCode)), FramedCalls(q)), false)
  {
    hide Push, Absorb, Dispatch, Framed, FramedCalls, Feed, IsBreak;
    BlankLine(c, end);
    var p := c.p.(nread := c.p.nread + |end|, state := HeadersAlmostDone);
    LfDispatch(p);
    var p1 := p.(state := HeadersDone, upgrade := false);
    var q := c.p.(nread := 0, upgrade := false);
    DoneOutcome(p1);
    FramedSame(p1.(nread := 0), q);
    Absorb1(c.t, HeadersComplete(q.statusCode));
    AbsorbConcat(c.t, [HeadersComplete(q.statusCode)], FramedCalls(q));
  }

  /** The fields on which the framing and the fate of the connection depend. */
  predicate SameVerdict(p: Parser, q: Parser) {
    p.flags == q.flags && p.contentLength == q.contentLength && p.kind == q.kind && p.statusCode == q.statusCode
    && p.httpMajor == q.httpMajor && p.httpMinor == q.httpMinor
  }

  lemma FramedSame(p: Parser, q: Parser)
    requires SameVerdict(p, q)
    ensures Framed(p) == Framed(q) && FramedCalls(p) == FramedCalls(q)
  {
    hide NewMessage;
    NewMessageSame(p, q);
    assert FramingOf(p) == FramingOf(q);
  }

  lemma NewMessageQuiet(p: Parser)
    ensures Live(NewMessage(p)).NoPart?
  { hide ShouldKeepAlive; }

  lemma NewMessageSame(p: Parser, q: Parser)
    requires SameVerdict(p, q)
    ensures NewMessage(p) == NewMessage(q)
  {}
}
