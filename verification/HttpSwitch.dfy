/** The switch of `http_parser_execute`: what one arm of it does to the struct, and which of the
    file's macros it runs, for one character in one state. */
module HttpSwitch {
  import opened Bytes
  import opened HttpTypes

  /** The macros an arm runs. MARK starts a fragment at the current character; CALLBACK_DATA
      delivers the marked fragment up to the current character, or, for the last bytes of a body,
      including it; CALLBACK_NOTIFY makes a call without data. */
  datatype Macros =
    | Quiet
    | Marked(part: Fragment)
    | Flushed(part: Fragment)
    | MarkedFlushed(part: Fragment)
    | MarkedDelivered(part: Fragment)
    | Notified(event: Event)

  /** How an arm ends: leaving the switch, `goto reexecute_byte`, `goto error`, or a return to the
      caller because the rest of the connection is in a different protocol. */
  datatype Next = Break | Reexecute | Error | Leave

  datatype Arm = Arm(p: Parser, acts: Macros, next: Next)

  function Stay(p: Parser): Arm { Arm(p, Quiet, Break) }
  function Goto(p: Parser, st: State): Arm { Arm(p.(state := st), Quiet, Break) }
  function Fail(p: Parser, e: Errno): Arm { Arm(p.(errno := e), Quiet, Error) }
  /** STRICT_CHECK */
  function Expect(p: Parser, ok: bool, st: State): Arm { if ok then Goto(p, st) else Fail(p, Strict) }

  predicate NeedsEof(p: Parser) {
    p.kind != Request
    && !(p.statusCode / 100 == 1 || p.statusCode == 204 || p.statusCode == 304 || p.flags.skipBody)
    && !(p.flags.chunked || p.contentLength != ULLONG_MAX)
  }

  predicate ShouldKeepAlive(p: Parser) {
    (if p.httpMajor > 0 && p.httpMinor > 0 then !p.flags.close else p.flags.keepAlive)
    && !NeedsEof(p)
  }

  function StartState(p: Parser): State { if p.kind == Request then StartReq else StartRes }

  /** NEW_MESSAGE in strict mode. */
  function NewMessage(p: Parser): State { if ShouldKeepAlive(p) then StartState(p) else Dead }

  function Complete(p: Parser, next: Next): Arm {
    Arm(p.(state := NewMessage(p)), Notified(MessageComplete), next)
  }

  /** parse_url_char. */
  function UrlChar(s: State, c: char): State {
    if c == ' ' || c == CR || c == LF || c == '\t' || c as int == 12 then Dead
    else
      if s.ReqSpacesBeforeUrl? then if c == '/' || c == '*' then ReqPath else if IsAlpha(c) then ReqSchema else Dead
      else if s.ReqSchema? then if IsAlpha(c) then ReqSchema else if c == ':' then ReqSchemaSlash else Dead
      else if s.ReqSchemaSlash? then if c == '/' then ReqSchemaSlashSlash else Dead
      else if s.ReqSchemaSlashSlash? then if c == '/' then ReqServerStart else Dead
      else if s.ReqServerWithAt? then if c == '@' then Dead else ServerChar(c)
      else if s.ReqServerStart? then ServerChar(c)
      else if s.ReqServer? then ServerChar(c)
      else if s.ReqPath? then
        if IsUrlChar(c) then ReqPath
        else if c == '?' then ReqQueryStart
        else if c == '#' then ReqFragmentStart
        else Dead
      else if s.ReqQueryStart? then QueryChar(c)
      else if s.ReqQuery? then QueryChar(c)
      else if s.ReqFragmentStart? then
        if IsUrlChar(c) || c == '?' then ReqFragment
        else if c == '#' then ReqFragmentStart
        else Dead
      else if s.ReqFragment? then if IsUrlChar(c) || c == '?' || c == '#' then ReqFragment else Dead
      else Dead
  }

  function ServerChar(c: char): State {
    if c == '/' then ReqPath
    else if c == '?' then ReqQueryStart
    else if c == '@' then ReqServerWithAt
    else if IsUserinfo(c) || c == '[' || c == ']' then ReqServer
    else Dead
  }

  function QueryChar(c: char): State {
    if IsUrlChar(c) || c == '?' then ReqQuery else if c == '#' then ReqFragmentStart else Dead
  }

  // ---------- where the state belongs ----------

  predicate IsStartState(s: State) {
    s.Dead? || s.StartReqOrRes? || s.ResOrRespH? || s.StartRes? || s.StartReq? || s.ReqMethod?
  }

  predicate IsStatusState(s: State) {
    s.ResH? || s.ResHT? || s.ResHTT? || s.ResHTTP? || s.ResFirstMajor? || s.ResMajor? || s.ResFirstMinor?
    || s.ResMinor? || s.ResFirstStatusCode? || s.ResStatusCode? || s.ResStatus? || s.ResLineAlmostDone?
  }

  /** The states in which a url is being marked. */
  predicate IsUrlState(s: State) {
    s.ReqSchema? || s.ReqSchemaSlash? || s.ReqSchemaSlashSlash? || s.ReqServerStart? || s.ReqServer?
    || s.ReqServerWithAt? || s.ReqPath? || s.ReqQueryStart? || s.ReqQuery? || s.ReqFragmentStart? || s.ReqFragment?
  }

  predicate IsVersionState(s: State) {
    s.ReqHttpStart? || s.ReqHttpH? || s.ReqHttpHT? || s.ReqHttpHTT? || s.ReqHttpHTTP? || s.ReqFirstMajor?
    || s.ReqMajor? || s.ReqFirstMinor? || s.ReqMinor? || s.ReqLineAlmostDone?
  }

  predicate IsHeaderState(s: State) {
    s.HeaderFieldStart? || s.HeaderField? || s.HeaderValueStart? || s.HeaderValue? || s.HeaderValueLws?
    || s.HeaderAlmostDone? || s.HeadersAlmostDone? || s.HeadersDone?
  }

  predicate IsChunkState(s: State) {
    s.ChunkSizeStart? || s.ChunkSize? || s.ChunkParameters? || s.ChunkSizeAlmostDone? || s.ChunkData?
    || s.ChunkDataAlmostDone? || s.ChunkDataDone?
  }

  /** PARSING_HEADER: the states up to and including s_headers_done. */
  predicate ParsingHeader(s: State) {
    !(s.ChunkData? || s.ChunkDataAlmostDone? || s.ChunkDataDone? || s.BodyIdentity? || s.BodyIdentityEof?
      || s.MessageDone?)
  }

  // ---------- the arms ----------

  /** A fresh message: the flags and the length are cleared. */
  function Cleared(p: Parser): Parser { p.(flags := NO_FLAGS, contentLength := ULLONG_MAX) }

  function SwitchStart(p: Parser, c: char): Arm {
    if p.state.Dead? then if c == CR || c == LF then Stay(p) else Fail(p, ClosedConnection)
    else if p.state.StartReqOrRes? then
      if c == CR || c == LF then Stay(p)
      else if c == 'H' then Arm(Cleared(p).(state := ResOrRespH), Notified(MessageBegin), Break)
      else Arm(Cleared(p).(kind := Request, state := StartReq), Quiet, Reexecute)
    else if p.state.ResOrRespH? then
      if c == 'T' then Goto(p.(kind := Response), ResHT)
      else if c == 'E' then Goto(p.(kind := Request, verb := HEAD, index := 2), ReqMethod)
      else Fail(p, InvalidConstant)
    else if p.state.StartRes? then
      if c == 'H' then Arm(Cleared(p).(state := ResH), Notified(MessageBegin), Break)
      else if c == CR || c == LF then Arm(Cleared(p), Notified(MessageBegin), Break)
      else Fail(Cleared(p), InvalidConstant)
    else if p.state.StartReq? then
      if c == CR || c == LF then Stay(p)
      else if !IsAlpha(c) then Fail(Cleared(p), InvalidMethod)
      else
        var q := Cleared(p).(verb := FirstMethod(c), index := 1);
        if IsMethodInitial(c) then Arm(q.(state := ReqMethod), Notified(MessageBegin), Break)
        else Fail(q, InvalidMethod)
    else SwitchMethod(p, c)
  }

  predicate IsMethodInitial(c: char) {
    c == 'C' || c == 'D' || c == 'G' || c == 'H' || c == 'L' || c == 'M' || c == 'N' || c == 'O'
    || c == 'P' || c == 'R' || c == 'S' || c == 'T' || c == 'U'
  }

  function FirstMethod(c: char): Method {
    if c == 'C' then CONNECT else if c == 'D' then DELETE else if c == 'G' then GET
    else if c == 'H' then HEAD else if c == 'L' then LOCK else if c == 'M' then MKCOL
    else if c == 'N' then NOTIFY else if c == 'O' then OPTIONS else if c == 'P' then POST
    else if c == 'R' then REPORT else if c == 'S' then SUBSCRIBE else if c == 'T' then TRACE
    else if c == 'U' then UNLOCK else DELETE
  }

  /** s_req_method. A character that does not match is forgiven at index 2. */
  function SwitchMethod(p: Parser, c: char): Arm {
    var m := MethodString(p.verb);
    var i := p.index;
    var q := p.(index := i + 1);
    if c as int == 0 then Fail(p, InvalidMethod)
    else if c == ' ' && i == |m| then Goto(q, ReqSpacesBeforeUrl)
    else if i < |m| && c == m[i] then Stay(q)
    else
      if p.verb.CONNECT? then
        if i == 1 && c == 'H' then Stay(q.(verb := CHECKOUT))
        else if i == 2 && c == 'P' then Stay(q.(verb := COPY))
        else Fail(p, Unknown)
      else if p.verb.MKCOL? then
        if i == 1 && c == 'O' then Stay(q.(verb := MOVE))
        else if i == 1 && c == 'E' then Stay(q.(verb := MERGE))
        else if i == 1 && c == '-' then Stay(q.(verb := MSEARCH))
        else if i == 2 && c == 'A' then Stay(q.(verb := MKACTIVITY))
        else Fail(p, Unknown)
      else if p.verb.SUBSCRIBE? then
        if i == 1 && c == 'E' then Stay(q.(verb := SEARCH)) else Fail(p, Unknown)
      else
        if i == 1 && p.verb == POST then
          if c == 'R' then Stay(q.(verb := PROPFIND))
          else if c == 'U' then Stay(q.(verb := PUT))
          else if c == 'A' then Stay(q.(verb := PATCH))
          else Fail(p, Unknown)
        else if i == 2 then
          if p.verb == PUT && c == 'R' then Stay(q.(verb := PURGE))
          else if p.verb == UNLOCK && c == 'S' then Stay(q.(verb := UNSUBSCRIBE))
          else Stay(q)
        else if i == 4 && p.verb == PROPFIND && c == 'P' then Stay(q.(verb := PROPPATCH))
        else Fail(p, InvalidMethod)
  }

  function SwitchStatusLine(p: Parser, c: char): Arm {
    if p.state.ResH? then Expect(p, c == 'T', ResHT)
    else if p.state.ResHT? then Expect(p, c == 'T', ResHTT)
    else if p.state.ResHTT? then Expect(p, c == 'P', ResHTTP)
    else if p.state.ResHTTP? then Expect(p, c == '/', ResFirstMajor)
    else if p.state.ResFirstMajor? then
      if !IsNum(c) then Fail(p, InvalidVersion) else Goto(p.(httpMajor := DigitVal(c)), ResMajor)
    else if p.state.ResMajor? then if c == '.' then Goto(p, ResFirstMinor) else MajorDigit(p, c)
    else if p.state.ResFirstMinor? then
      if !IsNum(c) then Fail(p, InvalidVersion) else Goto(p.(httpMinor := DigitVal(c)), ResMinor)
    else if p.state.ResMinor? then if c == ' ' then Goto(p, ResFirstStatusCode) else MinorDigit(p, c)
    else if p.state.ResFirstStatusCode? then
      if IsNum(c) then Goto(p.(statusCode := DigitVal(c)), ResStatusCode)
      else if c == ' ' then Stay(p)
      else Fail(p, InvalidStatus)
    else if p.state.ResStatusCode? then
      if c == ' ' then Goto(p, ResStatus)
      else if c == CR then Goto(p, ResLineAlmostDone)
      else if c == LF then Goto(p, HeaderFieldStart)
      else if !IsNum(c) then Fail(p, InvalidStatus)
      else
        var q := p.(statusCode := p.statusCode * 10 + DigitVal(c));
        if q.statusCode > 999 then Fail(q, InvalidStatus) else Stay(q)
    else if p.state.ResStatus? then
      if c == CR then Goto(p, ResLineAlmostDone) else if c == LF then Goto(p, HeaderFieldStart) else Stay(p)
    else /* ResLineAlmostDone */
      if c != LF then Fail(p, Strict) else Arm(p.(state := HeaderFieldStart), Notified(StatusComplete), Break)
  }

  function MajorDigit(p: Parser, c: char): Arm {
    if !IsNum(c) then Fail(p, InvalidVersion)
    else
      var q := p.(httpMajor := p.httpMajor * 10 + DigitVal(c));
      if q.httpMajor > 999 then Fail(q, InvalidVersion) else Stay(q)
  }

  function MinorDigit(p: Parser, c: char): Arm {
    if !IsNum(c) then Fail(p, InvalidVersion)
    else
      var q := p.(httpMinor := p.httpMinor * 10 + DigitVal(c));
      if q.httpMinor > 999 then Fail(q, InvalidVersion) else Stay(q)
  }

  /** The url scan; `acts` is what the arm has run before the character is classified. */
  function UrlStep(p: Parser, c: char, acts: Macros): Arm {
    var st := UrlChar(p.state, c);
    if st == Dead then Fail(p.(state := Dead), InvalidUrl) else Arm(p.(state := st), acts, Break)
  }

  function SwitchUrl(p: Parser, c: char): Arm {
    if p.state.ReqSpacesBeforeUrl? then
      if c == ' ' then Stay(p)
      else UrlStep(if p.verb == CONNECT then p.(state := ReqServerStart) else p, c, Marked(Url))
    else if p.state.ReqSchema? then SwitchUrlPrefix(p, c)
    else if p.state.ReqSchemaSlash? then SwitchUrlPrefix(p, c)
    else if p.state.ReqSchemaSlashSlash? then SwitchUrlPrefix(p, c)
    else if p.state.ReqServerStart? then SwitchUrlPrefix(p, c)
    else
      if c == ' ' then Arm(p.(state := ReqHttpStart), Flushed(Url), Break)
      else if c == CR then Arm(p.(httpMajor := 0, httpMinor := 9, state := ReqLineAlmostDone), Flushed(Url), Break)
      else if c == LF then Arm(p.(httpMajor := 0, httpMinor := 9, state := HeaderFieldStart), Flushed(Url), Break)
      else UrlStep(p, c, Quiet)
  }

  /** No blank may follow before the host has begun. */
  function SwitchUrlPrefix(p: Parser, c: char): Arm {
    if c == ' ' || c == CR || c == LF then Fail(p, InvalidUrl) else UrlStep(p, c, Quiet)
  }

  function SwitchVersion(p: Parser, c: char): Arm {
    if p.state.ReqHttpStart? then
      if c == 'H' then Goto(p, ReqHttpH) else if c == ' ' then Stay(p) else Fail(p, InvalidConstant)
    else if p.state.ReqHttpH? then Expect(p, c == 'T', ReqHttpHT)
    else if p.state.ReqHttpHT? then Expect(p, c == 'T', ReqHttpHTT)
    else if p.state.ReqHttpHTT? then Expect(p, c == 'P', ReqHttpHTTP)
    else if p.state.ReqHttpHTTP? then Expect(p, c == '/', ReqFirstMajor)
    else if p.state.ReqFirstMajor? then
      if !IsNum(c) || c == '0' then Fail(p, InvalidVersion) else Goto(p.(httpMajor := DigitVal(c)), ReqMajor)
    else if p.state.ReqMajor? then if c == '.' then Goto(p, ReqFirstMinor) else MajorDigit(p, c)
    else if p.state.ReqFirstMinor? then
      if !IsNum(c) then Fail(p, InvalidVersion) else Goto(p.(httpMinor := DigitVal(c)), ReqMinor)
    else if p.state.ReqMinor? then
      if c == CR then Goto(p, ReqLineAlmostDone)
      else if c == LF then Goto(p, HeaderFieldStart)
      else MinorDigit(p, c)
    else /* ReqLineAlmostDone */
      if c != LF then Fail(p, LfExpected) else Goto(p, HeaderFieldStart)
  }

  /** The header word a matching state is about. */
  function WordOf(h: HeaderState): string {
    if h.MatchConnection? then "connection"
    else if h.MatchProxyConnection? then "proxy-connection"
    else if h.MatchContentLength? then "content-length"
    else if h.MatchTransferEncoding? then "transfer-encoding"
    else if h.MatchUpgrade? then "upgrade"
    else if h.MatchChunked? then "chunked"
    else if h.MatchKeepAlive? then "keep-alive"
    else if h.MatchClose? then "close"
    else ""
  }

  /** The state that says the word has been seen. */
  function DoneOf(h: HeaderState): HeaderState {
    if h.MatchConnection? then IsConnection
    else if h.MatchProxyConnection? then IsConnection
    else if h.MatchContentLength? then IsContentLength
    else if h.MatchTransferEncoding? then IsTransferEncoding
    else if h.MatchUpgrade? then IsUpgrade
    else if h.MatchChunked? then IsChunked
    else if h.MatchKeepAlive? then IsKeepAlive
    else if h.MatchClose? then IsClose
    else General
  }

  predicate MatchesName(h: HeaderState) {
    h.MatchConnection? || h.MatchProxyConnection? || h.MatchContentLength? || h.MatchTransferEncoding?
      || h.MatchUpgrade?
  }

  predicate MatchesValue(h: HeaderState) { h.MatchChunked? || h.MatchKeepAlive? || h.MatchClose? }

  /** One more character of the word: `p.index` characters of it are past its first. */
  function MatchWord(p: Parser, c: char): Parser {
    var word := WordOf(p.headerState);
    var i := p.index + 1;
    p.(index := i,
       headerState := if i >= |word| || c != word[i] then General
                      else if i == |word| - 1 then DoneOf(p.headerState)
                      else p.headerState)
  }

  /** The name matchers of s_header_field, for a lower-cased token character. */
  function MatchName(p: Parser, c: char): Parser {
    if p.headerState.HC? then p.(index := p.index + 1, headerState := if c == 'o' then HCO else General)
    else if p.headerState.HCO? then p.(index := p.index + 1, headerState := if c == 'n' then HCON else General)
    else if p.headerState.HCON? then
      p.(index := p.index + 1,
         headerState := if c == 'n' then MatchConnection else if c == 't' then MatchContentLength else General)
    else if MatchesName(p.headerState) then MatchWord(p, c)
    else p.(headerState := General)
  }

  function NameStart(c: char): HeaderState {
    if c == 'c' then HC
    else if c == 'p' then MatchProxyConnection
    else if c == 't' then MatchTransferEncoding
    else if c == 'u' then MatchUpgrade
    else General
  }

  function SwitchField(p: Parser, c: char): Arm {
    if p.state.HeaderFieldStart? then
      if c == CR then Goto(p, HeadersAlmostDone)
      else if c == LF then Arm(p.(state := HeadersAlmostDone), Quiet, Reexecute)
      else if !IsToken(c) then Fail(p, InvalidHeaderToken)
      else Arm(p.(index := 0, state := HeaderField, headerState := NameStart(Lower(c))), Marked(Field), Break)
    else /* HeaderField */
      if IsToken(c) then Stay(MatchName(p, Lower(c)))
      else if c == ':' then Arm(p.(state := HeaderValueStart), Flushed(Field), Break)
      else if c == CR then Arm(p.(state := HeaderAlmostDone), Flushed(Field), Break)
      else if c == LF then Arm(p.(state := HeaderFieldStart), Flushed(Field), Break)
      else Fail(p, InvalidHeaderToken)
  }

  /** The value's first character decides what the rest of it is matched against. */
  function ValueStart(p: Parser, c: char): Arm {
    if p.headerState.IsUpgrade? then
      Arm(p.(flags := p.flags.(upgrade := true), headerState := General), Marked(Value), Break)
    else if p.headerState.IsTransferEncoding? then
      Arm(p.(headerState := if Lower(c) == 'c' then MatchChunked else General), Marked(Value), Break)
    else if p.headerState.IsContentLength? then
      if !IsNum(c) then Fail(p, InvalidContentLength)
      else Arm(p.(contentLength := DigitVal(c)), Marked(Value), Break)
    else if p.headerState.IsConnection? then
      var h := if Lower(c) == 'k' then MatchKeepAlive else if Lower(c) == 'c' then MatchClose else General;
      Arm(p.(headerState := h), Marked(Value), Break)
    else Arm(p.(headerState := General), Marked(Value), Break)
  }

  /** One more digit of a 64-bit length; the test that follows in the source does not see every wrap. */
  function Wrapped(length: nat, base: nat, digit: nat): nat {
    Mod64(length * base + digit)
  }

  /** What a 64-bit field keeps of a number. */
  function Mod64(n: nat): (r: nat)
    ensures r < TWO_TO_64
  {
    n % TWO_TO_64
  }

  function LengthDigit(p: Parser, base: nat, digit: nat): Arm {
    var t := Wrapped(p.contentLength, base, digit);
    if t < p.contentLength || t == ULLONG_MAX then Fail(p, InvalidContentLength)
    else Stay(p.(contentLength := t))
  }

  function ValueChar(p: Parser, c: char): Arm {
    if p.headerState.IsContentLength? then
      if c == ' ' then Stay(p)
      else if !IsNum(c) then Fail(p, InvalidContentLength)
      else LengthDigit(p, 10, DigitVal(c))
    else if MatchesValue(p.headerState) then Stay(MatchWord(p, Lower(c)))
    else if (p.headerState.IsChunked? || p.headerState.IsKeepAlive? || p.headerState.IsClose?) && c == ' ' then Stay(p)
    else Stay(p.(headerState := General))
  }

  function SwitchValue(p: Parser, c: char): Arm {
    if p.state.HeaderValueStart? then
      if c == ' ' || c == '\t' then Stay(p)
      else
        var q := p.(state := HeaderValue, index := 0);
        if c == CR then Arm(q.(headerState := General, state := HeaderAlmostDone), MarkedFlushed(Value), Break)
        else if c == LF then Arm(q.(state := HeaderFieldStart), MarkedFlushed(Value), Break)
        else ValueStart(q, c)
    else /* HeaderValue */
      if c == CR then Arm(p.(state := HeaderAlmostDone), Flushed(Value), Break)
      else if c == LF then Arm(p.(state := HeaderAlmostDone), Flushed(Value), Reexecute)
      else ValueChar(p, c)
  }

  /** The flag a recognised value sets when its line ends. */
  function ValueFlags(f: Flags, h: HeaderState): Flags {
    if h.IsKeepAlive? then f.(keepAlive := true)
    else if h.IsClose? then f.(close := true)
    else if h.IsChunked? then f.(chunked := true)
    else f
  }

  function SwitchHeaderEnd(p: Parser, c: char): Arm {
    if p.state.HeaderAlmostDone? then
      if c != LF then Fail(p, Strict)
      else Goto(p.(flags := ValueFlags(p.flags, p.headerState)), HeaderValueLws)
    else if p.state.HeaderValueLws? then
      if c == ' ' || c == '\t' then Goto(p, HeaderValueStart)
      else Arm(p.(state := HeaderFieldStart), Quiet, Reexecute)
    else if p.state.HeadersAlmostDone? then
      if c != LF then Fail(p, Strict)
      else if p.flags.trailing then Complete(p, Break)
      else
        Arm(p.(state := HeadersDone, upgrade := p.flags.upgrade || p.verb == CONNECT),
            Notified(HeadersComplete(p.statusCode)), Reexecute)
    else /* HeadersDone */
      if c != LF then Fail(p, Strict)
      else
        var q := p.(nread := 0);
        if q.upgrade then Complete(q, Leave)
        else if q.flags.skipBody then Complete(q, Break)
        else if q.flags.chunked then Goto(q, ChunkSizeStart)
        else if q.contentLength == 0 then Complete(q, Break)
        else if q.contentLength != ULLONG_MAX then Goto(q, BodyIdentity)
        else if q.kind == Request || !NeedsEof(q) then Complete(q, Break)
        else Goto(q, BodyIdentityEof)
  }

  /** One byte taken off the length of a body or a chunk. */
  function Taken(p: Parser): Parser {
    p.(contentLength := if p.contentLength > 0 then p.contentLength - 1 else 0)
  }

  function SwitchChunk(p: Parser, c: char): Arm {
    if p.state.ChunkSizeStart? then
      if Unhex(c) == -1 then Fail(p, InvalidChunkSize)
      else Goto(p.(contentLength := Unhex(c)), ChunkSize)
    else if p.state.ChunkSize? then
      if c == CR then Goto(p, ChunkSizeAlmostDone)
      else if Unhex(c) == -1 then
        if c == ';' || c == ' ' then Goto(p, ChunkParameters) else Fail(p, InvalidChunkSize)
      else LengthDigit(p, 16, Unhex(c))
    else if p.state.ChunkParameters? then if c == CR then Goto(p, ChunkSizeAlmostDone) else Stay(p)
    else if p.state.ChunkSizeAlmostDone? then
      if c != LF then Fail(p, Strict)
      else if p.contentLength == 0 then
        Goto(p.(nread := 0, flags := p.flags.(trailing := true)), HeaderFieldStart)
      else Goto(p.(nread := 0), ChunkData)
    else if p.state.ChunkData? then
      var q := Taken(p);
      Arm(if q.contentLength == 0 then q.(state := ChunkDataAlmostDone) else q, Marked(Body), Break)
    else if p.state.ChunkDataAlmostDone? then
      if c != CR then Fail(p, Strict) else Arm(p.(state := ChunkDataDone), Flushed(Body), Break)
    else /* ChunkDataDone */
      if c != LF then Fail(p, Strict) else Goto(p.(nread := 0), ChunkSizeStart)
  }

  function SwitchBody(p: Parser, c: char): Arm {
    if p.state.BodyIdentity? then
      var q := Taken(p);
      if q.contentLength == 0 then Arm(q.(state := MessageDone), MarkedDelivered(Body), Reexecute)
      else Arm(q, Marked(Body), Break)
    else if p.state.BodyIdentityEof? then Arm(p, Marked(Body), Break)
    else /* MessageDone */ Complete(p, Break)
  }

  function Switch(p: Parser, c: char): Arm {
    if IsStartState(p.state) then SwitchStart(p, c)
    else if IsStatusState(p.state) then SwitchStatusLine(p, c)
    else if p.state.ReqSpacesBeforeUrl? || IsUrlState(p.state) then SwitchUrl(p, c)
    else if IsVersionState(p.state) then SwitchVersion(p, c)
    else if p.state.HeaderFieldStart? || p.state.HeaderField? then SwitchField(p, c)
    else if p.state.HeaderValueStart? || p.state.HeaderValue? then SwitchValue(p, c)
    else if IsHeaderState(p.state) then SwitchHeaderEnd(p, c)
    else if IsChunkState(p.state) then SwitchChunk(p, c)
    else SwitchBody(p, c)
  }

  /** `goto reexecute_byte` goes down this rank. */
  function Rank(s: State): nat {
    if s.HeaderValueLws? then 4
    else if s.HeaderFieldStart? then 3
    else if s.HeadersAlmostDone? then 2
    else if s.HeaderValue? then 2
    else if s.StartReqOrRes? then 2
    else if s.BodyIdentity? then 2
    else 1
  }

  lemma RankStart(p: Parser, c: char)
    ensures var a := SwitchStart(p, c); a.next == Reexecute ==> Rank(a.p.state) < Rank(p.state)
  {}

  lemma RankOther(p: Parser, c: char)
    ensures IsStatusState(p.state) ==> SwitchStatusLine(p, c).next != Reexecute
    ensures IsVersionState(p.state) ==> SwitchVersion(p, c).next != Reexecute
    ensures IsChunkState(p.state) ==> SwitchChunk(p, c).next != Reexecute
    ensures SwitchUrl(p, c).next != Reexecute
  {}

  lemma RankHeader(p: Parser, c: char)
    requires IsHeaderState(p.state)
    ensures var a := if (p.state.HeaderFieldStart? || p.state.HeaderField?) then SwitchField(p, c)
                     else if (p.state.HeaderValueStart? || p.state.HeaderValue?) then SwitchValue(p, c)
                     else SwitchHeaderEnd(p, c);
            a.next == Reexecute ==> Rank(a.p.state) < Rank(p.state)
  {}

  /** Every chain of re-executions of one character is finite. */
  lemma ReexecutionDescends(p: Parser, c: char)
    requires Switch(p, c).next == Reexecute
    ensures Rank(Switch(p, c).p.state) < Rank(p.state)
  {
    hide SwitchStart, SwitchStatusLine, SwitchUrl, SwitchVersion, SwitchField, SwitchValue, SwitchHeaderEnd,
      SwitchChunk;
    RankStart(p, c);
    RankOther(p, c);
    if IsHeaderState(p.state) { RankHeader(p, c); }
  }
}
