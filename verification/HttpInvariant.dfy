/** What every reachable state of the parser satisfies, and the grammar of the calls it makes. */
module HttpInvariant {
  import opened Bytes
  import opened HttpTypes
  import opened HttpSwitch
  import opened HttpStep

  // ---------- the struct ----------

  /** In a header name: the state is one the name matchers know, and the matcher's next character exists. */
  predicate NameState(h: HeaderState, index: nat) {
    if MatchesName(h) then index + 1 < |WordOf(h)|
    else h.General? || (h.HC? && index == 0) || (h.HCO? && index == 1) || (h.HCON? && index == 2)
         || h.IsConnection? || h.IsContentLength? || h.IsTransferEncoding? || h.IsUpgrade?
  }

  /** In a header value, likewise. */
  predicate ValueState(h: HeaderState, index: nat) {
    if MatchesValue(h) then index + 1 < |WordOf(h)|
    else h.General? || h.IsContentLength? || h.IsChunked? || h.IsKeepAlive? || h.IsClose?
  }

  /** Every field fits the width it has in the struct: no counter has wrapped. */
  predicate Fits(p: Parser) {
    p.index <= 17 && p.nread <= MAX_HEADER_SIZE && p.contentLength < TWO_TO_64
    && p.httpMajor <= 999 && p.httpMinor <= 999 && p.statusCode <= 999
  }

  predicate StateInv(p: Parser) {
    if p.state.ReqMethod? then !p.flags.trailing && 1 <= p.index <= |MethodString(p.verb)|
    else if p.state.HeaderField? then NameState(p.headerState, p.index)
    else if p.state.HeaderValue? then ValueState(p.headerState, p.index)
    else if p.state.HeaderFieldStart? then true
    else if p.state.HeaderValueStart? then true
    else if p.state.HeaderAlmostDone? then true
    else if p.state.HeaderValueLws? then true
    else if p.state.HeadersAlmostDone? then true
    else if p.state.Dead? then true
    else if p.state.StartReq? then true
    else if p.state.StartRes? then true
    else if p.state.ChunkSizeStart? then InChunks(p)
    else if p.state.ChunkSize? then InChunks(p) && p.contentLength != ULLONG_MAX
    else if p.state.ChunkParameters? then InChunks(p) && p.contentLength != ULLONG_MAX
    else if p.state.ChunkSizeAlmostDone? then InChunks(p) && p.contentLength != ULLONG_MAX
    else if p.state.ChunkData? then InChunks(p) && 0 < p.contentLength < ULLONG_MAX
    else if p.state.ChunkDataAlmostDone? then InChunks(p) && p.contentLength == 0
    else if p.state.ChunkDataDone? then InChunks(p)
    else if p.state.BodyIdentity? then !p.flags.trailing && 0 < p.contentLength < ULLONG_MAX
    else !p.flags.trailing
  }

  predicate InChunks(p: Parser) { p.flags.chunked && !p.flags.trailing }

  predicate Inv(p: Parser) {
    p.errno.Ok? && Fits(p) && (p.flags.trailing ==> p.flags.chunked) && StateInv(p)
  }

  /** Between two characters. */
  predicate Ready(p: Parser) {
    Inv(p) && !p.state.HeadersDone? && !p.state.MessageDone? && (p.state.ChunkSizeStart? ==> p.nread == 0)
  }

  /** Every `assert` of the source that concerns the struct, at the arm where it stands. */
  predicate Asserts(p: Parser) {
    && (p.state.ChunkSizeStart? ==> p.nread == 1)
    && (IsChunkState(p.state) ==> p.flags.chunked)
    && ((p.state.ChunkData? || p.state.BodyIdentity?) ==> p.contentLength != 0 && p.contentLength != ULLONG_MAX)
    && (p.state.ChunkDataAlmostDone? ==> p.contentLength == 0)
    && (p.state.HeaderField? ==> NameState(p.headerState, p.index))
    && (p.state.HeaderValue? ==> p.headerState != IsConnection && p.headerState != IsTransferEncoding)
    && (p.state.ReqMethod? ==> p.index <= |MethodString(p.verb)|)
  }

  // ---------- the calls ----------

  /** Where in a message the calls made so far have got to. */
  datatype Phase = Idle | Begun | InUrl | AfterLine | InHead | InBody | InTrailer | Bad

  function Advance(ph: Phase, e: Event): Phase {
    match ph
    case Idle => if e.MessageBegin? then Begun else Bad
    case Begun =>
      if e.MessageBegin? then Begun
      else if e.Data? && e.part.Url? then InUrl
      else if e.StatusComplete? then AfterLine
      else HeadPhase(e)
    case InUrl => if e.Data? && e.part.Url? then InUrl else HeadPhase(e)
    case AfterLine => HeadPhase(e)
    case InHead => if e.Data? && e.part.Value? then InHead else HeadPhase(e)
    case InBody =>
      if e.Data? && e.part.Body? then InBody
      else if e.Data? && e.part.Field? then InTrailer
      else if e.MessageComplete? then Idle
      else Bad
    case InTrailer =>
      if e.Data? && (e.part.Field? || e.part.Value?) then InTrailer
      else if e.MessageComplete? then Idle
      else Bad
    case Bad => Bad
  }

  function HeadPhase(e: Event): Phase {
    if e.Data? && e.part.Field? then InHead else if e.HeadersComplete? then InBody else Bad
  }

  function AdvanceAll(ph: Phase, es: seq<Event>): Phase
    decreases |es|
  {
    if es == [] then ph else AdvanceAll(Advance(ph, es[0]), es[1..])
  }

  predicate PhaseOk(p: Parser, ph: Phase) {
    if p.state.Dead? then ph.Idle?
    else if p.state.StartReqOrRes? then ph.Idle?
    else if p.state.StartReq? then ph.Idle?
    else if p.state.StartRes? then ph.Idle? || ph.Begun?
    else if p.state.HeaderFieldStart? || p.state.HeadersAlmostDone? then
      if p.flags.trailing then ph.InBody? || ph.InTrailer?
      else ph.Begun? || ph.InUrl? || ph.AfterLine? || ph.InHead?
    else if p.state.HeadersDone? then ph.InBody?
    else if p.state.MessageDone? then ph.InBody?
    else if p.state.BodyIdentity? then ph.InBody?
    else if p.state.BodyIdentityEof? then ph.InBody?
    else if p.state.ReqSpacesBeforeUrl? then ph.Begun?
    else
      if IsChunkState(p.state) then ph.InBody?
      else if IsHeaderState(p.state) then ph == (if p.flags.trailing then InTrailer else InHead)
      else if IsUrlState(p.state) || IsVersionState(p.state) then ph.InUrl?
      else ph.Begun?
  }

  // ---------- one arm ----------

  /** The macros keep to the marks: whatever part is live when the arm starts is either still live
      when it ends or was flushed by it, and a new mark is set only when none is live. */
  predicate MarksOk(s: State, a: Arm) {
    var after := Live(a.p.state);
    (a.next.Reexecute? ==> !TakesBody(a.p.state)) &&
    if TakesBody(s) then
      if a.p.state.MessageDone? then a.acts == MarkedDelivered(Body) && a.next.Reexecute?
      else a.acts == Marked(Body) && a.next.Break? && (a.p.state == s || a.p.state.ChunkDataAlmostDone?)
    else if s.ChunkDataAlmostDone? then a.acts == Flushed(Body) && after.NoPart? && a.next.Break?
    else match Live(s)
      case Of(part) => (a.acts.Quiet? && a.next.Break? && after == Of(part))
        || (a.acts == Flushed(part) && after.NoPart?)
      case NoPart =>
        match a.acts
        case Quiet => after.NoPart?
        case Marked(part) => after == Of(part) && a.next.Break?
        case MarkedFlushed(part) => part.Value? && after.NoPart? && a.next.Break?
        case Notified(e) => !e.Data? && after.NoPart?
        case _ => false
  }

  /** What an arm run from a good state does to the struct. */
  predicate ArmOk(p: Parser, a: Arm) {
    && (a.next.Error? <==> !a.p.errno.Ok?)
    && (!a.next.Error? ==> Inv(a.p))
    && (a.next.Break? || a.next.Leave? ==> Ready(a.p))
  }

  lemma MethodLong(m: Method)
    ensures 3 <= |MethodString(m)| <= 11
    ensures m.PROPPATCH? ==> |MethodString(m)| >= 5
  {}

  lemma UrlCharStates(s: State, c: char)
    ensures UrlChar(s, c).Dead? || IsUrlState(UrlChar(s, c))
  {}

  lemma WordLong(h: HeaderState)
    ensures MatchesName(h) || MatchesValue(h) ==> 4 < |WordOf(h)| < 18
  {}

  lemma NameKept(p: Parser, c: char)
    requires NameState(p.headerState, p.index) && p.index <= 17
    ensures var q := MatchName(p, c);
            && NameState(q.headerState, q.index)
            && q == p.(index := q.index, headerState := q.headerState) && q.index <= 17
  {
    hide WordOf;
    WordLong(p.headerState);
    WordLong(MatchConnection);
    WordLong(MatchContentLength);
  }

  lemma ValueCharKept(p: Parser, c: char)
    requires Inv(p) && p.state.HeaderValue?
    ensures ArmOk(p, ValueChar(p, c))
  {
    hide WordOf, MethodString;
    WordLong(p.headerState);
  }

  lemma ValueStartKept(p: Parser, c: char)
    requires p.errno.Ok? && Fits(p) && (p.flags.trailing ==> p.flags.chunked)
    requires p.state.HeaderValue? && p.index == 0
    ensures ArmOk(p, ValueStart(p, c))
  {
    hide WordOf, MethodString;
    WordLong(MatchChunked);
    WordLong(MatchKeepAlive);
    WordLong(MatchClose);
  }

  lemma StructStart(p: Parser, c: char)
    requires Inv(p) && (IsStartState(p.state) && !p.state.ReqMethod?)
    ensures ArmOk(p, SwitchStart(p, c))
  { hide MethodString, SwitchMethod; MethodLong(FirstMethod(c)); MethodLong(HEAD); }

  lemma StructMethod(p: Parser, c: char)
    requires Inv(p) && (p.state.ReqMethod?)
    ensures ArmOk(p, SwitchMethod(p, c))
  { hide MethodString; MethodLong(p.verb); MethodLong(SwitchMethod(p, c).p.verb); }

  /** States of the first line of a message, and the start of a header: nothing is matched or counted there. */
  predicate LineState(s: State) {
    IsStatusState(s) || s.ReqSpacesBeforeUrl? || IsUrlState(s) || IsVersionState(s) || s.HeaderFieldStart?
  }

  lemma LineIsGood(p: Parser)
    requires p.errno.Ok? && Fits(p) && !p.flags.trailing && LineState(p.state)
    ensures Inv(p) && Ready(p)
  { hide MethodString, NameState, ValueState, Fits; }

  lemma LineIsPlain(p: Parser)
    requires Inv(p) && LineState(p.state) && !p.state.HeaderFieldStart?
    ensures p.errno.Ok? && Fits(p) && !p.flags.trailing
  { hide MethodString, NameState, ValueState, Fits; }

  lemma StructStatusLine(p: Parser, c: char)
    requires Inv(p) && (IsStatusState(p.state))
    ensures ArmOk(p, SwitchStatusLine(p, c))
  {
    hide Inv, Ready;
    LineIsPlain(p);
    var a := SwitchStatusLine(p, c);
    if a.p.errno.Ok? { LineIsGood(a.p); }
  }

  lemma StructUrl(p: Parser, c: char)
    requires Inv(p) && (p.state.ReqSpacesBeforeUrl? || IsUrlState(p.state))
    ensures ArmOk(p, SwitchUrl(p, c))
  {
    hide Inv, Ready, UrlChar, Fits;
    LineIsPlain(p);
    UrlCharStates(p.state, c);
    UrlCharStates(ReqServerStart, c);
    UrlFits(p, c);
    var a := SwitchUrl(p, c);
    if a.p.errno.Ok? { LineIsGood(a.p); }
  }

  lemma UrlFits(p: Parser, c: char)
    requires Fits(p)
    ensures Fits(SwitchUrl(p, c).p)
  { hide UrlChar; }

  lemma StructVersion(p: Parser, c: char)
    requires Inv(p) && (IsVersionState(p.state))
    ensures ArmOk(p, SwitchVersion(p, c))
  {
    hide Inv, Ready;
    LineIsPlain(p);
    var a := SwitchVersion(p, c);
    if a.p.errno.Ok? { LineIsGood(a.p); }
  }

  lemma StructField(p: Parser, c: char)
    requires Inv(p) && (p.state.HeaderFieldStart? || p.state.HeaderField?)
    ensures ArmOk(p, SwitchField(p, c))
  {
    hide MethodString, MatchName, WordOf;
    WordLong(NameStart(Lower(c)));
    if p.state.HeaderField? { NameKept(p, Lower(c)); }
  }

  lemma StructValue(p: Parser, c: char)
    requires Inv(p) && (p.state.HeaderValueStart? || p.state.HeaderValue?)
    ensures ArmOk(p, SwitchValue(p, c))
  {
    hide MethodString, ValueChar, ValueStart, WordOf;
    if p.state.HeaderValueStart? { ValueStartKept(p.(state := HeaderValue, index := 0), c); }
    if p.state.HeaderValue? { ValueCharKept(p, c); }
  }

  lemma StructHeaderEnd(p: Parser, c: char)
    requires Inv(p) && (p.state.HeaderValueLws? || p.state.HeaderAlmostDone? || p.state.HeadersAlmostDone?
             || p.state.HeadersDone?)
    ensures ArmOk(p, SwitchHeaderEnd(p, c))
  { hide MethodString; }

  lemma StructChunk(p: Parser, c: char)
    requires Inv(p) && (IsChunkState(p.state))
    ensures ArmOk(p, SwitchChunk(p, c))
  { hide MethodString; }

  lemma StructBody(p: Parser, c: char)
    requires Inv(p) && (p.state.BodyIdentity? || p.state.BodyIdentityEof? || p.state.MessageDone?)
    ensures ArmOk(p, SwitchBody(p, c))
  { hide MethodString; }

  /** The request and status lines: the arms only walk along them, and leave towards the headers. */
  lemma ShapeLines(p: Parser, c: char)
    ensures IsStatusState(p.state) ==> var a := SwitchStatusLine(p, c);
              !a.next.Error? ==>
                a.next.Break? && a.p.flags == p.flags &&
                (if a.acts.Quiet? then IsStatusState(a.p.state) || a.p.state.HeaderFieldStart?
                 else a.acts == Notified(StatusComplete) && a.p.state.HeaderFieldStart?)
    ensures IsVersionState(p.state) ==> var a := SwitchVersion(p, c);
              !a.next.Error? ==>
                a.next.Break? && a.p.flags == p.flags && a.acts.Quiet? &&
                (IsVersionState(a.p.state) || a.p.state.HeaderFieldStart?)
  {}

  lemma ShapeUrl(p: Parser, c: char)
    requires p.state.ReqSpacesBeforeUrl? || IsUrlState(p.state)
    requires !SwitchUrl(p, c).next.Error?
    ensures var a := SwitchUrl(p, c);
            a.next.Break? && a.p.flags == p.flags &&
            (match a.acts
             case Quiet => (p.state.ReqSpacesBeforeUrl? && a.p.state == p.state)
               || (IsUrlState(p.state) && IsUrlState(a.p.state))
             case Marked(part) => part.Url? && p.state.ReqSpacesBeforeUrl? && IsUrlState(a.p.state)
             case Flushed(part) => part.Url? && IsUrlState(p.state) &&
               (a.p.state.ReqHttpStart? || a.p.state.ReqLineAlmostDone? || a.p.state.HeaderFieldStart?)
             case _ => false)
  {
    hide UrlChar;
    UrlCharStates(p.state, c);
    UrlCharStates(ReqServerStart, c);
  }

  lemma MarksStart(p: Parser, c: char)
    requires IsStartState(p.state) && !p.state.ReqMethod?
    ensures var a := SwitchStart(p, c); !a.next.Error? ==> MarksOk(p.state, a)
  { hide MethodString, SwitchMethod; }

  lemma MarksMethod(p: Parser, c: char)
    requires p.state.ReqMethod?
    ensures var a := SwitchMethod(p, c); !a.next.Error? ==> MarksOk(p.state, a)
  { hide MethodString; }

  lemma MarksStatusLine(p: Parser, c: char)
    requires IsStatusState(p.state)
    ensures var a := SwitchStatusLine(p, c); !a.next.Error? ==> MarksOk(p.state, a)
  { hide SwitchStatusLine, SwitchVersion; ShapeLines(p, c); }

  lemma MarksUrl(p: Parser, c: char)
    requires p.state.ReqSpacesBeforeUrl? || IsUrlState(p.state)
    ensures var a := SwitchUrl(p, c); !a.next.Error? ==> MarksOk(p.state, a)
  { hide SwitchUrl; if !SwitchUrl(p, c).next.Error? { ShapeUrl(p, c); } }

  lemma MarksVersion(p: Parser, c: char)
    requires IsVersionState(p.state)
    ensures var a := SwitchVersion(p, c); !a.next.Error? ==> MarksOk(p.state, a)
  { hide SwitchVersion, SwitchStatusLine; ShapeLines(p, c); }

  lemma MarksField(p: Parser, c: char)
    requires p.state.HeaderFieldStart? || p.state.HeaderField?
    ensures var a := SwitchField(p, c); !a.next.Error? ==> MarksOk(p.state, a)
  { hide MethodString, WordOf; }

  lemma MarksValue(p: Parser, c: char)
    requires p.state.HeaderValueStart? || p.state.HeaderValue?
    ensures var a := SwitchValue(p, c); !a.next.Error? ==> MarksOk(p.state, a)
  { hide MethodString, WordOf; }

  lemma MarksHeaderEnd(p: Parser, c: char)
    requires p.state.HeaderValueLws? || p.state.HeaderAlmostDone? || p.state.HeadersAlmostDone? || p.state.HeadersDone?
    ensures var a := SwitchHeaderEnd(p, c); !a.next.Error? ==> MarksOk(p.state, a)
  { hide MethodString; }

  lemma MarksChunk(p: Parser, c: char)
    requires IsChunkState(p.state)
    ensures var a := SwitchChunk(p, c); !a.next.Error? ==> MarksOk(p.state, a)
  { hide MethodString; }

  lemma MarksBody(p: Parser, c: char)
    requires p.state.BodyIdentity? || p.state.BodyIdentityEof? || p.state.MessageDone?
    ensures var a := SwitchBody(p, c); !a.next.Error? ==> MarksOk(p.state, a)
  { hide MethodString; }

  // ---------- the calls of one arm ----------

  lemma {:induction false} AdvanceConcat(ph: Phase, a: seq<Event>, b: seq<Event>)
    ensures AdvanceAll(ph, a + b) == AdvanceAll(AdvanceAll(ph, a), b)
    decreases |a|
  {
    if a == [] {
      assert a + b == b;
    } else {
      assert (a + b)[1..] == a[1..] + b;
      AdvanceConcat(Advance(ph, a[0]), a[1..], b);
    }
  }

  /** `AdvanceAll` over what an arm emits, without the sequences. */
  function AdvanceActs(ph: Phase, acts: Macros): Phase {
    match acts
    case Marked(part) => Advance(ph, Data(part, ""))
    case MarkedFlushed(part) => Advance(ph, Data(part, ""))
    case MarkedDelivered(part) => Advance(ph, Data(part, ""))
    case Notified(e) => Advance(ph, e)
    case _ => ph
  }

  function AdvanceOwn(ph: Phase, owner: OptFragment): Phase {
    match owner case Of(part) => Advance(ph, Data(part, "")) case NoPart => ph
  }

  function AdvanceArm(ph: Phase, s: State, a: Arm): Phase {
    AdvanceOwn(AdvanceActs(ph, a.acts), Owner(s, a))
  }

  lemma AdvanceText(ph: Phase, part: Fragment, text: string)
    ensures Advance(ph, Data(part, text)) == Advance(ph, Data(part, ""))
  {}

  lemma Advance1(ph: Phase, e: Event)
    ensures AdvanceAll(ph, [e]) == Advance(ph, e)
  {
    hide Advance;
    assert [e][1..] == [];
  }

  lemma AdvanceActEvents(ph: Phase, acts: Macros)
    ensures AdvanceAll(ph, ActEvents(acts)) == AdvanceActs(ph, acts)
  {
    hide Advance;
    match acts
    case Marked(part) => Advance1(ph, Data(part, ""));
    case MarkedFlushed(part) => Advance1(ph, Data(part, ""));
    case MarkedDelivered(part) => Advance1(ph, Data(part, ""));
    case Notified(e) => Advance1(ph, e);
    case _ =>
  }

  lemma AdvanceEmitted(ph: Phase, s: State, c: char, a: Arm)
    requires !a.next.Error?
    ensures AdvanceAll(ph, Emitted(s, c, a)) == AdvanceArm(ph, s, a)
  {
    hide Advance, ActEvents, Owner;
    AdvanceConcat(ph, ActEvents(a.acts), OwnEvents(Owner(s, a), c));
    AdvanceActEvents(ph, a.acts);
    var ph1 := AdvanceActs(ph, a.acts);
    match Owner(s, a)
    case Of(part) => Advance1(ph1, Data(part, [c])); AdvanceText(ph1, part, [c]);
    case NoPart =>
  }

  lemma AdvanceUrl()
    ensures Advance(Begun, Data(Url, "")) == InUrl == Advance(InUrl, Data(Url, ""))
  {}

  lemma AdvanceHead(ph: Phase)
    requires ph.Begun? || ph.InUrl? || ph.AfterLine? || ph.InHead? || ph.InBody? || ph.InTrailer?
    ensures Advance(ph, Data(Field, "")) == (if ph.InBody? || ph.InTrailer? then InTrailer else InHead)
    ensures ph.InHead? || ph.InTrailer? ==> Advance(ph, Data(Value, "")) == ph
  {}

  lemma PhaseStart(p: Parser, c: char, ph: Phase)
    requires (IsStartState(p.state) && !p.state.ReqMethod?) && PhaseOk(p, ph) && !SwitchStart(p, c).next.Error?
    requires p.flags.trailing ==> p.state.Dead? || p.state.StartReq? || p.state.StartRes?
    ensures PhaseOk(SwitchStart(p, c).p, AdvanceArm(ph, p.state, SwitchStart(p, c)))
  {
    hide SwitchStart, PhaseOk, AdvanceArm;
    if p.state.ResOrRespH? {
      PhaseOpened(p, c, ph);
    } else if p.state.StartReq? {
      PhaseStartReq(p, c, ph);
    } else {
      PhaseFirst(p, c, ph);
    }
  }

  lemma PhaseOpened(p: Parser, c: char, ph: Phase)
    requires p.state.ResOrRespH? && PhaseOk(p, ph) && !SwitchStart(p, c).next.Error?
    ensures PhaseOk(SwitchStart(p, c).p, AdvanceArm(ph, p.state, SwitchStart(p, c)))
  {}

  lemma PhaseStartReq(p: Parser, c: char, ph: Phase)
    requires p.state.StartReq? && PhaseOk(p, ph) && !SwitchStart(p, c).next.Error?
    ensures PhaseOk(SwitchStart(p, c).p, AdvanceArm(ph, p.state, SwitchStart(p, c)))
  {
    hide FirstMethod, IsMethodInitial, IsAlpha;
  }

  lemma PhaseFirst(p: Parser, c: char, ph: Phase)
    requires p.state.Dead? || p.state.StartReqOrRes? || p.state.StartRes?
    requires PhaseOk(p, ph) && !SwitchStart(p, c).next.Error?
    ensures PhaseOk(SwitchStart(p, c).p, AdvanceArm(ph, p.state, SwitchStart(p, c)))
  {}

  lemma PhaseMethod(p: Parser, c: char, ph: Phase)
    requires (p.state.ReqMethod?) && PhaseOk(p, ph) && !SwitchMethod(p, c).next.Error?
    requires !p.flags.trailing
    ensures PhaseOk(SwitchMethod(p, c).p, AdvanceArm(ph, p.state, SwitchMethod(p, c)))
  { hide MethodString; }

  lemma PhaseStatusLine(p: Parser, c: char, ph: Phase)
    requires (IsStatusState(p.state)) && PhaseOk(p, ph) && !SwitchStatusLine(p, c).next.Error?
    requires !p.flags.trailing
    ensures PhaseOk(SwitchStatusLine(p, c).p, AdvanceArm(ph, p.state, SwitchStatusLine(p, c)))
  {
    hide SwitchStatusLine, SwitchVersion, PhaseOk;
    ShapeLines(p, c);
    var a := SwitchStatusLine(p, c);
    StatusPhase(p, ph);
    if IsStatusState(a.p.state) { StatusPhase(a.p, Begun); } else { StartPhase(a.p); }
  }

  lemma StatusPhase(p: Parser, ph: Phase)
    requires IsStatusState(p.state)
    ensures PhaseOk(p, ph) <==> ph.Begun?
  {
  }

  lemma StartPhase(p: Parser)
    requires p.state.HeaderFieldStart? && !p.flags.trailing
    ensures PhaseOk(p, Begun) && PhaseOk(p, InUrl) && PhaseOk(p, AfterLine)
  {
  }

  lemma PhaseUrl(p: Parser, c: char, ph: Phase)
    requires (p.state.ReqSpacesBeforeUrl? || IsUrlState(p.state)) && PhaseOk(p, ph) && !SwitchUrl(p, c).next.Error?
    requires !p.flags.trailing
    ensures PhaseOk(SwitchUrl(p, c).p, AdvanceArm(ph, p.state, SwitchUrl(p, c)))
  {
    hide SwitchUrl, Advance;
    ShapeUrl(p, c);
    assert ph == (if p.state.ReqSpacesBeforeUrl? then Begun else InUrl);
    assert Advance(Begun, Data(Url, "")) == InUrl && Advance(InUrl, Data(Url, "")) == InUrl by { AdvanceUrl(); }
  }

  lemma PhaseVersion(p: Parser, c: char, ph: Phase)
    requires (IsVersionState(p.state)) && PhaseOk(p, ph) && !SwitchVersion(p, c).next.Error?
    requires !p.flags.trailing
    ensures PhaseOk(SwitchVersion(p, c).p, AdvanceArm(ph, p.state, SwitchVersion(p, c)))
  {
    hide SwitchVersion, SwitchStatusLine, Advance;
    ShapeLines(p, c);
    assert ph == InUrl;
  }

  lemma PhaseField(p: Parser, c: char, ph: Phase)
    requires (p.state.HeaderFieldStart? || p.state.HeaderField?) && PhaseOk(p, ph) && !SwitchField(p, c).next.Error?
    ensures PhaseOk(SwitchField(p, c).p, AdvanceArm(ph, p.state, SwitchField(p, c)))
  {
    hide MethodString, WordOf, Advance;
    AdvanceHead(ph);
    AdvanceHead(Advance(ph, Data(Field, "")));
  }

  lemma PhaseValue(p: Parser, c: char, ph: Phase)
    requires (p.state.HeaderValueStart? || p.state.HeaderValue?) && PhaseOk(p, ph) && !SwitchValue(p, c).next.Error?
    ensures PhaseOk(SwitchValue(p, c).p, AdvanceArm(ph, p.state, SwitchValue(p, c)))
  {
    hide MethodString, WordOf, Advance;
    AdvanceHead(ph);
  }

  lemma PhaseHeaderEnd(p: Parser, c: char, ph: Phase)
    requires (p.state.HeaderValueLws? || p.state.HeaderAlmostDone? || p.state.HeadersAlmostDone?
             || p.state.HeadersDone?) && PhaseOk(p, ph) && !SwitchHeaderEnd(p, c).next.Error?
    requires p.flags.trailing ==> !p.state.HeadersDone?
    ensures PhaseOk(SwitchHeaderEnd(p, c).p, AdvanceArm(ph, p.state, SwitchHeaderEnd(p, c)))
  {
    hide MethodString, ShouldKeepAlive, NeedsEof;
  }

  lemma PhaseChunk(p: Parser, c: char, ph: Phase)
    requires (IsChunkState(p.state)) && PhaseOk(p, ph) && !SwitchChunk(p, c).next.Error?
    requires !p.flags.trailing
    ensures PhaseOk(SwitchChunk(p, c).p, AdvanceArm(ph, p.state, SwitchChunk(p, c)))
  { hide MethodString; }

  lemma PhaseBody(p: Parser, c: char, ph: Phase)
    requires (p.state.BodyIdentity? || p.state.BodyIdentityEof? || p.state.MessageDone?) && PhaseOk(p, ph)
             && !SwitchBody(p, c).next.Error?
    requires !p.flags.trailing
    ensures PhaseOk(SwitchBody(p, c).p, AdvanceArm(ph, p.state, SwitchBody(p, c)))
  { hide MethodString; }

  // ---------- any arm ----------

  lemma ArmStruct(p: Parser, c: char)
    requires Inv(p)
    ensures ArmOk(p, Switch(p, c))
  {
    hide Inv, ArmOk, SwitchStart, SwitchMethod, SwitchStatusLine, SwitchUrl, SwitchVersion, SwitchField, SwitchValue,
      SwitchHeaderEnd, SwitchChunk, SwitchBody;
    if p.state.ReqMethod? { StartIsMethod(p, c); StructMethod(p, c); }
    else if IsStartState(p.state) { StructStart(p, c); }
    else if IsStatusState(p.state) { StructStatusLine(p, c); }
    else if p.state.ReqSpacesBeforeUrl? || IsUrlState(p.state) { StructUrl(p, c); }
    else if IsVersionState(p.state) { StructVersion(p, c); }
    else if p.state.HeaderFieldStart? || p.state.HeaderField? { StructField(p, c); }
    else if p.state.HeaderValueStart? || p.state.HeaderValue? { StructValue(p, c); }
    else if IsHeaderState(p.state) { StructHeaderEnd(p, c); }
    else if IsChunkState(p.state) { StructChunk(p, c); }
    else { StructBody(p, c); }
  }

  lemma StartIsMethod(p: Parser, c: char)
    requires p.state.ReqMethod?
    ensures SwitchStart(p, c) == SwitchMethod(p, c)
  { hide SwitchMethod; }

  lemma ArmMarks(p: Parser, c: char)
    requires !Switch(p, c).next.Error?
    ensures MarksOk(p.state, Switch(p, c))
  {
    hide MarksOk, SwitchStart, SwitchMethod, SwitchStatusLine, SwitchUrl, SwitchVersion, SwitchField, SwitchValue,
      SwitchHeaderEnd, SwitchChunk, SwitchBody;
    if p.state.ReqMethod? { StartIsMethod(p, c); MarksMethod(p, c); }
    else if IsStartState(p.state) { MarksStart(p, c); }
    else if IsStatusState(p.state) { MarksStatusLine(p, c); }
    else if p.state.ReqSpacesBeforeUrl? || IsUrlState(p.state) { MarksUrl(p, c); }
    else if IsVersionState(p.state) { MarksVersion(p, c); }
    else if p.state.HeaderFieldStart? || p.state.HeaderField? { MarksField(p, c); }
    else if p.state.HeaderValueStart? || p.state.HeaderValue? { MarksValue(p, c); }
    else if IsHeaderState(p.state) { MarksHeaderEnd(p, c); }
    else if IsChunkState(p.state) { MarksChunk(p, c); }
    else { MarksBody(p, c); }
  }

  lemma ArmPhase(p: Parser, c: char, ph: Phase)
    requires Inv(p) && PhaseOk(p, ph) && !Switch(p, c).next.Error?
    ensures PhaseOk(Switch(p, c).p, AdvanceArm(ph, p.state, Switch(p, c)))
  {
    hide PhaseOk, AdvanceArm, MethodString, WordOf, SwitchStart, SwitchMethod, SwitchStatusLine, SwitchUrl,
      SwitchVersion, SwitchField, SwitchValue, SwitchHeaderEnd, SwitchChunk, SwitchBody;
    if p.state.ReqMethod? { StartIsMethod(p, c); PhaseMethod(p, c, ph); }
    else if IsStartState(p.state) { PhaseStart(p, c, ph); }
    else if IsStatusState(p.state) { PhaseStatusLine(p, c, ph); }
    else if p.state.ReqSpacesBeforeUrl? || IsUrlState(p.state) { PhaseUrl(p, c, ph); }
    else if IsVersionState(p.state) { PhaseVersion(p, c, ph); }
    else if p.state.HeaderFieldStart? || p.state.HeaderField? { PhaseField(p, c, ph); }
    else if p.state.HeaderValueStart? || p.state.HeaderValue? { PhaseValue(p, c, ph); }
    else if IsHeaderState(p.state) { PhaseHeaderEnd(p, c, ph); }
    else if IsChunkState(p.state) { PhaseChunk(p, c, ph); }
    else { PhaseBody(p, c, ph); }
  }
}
