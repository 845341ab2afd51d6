/** The header lines: which names and values the parser recognises, exactly. */
module HttpHeaders {
  import opened Bytes
  import opened HttpTypes
  import opened HttpSwitch
  import opened HttpStep
  import opened HttpInvariant
  import opened HttpRun
  import opened HttpExecute

  // ---------- one character of a header line ----------

  predicate Room(p: Parser, n: nat) { p.errno.Ok? && p.nread + n <= MAX_HEADER_SIZE }

  predicate LineStart(s: State) { s.HeaderFieldStart? || s.HeaderValueLws? }

  /** A line that follows another one re-executes its first character at the start of a field. */
  lemma LwsStep(p: Parser, c: char)
    requires p.state.HeaderValueLws? && c != ' ' && c != '\t'
    ensures Dispatch(p, c) == Dispatch(p.(state := HeaderFieldStart), c)
  {
    hide SwitchField;
    var a := Switch(p, c);
    assert a == SwitchHeaderEnd(p, c);
    assert Emitted(p.state, c, a) == [];
  }

  /** At the start of a line the first character is dealt with as the first of a name, whether or not a line came
      before. */
  lemma ToLineStart(p: Parser, c: char)
    requires LineStart(p.state) && c != ' ' && c != '\t'
    ensures Dispatch(p, c) == Dispatch(p.(state := HeaderFieldStart), c)
  {
    if p.state.HeaderValueLws? {
      LwsStep(p, c);
    } else {
      assert p.(state := HeaderFieldStart) == p;
    }
  }

  lemma FieldDispatch(p: Parser, c: char)
    requires p.state.HeaderFieldStart? && !SwitchField(p, c).next.Reexecute?
    ensures var a := SwitchField(p, c); Dispatch(p, c) == Outcome(a.p, Emitted(p.state, c, a), a.next.Leave?)
  {
    hide SwitchField;
    assert Switch(p, c) == SwitchField(p, c);
  }

  lemma NameFirst(p: Parser, c: char)
    requires Room(p, 1) && LineStart(p.state) && IsToken(c)
    ensures Step(p, c)
         == Outcome(p.(nread := p.nread + 1, index := 0, state := HeaderField, headerState := NameStart(Lower(c))),
                    [Data(Field, ""), Data(Field, [c])], false)
  {
    hide Dispatch;
    ToLineStart(Counted(p), c);
    FieldDispatch(Counted(p).(state := HeaderFieldStart), c);
  }

  lemma NameNext(p: Parser, c: char)
    requires Room(p, 1) && p.state.HeaderField? && IsToken(c)
    ensures Step(p, c) == Outcome(MatchName(Counted(p), Lower(c)), [Data(Field, [c])], false)
  {
    hide WordOf;
    assert Switch(Counted(p), c) == SwitchField(Counted(p), c);
  }

  lemma NameColon(p: Parser)
    requires Room(p, 1) && p.state.HeaderField?
    ensures Step(p, ':') == Outcome(p.(nread := p.nread + 1, state := HeaderValueStart), [], false)
  {
    assert Switch(Counted(p), ':') == SwitchField(Counted(p), ':');
  }

  lemma Blank(p: Parser, c: char)
    requires Room(p, 1) && p.state.HeaderValueStart? && (c == ' ' || c == '\t')
    ensures Step(p, c) == Outcome(p.(nread := p.nread + 1), [], false)
  {
    assert Switch(Counted(p), c) == SwitchValue(Counted(p), c);
  }

  lemma ValueFirst(p: Parser, c: char)
    requires Room(p, 1) && p.state.HeaderValueStart? && c != ' ' && c != '\t' && c != CR && c != LF
    requires p.headerState.IsContentLength? ==> IsNum(c)
    ensures var q := p.(nread := p.nread + 1, state := HeaderValue, index := 0);
            Step(p, c) == Outcome(ValueStart(q, c).p, [Data(Value, ""), Data(Value, [c])], false)
  {
    assert Switch(Counted(p), c) == SwitchValue(Counted(p), c);
  }

  lemma ValueNext(p: Parser, c: char)
    requires Room(p, 1) && p.state.HeaderValue? && c != CR && c != LF
    requires ValueChar(Counted(p), c).next.Break?
    ensures Step(p, c) == Outcome(ValueChar(Counted(p), c).p, [Data(Value, [c])], false)
  {
    hide WordOf;
    assert Switch(Counted(p), c) == SwitchValue(Counted(p), c);
  }

  lemma ValueCr(p: Parser)
    requires Room(p, 1) && p.state.HeaderValue?
    ensures Step(p, CR) == Outcome(p.(nread := p.nread + 1, state := HeaderAlmostDone), [], false)
  {
    assert Switch(Counted(p), CR) == SwitchValue(Counted(p), CR);
  }

  lemma EmptyValueCr(p: Parser)
    requires Room(p, 1) && p.state.HeaderValueStart?
    ensures Step(p, CR)
         == Outcome(p.(nread := p.nread + 1, state := HeaderAlmostDone, index := 0, headerState := General),
                    [Data(Value, "")], false)
  {
    assert Switch(Counted(p), CR) == SwitchValue(Counted(p), CR);
  }

  lemma EmptyValueLf(p: Parser)
    requires Room(p, 1) && p.state.HeaderValueStart?
    ensures Step(p, LF)
         == Outcome(p.(nread := p.nread + 1, state := HeaderFieldStart, index := 0), [Data(Value, "")], false)
  {
    assert Switch(Counted(p), LF) == SwitchValue(Counted(p), LF);
  }

  /** A bare line feed is dealt with as the end of the line that a carriage return would have begun. */
  lemma ValueLf(p: Parser)
    requires Room(p, 1) && p.state.HeaderValue?
    ensures Step(p, LF)
         == Outcome(p.(nread := p.nread + 1, state := HeaderValueLws, flags := ValueFlags(p.flags, p.headerState)),
                    [], false)
  {
    hide Dispatch, Switch;
    var q := Counted(p);
    ValueLfArm(q);
    EndLfArm(q.(state := HeaderAlmostDone));
    DispatchOnce(q, LF);
    DispatchOnce(q.(state := HeaderAlmostDone), LF);
  }

  lemma ValueLfArm(p: Parser)
    requires p.state.HeaderValue?
    ensures Switch(p, LF) == Arm(p.(state := HeaderAlmostDone), Flushed(Value), Reexecute)
  {
    assert Switch(p, LF) == SwitchValue(p, LF);
  }

  lemma EndLfArm(p: Parser)
    requires p.state.HeaderAlmostDone?
    ensures Switch(p, LF) == Stay(p.(state := HeaderValueLws, flags := ValueFlags(p.flags, p.headerState)))
  {
    assert Switch(p, LF) == SwitchHeaderEnd(p, LF);
  }

  lemma LineLf(p: Parser)
    requires Room(p, 1) && p.state.HeaderAlmostDone?
    ensures Step(p, LF)
         == Outcome(p.(nread := p.nread + 1, state := HeaderValueLws, flags := ValueFlags(p.flags, p.headerState)),
                    [], false)
  {
    hide Dispatch, Switch;
    EndLfArm(Counted(p));
    DispatchOnce(Counted(p), LF);
  }

  // ---------- names ----------

  predicate Prefix(w: string, word: string) {
    |w| <= |word| && forall i :: 0 <= i < |w| ==> w[i] == word[i]
  }

  /** `w` begins none of the words the parser looks for. */
  predicate Unknown(w: string) {
    && !Prefix(w, WordOf(MatchConnection)) && !Prefix(w, WordOf(MatchProxyConnection))
    && !Prefix(w, WordOf(MatchContentLength)) && !Prefix(w, WordOf(MatchTransferEncoding))
    && !Prefix(w, WordOf(MatchUpgrade))
  }

  /** The header state says which word `w`, the lower-cased name so far, is or may become. */
  predicate Tracks(h: HeaderState, index: nat, w: string) {
    if MatchesName(h) then
      Prefix(w, WordOf(h)) && |w| == index + 1 < |WordOf(h)|
        && (h.MatchConnection? || h.MatchContentLength? ==> |w| >= 4)
    else if h.HC? then w == "c"
    else if h.HCO? then w == "co"
    else if h.HCON? then w == "con"
    else if h.IsConnection? then w == "connection" || w == "proxy-connection"
    else if h.IsContentLength? then w == "content-length"
    else if h.IsTransferEncoding? then w == "transfer-encoding"
    else if h.IsUpgrade? then w == "upgrade"
    else h.General? && Unknown(w)
  }

  lemma NotPrefix(w: string, word: string, i: nat)
    requires i < |w| && (i < |word| ==> w[i] != word[i])
    ensures !Prefix(w, word)
  {}

  /** A word begun is no other word. */
  lemma OneWord(h: HeaderState, w: string, i: HeaderState)
    requires MatchesName(h) && MatchesName(i) && h != i
    requires 1 <= |w| && w[0] == WordOf(h)[0]
    requires h.MatchConnection? || h.MatchContentLength? ==> |w| >= 4 && w[3] == WordOf(h)[3]
    ensures !Prefix(w, WordOf(i))
  {
    NotPrefix(w, WordOf(i), if WordOf(h)[0] != WordOf(i)[0] then 0 else 3);
  }

  lemma NoOtherWord(h: HeaderState, w: string)
    requires MatchesName(h)
    requires 1 <= |w| && w[0] == WordOf(h)[0]
    requires h.MatchConnection? || h.MatchContentLength? ==> |w| >= 4 && w[3] == WordOf(h)[3]
    requires !Prefix(w, WordOf(h))
    ensures Unknown(w)
  {
    hide WordOf, Prefix;
    if !h.MatchConnection? { OneWord(h, w, MatchConnection); }
    if !h.MatchProxyConnection? { OneWord(h, w, MatchProxyConnection); }
    if !h.MatchContentLength? { OneWord(h, w, MatchContentLength); }
    if !h.MatchTransferEncoding? { OneWord(h, w, MatchTransferEncoding); }
    if !h.MatchUpgrade? { OneWord(h, w, MatchUpgrade); }
  }

  lemma UnknownGrows(w: string, c: char)
    requires Unknown(w)
    ensures Unknown(w + [c])
  {
    hide WordOf;
    forall h: HeaderState | !Prefix(w, WordOf(h)) ensures !Prefix(w + [c], WordOf(h)) {
      if |w| < |WordOf(h)| {
        var i :| 0 <= i < |w| && w[i] != WordOf(h)[i];
        NotPrefix(w + [c], WordOf(h), i);
      }
    }
  }

  lemma TrackStart(c: char)
    ensures Tracks(NameStart(c), 0, [c])
  {
    if NameStart(c).General? {
      NotPrefix([c], WordOf(MatchConnection), 0);
      NotPrefix([c], WordOf(MatchProxyConnection), 0);
      NotPrefix([c], WordOf(MatchContentLength), 0);
      NotPrefix([c], WordOf(MatchTransferEncoding), 0);
      NotPrefix([c], WordOf(MatchUpgrade), 0);
    }
  }

  /** The first letters of "connection" and "content-length", which are matched together. */
  lemma TrackCon(p: Parser, c: char, w: string)
    requires Tracks(p.headerState, p.index, w) && (p.headerState.HC? || p.headerState.HCO? || p.headerState.HCON?)
    requires p.index == |w| - 1
    ensures var q := MatchName(p, c); Tracks(q.headerState, q.index, w + [c])
  {
    var q := MatchName(p, c);
    if q.headerState.General? {
      var i := |w|;
      NotPrefix(w + [c], WordOf(MatchConnection), i);
      NotPrefix(w + [c], WordOf(MatchContentLength), i);
      NotPrefix(w + [c], WordOf(MatchProxyConnection), 0);
      NotPrefix(w + [c], WordOf(MatchTransferEncoding), 0);
      NotPrefix(w + [c], WordOf(MatchUpgrade), 0);
    }
  }

  lemma TrackWord(p: Parser, c: char, w: string)
    requires Tracks(p.headerState, p.index, w) && MatchesName(p.headerState)
    ensures var q := MatchName(p, c); Tracks(q.headerState, q.index, w + [c])
  {
    var h := p.headerState;
    var q := MatchName(p, c);
    var w' := w + [c];
    if q.headerState.General? {
      NotPrefix(w', WordOf(h), |w|);
      NoOtherWord(h, w');
    } else if q.headerState != h {
      assert w' == WordOf(h);
    }
  }

  lemma TrackDone(p: Parser, c: char, w: string)
    requires Tracks(p.headerState, p.index, w)
    requires p.headerState.IsConnection? || p.headerState.IsContentLength? || p.headerState.IsTransferEncoding?
             || p.headerState.IsUpgrade?
    ensures Unknown(w + [c])
  {
    var h := if w == "connection" then MatchConnection else if w == "proxy-connection" then MatchProxyConnection
             else if w == "content-length" then MatchContentLength
               else if w == "transfer-encoding" then MatchTransferEncoding
             else MatchUpgrade;
    assert |w + [c]| > |WordOf(h)|;
    NoOtherWord(h, w + [c]);
  }

  predicate IndexOk(h: HeaderState, index: nat, w: string) {
    h.HC? || h.HCO? || h.HCON? ==> index == |w| - 1
  }

  lemma TrackNext(p: Parser, c: char, w: string)
    requires Tracks(p.headerState, p.index, w) && IndexOk(p.headerState, p.index, w)
    ensures var q := MatchName(p, c);
            && Tracks(q.headerState, q.index, w + [c]) && IndexOk(q.headerState, q.index, w + [c])
            && q == p.(index := q.index, headerState := q.headerState)
  {
    hide WordOf, Unknown;
    var h := p.headerState;
    if MatchesName(h) { TrackWord(p, c, w); }
    else if h.HC? || h.HCO? || h.HCON? { TrackCon(p, c, w); }
    else if h.General? { UnknownGrows(w, c); }
    else { TrackDone(p, c, w); }
  }

  predicate AllTokens(s: string) { forall i :: 0 <= i < |s| ==> IsToken(s[i]) }

  /** More of a name: `w` is the lower-cased part that has been read. */
  lemma {:induction false} NameRun(c: Config, w: string, name: string) returns (q: Parser)
    requires !c.left && Room(c.p, |name|) && c.p.state.HeaderField? && AllTokens(name)
    requires Tracks(c.p.headerState, c.p.index, w) && IndexOk(c.p.headerState, c.p.index, w)
    ensures q == c.p.(nread := c.p.nread + |name|, index := q.index, headerState := q.headerState)
    ensures Tracks(q.headerState, q.index, w + LowerAll(name)) && IndexOk(q.headerState, q.index, w + LowerAll(name))
    ensures name != "" ==> Feed(c, name) == Config(q, Push(c.t, Data(Field, name)), false)
    ensures name == "" ==> q == c.p
    decreases |name|
  {
    hide Step, Push, Tracks, MatchName, LowerAll, IsToken, IndexOk;
    LowerMore(w, name);
    if name == "" {
      q := c.p;
    } else {
      NameOne(c, name[0], w);
      var d := After(c, name[0]);
      q := NameRun(d, w + [Lower(name[0])], name[1..]);
      NameJoined(c.t, name);
      if |name| == 1 { assert Feed(d, name[1..]) == d; }
    }
  }

  lemma NameOne(c: Config, ch: char, w: string)
    requires !c.left && Room(c.p, 1) && c.p.state.HeaderField? && IsToken(ch)
    requires Tracks(c.p.headerState, c.p.index, w) && IndexOk(c.p.headerState, c.p.index, w)
    ensures var q := After(c, ch).p;
            && After(c, ch) == Config(q, Push(c.t, Data(Field, [ch])), false)
            && q == c.p.(nread := c.p.nread + 1, index := q.index, headerState := q.headerState)
            && Tracks(q.headerState, q.index, w + [Lower(ch)]) && IndexOk(q.headerState, q.index, w + [Lower(ch)])
  {
    hide Step, Push, Tracks, MatchName, IsToken;
    NameNext(c.p, ch);
    TrackNext(Counted(c.p), Lower(ch), w);
    Absorb1(c.t, Data(Field, [ch]));
  }

  lemma LowerMore(w: string, name: string)
    ensures w + LowerAll(name) == if name == "" then w else w + [Lower(name[0])] + LowerAll(name[1..])
  {
  }

  lemma NameJoined(t: seq<Event>, name: string)
    requires name != ""
    ensures if |name| == 1 then name == [name[0]] && name[1..] == ""
            else Push(Push(t, Data(Field, [name[0]])), Data(Field, name[1..])) == Push(t, Data(Field, name))
  {
    hide Push;
    PushPush(t, Field, [name[0]], name[1..]);
    assert [name[0]] + name[1..] == name;
  }

  /** The whole name. */
  lemma WholeName(c: Config, name: string) returns (q: Parser)
    requires !c.left && Room(c.p, |name|) && LineStart(c.p.state) && AllTokens(name) && name != ""
    ensures q == c.p.(nread := c.p.nread + |name|, index := q.index, headerState := q.headerState, state := HeaderField)
    ensures Tracks(q.headerState, q.index, LowerAll(name))
    ensures Feed(c, name) == Config(q, Push(c.t, Data(Field, name)), false)
  {
    hide Step, Push, Tracks, MatchName, NameStart;
    NameFirst(c.p, name[0]);
    TrackStart(Lower(name[0]));
    var d := After(c, name[0]);
    assert IndexOk(d.p.headerState, 0, [Lower(name[0])]);
    FieldOpened(c.t, name[0]);
    q := NameRun(d, [Lower(name[0])], name[1..]);
    assert [Lower(name[0])] + LowerAll(name[1..]) == LowerAll(name);
    if |name| == 1 {
      assert name == [name[0]] && name[1..] == "" && Feed(d, name[1..]) == d;
    } else {
      PushPush(c.t, Field, [name[0]], name[1..]);
      assert [name[0]] + name[1..] == name;
    }
  }

  lemma FieldOpened(t: seq<Event>, c: char)
    ensures Absorb(t, [Data(Field, ""), Data(Field, [c])]) == Push(t, Data(Field, [c]))
    ensures Absorb(t, [Data(Value, ""), Data(Value, [c])]) == Push(t, Data(Value, [c]))
  {
    hide Push;
    TwoFragments(t, Field, c);
    TwoFragments(t, Value, c);
  }

  lemma TwoFragments(t: seq<Event>, part: Fragment, c: char)
    ensures Absorb(t, [Data(part, ""), Data(part, [c])]) == Push(t, Data(part, [c]))
  {
    hide Push;
    var es := [Data(part, ""), Data(part, [c])];
    assert es[1..] == [Data(part, [c])];
    Absorb1(Push(t, Data(part, "")), Data(part, [c]));
    PushPush(t, part, "", [c]);
    assert "" + [c] == [c];
  }

  /** The names the parser acts on. */
  predicate NamesConnection(name: string) { LowerAll(name) == "connection" || LowerAll(name) == "proxy-connection" }
  predicate NamesLength(name: string) { LowerAll(name) == "content-length" }
  predicate NamesEncoding(name: string) { LowerAll(name) == "transfer-encoding" }
  predicate NamesUpgrade(name: string) { LowerAll(name) == "upgrade" }

  /** At the colon a name of any length has been recognised iff it is, in any case, one of the words. */
  lemma TracksExactly(h: HeaderState, index: nat, w: string)
    requires Tracks(h, index, w)
    ensures h.IsConnection? <==> w == "connection" || w == "proxy-connection"
    ensures h.IsContentLength? <==> w == "content-length"
    ensures h.IsTransferEncoding? <==> w == "transfer-encoding"
    ensures h.IsUpgrade? <==> w == "upgrade"
  {
    if h.General? {
      assert !Prefix(w, WordOf(MatchConnection)) && !Prefix(w, WordOf(MatchUpgrade));
    } else if MatchesName(h) {
      if w == "connection" && !h.MatchConnection? { OneWord(h, w, MatchConnection); }
      if w == "proxy-connection" && !h.MatchProxyConnection? { OneWord(h, w, MatchProxyConnection); }
      if w == "content-length" && !h.MatchContentLength? { OneWord(h, w, MatchContentLength); }
      if w == "transfer-encoding" && !h.MatchTransferEncoding? { OneWord(h, w, MatchTransferEncoding); }
      if w == "upgrade" && !h.MatchUpgrade? { OneWord(h, w, MatchUpgrade); }
    }
  }

  lemma NamesAreRecognisedExactly(c: Config, name: string)
    requires !c.left && Room(c.p, |name| + 1) && LineStart(c.p.state) && AllTokens(name) && name != ""
    ensures var d := Feed(c, name + ":");
            && d.p.errno.Ok? && d.p.state.HeaderValueStart? && d.t == Push(c.t, Data(Field, name))
            && (d.p.headerState.IsConnection? <==> NamesConnection(name))
            && (d.p.headerState.IsContentLength? <==> NamesLength(name))
            && (d.p.headerState.IsTransferEncoding? <==> NamesEncoding(name))
            && (d.p.headerState.IsUpgrade? <==> NamesUpgrade(name))
  {
    hide Step, Push, Tracks;
    var q := NameToColon(c, name);
  }

  lemma NameToColon(c: Config, name: string) returns (q: Parser)
    requires !c.left && Room(c.p, |name| + 1) && LineStart(c.p.state) && AllTokens(name) && name != ""
    ensures Feed(c, name + ":") == Config(q, Push(c.t, Data(Field, name)), false)
    ensures q == c.p.(nread := c.p.nread + |name| + 1, index := q.index, headerState := q.headerState,
                      state := HeaderValueStart)
    ensures q.headerState.IsConnection? <==> NamesConnection(name)
    ensures q.headerState.IsContentLength? <==> NamesLength(name)
    ensures q.headerState.IsTransferEncoding? <==> NamesEncoding(name)
    ensures q.headerState.IsUpgrade? <==> NamesUpgrade(name)
  {
    hide Step, Push, Tracks;
    q := WholeName(c, name);
    TracksExactly(q.headerState, q.index, LowerAll(name));
    var d := Config(q, Push(c.t, Data(Field, name)), false);
    FeedConcat(c, name, ":");
    NameColon(q);
    AbsorbNothing(d.t);
    assert Feed(d, ":") == Feed(After(d, ':'), "") == After(d, ':');
    q := After(d, ':').p;
  }

  // ---------- in every reachable state ----------

  lemma NameFromStart(p: Parser, c: char)
    requires IsStartState(p.state) && !p.state.ReqMethod?
    ensures var a := SwitchStart(p, c); !a.p.state.HeaderField? && (a.next.Reexecute? ==> !LineStart(a.p.state))
  { hide MethodString, SwitchMethod; }

  lemma NameFromMethod(p: Parser, c: char)
    requires p.state.ReqMethod?
    ensures var a := SwitchMethod(p, c); !a.p.state.HeaderField? && !a.next.Reexecute?
  { hide MethodString; }

  lemma NameFromValue(p: Parser, c: char)
    requires p.state.HeaderValueStart? || p.state.HeaderValue?
    ensures var a := SwitchValue(p, c); !a.p.state.HeaderField? && (a.next.Reexecute? ==> !LineStart(a.p.state))
  { hide WordOf; }

  lemma NameFromEnd(p: Parser, c: char)
    requires p.state.HeaderValueLws? || p.state.HeaderAlmostDone? || p.state.HeadersAlmostDone? || p.state.HeadersDone?
    ensures var a := SwitchHeaderEnd(p, c);
            && !a.p.state.HeaderField? && (a.next.Reexecute? && LineStart(a.p.state) ==> p.state.HeaderValueLws?)
  { hide ShouldKeepAlive; }

  lemma NameFromChunk(p: Parser, c: char)
    requires IsChunkState(p.state)
    ensures var a := SwitchChunk(p, c); !a.p.state.HeaderField? && (a.next.Reexecute? ==> !LineStart(a.p.state))
  {
  }

  lemma NameFromBody(p: Parser, c: char)
    requires p.state.BodyIdentity? || p.state.BodyIdentityEof? || p.state.MessageDone?
    ensures var a := SwitchBody(p, c); !a.p.state.HeaderField? && (a.next.Reexecute? ==> !LineStart(a.p.state))
  { hide ShouldKeepAlive; }

  lemma NameFromField(p: Parser, c: char)
    requires p.state.HeaderFieldStart? || p.state.HeaderField?
    ensures var a := SwitchField(p, c);
            && (!a.next.Error? && a.p.state.HeaderField? ==> a.next.Break? && IsToken(c))
            && (a.next.Reexecute? ==> !LineStart(a.p.state) && !a.p.state.HeaderField?)
  { hide WordOf; }

  /** Where an arm that leads to a name, or re-executes its character at the start of a line, comes from. */
  lemma NameArms(p: Parser, c: char)
    ensures var a := Switch(p, c);
            && (!a.next.Error? && a.p.state.HeaderField? ==>
                  a.next.Break? && IsToken(c) && (p.state.HeaderField? || p.state.HeaderFieldStart?))
            && (a.next.Reexecute? ==> !a.p.state.HeaderField?)
            && (a.next.Reexecute? && LineStart(a.p.state) ==> p.state.HeaderValueLws?)
  {
    hide IsToken, LineStart, SwitchStart, SwitchMethod, SwitchStatusLine, SwitchUrl, SwitchVersion, SwitchField,
      SwitchValue, SwitchHeaderEnd, SwitchChunk, SwitchBody;
    if p.state.ReqMethod? { StartIsMethod(p, c); NameFromMethod(p, c); }
    else if IsStartState(p.state) { NameFromStart(p, c); }
    else if IsStatusState(p.state) { ShapeLines(p, c); RankOther(p, c); }
    else if p.state.ReqSpacesBeforeUrl? || IsUrlState(p.state) {
      RankOther(p, c);
      if !SwitchUrl(p, c).next.Error? { ShapeUrl(p, c); }
    }
    else if IsVersionState(p.state) { ShapeLines(p, c); RankOther(p, c); }
    else if p.state.HeaderFieldStart? || p.state.HeaderField? { NameFromField(p, c); }
    else if p.state.HeaderValueStart? || p.state.HeaderValue? { NameFromValue(p, c); }
    else if IsHeaderState(p.state) { NameFromEnd(p, c); }
    else if IsChunkState(p.state) { NameFromChunk(p, c); }
    else { NameFromBody(p, c); }
  }

  /** Only a token character leads into a name, and only from within it or from the start of a line. */
  lemma {:induction false} IntoName(p: Parser, c: char)
    requires Inv(p) && var o := Dispatch(p, c); o.p.errno.Ok? && o.p.state.HeaderField?
    ensures IsToken(c) && (p.state.HeaderField? || LineStart(p.state))
    decreases Rank(p.state)
  {
    hide Switch, Rank, Emitted, IsToken, Inv;
    var a := Switch(p, c);
    NameArms(p, c);
    ArmStruct(p, c);
    DispatchOnce(p, c);
    if a.next.Reexecute? {
      ReexecutionDescends(p, c);
      IntoName(a.p, c);
    }
  }

  /** The name in the line that is being read when `i` characters have been read, in lower case; none outside
      of a name. */
  ghost function NameSoFar(c: Config, data: string, i: nat): string
    requires i <= |data|
  {
    if i == 0 || !Feed(c, data[..i]).p.state.HeaderField? then ""
    else NameSoFar(c, data, i - 1) + [Lower(data[i - 1])]
  }

  lemma {:induction false} NameKeptOn(c: Config, ch: char, w: string)
    requires ConfigOk(c) && !Stopped(c) && !Stopped(After(c, ch)) && After(c, ch).p.state.HeaderField?
    requires if c.p.state.HeaderField? then
               Tracks(c.p.headerState, c.p.index, w) && IndexOk(c.p.headerState, c.p.index, w)
             else w == ""
    ensures var q := After(c, ch).p;
            Tracks(q.headerState, q.index, w + [Lower(ch)]) && IndexOk(q.headerState, q.index, w + [Lower(ch)])
  {
    hide Tracks, Dispatch, Absorb, NameStart, IsToken, MatchName, IndexOk, Ready, PhaseOk, Inv;
    assert ParsingHeader(c.p.state) && c.p.nread + 1 > MAX_HEADER_SIZE ==> !After(c, ch).p.errno.Ok?;
    CountedKeeps(c.p, AdvanceAll(Idle, c.t));
    IntoName(Counted(c.p), ch);
    if c.p.state.HeaderField? {
      NameOne(c, ch, w);
    } else {
      NameFirst(c.p, ch);
      TrackStart(Lower(ch));
      StartIndex(ch);
      assert "" + [Lower(ch)] == [Lower(ch)];
    }
  }

  lemma StartIndex(ch: char)
    ensures IndexOk(NameStart(Lower(ch)), 0, [Lower(ch)])
  {
  }

  /** In every state that is reached within a header name, on any input, the matcher stands exactly where the
      name read so far has led: it says which words the name still begins. */
  lemma {:induction false} NamesAreTracked(kind: Kind, data: string, i: nat)
    requires i <= |data|
    ensures var c0 := Config(Init(kind), [], false);
            var c := Feed(c0, data[..i]);
            !Stopped(c) && c.p.state.HeaderField? ==>
              Tracks(c.p.headerState, c.p.index, NameSoFar(c0, data, i))
              && IndexOk(c.p.headerState, c.p.index, NameSoFar(c0, data, i))
    decreases i
  {
    hide Tracks, After, IndexOk, ConfigOk;
    var c0 := Config(Init(kind), [], false);
    var d := Feed(c0, data[..i]);
    if i == 0 {
      assert data[..0] == "";
    } else if !Stopped(d) && d.p.state.HeaderField? {
      var c := Feed(c0, data[..i - 1]);
      FeedOn(c0, data, i - 1, i);
      var last := data[i - 1..i];
      if Stopped(c) { StoppedStays(c, last); }
      FeedSingle(c, last);
      NamesAreTracked(kind, data, i - 1);
      if !c.p.state.HeaderField? { NoNameYet(c0, data, i - 1); }
      InitOk(kind);
      FeedKeeps(c0, data[..i - 1]);
      NameKeptOn(c, data[i - 1], NameSoFar(c0, data, i - 1));
    }
  }

  lemma StoppedStays(c: Config, data: string)
    requires Stopped(c)
    ensures Feed(c, data) == c
  {
  }

  lemma NoNameYet(c0: Config, data: string, i: nat)
    requires i <= |data| && !Feed(c0, data[..i]).p.state.HeaderField?
    ensures NameSoFar(c0, data, i) == ""
  {
    hide Feed;
  }
}
